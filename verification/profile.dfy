/**
 * The profile handlers of components/ProfileView.tsx: both compute a new
 * UserProfile from the previous one with an object spread, changing one
 * field.
 */
module Profile {
  import opened Types
  import Seqs

  /** handleNameChange: the profile with the typed name and every other field as it was. */
  function ChangeName(p: UserProfile, name: string): (q: UserProfile)
    ensures q.name == name
    ensures q.interests == p.interests && q.avatarUrl == p.avatarUrl
    ensures q.personalityPreference == p.personalityPreference
  {
    p.(name := name)
  }

  /** Typing the same name again changes nothing, and only the last name typed counts. */
  lemma ChangeNameLastWins(p: UserProfile, first: string, second: string)
    ensures ChangeName(ChangeName(p, first), second) == ChangeName(p, second)
    ensures ChangeName(ChangeName(p, second), second) == ChangeName(p, second)
    ensures ChangeName(p, p.name) == p
  {
  }

  /** includes ? filter(i => i !== interest) : [...interests, interest]. */
  function ToggleInterest(interests: seq<string>, interest: string): (r: seq<string>)
    ensures interest in interests ==> |r| < |interests|
    ensures interest !in interests ==> |r| == |interests| + 1
  {
    if interest in interests then Seqs.RemoveAll(interests, interest) else interests + [interest]
  }

  /** handleInterestToggle: the profile with the toggled interests and every other field as it was. */
  function HandleInterestToggle(p: UserProfile, interest: string): (q: UserProfile)
    ensures q.interests == ToggleInterest(p.interests, interest)
    ensures q.name == p.name && q.avatarUrl == p.avatarUrl
    ensures q.personalityPreference == p.personalityPreference
  {
    p.(interests := ToggleInterest(p.interests, interest))
  }

  /** The toggled interest's membership flips; every other interest keeps its membership. */
  lemma ToggleFlipsMembership(interests: seq<string>, interest: string)
    ensures interest in ToggleInterest(interests, interest) <==> interest !in interests
    ensures forall other :: other != interest ==>
      (other in ToggleInterest(interests, interest) <==> other in interests)
  {
  }

  /** An absent interest goes on the end, after the others in their order. */
  lemma ToggleAbsentAppends(interests: seq<string>, interest: string)
    requires interest !in interests
    ensures var r := ToggleInterest(interests, interest);
      |r| == |interests| + 1 && r[..|interests|] == interests && r[|interests|] == interest
  {
  }

  /**
   * A present interest goes entirely: every occurrence leaves, every other
   * interest keeps its count, and what stays keeps its order.
   */
  lemma TogglePresentRemoves(interests: seq<string>, interest: string, front: seq<string>, back: seq<string>)
    requires interest in interests && interests == front + back
    ensures var r := ToggleInterest(interests, interest);
      interest !in r &&
      multiset(r) == multiset(interests)[interest := 0] &&
      r == Seqs.RemoveAll(front, interest) + Seqs.RemoveAll(back, interest)
  {
    Seqs.RemoveAllConcat(front, back, interest);
  }

  /** Toggling an absent interest twice gives back the list it started from. */
  lemma ToggleTwiceRestores(interests: seq<string>, interest: string)
    requires interest !in interests
    ensures ToggleInterest(ToggleInterest(interests, interest), interest) == interests
  {
    Seqs.RemoveAllAppended(interests, interest);
  }
}
