/**
 * The value shapes of types.ts, shared by every view, and the two wrappers
 * that stand for the source's missing values and thrown errors.
 */
module Types {

  datatype Option<+T> = None | Some(value: T)

  /** Ok carries a result; Err stands for an exception the source throws. */
  datatype Result<+T, +E> = Ok(value: T) | Err(error: E)

  /** One element of a Uint8Array. */
  type byte = x: int | 0 <= x < 256

  /** One element of an Int16Array. */
  type int16 = x: int | -32768 <= x < 32768

  /** Message.role: 'user' | 'model'. */
  datatype Role = User | Model

  /** A chat message; `timestamp` is the Date.now() reading taken when it was made. */
  datatype Message = Message(role: Role, content: string, timestamp: int)

  datatype UserProfile = UserProfile(
    name: string,
    personalityPreference: string,
    interests: seq<string>,
    avatarUrl: string)

  /**
   * String.prototype.length: UTF-16 code units, so a character beyond
   * U+FFFF counts twice.
   */
  function Utf16Length(s: string): (n: nat)
    ensures |s| <= n <= 2 * |s|
    ensures (forall i :: 0 <= i < |s| ==> s[i] as int <= 0xFFFF) ==> n == |s|
    decreases |s|
  {
    if s == [] then 0
    else (if s[0] as int <= 0xFFFF then 1 else 2) + Utf16Length(s[1..])
  }

  /** The length of a concatenation is the sum of the lengths. */
  lemma {:induction false} Utf16LengthConcat(a: string, b: string)
    ensures Utf16Length(a + b) == Utf16Length(a) + Utf16Length(b)
    decreases |a|
  {
    if a == [] {
      assert a + b == b;
    } else {
      assert (a + b)[1..] == a[1..] + b;
      Utf16LengthConcat(a[1..], b);
    }
  }

  /** A string of characters beyond U+FFFF has two code units per character. */
  lemma {:induction false} AstralLength(s: string)
    requires forall i :: 0 <= i < |s| ==> s[i] as int > 0xFFFF
    ensures Utf16Length(s) == 2 * |s|
    decreases |s|
  {
    if s != [] {
      AstralLength(s[1..]);
    }
  }
}
