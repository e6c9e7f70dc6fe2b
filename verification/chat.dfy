/**
 * The send step of components/ChatView.tsx: the guard on the input, the
 * user message appended at once, the request built from the history, and
 * the model message appended when generateContent settles.
 *
 * generateContent itself is a network call; it appears here only as its
 * outcome, and Date.now() readings are parameters.
 */
module Chat {
  import opened Types
  import Constants

  const CHAT_MODEL := "gemini-3-flash-preview"
  /** The reply shown when the response carries no text. */
  const FALLBACK_REPLY := "I'm sorry, I couldn't process that."
  /** The reply shown when generateContent throws. */
  const ERROR_REPLY := "Oh no! My internal circuits are a bit fuzzy. Can we try that again?"

  // ---------------------------------------------------------------------
  // String.prototype.trim

  /** WhiteSpace and LineTerminator of ECMAScript, the characters trim removes. */
  predicate IsJsWhitespace(c: char)
  {
    c == '\t' || c == '\n' || c == '\U{000B}' || c == '\U{000C}' || c == '\r' || c == ' ' ||
    c == '\U{00A0}' || c == '\U{1680}' || ('\U{2000}' <= c <= '\U{200A}') ||
    c == '\U{2028}' || c == '\U{2029}' || c == '\U{202F}' || c == '\U{205F}' ||
    c == '\U{3000}' || c == '\U{FEFF}'
  }

  /** Every character is one that trim removes. */
  predicate Blank(s: string)
  {
    forall i :: 0 <= i < |s| ==> IsJsWhitespace(s[i])
  }

  /** The first index at or after i that is not whitespace, or |s|. */
  function SkipLeading(s: string, i: nat): (k: nat)
    requires i <= |s|
    ensures i <= k <= |s|
    ensures forall j :: i <= j < k ==> IsJsWhitespace(s[j])
    ensures k < |s| ==> !IsJsWhitespace(s[k])
    decreases |s| - i
  {
    if i < |s| && IsJsWhitespace(s[i]) then SkipLeading(s, i + 1) else i
  }

  /** The end of s[k..e] once its trailing whitespace is dropped. */
  function SkipTrailing(s: string, k: nat, e: nat): (f: nat)
    requires k <= e <= |s|
    ensures k <= f <= e
    ensures forall j :: f <= j < e ==> IsJsWhitespace(s[j])
    ensures f > k ==> !IsJsWhitespace(s[f - 1])
    decreases e - k
  {
    if e > k && IsJsWhitespace(s[e - 1]) then SkipTrailing(s, k, e - 1) else e
  }

  /**
   * trim: s[k..e], where everything before k and from e on is whitespace
   * and neither end of what is left is; empty exactly on a blank input.
   */
  function Trim(s: string): (r: string)
    ensures var k := SkipLeading(s, 0); var e := SkipTrailing(s, k, |s|);
      r == s[k..e] &&
      (forall j :: 0 <= j < k ==> IsJsWhitespace(s[j])) &&
      (forall j :: e <= j < |s| ==> IsJsWhitespace(s[j]))
    ensures r != [] ==> !IsJsWhitespace(r[0]) && !IsJsWhitespace(r[|r| - 1])
    ensures r == [] <==> Blank(s)
  {
    var k := SkipLeading(s, 0);
    var e := SkipTrailing(s, k, |s|);
    assert k < e ==> s[k..e][0] == s[k] && s[k..e][e - k - 1] == s[e - 1];
    s[k..e]
  }

  // ---------------------------------------------------------------------
  // The request

  /** One text part of a Content. */
  datatype Part = Part(text: string)

  /** An entry of the request's `contents`. */
  datatype Content = Content(role: Role, parts: seq<Part>)

  /** The request body that matters here: the model name, the contents, and the profile the instruction is built from. */
  datatype GenerateRequest = GenerateRequest(model: string, contents: seq<Content>, profile: UserProfile)

  /** [...messages, userMessage].map(m => ({ role: m.role, parts: [{ text: m.content }] })). */
  function RequestContents(history: seq<Message>, user: Message): (r: seq<Content>)
    ensures |r| == |history| + 1
    ensures forall k :: 0 <= k < |history| ==>
      r[k].role == history[k].role && r[k].parts == [Part(history[k].content)]
    ensures r[|history|] == Content(user.role, [Part(user.content)])
  {
    var all := history + [user];
    seq(|all|, k requires 0 <= k < |all| => Content(all[k].role, [Part(all[k].content)]))
  }

  /** items.join(', '). */
  function Join(items: seq<string>): (r: string)
    ensures items == [] ==> r == ""
    ensures |items| == 1 ==> r == items[0]
    decreases |items|
  {
    if items == [] then ""
    else if |items| == 1 then items[0]
    else items[0] + ", " + Join(items[1..])
  }

  /** Joining two lists puts one separator between their joins. */
  lemma {:induction false} JoinAppend(items: seq<string>, item: string)
    ensures Join(items + [item]) == if items == [] then item else Join(items) + ", " + item
    decreases |items|
  {
    if |items| >= 2 {
      assert (items + [item])[1..] == items[1..] + [item];
      JoinAppend(items[1..], item);
    } else if |items| == 1 {
      assert items + [item] == [items[0], item];
      assert [items[0], item][1..] == [item];
    }
  }

  /** The start of the chat system instruction, up to the user's name. */
  const CHAT_INSTRUCTION_HEAD := Constants.LUCI_SYSTEM_INSTRUCTION + "\nThe user's name is "

  /** config.systemInstruction: the persona, the user's name, then the interests joined by ", ". */
  function SystemInstruction(profile: UserProfile): string
  {
    CHAT_INSTRUCTION_HEAD + profile.name + ". Their interests are: " + Join(profile.interests) + "."
  }

  /** The instruction opens with the persona, then names the user, then lists the interests. */
  lemma SystemInstructionEmbedsProfile(profile: UserProfile)
    ensures var r, head, name := SystemInstruction(profile), CHAT_INSTRUCTION_HEAD, profile.name;
      var tail := ". Their interests are: " + Join(profile.interests) + ".";
      |r| == |head| + |name| + |tail| &&
      r[..|head|] == head && r[|head|..|head| + |name|] == name && r[|head| + |name|..] == tail &&
      head[..|Constants.LUCI_SYSTEM_INSTRUCTION|] == Constants.LUCI_SYSTEM_INSTRUCTION
  {
    var head, name := CHAT_INSTRUCTION_HEAD, profile.name;
    var tail := ". Their interests are: " + Join(profile.interests) + ".";
    assert SystemInstruction(profile) == head + name + tail;
  }

  // ---------------------------------------------------------------------
  // The reply

  /** How generateContent settled: a response whose text may be missing, or a thrown error. */
  datatype GenOutcome = Replied(text: Option<string>) | Failed

  /** The content of the model message: response.text || the fallback, or the apology on error. */
  function ReplyText(outcome: GenOutcome): (r: string)
    ensures r != ""
    ensures outcome.Failed? ==> r == ERROR_REPLY
    ensures outcome.Replied? && outcome.text.Some? && outcome.text.value != "" ==> r == outcome.text.value
    ensures outcome.Replied? && (outcome.text.None? || outcome.text.value == "") ==> r == FALLBACK_REPLY
  {
    match outcome
    case Failed => ERROR_REPLY
    case Replied(text) => if text.Some? && text.value != "" then text.value else FALLBACK_REPLY
  }

  /** The model's text is never mistaken for the apology unless it is the apology word for word. */
  lemma ReplyDistinguishesFailure(outcome: GenOutcome)
    ensures ReplyText(outcome) == ERROR_REPLY <==>
      outcome.Failed? || (outcome.text.Some? && outcome.text.value == ERROR_REPLY)
  {
    assert FALLBACK_REPLY != ERROR_REPLY by {
      assert |FALLBACK_REPLY| != |ERROR_REPLY|;
    }
  }

  // ---------------------------------------------------------------------
  // The view

  /** The input would be sent: it is not blank and no send is in flight. */
  predicate CanSend(inputValue: string, isLoading: bool): (r: bool)
    ensures r <==> !Blank(inputValue) && !isLoading
  {
    Trim(inputValue) != "" && !isLoading
  }

  class ChatView {
    /** The conversation (the messages prop, updated through setMessages). */
    var messages: seq<Message>
    var inputValue: string
    var isLoading: bool

    constructor (history: seq<Message>)
      ensures messages == history && inputValue == "" && !isLoading
    {
      messages, inputValue, isLoading := history, "", false;
    }

    /** Typing into the input box. */
    method TypeInput(value: string)
      modifies this
      ensures inputValue == value && messages == old(messages) && isLoading == old(isLoading)
    {
      inputValue := value;
    }

    /**
     * handleSendMessage up to the await: a blank input or a send in flight
     * changes nothing; otherwise the untrimmed input becomes a user message
     * stamped `now`, the input clears, loading starts, and the request goes out.
     */
    method BeginSend(now: int, profile: UserProfile) returns (request: Option<GenerateRequest>)
      modifies this
      ensures request.Some? <==> CanSend(old(inputValue), old(isLoading))
      ensures request.None? ==>
        messages == old(messages) && inputValue == old(inputValue) && isLoading == old(isLoading)
      ensures request.Some? ==>
        var user := Message(User, old(inputValue), now);
        messages == old(messages) + [user] && inputValue == "" && isLoading &&
        request.value == GenerateRequest(CHAT_MODEL, RequestContents(old(messages), user), profile)
    {
      if Trim(inputValue) == "" || isLoading {
        return None;
      }
      var user := Message(User, inputValue, now);
      request := Some(GenerateRequest(CHAT_MODEL, RequestContents(messages, user), profile));
      messages := messages + [user];
      inputValue := "";
      isLoading := true;
    }

    /**
     * handleSendMessage after the await: one model message, stamped `now`,
     * with the reply or the apology; the finally block ends loading.
     */
    method CompleteSend(outcome: GenOutcome, now: int)
      requires isLoading
      modifies this
      ensures messages == old(messages) + [Message(Model, ReplyText(outcome), now)]
      ensures !isLoading && inputValue == old(inputValue)
    {
      messages := messages + [Message(Model, ReplyText(outcome), now)];
      isLoading := false;
    }

    /**
     * A whole send with nothing else in between: an accepted send grows the
     * conversation by the user message then the model message; a refused
     * one changes nothing.
     */
    method SendMessage(sentAt: int, profile: UserProfile, outcome: GenOutcome, repliedAt: int)
      returns (request: Option<GenerateRequest>)
      modifies this
      ensures request.Some? <==> CanSend(old(inputValue), old(isLoading))
      ensures request.None? ==>
        messages == old(messages) && inputValue == old(inputValue) && isLoading == old(isLoading)
      ensures request.Some? ==>
        |messages| == |old(messages)| + 2 && messages[..|old(messages)|] == old(messages) &&
        messages[|old(messages)|] == Message(User, old(inputValue), sentAt) &&
        messages[|old(messages)| + 1] == Message(Model, ReplyText(outcome), repliedAt) &&
        inputValue == "" && !isLoading &&
        request.value.contents == RequestContents(old(messages), Message(User, old(inputValue), sentAt))
    {
      request := BeginSend(sentAt, profile);
      if request.Some? {
        CompleteSend(outcome, repliedAt);
      }
    }
  }
}
