# Luci: the logic inside the views, in Dafny

Luci is a companion app: a text chat and a live voice call with a Gemini
model, a profile page, and a form that asks for the API key. Most of it is
React views over the GenAI SDK. This project models the parts of those views
that hold real logic, and proves properties of them.

- **The voice call** (`components/VoiceCallView.tsx`). This part is modelled
  across several modules:
  - `Base64` holds the host's `btoa`/`atob`. Encoding follows section 4 of
    RFC 4648. Decoding follows the WHATWG forgiving-base64 decode.
  - `PcmCodec` holds the `decode`/`encode` loops over a byte array, the
    16-bit sample view, the capture callback's packing of a microphone frame,
    and `decodeAudioData`, which de-interleaves samples into channels.
  - `CallController` holds the `VoiceCall` class. It covers `startCall`,
    the mute button, the capture callback, `onmessage`, a source's `onended`
    and `endCall`. It also holds the rolling transcript window, the playback
    cursor that schedules inbound chunks back to back, and `formatDuration`.
- **The chat send step** (`components/ChatView.tsx`). This is module `Chat`:
  the class `ChatView`, with the trim guard, the user message, the request
  built from the history, the system instruction, and the reply or apology.
- **The profile handlers** (`components/ProfileView.tsx`). This is module
  `Profile`: the name change and the interest toggle, as pure functions on
  `UserProfile`.
- **The API-key form** (`components/ApiKeyModal.tsx`). This is module
  `ApiKey`: the class `ApiKeyForm` with its `key` and `error` fields and the
  length-20 rule.

Conventions of the model:

- **Time** is counted in integer ticks of the 24 kHz playback clock. A chunk
  of n frames lasts n ticks.
- **Samples** stay 16-bit integers. The capture callback receives each input
  sample already scaled by 32768 and cut to its integral part. The store into
  the `Int16Array` wraps modulo 2^16 (`ToInt16`), so an input of exactly 1.0
  becomes -32768.
- **Byte order:** sample buffers are little-endian.
- **Foreign calls** are appended to an effect log (`effects`) in the order the
  code makes them instead of being performed. These are live.connect,
  sendRealtimeInput, starting and stopping a buffer source, closing the
  session, clearing the timer, and the alert.
- **Outcomes as inputs:** the outcomes of getUserMedia, live.connect and
  generateContent, and every `Date.now()` reading, are parameters.
- **The active-source `Set`** is a sequence of distinct source ids in
  insertion order, which is the order `forEach` stops them in.
- **The system instructions** are shown as functions. `VoiceInstruction`
  and `Chat.SystemInstruction` build the text, and a lemma states how each
  one embeds the persona and the user's details. The effect log and the
  request record the name or profile that the instruction is built from.

Behaviour of the call controller that the model keeps as written:

- There is no separate "connecting" state. `isCalling` becomes true as soon
  as the microphone is granted. Only the button that is rendered keeps
  `startCall` from running twice, so `StartCall` requires `!isCalling`.
- Mute does not take effect mid-call. The capture callback closes over the
  `isMuted` of the render in which `startCall` ran (`captureMuted`). The mute
  button makes a new binding that the running callback never reads. A call
  started unmuted therefore keeps sending after the button is pressed.
- `endCall` is not an idempotent teardown:
  - It stops every active source but leaves the set, the session and the
    timer references as they are.
  - A second `endCall` closes the session again and clears the timer again.
    It stops again every source whose `ended` event has not yet run: a
    stopped source leaves the set only when its `onended` handler deletes
    it. `EndCall` is stated for calls with no event in between, so back to
    back it stops the same sources twice.
  - Capture keeps running after `endCall`.
- A payload that fails to decode does not simply drop its chunk:
  - The cursor has already moved to `max(cursor, now)` when decoding fails.
  - The handler then rejects, so an `interrupted` flag on the same message is
    not acted on.
- `startCall` does not reset `nextStartTimeRef`, while each call opens a
  new output `AudioContext` whose clock starts at 0. The first chunk of a
  second call therefore waits for the cursor the first call left behind
  (`StartCall` keeps `nextStartTime`).
- The transcript window counts `prev.length` in UTF-16 code units, so a
  transcript of 31 characters beyond U+FFFF is already over the window.
- A failed start leaves the transcript at "Connecting..." when the mic was
  granted.

## Model

| member | source | states |
|---|---|---|
| Base64.CharOf | components/VoiceCallView.tsx:47 | the alphabet of RFC 4648 never yields the pad character |
| Base64.SextetOf | components/VoiceCallView.tsx:38 | the alphabet lookup inverts CharOf, and None means no sextet has that character |
| Base64.SextetOfCharOf | components/VoiceCallView.tsx:38 | looking up the character of a sextet gives the sextet back |
| Base64.GroupRoundTrip | components/VoiceCallView.tsx:37-48 | regrouping the four sextets of three bytes gives back the three bytes |
| Base64.Sextets | components/VoiceCallView.tsx:47 | n bytes give (4n+2)/3 sextets, grouping 3 bytes into 4 |
| Base64.Encode | components/VoiceCallView.tsx:47 | a padded encoding is 4 * ceil(n/3) characters long |
| Base64.Octets | components/VoiceCallView.tsx:38 | a body of k sextets (k mod 4 not 1) gives 3k/4 bytes |
| Base64.RemoveWhitespace | components/VoiceCallView.tsx:38 | atob's whitespace strip leaves no ASCII whitespace and keeps a string that has none |
| Base64.RemoveWhitespaceChar | components/VoiceCallView.tsx:38 | one character is dropped exactly when it is ASCII whitespace and kept otherwise |
| Base64.RemoveWhitespaceConcat | components/VoiceCallView.tsx:38 | the strip works piece by piece, so every other character is kept, in order |
| Base64.StripPadding | components/VoiceCallView.tsx:38 | at a length that is a multiple of four, atob drops one trailing '=', or two when both last characters are '='; any other string is kept whole |
| Base64.SextetsOf | components/VoiceCallView.tsx:38 | decoding the characters gives sextets that spell the input, or names a character outside the alphabet |
| Base64.OctetsSextets | components/VoiceCallView.tsx:37-48 | regrouping the sextets of any bytes gives back exactly those bytes |
| Base64.SextetsOfChars | components/VoiceCallView.tsx:37-48 | every character of an encoding maps back to its sextet |
| Base64.RemoveWhitespaceOfEncode | components/VoiceCallView.tsx:37-48 | an encoding holds no whitespace for atob to drop |
| Base64.StripPaddingOfEncode | components/VoiceCallView.tsx:37-48 | atob reduces an encoding to its unpadded body |
| Base64.StripPaddingOfBody | components/VoiceCallView.tsx:37-48 | StripPadding leaves exactly the unpadded body of an encoding |
| Base64.SextetsOfRejects | components/VoiceCallView.tsx:38 | one character outside the alphabet makes the whole string undecodable |
| Base64.Decode | components/VoiceCallView.tsx:38 | the forgiving-base64 decode: a body of k characters (k mod 4 not 1) gives 3k/4 bytes; it fails exactly when k mod 4 is 1 or a character lies outside the alphabet; DecodeEncode proves it inverts Encode |
| Base64.DecodeEncode | components/VoiceCallView.tsx:37-48 | base64 round trip: decoding the encoding of any bytes gives those bytes |
| Base64.BinaryString | components/VoiceCallView.tsx:46 | one character per byte, whose char code is that byte |
| Base64.Btoa | components/VoiceCallView.tsx:47 | btoa succeeds exactly on strings whose characters are all below U+0100 |
| Base64.Atob | components/VoiceCallView.tsx:38 | atob succeeds exactly when the forgiving decode does, and yields a binary string |
| Base64.AtobBtoa | components/VoiceCallView.tsx:37-48 | btoa of a binary string is the encoding of its bytes, and atob gives the binary string back |
| PcmCodec.DecodeBase64 | components/VoiceCallView.tsx:37-42 | decode fails exactly when atob throws; otherwise byte i is char code i of atob's result, so the bytes are the base64 decoding |
| PcmCodec.EncodeBase64 | components/VoiceCallView.tsx:44-48 | encode yields the RFC 4648 encoding of the bytes, and decoding it gives the bytes back |
| PcmCodec.ToInt16 | components/VoiceCallView.tsx:83 | the stored sample is congruent to the value modulo 2^16 and equals it inside the 16-bit range |
| PcmCodec.SampleOfSampleBytes | components/VoiceCallView.tsx:85 | reading back the two little-endian bytes of a sample gives the sample |
| PcmCodec.SampleBytesOfSampleOf | components/VoiceCallView.tsx:25 | every byte pair is the little-endian buffer of the sample it holds |
| PcmCodec.PcmBytes | components/VoiceCallView.tsx:85 | new Uint8Array(int16.buffer) has two bytes per sample; PcmRoundTrip proves the view reads them back |
| PcmCodec.PcmSamples | components/VoiceCallView.tsx:25 | new Int16Array(data.buffer) fails (RangeError) exactly on an odd byte count and otherwise has one sample per two bytes |
| PcmCodec.PcmSamplesRoundTrip | components/VoiceCallView.tsx:25 | the samples read from an even-length buffer lay back out as that buffer |
| PcmCodec.Quantized | components/VoiceCallView.tsx:83 | the Int16Array fill keeps every element, congruent to its input modulo 2^16 and equal to it when in range |
| PcmCodec.PcmRoundTrip | components/VoiceCallView.tsx:25 | the Int16Array view of a sample buffer has 2 bytes per sample and gives back the samples |
| PcmCodec.CaptureFrame | components/VoiceCallView.tsx:78-90 | a muted callback sends nothing; otherwise the payload is the base64 of the wrapped 16-bit samples, tagged audio/pcm;rate=16000 |
| PcmCodec.CapturePayload | components/VoiceCallView.tsx:82-85 | the payload holds 2 bytes per input sample, and the far end reads back each in-range sample unchanged |
| PcmCodec.ChannelSample | components/VoiceCallView.tsx:31 | frame i of channel c is interleaved sample i*n+c, always inside the data |
| PcmCodec.FillChannel | components/VoiceCallView.tsx:29-32 | the inner loop writes frame i of channel c for every i and leaves the other channels alone |
| PcmCodec.DecodeAudioData | components/VoiceCallView.tsx:24-35 | odd byte counts throw RangeError; a bad channel count or zero frames throw NotSupportedError; otherwise there are floor(samples/n) frames, [c][i] is sample i*n+c, and one channel keeps order exactly |
| PcmCodec.DeinterleaveCovers | components/VoiceCallView.tsx:26-31 | when n divides the sample count, every interleaved sample lands in exactly one slot, channel k mod n and frame k div n |
| CallController.NatToString | components/VoiceCallView.tsx:150 | toString of a non-negative integer: decimal digits denoting it, no leading zero, 1 digit below 10, at most 2 below 100 |
| CallController.PadStart2Value | components/VoiceCallView.tsx:150 | padStart(2, '0') keeps the value and gives at least two digits |
| CallController.MinutesSeconds | components/VoiceCallView.tsx:148-149 | whole minutes and leftover seconds make up the duration, and fewer than 100 minutes is fewer than 6000 seconds |
| CallController.ClockParts | components/VoiceCallView.tsx:150 | the two digit runs of MM:SS read back as the minutes and the seconds |
| CallController.PadStart2 | components/VoiceCallView.tsx:150 | padStart(2, '0') gives two characters for a shorter input and leaves a longer one its length |
| CallController.PadStart2Shape | components/VoiceCallView.tsx:150 | the input ends the padded result and only '0' characters come before it |
| CallController.FormatDuration | components/VoiceCallView.tsx:147-151 | MM:SS with seconds below 60 and minutes*60+seconds equal to the input; exactly 5 characters iff below 6000, with the minutes never truncated |
| CallController.NextTranscript | components/VoiceCallView.tsx:96-98 | a transcript over 60 UTF-16 code units is replaced by the fragment; otherwise the fragment is appended; the result always ends with the fragment and is at most 60 code units plus the fragment |
| CallController.TranscriptCountsCodeUnits | components/VoiceCallView.tsx:96-98 | 31 characters beyond U+FFFF are 62 code units, over the window, so the next fragment replaces them |
| CallController.TranscriptBounded | components/VoiceCallView.tsx:96-98 | with fragments of at most F code units the transcript never exceeds 60+F code units |
| CallController.ChunkStart | components/VoiceCallView.tsx:104 | a chunk starts at the later of the cursor and the clock, never before either |
| CallController.Starts | components/VoiceCallView.tsx:104-110 | one start per chunk in a run |
| CallController.StartsGapless | components/VoiceCallView.tsx:104-111 | no chunk starts in the past or overlaps the previous one; a chunk arriving before the previous one ends starts exactly where it ends; after a reset to 0 the next chunk starts at the clock |
| CallController.PayloadFrames | components/VoiceCallView.tsx:100-105 | a payload plays exactly when it decodes to a non-empty, even number of bytes; it then lasts one frame per two bytes |
| CallController.PayloadFramesSamples | components/VoiceCallView.tsx:25-26 | a playable chunk lasts one frame per 16-bit sample of its Int16Array view |
| CallController.DecodePayload | components/VoiceCallView.tsx:105 | decode then decodeAudioData with one channel yields the payload's frame count, or fails exactly where PayloadFrames does |
| CallController.VoiceInstructionNamesCaller | components/VoiceCallView.tsx:69 | the call's system instruction opens with the persona and names the caller right after it |
| CallController.VoiceInstruction | components/VoiceCallView.tsx:69 | the call's system instruction; VoiceInstructionNamesCaller states that it opens with the persona and names the caller |
| CallController.StopAll | components/VoiceCallView.tsx:115 | every active source is stopped, in insertion order |
| CallController.VoiceCall.constructor | components/VoiceCallView.tsx:12-22 | the first render: no call, duration 0, empty transcript, cursor 0, no sources |
| CallController.VoiceCall.StartCall | components/VoiceCallView.tsx:50-133 | no mic: the alert and no call; connect fails: Connect then the alert, isCalling false, transcript "Connecting..."; success: the call is up with duration 0, transcript "Call active...", session and timer set, and the capture callback bound to the current mute flag |
| CallController.VoiceCall.ToggleMute | components/VoiceCallView.tsx:182-183 | isMuted flips and the flag the capture callback reads does not |
| CallController.VoiceCall.OnAudioProcess | components/VoiceCallView.tsx:78-90 | one send of the encoded frame exactly when the captured flag is unmuted; nothing else changes |
| CallController.VoiceCall.OnMessage | components/VoiceCallView.tsx:95-119 | transcript window; a playable chunk starts at max(cursor, now) as a new source and moves the cursor past it; an undecodable payload moves the cursor and ends the handler; an interruption stops every source, including the one just started, empties the set and resets the cursor to 0 |
| CallController.VoiceCall.ScheduleChunk | components/VoiceCallView.tsx:100-113 | the cursor ends at start + frames, and the new source is added and started at start |
| CallController.VoiceCall.Interrupt | components/VoiceCallView.tsx:114-118 | all sources stopped, set empty, cursor 0 |
| CallController.VoiceCall.OnEnded | components/VoiceCallView.tsx:112 | the ended source leaves the set and the others stay in order |
| CallController.VoiceCall.EndCall | components/VoiceCallView.tsx:135-141 | isCalling false and duration 0; close only if a session was ever set, clear only if a timer was ever set, stop every active source; the set and refs are unchanged, so a second call repeats the effects |
| CallController.RemoveKeepsDistinct | components/VoiceCallView.tsx:111-112 | deleting a source keeps the set's ids distinct and bounded |
| Seqs.RemoveAll | components/ProfileView.tsx:21 | filter(i => i !== x): x is gone, every other value keeps its membership and its count |
| Seqs.RemoveAllAbsent | components/ProfileView.tsx:21 | filtering out an absent value changes nothing |
| Seqs.RemoveAllConcat | components/ProfileView.tsx:21 | filtering works piece by piece, so the kept elements keep their order |
| Seqs.RemoveAllAppended | components/ProfileView.tsx:21-22 | filtering a value out of a list that ends with its only occurrence gives the list before it |
| Profile.ChangeName | components/ProfileView.tsx:13-15 | the name is replaced; interests, avatar and personality preference stay |
| Profile.ChangeNameLastWins | components/ProfileView.tsx:13-15 | only the last name typed counts, and typing the current name changes nothing |
| Profile.HandleInterestToggle | components/ProfileView.tsx:17-24 | the interests are toggled; name, avatar and personality preference stay |
| Profile.ToggleInterest | components/ProfileView.tsx:20-22 | toggling a present interest shortens the list; toggling an absent one lengthens it by one |
| Profile.ToggleFlipsMembership | components/ProfileView.tsx:20-22 | the toggled interest's membership flips; every other interest's membership stays |
| Profile.ToggleAbsentAppends | components/ProfileView.tsx:22 | an absent interest is appended after the others, in order |
| Profile.TogglePresentRemoves | components/ProfileView.tsx:20-21 | a present interest loses every occurrence, others keep their counts, and the rest stays in order |
| Profile.ToggleTwiceRestores | components/ProfileView.tsx:17-23 | toggling an absent interest twice restores the list |
| Chat.SkipLeading | components/ChatView.tsx:29 | the first index from i on that is not whitespace, everything skipped being whitespace |
| Chat.SkipTrailing | components/ChatView.tsx:29 | the end of a range once its trailing whitespace is dropped, everything dropped being whitespace |
| Chat.Trim | components/ChatView.tsx:29 | trim keeps the infix between the leading and the trailing whitespace, neither end of which is whitespace; it is empty iff the input is blank |
| Chat.CanSend | components/ChatView.tsx:29 | a send goes ahead exactly when the input is not blank and none is in flight |
| Chat.RequestContents | components/ChatView.tsx:46-49 | history then the user message, one entry each, each its role with one text part of its content |
| Chat.Join | components/ChatView.tsx:51 | join(', ') of none is empty and of one is that item |
| Chat.JoinAppend | components/ChatView.tsx:51 | adding an interest adds one separator and the interest at the end |
| Chat.SystemInstructionEmbedsProfile | components/ChatView.tsx:51 | the chat instruction is the persona, then the user's name, then the interests joined by ", " |
| Chat.SystemInstruction | components/ChatView.tsx:51 | the chat system instruction; SystemInstructionEmbedsProfile states its persona, name and interests parts |
| Chat.ReplyText | components/ChatView.tsx:57-71 | the response text, or the fallback when it is missing or empty, or the apology on error; never empty |
| Chat.ReplyDistinguishesFailure | components/ChatView.tsx:57-71 | the model message is the apology exactly on failure or when the model said those very words |
| Chat.ChatView.constructor | components/ChatView.tsx:13-15 | the view opens with the given history, an empty input and no send in flight |
| Chat.ChatView.TypeInput | components/ChatView.tsx:146 | typing replaces the input and nothing else |
| Chat.ChatView.BeginSend | components/ChatView.tsx:27-55 | a blank input or a send in flight changes nothing; otherwise the untrimmed input is appended as a user message, the input clears, loading starts, and the request carries the history and that message |
| Chat.ChatView.CompleteSend | components/ChatView.tsx:57-74 | one model message with the reply or the apology is appended, and loading ends |
| Chat.ChatView.SendMessage | components/ChatView.tsx:27-75 | an accepted send grows the history by exactly two, the user message then the model message, and ends with loading off |
| Types.Utf16Length | components/ApiKeyModal.tsx:15 | key.length counts UTF-16 code units: between one and two per character, one each for BMP characters |
| Types.AstralLength | components/ApiKeyModal.tsx:15 | a string of characters beyond U+FFFF has two code units per character |
| Types.Utf16LengthConcat | components/VoiceCallView.tsx:97 | the code units of a concatenation are the sum of the parts' |
| ApiKey.AcceptanceBoundary | components/ApiKeyModal.tsx:15 | for BMP keys, acceptance is length at least 20: 20 passes, 19 does not |
| ApiKey.Accepted | components/ApiKeyModal.tsx:15 | a key of 20 characters or more always passes; one of under 10 characters never does |
| ApiKey.AstralKeyAccepted | components/ApiKeyModal.tsx:15 | ten characters beyond U+FFFF already pass the length test |
| ApiKey.ApiKeyForm.constructor | components/ApiKeyModal.tsx:10-11 | the form opens with an empty key and no error |
| ApiKey.ApiKeyForm.OnChange | components/ApiKeyModal.tsx:62-65 | typing replaces the key and clears the error |
| ApiKey.ApiKeyForm.Submit | components/ApiKeyModal.tsx:13-20 | a short key sets the error and submits nothing; a long enough one is submitted exactly as typed; the key text never changes |

## Left out

- Floating point. The float samples, the `* 32768` and `/ 32768.0`
  scalings, and `duration`/`currentTime` in seconds are replaced by
  integer samples and ticks.
- Audio graph and SDK objects. The AudioContexts, the media stream source,
  the script processor, buffer source nodes, the `sampleRate` argument of
  `decodeAudioData`, and `responseModalities`/`outputAudioTranscription` are
  foreign objects. They appear only as effects.
- The chat request's `temperature` and `topP` are floating-point settings.
  They are not part of the request datatype.
- Async interleaving. Each handler runs to completion before the next one
  starts. Not modelled:
  - the `await` between moving the cursor and starting a source;
  - the fire-and-forget `sessionPromise.then` send;
  - a double click on the call button before `isCalling` is set.
- Capture callbacks of an earlier call keep running after a new call
  starts. The model keeps only the latest callback's flag.
- The duration timer's ticking (`setInterval`) and the unmount effect that
  calls `endCall` are host timer and React lifecycle. `EndCall` itself is
  modelled.
- `onerror` only logs. `onclose` calls `endCall`, which is the same method.
- The microphone stream and the AudioContexts are never stopped or closed by
  the source. The model does not track them.
- Number.prototype.toString's exponent form applies only to numbers that the
  duration counter cannot reach. `NatToString` is the plain decimal form.
- `db.ts` (localStorage persistence), `App.tsx` (routing, and `handleClearChat`
  setting `[]`), `components/Sidebar.tsx`, `electron-main.js` and all JSX
  rendering are UI, I/O or packaging. The profile page's reset button
  (localStorage.clear and reload) is I/O.
- The API key reaching the SDK (`process.env.API_KEY`) is configuration, not
  logic. `ApiKey.ApiKeyForm.Submit` returns the key that `onSubmit` would
  receive.
- CallController.VoiceCall.StartCall: the `Connect` effect records the
  caller's name, not the instruction text. The text is
  `VoiceInstruction(callerName)`, whose shape `VoiceInstructionNamesCaller`
  states. The chat request likewise records the profile, and
  `SystemInstructionEmbedsProfile` states the shape of its instruction.
