/**
 * The voice-call controller of components/VoiceCallView.tsx: the call
 * lifecycle (startCall, endCall), the capture callback, the message handler
 * that schedules inbound audio back to back on a playback cursor and flushes
 * it on interruption, the rolling transcript, and the MM:SS clock.
 *
 * Time is counted in integer ticks of the 24 kHz output clock, so a chunk of
 * n frames lasts n ticks.  Foreign calls (closing the session, starting and
 * stopping a source, sending a frame, clearing the timer, alerts) are
 * recorded in an effect log instead of being performed.
 */
module CallController {
  import opened Types
  import Constants
  import Seqs
  import Base64
  import PcmCodec

  /** A displayed transcript longer than this is replaced by the next fragment. */
  const TRANSCRIPT_WINDOW := 60
  const CONNECTING_TEXT := "Connecting..."
  const ACTIVE_TEXT := "Call active..."
  const CALL_FAILED_ALERT := "Microphone access is required for voice calls."
  const LIVE_MODEL := "gemini-2.5-flash-native-audio-preview-12-2025"
  const VOICE_NAME := "Kore"
  /** The channel count the playback path passes to decodeAudioData. */
  const PLAYBACK_CHANNELS := 1

  // ---------------------------------------------------------------------
  // The MM:SS clock (formatDuration)

  predicate IsDigit(c: char)
  {
    '0' <= c <= '9'
  }

  predicate AllDigits(s: string)
  {
    forall i :: 0 <= i < |s| ==> IsDigit(s[i])
  }

  /** The number a string of decimal digits denotes. */
  function DigitsValue(s: string): nat
    requires AllDigits(s)
    decreases |s|
  {
    if s == [] then 0
    else DigitsValue(s[..|s| - 1]) * 10 + (s[|s| - 1] as int - '0' as int)
  }

  /** Number.prototype.toString of a non-negative integer: decimal, no leading zero. */
  function NatToString(n: nat): (s: string)
    ensures 1 <= |s| && AllDigits(s) && DigitsValue(s) == n
    ensures |s| > 1 ==> s[0] != '0'
    ensures |s| == 1 <==> n < 10
    ensures |s| <= 2 <==> n < 100
    decreases n
  {
    var d := ('0' as int + n % 10) as char;
    if n < 10 then [d]
    else
      var s := NatToString(n / 10) + [d];
      assert s[..|s| - 1] == NatToString(n / 10);
      s
  }

  /** padStart(2, '0'). */
  function PadStart2(s: string): (r: string)
    ensures |r| == if |s| < 2 then 2 else |s|
  {
    if |s| == 0 then "00" else if |s| == 1 then "0" + s else s
  }

  /** The input ends the result, and only '0' characters come before it. */
  lemma PadStart2Shape(s: string)
    ensures var r := PadStart2(s);
      r[|r| - |s|..] == s && r[..|r| - |s|] == seq(|r| - |s|, _ => '0')
  {
  }

  lemma PadStart2Value(s: string)
    requires 1 <= |s| && AllDigits(s)
    ensures |PadStart2(s)| == if |s| == 1 then 2 else |s|
    ensures AllDigits(PadStart2(s)) && DigitsValue(PadStart2(s)) == DigitsValue(s)
  {
    if |s| == 1 {
      var r := PadStart2(s);
      assert r[..1] == "0" && r[1] == s[0];
      assert DigitsValue("0") == 0 by {
        assert "0"[..0] == [];
      }
      assert DigitsValue(s) == DigitsValue(s[..0]) * 10 + (s[0] as int - '0' as int);
      assert s[..0] == [];
    }
  }

  /** formatDuration: minutes, a colon, then two-digit seconds. */
  function FormatDuration(s: nat): (r: string)
    ensures |r| >= 5 && r[|r| - 3] == ':'
    ensures AllDigits(r[..|r| - 3]) && AllDigits(r[|r| - 2..])
    ensures DigitsValue(r[|r| - 2..]) < 60
    ensures DigitsValue(r[..|r| - 3]) * 60 + DigitsValue(r[|r| - 2..]) == s
    ensures |r| == 5 <==> s < 6000
  {
    var m, sec := s / 60, s % 60;
    var mins := PadStart2(NatToString(m));
    var secs := PadStart2(NatToString(sec));
    PadStart2Value(NatToString(m));
    PadStart2Value(NatToString(sec));
    ClockParts(mins, secs);
    MinutesSeconds(s);
    mins + ":" + secs
  }

  /** Whole minutes and leftover seconds make up s, and under 100 minutes is under 6000 seconds. */
  lemma MinutesSeconds(s: nat)
    ensures (s / 60) * 60 + s % 60 == s && s % 60 < 60
    ensures s / 60 < 100 <==> s < 6000
  {
  }

  /** The two digit runs of "MM:SS" read back as the minutes and the seconds. */
  lemma ClockParts(mins: string, secs: string)
    requires AllDigits(mins) && AllDigits(secs) && |secs| == 2
    ensures var r := mins + ":" + secs;
      |r| == |mins| + 3 && r[|r| - 3] == ':' &&
      AllDigits(r[..|r| - 3]) && AllDigits(r[|r| - 2..]) &&
      DigitsValue(r[..|r| - 3]) == DigitsValue(mins) && DigitsValue(r[|r| - 2..]) == DigitsValue(secs)
  {
    var r := mins + ":" + secs;
    assert r[..|r| - 3] == mins;
    assert r[|r| - 2..] == secs;
  }

  // ---------------------------------------------------------------------
  // The rolling transcript

  /**
   * setTranscription(prev => prev.length > 60 ? text : prev + text), where
   * length counts UTF-16 code units: the window is kept within 60 code units
   * plus the fragment, and the fragment always ends it.
   */
  function NextTranscript(prev: string, fragment: string): (r: string)
    ensures Utf16Length(r) <= TRANSCRIPT_WINDOW + Utf16Length(fragment)
    ensures |fragment| <= |r| && r[|r| - |fragment|..] == fragment
    ensures Utf16Length(prev) > TRANSCRIPT_WINDOW ==> |r| == |fragment|
    ensures Utf16Length(prev) <= TRANSCRIPT_WINDOW ==> |r| == |prev| + |fragment| && r[..|prev|] == prev
  {
    if Utf16Length(prev) > TRANSCRIPT_WINDOW then fragment
    else
      Utf16LengthConcat(prev, fragment);
      prev + fragment
  }

  /** A transcript of 31 emoji is 62 code units long, so the next fragment replaces it. */
  lemma TranscriptCountsCodeUnits()
    ensures var prev := seq(31, _ => '\U{1F600}');
      |prev| <= TRANSCRIPT_WINDOW && NextTranscript(prev, "x") == "x"
  {
    var prev := seq(31, _ => '\U{1F600}');
    assert forall i :: 0 <= i < |prev| ==> prev[i] as int > 0xFFFF;
    AstralLength(prev);
  }

  /** The transcript after a run of fragments, one message at a time. */
  function AfterFragments(prev: string, fragments: seq<string>): string
    decreases |fragments|
  {
    if fragments == [] then prev
    else AfterFragments(NextTranscript(prev, fragments[0]), fragments[1..])
  }

  /** With fragments of at most `bound` code units the transcript never exceeds 60 + bound code units. */
  lemma {:induction false} TranscriptBounded(prev: string, fragments: seq<string>, bound: nat)
    requires Utf16Length(prev) <= TRANSCRIPT_WINDOW + bound
    requires forall k :: 0 <= k < |fragments| ==> Utf16Length(fragments[k]) <= bound
    ensures Utf16Length(AfterFragments(prev, fragments)) <= TRANSCRIPT_WINDOW + bound
    decreases |fragments|
  {
    if fragments != [] {
      TranscriptBounded(NextTranscript(prev, fragments[0]), fragments[1..], bound);
    }
  }

  // ---------------------------------------------------------------------
  // Gapless scheduling

  /** Math.max(nextStartTime, ctx.currentTime): where an inbound chunk starts. */
  function ChunkStart(cursor: nat, now: nat): (start: nat)
    ensures start >= cursor && start >= now
    ensures start == cursor || start == now
  {
    if cursor >= now then cursor else now
  }

  /** An inbound chunk: the clock reading when it is scheduled, and its length. */
  datatype Chunk = Chunk(arrival: nat, frames: nat)

  /** The start ticks of a run of chunks with no interruption among them. */
  function Starts(cursor: nat, chunks: seq<Chunk>): (r: seq<nat>)
    ensures |r| == |chunks|
    decreases |chunks|
  {
    if chunks == [] then []
    else
      var start := ChunkStart(cursor, chunks[0].arrival);
      [start] + Starts(start + chunks[0].frames, chunks[1..])
  }

  /**
   * No chunk starts in the past, none overlaps the one before, and a chunk
   * that arrives before its predecessor ends starts exactly where it ends.
   * After a reset of the cursor to 0 the first chunk starts at the clock.
   */
  lemma {:induction false} StartsGapless(cursor: nat, chunks: seq<Chunk>)
    ensures var r := Starts(cursor, chunks);
      (forall k :: 0 <= k < |chunks| ==> r[k] >= chunks[k].arrival) &&
      (|chunks| > 0 ==> r[0] >= cursor) &&
      (|chunks| > 0 && cursor == 0 ==> r[0] == chunks[0].arrival) &&
      (forall k :: 0 <= k < |chunks| - 1 ==> r[k] + chunks[k].frames <= r[k + 1]) &&
      (forall k :: 0 <= k < |chunks| - 1 && chunks[k + 1].arrival <= r[k] + chunks[k].frames ==>
        r[k + 1] == r[k] + chunks[k].frames) &&
      (forall k :: 0 <= k < |chunks| - 1 && chunks[k + 1].arrival > r[k] + chunks[k].frames ==>
        r[k + 1] == chunks[k + 1].arrival)
    decreases |chunks|
  {
    if chunks != [] {
      var start := ChunkStart(cursor, chunks[0].arrival);
      var rest := Starts(start + chunks[0].frames, chunks[1..]);
      StartsGapless(start + chunks[0].frames, chunks[1..]);
      var r := Starts(cursor, chunks);
      assert r == [start] + rest;
      forall k | 1 <= k < |chunks| ensures r[k] == rest[k - 1] && chunks[k] == chunks[1..][k - 1] {
      }
      forall k | 0 <= k < |chunks| - 1
        ensures r[k] + chunks[k].frames <= r[k + 1]
        ensures chunks[k + 1].arrival <= r[k] + chunks[k].frames ==> r[k + 1] == r[k] + chunks[k].frames
        ensures chunks[k + 1].arrival > r[k] + chunks[k].frames ==> r[k + 1] == chunks[k + 1].arrival
      {
        if k == 0 {
          assert r[1] == rest[0] == ChunkStart(start + chunks[0].frames, chunks[1].arrival);
        }
      }
    }
  }

  // ---------------------------------------------------------------------
  // The playback path's view of a payload

  /** The frames of a non-empty audio payload, or None where decode or decodeAudioData throws. */
  function PayloadFrames(audio: string): (r: Option<nat>)
    ensures r.Some? ==> r.value >= 1
    ensures r.Some? <==> Base64.Decode(audio).Some? && |Base64.Decode(audio).value| % 2 == 0
                         && |Base64.Decode(audio).value| >= 2
    ensures r.Some? ==> r.value == |Base64.Decode(audio).value| / 2
  {
    match Base64.Decode(audio)
    case None => None
    case Some(bytes) =>
      if |bytes| % 2 != 0 || |bytes| / 2 < PLAYBACK_CHANNELS then None else Some(|bytes| / 2)
  }

  /** A playable payload lasts one frame per 16-bit sample of its Int16Array view. */
  lemma PayloadFramesSamples(audio: string)
    requires PayloadFrames(audio).Some?
    ensures var samples := PcmCodec.PcmSamples(Base64.Decode(audio).value);
      samples.Some? && PayloadFrames(audio).value == |samples.value|
  {
  }

  /**
   * The playback path up to the buffer: decode, then decodeAudioData with
   * one channel.  None where either throws; otherwise the buffer's length.
   */
  method DecodePayload(audio: string) returns (frames: Option<nat>)
    ensures frames == PayloadFrames(audio)
  {
    var bytes := PcmCodec.DecodeBase64(audio);
    if bytes.None? {
      return None;
    }
    assert Base64.Decode(audio) == Some(bytes.value[..]);
    assert |bytes.value[..]| == bytes.value.Length;
    var buffer := PcmCodec.DecodeAudioData(bytes.value, PLAYBACK_CHANNELS);
    if buffer.Err? {
      assert buffer.error == PcmCodec.RangeError || buffer.error == PcmCodec.NotSupportedError;
      return None;
    }
    return Some(buffer.value.Length1);
  }

  // ---------------------------------------------------------------------
  // The controller

  /** A call to foreign code, in the order the controller makes them. */
  datatype Effect =
    /** live.connect with this model and voice, and the system instruction VoiceInstruction(callerName). */
    | Connect(model: string, voiceName: string, callerName: string)
    | Send(blob: PcmCodec.Blob)
    | StartSource(source: nat, at: nat, frames: nat)
    | StopSource(source: nat)
    | CloseSession
    | ClearTimer
    | Alert(text: string)

  /** A LiveServerMessage: an optional transcript fragment (a missing text is ""), optional base64 audio, the interruption flag. */
  datatype ServerMessage = ServerMessage(transcript: Option<string>, audio: Option<string>, interrupted: bool)

  /** The start of the voice-call system instruction, up to the caller's name. */
  const VOICE_INSTRUCTION_HEAD := Constants.LUCI_SYSTEM_INSTRUCTION + "\nYou are currently in a live voice call with "

  /** The voice-call system instruction: the persona, then the caller's name. */
  function VoiceInstruction(name: string): string
  {
    VOICE_INSTRUCTION_HEAD + name + ". Be bubbly, responsive, and natural. Keep responses brief for voice interaction."
  }

  /** The instruction opens with the persona and names the caller right after it. */
  lemma VoiceInstructionNamesCaller(name: string)
    ensures var r, head := VoiceInstruction(name), VOICE_INSTRUCTION_HEAD;
      |head| + |name| <= |r| && r[..|head|] == head && r[|head|..|head| + |name|] == name
      && head[..|Constants.LUCI_SYSTEM_INSTRUCTION|] == Constants.LUCI_SYSTEM_INSTRUCTION
  {
    var r, head := VoiceInstruction(name), VOICE_INSTRUCTION_HEAD;
    assert r == head + (name + ". Be bubbly, responsive, and natural. Keep responses brief for voice interaction.");
  }

  /** The StopSource effects of forEach(s => s.stop()), in insertion order. */
  function StopAll(sources: seq<nat>): (r: seq<Effect>)
    ensures |r| == |sources| && forall k :: 0 <= k < |r| ==> r[k] == StopSource(sources[k])
  {
    seq(|sources|, k requires 0 <= k < |sources| => StopSource(sources[k]))
  }

  predicate Distinct(xs: seq<nat>)
  {
    forall i, j :: 0 <= i < j < |xs| ==> xs[i] != xs[j]
  }

  class VoiceCall {
    var isCalling: bool
    var isMuted: bool
    var callDuration: nat
    var transcription: string
    /** sessionRef.current is set (it is never reset). */
    var hasSession: bool
    /** timerRef.current is set (it is never reset). */
    var hasTimer: bool
    /** The isMuted value the installed capture callback closed over; None before the first onopen. */
    var captureMuted: Option<bool>
    /** nextStartTimeRef, in ticks. */
    var nextStartTime: nat
    /** audioSourcesRef: the active sources in insertion order. */
    var activeSources: seq<nat>
    /** The name the next created buffer source gets. */
    var nextSourceId: nat
    var effects: seq<Effect>

    ghost predicate Valid()
      reads this
    {
      Distinct(activeSources) &&
      forall k :: 0 <= k < |activeSources| ==> activeSources[k] < nextSourceId
    }

    /** The first render: no call, nothing scheduled. */
    constructor ()
      ensures Valid()
      ensures !isCalling && !isMuted && callDuration == 0 && transcription == ""
      ensures !hasSession && !hasTimer && captureMuted == None
      ensures nextStartTime == 0 && activeSources == [] && effects == []
    {
      isCalling, isMuted, callDuration, transcription := false, false, 0, "";
      hasSession, hasTimer, captureMuted := false, false, None;
      nextStartTime, activeSources, nextSourceId, effects := 0, [], 0, [];
    }

    /**
     * startCall, whose button shows only while no call is up.  `micGranted`
     * is the outcome of getUserMedia and `connected` that of live.connect.
     * The capture callback installed by onopen keeps the isMuted of this
     * moment for the rest of the call.
     */
    method StartCall(micGranted: bool, connected: bool, profileName: string)
      requires Valid() && !isCalling
      modifies this
      ensures Valid()
      ensures isMuted == old(isMuted) && nextStartTime == old(nextStartTime)
      ensures activeSources == old(activeSources) && nextSourceId == old(nextSourceId)
      ensures !micGranted ==>
        !isCalling && callDuration == old(callDuration) && transcription == old(transcription) &&
        hasSession == old(hasSession) && hasTimer == old(hasTimer) && captureMuted == old(captureMuted) &&
        effects == old(effects) + [Alert(CALL_FAILED_ALERT)]
      ensures micGranted && !connected ==>
        !isCalling && callDuration == 0 && transcription == CONNECTING_TEXT &&
        hasSession == old(hasSession) && hasTimer == old(hasTimer) && captureMuted == old(captureMuted) &&
        effects == old(effects) + [Connect(LIVE_MODEL, VOICE_NAME, profileName), Alert(CALL_FAILED_ALERT)]
      ensures micGranted && connected ==>
        isCalling && callDuration == 0 && transcription == ACTIVE_TEXT &&
        hasSession && hasTimer && captureMuted == Some(old(isMuted)) &&
        effects == old(effects) + [Connect(LIVE_MODEL, VOICE_NAME, profileName)]
    {
      if !micGranted {
        isCalling := false;
        effects := effects + [Alert(CALL_FAILED_ALERT)];
        return;
      }
      isCalling := true;
      callDuration := 0;
      transcription := CONNECTING_TEXT;
      effects := effects + [Connect(LIVE_MODEL, VOICE_NAME, profileName)];
      if !connected {
        isCalling := false;
        effects := effects + [Alert(CALL_FAILED_ALERT)];
        return;
      }
      transcription := ACTIVE_TEXT;
      captureMuted := Some(isMuted);
      hasSession := true;
      hasTimer := true;
    }

    /** The mute button, enabled only during a call: a new isMuted that the running capture callback never sees. */
    method ToggleMute()
      requires Valid() && isCalling
      modifies this
      ensures Valid()
      ensures isMuted == !old(isMuted)
      ensures captureMuted == old(captureMuted)
      ensures isCalling == old(isCalling) && callDuration == old(callDuration) && transcription == old(transcription)
      ensures hasSession == old(hasSession) && hasTimer == old(hasTimer) && nextStartTime == old(nextStartTime)
      ensures activeSources == old(activeSources) && nextSourceId == old(nextSourceId) && effects == old(effects)
    {
      isMuted := !isMuted;
    }

    /**
     * One capture callback with a frame whose samples, times 32768, have
     * the integral parts `scaled`: sent unless the captured flag was set.
     */
    method OnAudioProcess(scaled: seq<int>)
      requires Valid()
      modifies this
      ensures Valid()
      ensures captureMuted == Some(false) ==>
        effects == old(effects) + [Send(PcmCodec.Blob(Base64.Encode(PcmCodec.PcmBytes(PcmCodec.Quantized(scaled))),
                                                      PcmCodec.CAPTURE_MIME_TYPE))]
      ensures captureMuted != Some(false) ==> effects == old(effects)
      ensures isCalling == old(isCalling) && isMuted == old(isMuted) && callDuration == old(callDuration)
      ensures transcription == old(transcription) && hasSession == old(hasSession) && hasTimer == old(hasTimer)
      ensures captureMuted == old(captureMuted) && nextStartTime == old(nextStartTime)
      ensures activeSources == old(activeSources) && nextSourceId == old(nextSourceId)
    {
      if captureMuted.Some? {
        var blob := PcmCodec.CaptureFrame(captureMuted.value, scaled);
        if blob.Some? {
          effects := effects + [Send(blob.value)];
        }
      }
    }

    /**
     * onmessage, handled to completion before the next one.  A payload that
     * decode or decodeAudioData rejects ends the handler after the cursor
     * was moved, so its interruption flag is not acted on.
     */
    method OnMessage(msg: ServerMessage, now: nat)
      requires Valid()
      modifies this
      ensures Valid()
      ensures isCalling == old(isCalling) && isMuted == old(isMuted) && callDuration == old(callDuration)
      ensures hasSession == old(hasSession) && hasTimer == old(hasTimer) && captureMuted == old(captureMuted)
      ensures transcription ==
        if msg.transcript.Some? then NextTranscript(old(transcription), msg.transcript.value) else old(transcription)
      ensures (msg.audio.None? || msg.audio.value == "") && !msg.interrupted ==>
        nextStartTime == old(nextStartTime) && activeSources == old(activeSources) &&
        nextSourceId == old(nextSourceId) && effects == old(effects)
      ensures (msg.audio.None? || msg.audio.value == "") && msg.interrupted ==>
        nextStartTime == 0 && activeSources == [] &&
        nextSourceId == old(nextSourceId) && effects == old(effects) + StopAll(old(activeSources))
      ensures msg.audio.Some? && msg.audio.value != "" && PayloadFrames(msg.audio.value).None? ==>
        nextStartTime == ChunkStart(old(nextStartTime), now) && activeSources == old(activeSources) &&
        nextSourceId == old(nextSourceId) && effects == old(effects)
      ensures msg.audio.Some? && msg.audio.value != "" && PayloadFrames(msg.audio.value).Some? ==>
        var start := ChunkStart(old(nextStartTime), now);
        var frames := PayloadFrames(msg.audio.value).value;
        var id := old(nextSourceId);
        nextSourceId == id + 1 &&
        if msg.interrupted then
          nextStartTime == 0 && activeSources == [] &&
          effects == old(effects) + [StartSource(id, start, frames)] + StopAll(old(activeSources) + [id])
        else
          nextStartTime == start + frames && activeSources == old(activeSources) + [id] &&
          effects == old(effects) + [StartSource(id, start, frames)]
    {
      if msg.transcript.Some? {
        transcription := NextTranscript(transcription, msg.transcript.value);
      }
      if msg.audio.Some? && msg.audio.value != "" {
        var scheduled := ScheduleChunk(msg.audio.value, now);
        if !scheduled {
          return;
        }
      }
      if msg.interrupted {
        Interrupt();
      }
    }

    /**
     * The audio branch of onmessage: the cursor moves to the later of itself
     * and the clock, then a payload that decodes is started there as a new
     * source, and the cursor moves past it.  False where decoding throws.
     */
    method ScheduleChunk(audio: string, now: nat) returns (scheduled: bool)
      requires Valid()
      modifies this
      ensures Valid()
      ensures scheduled <==> PayloadFrames(audio).Some?
      ensures isCalling == old(isCalling) && isMuted == old(isMuted) && callDuration == old(callDuration)
      ensures hasSession == old(hasSession) && hasTimer == old(hasTimer) && captureMuted == old(captureMuted)
      ensures transcription == old(transcription)
      ensures !scheduled ==>
        nextStartTime == ChunkStart(old(nextStartTime), now) && activeSources == old(activeSources) &&
        nextSourceId == old(nextSourceId) && effects == old(effects)
      ensures scheduled ==>
        var start := ChunkStart(old(nextStartTime), now);
        var frames := PayloadFrames(audio).value;
        nextSourceId == old(nextSourceId) + 1 &&
        nextStartTime == start + frames && activeSources == old(activeSources) + [old(nextSourceId)] &&
        effects == old(effects) + [StartSource(old(nextSourceId), start, frames)]
    {
      nextStartTime := ChunkStart(nextStartTime, now);
      var decoded := DecodePayload(audio);
      if decoded.None? {
        return false;
      }
      var frames := decoded.value;
      var id := nextSourceId;
      nextSourceId := nextSourceId + 1;
      effects := effects + [StartSource(id, nextStartTime, frames)];
      nextStartTime := nextStartTime + frames;
      activeSources := activeSources + [id];
      return true;
    }

    /** serverContent.interrupted: stop every active source, empty the set, reset the cursor to 0. */
    method Interrupt()
      requires Valid()
      modifies this
      ensures Valid()
      ensures nextStartTime == 0 && activeSources == [] && effects == old(effects) + StopAll(old(activeSources))
      ensures isCalling == old(isCalling) && isMuted == old(isMuted) && callDuration == old(callDuration)
      ensures hasSession == old(hasSession) && hasTimer == old(hasTimer) && captureMuted == old(captureMuted)
      ensures transcription == old(transcription) && nextSourceId == old(nextSourceId)
    {
      effects := effects + StopAll(activeSources);
      activeSources := [];
      nextStartTime := 0;
    }

    /** A source's onended: it leaves the active set (nothing happens if it already left). */
    method OnEnded(source: nat)
      requires Valid()
      modifies this
      ensures Valid()
      ensures activeSources == Seqs.RemoveAll(old(activeSources), source)
      ensures isCalling == old(isCalling) && isMuted == old(isMuted) && callDuration == old(callDuration)
      ensures transcription == old(transcription) && hasSession == old(hasSession) && hasTimer == old(hasTimer)
      ensures captureMuted == old(captureMuted) && nextStartTime == old(nextStartTime)
      ensures nextSourceId == old(nextSourceId) && effects == old(effects)
    {
      RemoveKeepsDistinct(activeSources, source, nextSourceId);
      activeSources := Seqs.RemoveAll(activeSources, source);
    }

    /**
     * endCall: closes the session if one was ever opened, clears the timer
     * if one was ever set, and stops every active source; the set, the refs
     * and the capture callback stay as they are.
     */
    method EndCall()
      requires Valid()
      modifies this
      ensures Valid()
      ensures !isCalling && callDuration == 0
      ensures effects == old(effects)
        + (if hasSession then [CloseSession] else [])
        + (if hasTimer then [ClearTimer] else [])
        + StopAll(activeSources)
      ensures isMuted == old(isMuted) && transcription == old(transcription)
      ensures hasSession == old(hasSession) && hasTimer == old(hasTimer) && captureMuted == old(captureMuted)
      ensures nextStartTime == old(nextStartTime) && activeSources == old(activeSources)
      ensures nextSourceId == old(nextSourceId)
    {
      if hasSession {
        effects := effects + [CloseSession];
      }
      if hasTimer {
        effects := effects + [ClearTimer];
      }
      effects := effects + StopAll(activeSources);
      isCalling := false;
      callDuration := 0;
    }
  }

  lemma RemoveKeepsDistinct(xs: seq<nat>, x: nat, bound: nat)
    requires Distinct(xs) && forall k :: 0 <= k < |xs| ==> xs[k] < bound
    ensures var r := Seqs.RemoveAll<nat>(xs, x);
      Distinct(r) && forall k :: 0 <= k < |r| ==> r[k] < bound
    decreases |xs|
  {
    if xs != [] {
      RemoveKeepsDistinct(xs[1..], x, bound);
      var r := Seqs.RemoveAll(xs[1..], x);
      if xs[0] != x {
        assert xs[0] !in xs[1..];
        assert xs[0] !in r;
      }
    }
  }
}
