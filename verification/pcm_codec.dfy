/**
 * The byte and sample codecs of the voice call (components/VoiceCallView.tsx):
 * `decode` and `encode` between base64 text and a Uint8Array, the Int16Array
 * view of a byte buffer, the capture callback that packs a microphone frame,
 * and `decodeAudioData`, which splits interleaved samples into channels.
 *
 * Samples are kept as 16-bit integers: the scaling by 32768 between them and
 * the host's floating-point samples is not part of this model.
 */
module PcmCodec {
  import opened Types
  import Base64

  /** decode: atob, then one byte per character, byte i being char code i. None where atob throws. */
  method DecodeBase64(base64: string) returns (bytes: Option<array<byte>>)
    ensures bytes.Some? <==> Base64.Atob(base64).Some?
    ensures bytes.Some? ==> fresh(bytes.value)
    ensures bytes.Some? ==>
      var binary := Base64.Atob(base64).value;
      bytes.value.Length == |binary| &&
      forall i :: 0 <= i < |binary| ==> bytes.value[i] == binary[i] as int
    ensures bytes.Some? ==> Base64.Decode(base64) == Some(bytes.value[..])
  {
    var binary := Base64.Atob(base64);
    if binary.None? {
      return None;
    }
    var s := binary.value;
    var a := new byte[|s|];
    for i := 0 to |s|
      invariant forall k :: 0 <= k < i ==> a[k] == s[k] as int
    {
      a[i] := s[i] as int;
    }
    assert a[..] == Base64.Decode(base64).value;
    return Some(a);
  }

  /** encode: one character per byte with char code equal to the byte, then btoa. */
  method EncodeBase64(bytes: array<byte>) returns (base64: string)
    ensures base64 == Base64.Encode(bytes[..])
    ensures Base64.Decode(base64) == Some(bytes[..])
  {
    var binary := "";
    for i := 0 to bytes.Length
      invariant binary == Base64.BinaryString(bytes[..i])
    {
      binary := binary + [bytes[i] as char];
    }
    assert bytes[..bytes.Length] == bytes[..];
    Base64.AtobBtoa(bytes[..]);
    Base64.DecodeEncode(bytes[..]);
    base64 := Base64.Btoa(binary).value;
  }

  /**
   * The store of an integral number into an Int16Array (ToInt16 of
   * ECMAScript): the value congruent to x modulo 2^16 in [-32768, 32768).
   */
  function ToInt16(x: int): (r: int16)
    ensures (x - r) % 65536 == 0
    ensures -32768 <= x < 32768 ==> r == x
  {
    var m := x % 65536;
    if m < 32768 then m else m - 65536
  }

  /** The two bytes of a sample in an Int16Array's buffer, low byte first. */
  function SampleBytes(v: int16): (b: seq<byte>)
  {
    var u := if v < 0 then v + 65536 else v;
    [u % 256, u / 256]
  }

  /** The sample that two bytes of a buffer hold, low byte first. */
  function SampleOf(lo: byte, hi: byte): int16
  {
    var u := lo + 256 * hi;
    if u < 32768 then u else u - 65536
  }

  /** Every pair of bytes is the buffer of the sample it holds. */
  lemma SampleBytesOfSampleOf(lo: byte, hi: byte)
    ensures SampleBytes(SampleOf(lo, hi)) == [lo, hi]
  {
  }

  lemma SampleOfSampleBytes(v: int16)
    ensures SampleOf(SampleBytes(v)[0], SampleBytes(v)[1]) == v
  {
  }

  /** The buffer of an Int16Array holding `samples`: new Uint8Array(int16.buffer). */
  function PcmBytes(samples: seq<int16>): (b: seq<byte>)
    ensures |b| == 2 * |samples|
  {
    seq(2 * |samples|, k requires 0 <= k < 2 * |samples| => SampleBytes(samples[k / 2])[k % 2])
  }

  /** new Int16Array(data.buffer): None where the byte length is odd (RangeError). */
  function PcmSamples(bytes: seq<byte>): (s: Option<seq<int16>>)
    ensures s.Some? <==> |bytes| % 2 == 0
    ensures s.Some? ==> |s.value| == |bytes| / 2
  {
    if |bytes| % 2 != 0 then None
    else Some(seq(|bytes| / 2, i requires 0 <= i < |bytes| / 2 => SampleOf(bytes[2 * i], bytes[2 * i + 1])))
  }

  /** Laying the samples read from an even-length buffer back out gives the buffer. */
  lemma PcmSamplesRoundTrip(bytes: seq<byte>)
    requires |bytes| % 2 == 0
    ensures PcmSamples(bytes).Some? && PcmBytes(PcmSamples(bytes).value) == bytes
  {
    var s := PcmSamples(bytes).value;
    var b := PcmBytes(s);
    forall k | 0 <= k < |bytes| ensures b[k] == bytes[k] {
      var i := k / 2;
      assert k == 2 * i + k % 2;
      SampleBytesOfSampleOf(bytes[2 * i], bytes[2 * i + 1]);
    }
  }

  /** Viewing a sample buffer as samples gives back the samples. */
  lemma PcmRoundTrip(samples: seq<int16>)
    ensures |PcmBytes(samples)| == 2 * |samples|
    ensures PcmSamples(PcmBytes(samples)) == Some(samples)
  {
    var b := PcmBytes(samples);
    var s := PcmSamples(b).value;
    forall i | 0 <= i < |samples| ensures s[i] == samples[i] {
      assert (2 * i) / 2 == i && (2 * i + 1) / 2 == i;
      assert (2 * i) % 2 == 0 && (2 * i + 1) % 2 == 1;
      SampleOfSampleBytes(samples[i]);
    }
    assert s == samples;
  }

  /** The MIME-style tag that goes with every outbound frame. */
  const CAPTURE_MIME_TYPE := "audio/pcm;rate=16000"

  /** The payload handed to sendRealtimeInput: base64 bytes and their tag. */
  datatype Blob = Blob(data: string, mimeType: string)

  /** The Int16Array that the capture callback fills from a frame. */
  function Quantized(scaled: seq<int>): (q: seq<int16>)
    ensures |q| == |scaled|
    ensures forall i :: 0 <= i < |scaled| ==>
      (scaled[i] - q[i]) % 65536 == 0 && (-32768 <= scaled[i] < 32768 ==> q[i] == scaled[i])
  {
    seq(|scaled|, i requires 0 <= i < |scaled| => ToInt16(scaled[i]))
  }

  /**
   * The capture callback (onaudioprocess): `muted` is the flag the callback
   * closed over, and scaled[i] is the integral part of inputData[i] * 32768.
   * None is the early return that sends nothing.
   */
  method CaptureFrame(muted: bool, scaled: seq<int>) returns (blob: Option<Blob>)
    ensures muted <==> blob.None?
    ensures blob.Some? ==> blob.value == Blob(Base64.Encode(PcmBytes(Quantized(scaled))), CAPTURE_MIME_TYPE)
    ensures blob.Some? ==> Base64.Decode(blob.value.data) == Some(PcmBytes(Quantized(scaled)))
  {
    if muted {
      return None;
    }
    var l := |scaled|;
    var int16s := new int16[l];
    for i := 0 to l
      invariant forall k :: 0 <= k < i ==> int16s[k] == ToInt16(scaled[k])
    {
      int16s[i] := ToInt16(scaled[i]);
    }
    assert int16s[..] == Quantized(scaled);
    var view := PcmBytes(int16s[..]);
    var buffer := new byte[|view|](k requires 0 <= k < |view| => view[k]);
    assert buffer[..] == view;
    var data := EncodeBase64(buffer);
    return Some(Blob(data, CAPTURE_MIME_TYPE));
  }

  /** What the far end reads from an outbound payload: the frame's samples, wrapped to 16 bits, two bytes each. */
  lemma CapturePayload(scaled: seq<int>, payload: seq<byte>)
    requires payload == PcmBytes(Quantized(scaled))
    ensures |payload| == 2 * |scaled|
    ensures PcmSamples(payload) == Some(Quantized(scaled))
    ensures forall i :: 0 <= i < |scaled| && -32768 <= scaled[i] < 32768 ==>
      PcmSamples(payload).value[i] == scaled[i]
  {
    PcmRoundTrip(Quantized(scaled));
  }

  /** The errors that createBuffer and the Int16Array view throw. */
  datatype AudioError = RangeError | NotSupportedError

  /** The largest channel count createBuffer accepts. */
  const MAX_CHANNELS := 32

  lemma MulMonotone(a: int, b: int, n: nat)
    ensures a <= b ==> a * n <= b * n
  {
    if a <= b {
      assert b * n == a * n + (b - a) * n;
    }
  }

  lemma FrameIndexInRange(len: nat, n: nat, i: nat, c: nat)
    requires 1 <= n && i < len / n && c < n
    ensures i * n + c < len
  {
    MulMonotone(i + 1, len / n, n);
  }

  /** Frame i of channel c: interleaved sample i * n + c. */
  function ChannelSample(samples: seq<int16>, n: nat, c: nat, i: nat): (v: int16)
    requires 1 <= n && c < n && i < |samples| / n
    ensures i * n + c < |samples| && v == samples[i * n + c]
  {
    FrameIndexInRange(|samples|, n, i, c);
    samples[i * n + c]
  }

  /** Writes channel c of the buffer: its frame i is ChannelSample(samples, n, c, i). */
  method FillChannel(buffer: array2<int16>, samples: seq<int16>, c: nat)
    requires 1 <= buffer.Length0 && c < buffer.Length0
    requires buffer.Length1 == |samples| / buffer.Length0
    modifies buffer
    ensures forall i :: 0 <= i < buffer.Length1 ==>
      buffer[c, i] == ChannelSample(samples, buffer.Length0, c, i)
    ensures forall d, i :: 0 <= d < buffer.Length0 && d != c && 0 <= i < buffer.Length1 ==>
      buffer[d, i] == old(buffer[d, i])
  {
    for i := 0 to buffer.Length1
      invariant forall j :: 0 <= j < i ==> buffer[c, j] == ChannelSample(samples, buffer.Length0, c, j)
      invariant forall d, j :: 0 <= d < buffer.Length0 && d != c && 0 <= j < buffer.Length1 ==>
        buffer[d, j] == old(buffer[d, j])
    {
      buffer[c, i] := ChannelSample(samples, buffer.Length0, c, i);
    }
  }

  lemma AtLeastOneFrame(len: nat, n: nat)
    requires 1 <= n
    ensures len / n >= 1 <==> len >= n
  {
    if len >= n {
      MulMonotone(1, len / n + 1, n);
    }
  }

  /**
   * decodeAudioData: the buffer's channel c, frame i, is interleaved sample
   * i * numChannels + c (ChannelSample), and there are
   * floor(samples / numChannels) frames.
   */
  method DecodeAudioData(data: array<byte>, numChannels: int) returns (r: Result<array2<int16>, AudioError>)
    ensures data.Length % 2 != 0 <==> r == Err(RangeError)
    ensures data.Length % 2 == 0 ==>
      (r == Err(NotSupportedError) <==> !(1 <= numChannels <= MAX_CHANNELS && data.Length / 2 >= numChannels))
    ensures r.Ok? ==>
      var samples := PcmSamples(data[..]).value;
      fresh(r.value) &&
      r.value.Length0 == numChannels && r.value.Length1 == |samples| / numChannels &&
      forall c, i :: 0 <= c < r.value.Length0 && 0 <= i < r.value.Length1 ==>
        r.value[c, i] == ChannelSample(samples, numChannels, c, i)
    ensures r.Ok? && numChannels == 1 ==>
      var samples := PcmSamples(data[..]).value;
      r.value.Length1 == |samples| && forall i :: 0 <= i < |samples| ==> r.value[0, i] == samples[i]
  {
    var pcm := PcmSamples(data[..]);
    if pcm.None? {
      return Err(RangeError);
    }
    var samples := pcm.value;
    if !(1 <= numChannels <= MAX_CHANNELS) {
      return Err(NotSupportedError);
    }
    AtLeastOneFrame(|samples|, numChannels);
    if |samples| / numChannels == 0 {
      return Err(NotSupportedError);
    }
    var frameCount := |samples| / numChannels;
    var buffer := new int16[numChannels, frameCount];
    for channel := 0 to numChannels
      invariant forall c, i :: 0 <= c < channel && 0 <= i < frameCount ==>
        buffer[c, i] == ChannelSample(samples, numChannels, c, i)
    {
      FillChannel(buffer, samples, channel);
    }
    return Ok(buffer);
  }

  /**
   * When the channel count divides the sample count, every interleaved sample
   * k sits in exactly one slot: channel k % n, frame k / n.
   */
  lemma DeinterleaveCovers(len: nat, n: nat, k: nat, c: nat, i: nat)
    requires 1 <= n && len % n == 0 && k < len
    ensures k % n < n && k / n < len / n && (k / n) * n + k % n == k
    ensures c < n && i * n + c == k ==> c == k % n && i == k / n
  {
    MulMonotone(len / n, k / n, n);
    if c < n && i * n + c == k {
      DivModUnique(k, n, i, c);
    }
  }

  lemma DivModUnique(k: nat, n: nat, i: nat, c: nat)
    requires 1 <= n && c < n && i * n + c == k
    ensures i == k / n && c == k % n
  {
    MulMonotone(i + 1, k / n, n);
    MulMonotone(k / n + 1, i, n);
  }
}
