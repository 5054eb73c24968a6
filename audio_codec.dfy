/**
  The audio helpers defined at the top of `components/LiveCompanionTab.tsx`
  (and, for `decode` and `decodeAudioData`, repeated word for word in
  `components/HabitsTab.tsx`): the byte / binary-string loops around
  `btoa` and `atob`, the Int16 view of a byte buffer, the de-interleaving
  loop of `decodeAudioData`, and the little-endian layout of captured samples.
  Samples are kept as signed 16-bit integers; the float scaling by 32768 is
  not modelled.
*/
module AudioCodec {
  import opened Common
  import opened Base64

  type int16 = x: int | -32768 <= x < 32768

  /** `encode`: append one char per byte to a binary string, then `btoa` it. */
  method Encode(bytes: array<byte>) returns (r: string)
    ensures r == Base64.Encode(bytes[..])
  {
    var binary := "";
    for i := 0 to bytes.Length
      invariant binary == BinaryString(bytes[..i])
    {
      binary := binary + [bytes[i] as char];
    }
    assert bytes[..bytes.Length] == bytes[..];
    BtoaOfBinaryString(bytes[..]);
    r := Btoa(binary).value;
  }

  /** `decode`: `atob`, then one byte per char code into a fresh Uint8Array, whose
      stores keep a code modulo 256. `None` where `atob` throws. */
  method Decode(base64: string) returns (r: Option<array<byte>>)
    ensures r.None? <==> Atob(base64).None?
    ensures r.Some? ==> r.value.Length == |Atob(base64).value|
    ensures r.Some? ==> forall i :: 0 <= i < r.value.Length ==> r.value[i] == Atob(base64).value[i] as int
    ensures r.Some? ==> Base64.Decode(base64) == Some(r.value[..])
  {
    var binaryString := Atob(base64);
    if binaryString.None? {
      return None;
    }
    var s := binaryString.value;
    var bytes := new byte[|s|];
    for i := 0 to |s|
      invariant forall k :: 0 <= k < i ==> bytes[k] == s[k] as int
    {
      bytes[i] := s[i] as int % 256;
    }
    assert bytes[..] == Base64.Decode(base64).value;
    return Some(bytes);
  }

  /** An unsigned 16-bit pattern read as two's complement. */
  function Signed(u: int): int16
    requires 0 <= u < 65536
  {
    if u < 32768 then u else u - 65536
  }

  /** `new Int16Array(bytes.buffer)`: byte pairs read little-endian as signed 16-bit values. */
  function Int16View(bs: seq<byte>): (s: seq<int16>)
    requires |bs| % 2 == 0
    ensures |s| == |bs| / 2
  {
    seq(|bs| / 2, i requires 0 <= i < |bs| / 2 => Signed(bs[2 * i] as int + 256 * (bs[2 * i + 1] as int)))
  }

  function LowByte(x: int16): byte {
    (x % 65536) % 256
  }

  function HighByte(x: int16): byte {
    (x % 65536) / 256
  }

  /** The bytes of an Int16Array holding `samples`, least significant byte first. */
  function LittleEndian(samples: seq<int16>): (bs: seq<byte>)
    ensures |bs| == 2 * |samples|
  {
    seq(2 * |samples|, j requires 0 <= j < 2 * |samples| =>
      if j % 2 == 0 then LowByte(samples[j / 2]) else HighByte(samples[j / 2]))
  }

  lemma SampleBytes(x: int16)
    ensures Signed(LowByte(x) + 256 * HighByte(x)) == x
  {
  }

  /** The Int16 view of the captured byte layout gives the samples back. */
  lemma Int16ViewOfLittleEndian(samples: seq<int16>)
    ensures Int16View(LittleEndian(samples)) == samples
  {
    var bs := LittleEndian(samples);
    forall i | 0 <= i < |samples|
      ensures Int16View(bs)[i] == samples[i]
    {
      assert bs[2 * i] == LowByte(samples[i]);
      assert bs[2 * i + 1] == HighByte(samples[i]);
      SampleBytes(samples[i]);
    }
  }

  datatype AudioError = RangeError | NotSupportedError

  /** An AudioBuffer: one sequence of samples per channel, `length` frames each. */
  datatype AudioBuffer = AudioBuffer(channels: seq<seq<int16>>, length: nat, sampleRate: nat)

  /** `buffer.duration`, in seconds. */
  function Duration(b: AudioBuffer): (d: real)
    ensures d >= 0.0
  {
    if b.sampleRate == 0 then 0.0 else b.length as real / b.sampleRate as real
  }

  /** Frame `i` of channel `c` sits at `i * k + c` of the interleaved samples. */
  lemma InterleavedIndex(i: nat, c: nat, n: nat, k: nat)
    requires k > 0 && i < n / k && c < k
    ensures i * k + c < n
  {
    assert i + 1 <= n / k;
    assert (i + 1) * k <= (n / k) * k by {
      MulMonotone(i + 1, n / k, k);
    }
    assert (n / k) * k <= n;
  }

  /** Frame `i` of channel `c` in interleaved samples carrying `numChannels` channels. */
  function SampleAt(samples: seq<int16>, numChannels: nat, c: nat, i: nat): int16
    requires c < numChannels && i < |samples| / numChannels
  {
    InterleavedIndex(i, c, |samples|, numChannels);
    samples[i * numChannels + c]
  }

  lemma MulMonotone(a: nat, b: nat, k: nat)
    requires a <= b
    ensures a * k <= b * k
  {
  }

  /** What `decodeAudioData` resolves to: `new Int16Array` throws RangeError on an odd byte
      count, `createBuffer` throws NotSupportedError for no channel, no frame or a zero rate
      (its limits on the channel count and the rate range are not modelled). */
  function AudioOf(data: seq<byte>, sampleRate: nat, numChannels: nat): (r: Result<AudioBuffer, AudioError>)
    ensures r.Failure? ==> (r.error == RangeError <==> |data| % 2 == 1)
    ensures r.Success? ==>
      |r.value.channels| == numChannels > 0 && r.value.length == (|data| / 2) / numChannels > 0 &&
      r.value.sampleRate == sampleRate > 0 &&
      forall c :: 0 <= c < numChannels ==> |r.value.channels[c]| == r.value.length
  {
    if |data| % 2 == 1 then Failure(RangeError)
    else if numChannels == 0 || sampleRate == 0 || (|data| / 2) / numChannels == 0 then Failure(NotSupportedError)
    else
      var samples := Int16View(data);
      Success(AudioBuffer(Deinterleaved(samples, numChannels), |samples| / numChannels, sampleRate))
  }

  /** The channels `AudioOf` builds from interleaved samples. */
  function Deinterleaved(samples: seq<int16>, numChannels: nat): (r: seq<seq<int16>>)
    requires numChannels > 0
    ensures |r| == numChannels
    ensures forall c :: 0 <= c < numChannels ==> |r[c]| == |samples| / numChannels
  {
    var frames := |samples| / numChannels;
    seq(numChannels, c requires 0 <= c < numChannels =>
      seq(frames, i requires 0 <= i < frames => SampleAt(samples, numChannels, c, i)))
  }

  /** One channel's array, filled frame by frame: `channelData[i] = dataInt16[i * numChannels + channel]`. */
  method FillChannel(samples: seq<int16>, numChannels: nat, channel: nat) returns (r: seq<int16>)
    requires channel < numChannels
    ensures |r| == |samples| / numChannels
    ensures forall i :: 0 <= i < |r| ==> r[i] == SampleAt(samples, numChannels, channel, i)
  {
    var frameCount := |samples| / numChannels;
    var channelData := new int16[frameCount];
    for i := 0 to frameCount
      invariant forall j :: 0 <= j < i ==> channelData[j] == SampleAt(samples, numChannels, channel, j)
    {
      InterleavedIndex(i, channel, |samples|, numChannels);
      channelData[i] := samples[i * numChannels + channel];
    }
    r := channelData[..];
  }

  /** Channels that agree with `Deinterleaved` sample by sample are `Deinterleaved`. */
  lemma DeinterleavedUnique(channels: seq<seq<int16>>, samples: seq<int16>, numChannels: nat)
    requires numChannels > 0 && |channels| == numChannels
    requires forall c :: 0 <= c < numChannels ==> |channels[c]| == |samples| / numChannels
    requires forall c, i :: 0 <= c < numChannels && 0 <= i < |samples| / numChannels ==>
      channels[c][i] == SampleAt(samples, numChannels, c, i)
    ensures channels == Deinterleaved(samples, numChannels)
  {
    var d := Deinterleaved(samples, numChannels);
    forall c | 0 <= c < numChannels
      ensures channels[c] == d[c]
    {
    }
  }

  /** `decodeAudioData`: fills each channel's array frame by frame from the interleaved samples. */
  method DecodeAudioData(data: array<byte>, sampleRate: nat, numChannels: nat)
    returns (r: Result<AudioBuffer, AudioError>)
    ensures r == AudioOf(data[..], sampleRate, numChannels)
  {
    if data.Length % 2 == 1 {
      return Failure(RangeError);
    }
    var dataInt16 := Int16View(data[..]);
    if numChannels == 0 || sampleRate == 0 || |dataInt16| / numChannels == 0 {
      return Failure(NotSupportedError);
    }
    var frameCount := |dataInt16| / numChannels;
    var channels: seq<seq<int16>> := [];
    for channel := 0 to numChannels
      invariant |channels| == channel
      invariant forall c :: 0 <= c < channel ==> |channels[c]| == frameCount
      invariant forall c, i :: 0 <= c < channel && 0 <= i < frameCount ==>
        channels[c][i] == SampleAt(dataInt16, numChannels, c, i)
    {
      var channelData := FillChannel(dataInt16, numChannels, channel);
      channels := channels + [channelData];
    }
    DeinterleavedUnique(channels, dataInt16, numChannels);
    r := Success(AudioBuffer(channels, frameCount, sampleRate));
  }

  /** Decode then `decodeAudioData`, as both components chain them; `None` where either throws. */
  function DecodedAudio(base64: string, sampleRate: nat, numChannels: nat): Option<AudioBuffer> {
    match Base64.Decode(base64)
    case None => None
    case Some(bytes) =>
      match AudioOf(bytes, sampleRate, numChannels)
      case Failure(_) => None
      case Success(b) => Some(b)
  }

  // ---------------------------------------------------------------------------
  // Properties

  /** When decoding succeeds: as many frames as whole interleaved groups, and
      channel `c`, frame `i` is interleaved sample `i * numChannels + c`. */
  lemma AudioOfIndexing(data: seq<byte>, sampleRate: nat, numChannels: nat, c: nat, i: nat)
    requires AudioOf(data, sampleRate, numChannels).Success?
    requires c < numChannels && i < (|data| / 2) / numChannels
    ensures var b := AudioOf(data, sampleRate, numChannels).value;
      |b.channels| == numChannels && b.length == (|data| / 2) / numChannels &&
      |b.channels[c]| == b.length &&
      i * numChannels + c < |data| / 2 &&
      b.channels[c][i] == Int16View(data)[i * numChannels + c]
  {
    InterleavedIndex(i, c, |data| / 2, numChannels);
  }

  /** `decodeAudioData` fails exactly on an odd byte count, no channel, a zero rate or no whole frame. */
  lemma AudioOfFails(data: seq<byte>, sampleRate: nat, numChannels: nat)
    ensures AudioOf(data, sampleRate, numChannels).Failure? <==>
      |data| % 2 == 1 || numChannels == 0 || sampleRate == 0 || (|data| / 2) / numChannels == 0
    ensures AudioOf(data, sampleRate, numChannels) == Failure(RangeError) <==> |data| % 2 == 1
  {
  }

  /** With one channel the buffer is the Int16 view itself. */
  lemma AudioOfMono(data: seq<byte>, sampleRate: nat)
    requires AudioOf(data, sampleRate, 1).Success?
    ensures AudioOf(data, sampleRate, 1).value == AudioBuffer([Int16View(data)], |data| / 2, sampleRate)
  {
    var samples := Int16View(data);
    var b := AudioOf(data, sampleRate, 1).value;
    assert |b.channels| == 1 && |b.channels[0]| == |samples|;
    forall i | 0 <= i < |samples|
      ensures b.channels[0][i] == samples[i]
    {
      assert SampleAt(samples, 1, 0, i) == samples[i];
    }
    assert b.channels[0] == samples;
    assert b.channels == [samples];
  }

  /** A mono buffer decoded from the captured byte layout holds exactly the captured samples. */
  lemma MonoRoundTrip(samples: seq<int16>, sampleRate: nat)
    requires |samples| > 0 && sampleRate > 0
    ensures AudioOf(LittleEndian(samples), sampleRate, 1) == Success(AudioBuffer([samples], |samples|, sampleRate))
  {
    var data := LittleEndian(samples);
    assert (|data| / 2) / 1 == |samples|;
    AudioOfMono(data, sampleRate);
    Int16ViewOfLittleEndian(samples);
  }

  /** Capture and playback formats agree: base64 text of the captured bytes decodes to the same mono buffer. */
  lemma DecodedAudioOfEncoded(samples: seq<int16>, sampleRate: nat)
    requires |samples| > 0 && sampleRate > 0
    ensures DecodedAudio(Base64.Encode(LittleEndian(samples)), sampleRate, 1) ==
      Some(AudioBuffer([samples], |samples|, sampleRate))
  {
    DecodeEncode(LittleEndian(samples));
    MonoRoundTrip(samples, sampleRate);
  }
}
