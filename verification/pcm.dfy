/** The speech-audio codec: the byte copy of `decodeBase64` after `atob`, and
    `decodeAudioData`, which reads raw little-endian signed 16-bit PCM,
    de-interleaves it into channels and scales every sample by 1/32768. */
module Pcm {
  import opened Wrappers

  type Byte = x: int | 0 <= x < 256

  const DefaultSampleRate: int := 24000
  const DefaultChannels: nat := 1

  /** Storing a number into a `Uint8Array` element keeps it modulo 2^8. */
  function ToUint8(x: int): (b: Byte)
    ensures 0 <= x < 256 ==> b == x
  {
    x % 256
  }

  /** `decodeBase64` after `atob`: one byte per character of the binary string,
      byte i holding the code of character i. */
  method DecodeBase64(binary: string) returns (bytes: seq<Byte>)
    ensures |bytes| == |binary|
    ensures forall i :: 0 <= i < |binary| ==> bytes[i] == ToUint8(binary[i] as int)
  {
    var len := |binary|;
    var a := new Byte[len];
    var i := 0;
    while i < len
      invariant 0 <= i <= len
      invariant forall k :: 0 <= k < i ==> a[k] == ToUint8(binary[k] as int)
    {
      a[i] := ToUint8(binary[i] as int);
      i := i + 1;
    }
    bytes := a[..];
  }

  /** A binary string, as `atob` returns: every character code below 256. */
  predicate IsBinaryString(s: string) {
    forall i :: 0 <= i < |s| ==> (s[i] as int) < 256
  }

  /** The binary string whose character codes are the given bytes. */
  function BinaryString(bytes: seq<Byte>): (s: string)
    ensures |s| == |bytes| && IsBinaryString(s)
  {
    seq(|bytes|, i requires 0 <= i < |bytes| => bytes[i] as char)
  }

  /** The byte copy loses nothing on a binary string: any result of
      `DecodeBase64` turns back into the very same string. */
  lemma BinaryStringRoundTrip(s: string, bytes: seq<Byte>)
    requires IsBinaryString(s)
    requires |bytes| == |s| && forall i :: 0 <= i < |s| ==> bytes[i] == ToUint8(s[i] as int)
    ensures BinaryString(bytes) == s
  {
    forall i | 0 <= i < |s| ensures BinaryString(bytes)[i] == s[i] {
      assert bytes[i] == s[i] as int;
    }
  }

  /** An odd-length input gets one trailing zero byte; no byte is ever dropped. */
  function Pad(data: seq<Byte>): (r: seq<Byte>)
    ensures |r| % 2 == 0
    ensures data <= r
    ensures |r| == |data| + |data| % 2
    ensures forall k :: |data| <= k < |r| ==> r[k] == 0
  {
    if |data| % 2 != 0 then data + [0] else data
  }

  /** The signed 16-bit value of two little-endian bytes (two's complement). */
  function Int16LE(lo: Byte, hi: Byte): (s: int)
    ensures -32768 <= s <= 32767
    ensures (s + 65536) % 65536 == lo + 256 * hi
  {
    var u := lo + 256 * hi;
    if u >= 32768 then u - 65536 else u
  }

  /** Sample k of the `Int16Array` view of the padded bytes. */
  function SampleAt(pcm: seq<Byte>, k: nat): int
    requires 2 * k + 1 < |pcm|
  {
    Int16LE(pcm[2 * k], pcm[2 * k + 1])
  }

  /** The scaling applied to every sample. */
  function Normalize(s: int): real {
    s as real / 32768.0
  }

  /** Every decoded sample lies in [-1, 1): the most negative value maps to
      exactly -1 and the most positive to just below 1. */
  lemma NormalizedRange(lo: Byte, hi: Byte)
    ensures -1.0 <= Normalize(Int16LE(lo, hi)) < 1.0
    ensures Normalize(Int16LE(0, 128)) == -1.0
    ensures Normalize(Int16LE(255, 127)) == 32767.0 / 32768.0
  {
  }

  /** The decoded, device-ready waveform. */
  datatype AudioBuffer = AudioBuffer(sampleRate: int, numberOfChannels: nat, length: nat, channels: seq<seq<real>>)

  const NotSupported: string := "NotSupportedError"

  /** The interleaved position of frame i of channel c among n channels. */
  function SampleIndex(i: nat, c: nat, n: nat): nat {
    i * n + c
  }

  /** Helper: frame i of channel c reads a sample inside the padded input. */
  lemma FrameIndexInRange(i: nat, c: nat, n: nat, sampleCount: nat)
    requires 0 < n && c < n && i < sampleCount / n
    ensures SampleIndex(i, c, n) < sampleCount
  {
    var q := sampleCount / n;
    assert q * n + sampleCount % n == sampleCount;
    MulMono(i + 1, q, n);
    assert SampleIndex(i, c, n) < (i + 1) * n;
  }

  /** Helper: multiplication by a non-negative number is monotonic. */
  lemma MulMono(a: int, b: int, n: int)
    requires a <= b && n >= 0
    ensures a * n <= b * n
  {
  }

  /** What the audio context's `createBuffer` accepts, which depends on the
      engine: at most so many channels and a range of sample rates. */
  datatype BufferLimits = BufferLimits(maxChannels: nat, minRate: int, maxRate: int)

  /** The least an engine must accept under the `createBuffer` method of the
      Web Audio API's BaseAudioContext: 32 channels and every rate from 8000
      to 96000 Hz. */
  predicate Conforming(l: BufferLimits) {
    l.maxChannels >= 32 && l.minRate <= 8000 && 96000 <= l.maxRate
  }

  /** `createBuffer` throws NotSupportedError for no channel, more channels
      than the engine supports, a sample rate outside its range, or a length
      of no frame (fewer samples than channels). */
  predicate Rejected(l: BufferLimits, numChannels: nat, sampleCount: nat, sampleRate: int) {
    || numChannels == 0
    || numChannels > l.maxChannels
    || sampleRate < l.minRate || sampleRate > l.maxRate
    || sampleCount < numChannels
  }

  /** With the defaults the speech path uses, a conforming engine rejects only
      empty audio: a single byte is padded into one sample. */
  lemma DefaultsRejectOnlyEmpty(l: BufferLimits, data: seq<Byte>)
    requires Conforming(l)
    ensures Rejected(l, DefaultChannels, |Pad(data)| / 2, DefaultSampleRate) <==> |data| == 0
  {
  }

  /** `decodeAudioData`: pads the input, views it as 16-bit samples, makes
      (samples / channels) frames (the buffer length truncates a fractional
      quotient) and puts sample `i * numChannels + c`, scaled, at frame i of
      channel c. It fails exactly when the engine rejects the buffer. */
  method DecodeAudioData(data: seq<Byte>, sampleRate: int, numChannels: nat, limits: BufferLimits) returns (r: Result<AudioBuffer, string>)
    ensures r.Failure? <==> Rejected(limits, numChannels, |Pad(data)| / 2, sampleRate)
    ensures r.Failure? ==> r.error == NotSupported
    ensures r.Success? ==>
      && r.value.sampleRate == sampleRate
      && r.value.numberOfChannels == numChannels
      && r.value.length == |Pad(data)| / 2 / numChannels
      && |r.value.channels| == numChannels
      && (forall c :: 0 <= c < numChannels ==> |r.value.channels[c]| == r.value.length)
      && (forall c, i :: 0 <= c < numChannels && 0 <= i < r.value.length ==>
            && 2 * SampleIndex(i, c, numChannels) + 1 < |Pad(data)|
            && r.value.channels[c][i] == Normalize(SampleAt(Pad(data), SampleIndex(i, c, numChannels))))
  {
    var pcm := Pad(data);
    var sampleCount := |pcm| / 2;
    if numChannels == 0 || numChannels > limits.maxChannels || sampleRate < limits.minRate || sampleRate > limits.maxRate {
      return Failure(NotSupported);
    }
    var frameCount := sampleCount / numChannels;
    if frameCount == 0 {
      assert sampleCount < numChannels;
      return Failure(NotSupported);
    }
    assert sampleCount >= numChannels;
    FramesInRange(frameCount, numChannels, sampleCount);
    var channels: seq<seq<real>> := [];
    var channel := 0;
    while channel < numChannels
      invariant 0 <= channel <= numChannels
      invariant |channels| == channel
      invariant forall c :: 0 <= c < channel ==> |channels[c]| == frameCount
      invariant forall c, i :: 0 <= c < channel && 0 <= i < frameCount ==>
        channels[c][i] == Normalize(SampleAt(pcm, SampleIndex(i, c, numChannels)))
    {
      var channelData := DecodeChannel(pcm, numChannels, channel, frameCount);
      channels := channels + [channelData];
      channel := channel + 1;
    }
    r := Success(AudioBuffer(sampleRate, numChannels, frameCount, channels));
  }

  /** Helper: every frame of every channel reads a sample of the input. */
  lemma FramesInRange(frameCount: nat, n: nat, sampleCount: nat)
    requires 0 < n && frameCount == sampleCount / n
    ensures forall i, c :: 0 <= i < frameCount && 0 <= c < n ==> SampleIndex(i, c, n) < sampleCount
  {
    forall i, c | 0 <= i < frameCount && 0 <= c < n
      ensures SampleIndex(i, c, n) < sampleCount
    {
      FrameIndexInRange(i, c, n, sampleCount);
    }
  }

  /** The inner loop of `decodeAudioData`: the scaled samples of one channel. */
  method DecodeChannel(pcm: seq<Byte>, n: nat, channel: nat, frameCount: nat) returns (channelData: seq<real>)
    requires channel < n
    requires forall i, c :: 0 <= i < frameCount && 0 <= c < n ==> 2 * SampleIndex(i, c, n) + 1 < |pcm|
    ensures |channelData| == frameCount
    ensures forall i :: 0 <= i < frameCount ==> channelData[i] == Normalize(SampleAt(pcm, SampleIndex(i, channel, n)))
  {
    channelData := [];
    var i := 0;
    while i < frameCount
      invariant 0 <= i <= frameCount
      invariant |channelData| == i
      invariant forall k :: 0 <= k < i ==> channelData[k] == Normalize(SampleAt(pcm, SampleIndex(k, channel, n)))
    {
      channelData := channelData + [Normalize(SampleAt(pcm, SampleIndex(i, channel, n)))];
      i := i + 1;
    }
  }

  /** The two bytes that encode a signed 16-bit sample, low byte first. */
  function EncodeSample(s: int): (b: (Byte, Byte))
    requires -32768 <= s <= 32767
  {
    var u := if s < 0 then s + 65536 else s;
    (u % 256, u / 256)
  }

  /** Reading back an encoded sample gives the sample. */
  lemma SampleRoundTrip(s: int)
    requires -32768 <= s <= 32767
    ensures Int16LE(EncodeSample(s).0, EncodeSample(s).1) == s
  {
  }

  predicate InInt16Range(samples: seq<int>) {
    forall k :: 0 <= k < |samples| ==> -32768 <= samples[k] <= 32767
  }

  /** Raw PCM bytes of a sample sequence. */
  function EncodePcm(samples: seq<int>): (r: seq<Byte>)
    requires InInt16Range(samples)
    ensures |r| == 2 * |samples|
    ensures forall k :: 0 <= k < |samples| ==>
      r[2 * k] == EncodeSample(samples[k]).0 && r[2 * k + 1] == EncodeSample(samples[k]).1
    decreases |samples|
  {
    if |samples| == 0 then []
    else
      var b := EncodeSample(samples[0]);
      var rest := EncodePcm(samples[1..]);
      var r := [b.0, b.1] + rest;
      assert forall k :: 1 <= k < |samples| ==> samples[1..][k - 1] == samples[k];
      assert forall k :: 1 <= k < |samples| ==> r[2 * k] == rest[2 * (k - 1)] && r[2 * k + 1] == rest[2 * (k - 1) + 1];
      r
  }

  /** The frames of n channels of equal length, interleaved: sample
      i * n + c is frame i of channel c. */
  function Interleave(chs: seq<seq<int>>, frames: nat): (r: seq<int>)
    requires |chs| > 0
    requires forall c :: 0 <= c < |chs| ==> |chs[c]| == frames
    ensures |r| == frames * |chs|
  {
    seq(frames * |chs|, k requires 0 <= k < frames * |chs| =>
      DivBelow(k, |chs|, frames);
      chs[k % |chs|][k / |chs|])
  }

  /** Helper: an index below frames * n has a frame below frames. */
  lemma DivBelow(k: nat, n: nat, frames: nat)
    requires 0 < n && k < frames * n
    ensures k / n < frames
  {
  }

  /** Helper: a positive multiple of n is at least n. */
  lemma MulAtLeast(x: int, n: int)
    requires x >= 1 && n > 0
    ensures x * n >= n
  {
  }

  /** Helper: Euclidean quotient and remainder are unique. */
  lemma DivUnique(a: int, n: int, q: int, r: int)
    requires n > 0 && 0 <= r < n && a == q * n + r
    ensures a / n == q && a % n == r
  {
    var q0 := a / n;
    var r0 := a % n;
    assert q0 * n + r0 == q * n + r;
    if q0 > q {
      MulAtLeast(q0 - q, n);
    } else if q0 < q {
      MulAtLeast(q - q0, n);
    }
  }

  /** Helper: frame i, channel c of an interleaved sequence. */
  lemma InterleaveIndex(i: nat, c: nat, n: nat)
    requires c < n
    ensures SampleIndex(i, c, n) / n == i && SampleIndex(i, c, n) % n == c
  {
    DivUnique(SampleIndex(i, c, n), n, i, c);
  }

  /** Interleaving 16-bit channels gives 16-bit samples. */
  lemma InterleaveInRange(chs: seq<seq<int>>, frames: nat)
    requires |chs| > 0
    requires forall c :: 0 <= c < |chs| ==> |chs[c]| == frames && InInt16Range(chs[c])
    ensures InInt16Range(Interleave(chs, frames))
  {
    var xs := Interleave(chs, frames);
    forall k | 0 <= k < |xs| ensures -32768 <= xs[k] <= 32767 {
      DivBelow(k, |chs|, frames);
    }
  }

  /** Sample i * n + c of the interleaving is frame i of channel c. */
  lemma InterleaveAt(chs: seq<seq<int>>, frames: nat, i: nat, c: nat)
    requires |chs| > 0
    requires forall c :: 0 <= c < |chs| ==> |chs[c]| == frames
    requires c < |chs| && i < frames
    ensures SampleIndex(i, c, |chs|) < frames * |chs|
    ensures Interleave(chs, frames)[SampleIndex(i, c, |chs|)] == chs[c][i]
  {
    var n := |chs|;
    DivUnique(frames * n, n, frames, 0);
    FrameIndexInRange(i, c, n, frames * n);
    InterleaveIndex(i, c, n);
  }

  /** Sample k of the encoded bytes reads back as sample k. */
  lemma EncodedSampleAt(xs: seq<int>, k: nat)
    requires InInt16Range(xs) && k < |xs|
    ensures 2 * k + 1 < |EncodePcm(xs)|
    ensures SampleAt(EncodePcm(xs), k) == xs[k]
  {
    SampleRoundTrip(xs[k]);
  }

  /** Decoding inverts interleaved encoding: encoding n channels of equal
      length, frame by frame, and decoding the bytes with n channels yields the
      same number of frames and, at frame i of channel c, the original sample. */
  lemma DeinterleaveRoundTrip(chs: seq<seq<int>>, frames: nat)
    requires |chs| > 0
    requires forall c :: 0 <= c < |chs| ==> |chs[c]| == frames && InInt16Range(chs[c])
    ensures var n := |chs|;
      InInt16Range(Interleave(chs, frames)) &&
      var bytes := EncodePcm(Interleave(chs, frames));
      && Pad(bytes) == bytes
      && |Pad(bytes)| / 2 / n == frames
      && forall c, i :: 0 <= c < n && 0 <= i < frames ==>
           2 * SampleIndex(i, c, n) + 1 < |bytes| && SampleAt(bytes, SampleIndex(i, c, n)) == chs[c][i]
  {
    var n := |chs|;
    InterleaveInRange(chs, frames);
    var xs := Interleave(chs, frames);
    var bytes := EncodePcm(xs);
    assert |bytes| / 2 == frames * n;
    DivUnique(frames * n, n, frames, 0);
    forall c, i | 0 <= c < n && 0 <= i < frames
      ensures 2 * SampleIndex(i, c, n) + 1 < |bytes| && SampleAt(bytes, SampleIndex(i, c, n)) == chs[c][i]
    {
      InterleaveAt(chs, frames, i, c);
      EncodedSampleAt(xs, SampleIndex(i, c, n));
    }
  }

  /** Two samples 16384 and -32768, mono: two frames, 0.5 and -1.0. */
  lemma DecodeExampleEven()
    ensures Pad([0, 64, 0, 128]) == [0, 64, 0, 128]
    ensures |Pad([0, 64, 0, 128])| / 2 / DefaultChannels == 2
    ensures Normalize(SampleAt([0, 64, 0, 128], 0)) == 0.5
    ensures Normalize(SampleAt([0, 64, 0, 128], 1)) == -1.0
  {
  }

  /** Five bytes, mono: padded to six, three frames, the last sample built from
      the fifth byte and the padding zero. */
  lemma DecodeExampleOdd(data: seq<Byte>)
    requires |data| == 5
    ensures |Pad(data)| == 6
    ensures |Pad(data)| / 2 / DefaultChannels == 3
    ensures SampleAt(Pad(data), 2) == Int16LE(data[4], 0)
  {
  }
}
