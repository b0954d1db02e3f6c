/** The call recorder: two channel buffers drained by a timer into a WAV file whose
    header is rewritten after every step. */
module Recorder {
  import opened Primitives
  import opened Media
  import opened WavFormat
  import opened RecorderRuns

  /** A file opened for writing: its bytes and the cursor. */
  class WavFile {
    var content: seq<Byte>
    var pos: nat

    ghost predicate Valid()
      reads this
    {
      pos <= |content|
    }

    constructor ()
      ensures Valid() && content == []
    {
      content, pos := [], 0;
    }

    method SeekStart()
      modifies this`pos
      ensures Valid() && pos == 0
    {
      pos := 0;
    }

    method SeekEnd()
      modifies this`pos
      ensures Valid() && pos == |content|
    {
      pos := |content|;
    }

    /** Overwrites from the cursor and grows the file when it runs past the end. */
    method WriteAll(bytes: seq<Byte>)
      requires Valid()
      modifies this
      ensures Valid() && pos == old(pos) + |bytes|
      ensures content == old(content[..pos]) + bytes
                         + (if pos <= |old(content)| then old(content)[pos..] else [])
    {
      var end := pos + |bytes|;
      content := content[..pos] + bytes + (if end <= |content| then content[end..] else []);
      pos := end;
    }
  }

  /** `mix_buffers`: the loop that interleaves two equally long buffers. */
  method MixBuffers(mono: seq<I16>, stereo: seq<I16>) returns (mixed: seq<I16>)
    requires |mono| == |stereo|
    ensures mixed == Interleave(mono, stereo)
  {
    mixed := [];
    for i := 0 to |mono|
      invariant mixed == Interleave(mono[..i], stereo[..i])
    {
      assert mono[..i + 1][..i] == mono[..i] && stereo[..i + 1][..i] == stereo[..i];
      mixed := mixed + [mono[i]];
      mixed := mixed + [stereo[i]];
    }
    assert mono[..|mono|] == mono && stereo[..|mono|] == stereo;
  }

  /** `extract_samples`: drains the front of a buffer. */
  method ExtractSamples(buffer: seq<I16>, size: nat) returns (taken: seq<I16>, rest: seq<I16>)
    ensures taken + rest == buffer && |taken| == Min(size, |buffer|)
  {
    if size > 0 && buffer != [] {
      var k := Min(size, |buffer|);
      taken, rest := buffer[..k], buffer[k..];
    } else {
      taken, rest := [], buffer;
    }
  }

  /** One channel's share of `pop`. */
  method PopChannel(buffer: seq<I16>, chunkSize: nat) returns (popped: seq<I16>, rest: seq<I16>)
    ensures var n := Min(chunkSize, MAX_CHUNK);
            var k := Min(n, |buffer|);
            && rest == buffer[k..]
            && popped == if chunkSize == USIZE_MAX then buffer[..k] else PadTo(buffer[..k], n)
  {
    var safe := Min(chunkSize, MAX_CHUNK);
    if |buffer| >= safe {
      popped, rest := ExtractSamples(buffer, safe);
    } else if buffer != [] {
      popped, rest := ExtractSamples(buffer, |buffer|);
      if chunkSize != USIZE_MAX {
        popped := PadTo(popped, safe);
      }
    } else {
      popped, rest := [], buffer;
      if chunkSize != USIZE_MAX {
        popped := Repeat(0, safe);
      }
    }
    assert popped[..Min(safe, |buffer|)] == buffer[..Min(safe, |buffer|)];
  }

  class Recorder {
    const samplerate: nat
    const ptime: nat
    var samplesWritten: nat
    var channelIdx: nat
    var channels: map<string, nat>
    var stereoBuf: seq<I16>
    var monoBuf: seq<I16>

    constructor (samplerate: nat, ptime: nat)
      ensures this.samplerate == samplerate && this.ptime == ptime
      ensures samplesWritten == 0 && channelIdx == 0 && channels == map[]
      ensures monoBuf == [] && stereoBuf == []
    {
      this.samplerate, this.ptime := samplerate, ptime;
      samplesWritten, channelIdx, channels := 0, 0, map[];
      stereoBuf, monoBuf := [], [];
    }

    // ---------- what the file holds ----------

    /** The file is a 44-byte header and `samplesWritten` bytes of whole frames. */
    ghost predicate Layout(file: WavFile)
      reads this, file
    {
      && file.Valid()
      && WholeFrames(file.content)
      && |file.content| == HEADER_LEN + samplesWritten
      && channelIdx == |channels|
    }

    ghost predicate HeaderCurrent(file: WavFile, payloadType: Option<Byte>)
      reads this, file
    {
      && |file.content| == HEADER_LEN + samplesWritten
      && file.content[..HEADER_LEN] == HeaderBytes(HeaderFor(payloadType, samplerate, samplesWritten))
    }

    /** The session this recorder and its file amount to. */
    ghost function View(file: WavFile): Session
      requires Layout(file)
      reads this, file
    {
      Session(channels, Lane(monoBuf, Column(file.content, 0)), Lane(stereoBuf, Column(file.content, 1)))
    }

    // ---------- the steps ----------

    method UpdateWavHeader(file: WavFile, payloadType: Option<Byte>)
      requires file.Valid()
      modifies file
      ensures file.Valid() && file.pos == |file.content|
      ensures file.content == HeaderBytes(HeaderFor(payloadType, samplerate, samplesWritten))
                              + (if |old(file.content)| >= HEADER_LEN then old(file.content)[HEADER_LEN..] else [])
    {
      var header := HeaderBytes(HeaderFor(payloadType, samplerate, samplesWritten));
      file.SeekStart();
      file.WriteAll(header);
      file.SeekEnd();
    }

    method GetChannelIndex(track: string) returns (c: nat)
      requires channelIdx == |channels|
      modifies this`channelIdx, this`channels
      ensures channels == Assign(old(channels), track) && channelIdx == |channels|
      ensures c == channels[track] % 2
    {
      if track in channels {
        c := channels[track] % 2;
      } else {
        var newIdx := channelIdx;
        channelIdx := channelIdx + 1;
        channels := channels[track := newIdx];
        c := newIdx % 2;
      }
    }

    method AppendFrame(file: WavFile, frame: AudioFrame)
      requires Layout(file)
      modifies this`channelIdx, this`channels, this`monoBuf, this`stereoBuf
      ensures Layout(file)
      ensures forall chunk :: View(file) == Step(old(View(file)), Frame(frame), chunk)
    {
      if !frame.samples.Pcm? || frame.samples.samples == [] {
        return;
      }
      var c := GetChannelIndex(frame.trackId);
      if c == 0 {
        monoBuf := monoBuf + frame.samples.samples;
      } else if c == 1 {
        stereoBuf := stereoBuf + frame.samples.samples;
      }
    }

    /** Always two buffers of equal length. */
    method Pop(chunkSize: nat) returns (mono: seq<I16>, stereo: seq<I16>)
      modifies this`monoBuf, this`stereoBuf
      ensures |mono| == |stereo|
      ensures chunkSize != USIZE_MAX ==> |mono| == Min(chunkSize, MAX_CHUNK)
      ensures var k := Min(Min(chunkSize, MAX_CHUNK), |old(monoBuf)|);
              monoBuf == old(monoBuf)[k..] && mono == PadTo(old(monoBuf)[..k], |mono|)
      ensures var k := Min(Min(chunkSize, MAX_CHUNK), |old(stereoBuf)|);
              stereoBuf == old(stereoBuf)[k..] && stereo == PadTo(old(stereoBuf)[..k], |stereo|)
      ensures chunkSize == USIZE_MAX ==> |mono| == Min(MAX_CHUNK, Max(|old(monoBuf)|, |old(stereoBuf)|))
    {
      mono, monoBuf := PopChannel(monoBuf, chunkSize);
      stereo, stereoBuf := PopChannel(stereoBuf, chunkSize);
      if chunkSize == USIZE_MAX {
        var n := Max(|mono|, |stereo|);
        mono := PadTo(mono, n);
        stereo := PadTo(stereo, n);
      }
    }

    method WriteAudioData(file: WavFile, mono: seq<I16>, stereo: seq<I16>) returns (written: nat)
      requires file.Valid() && WholeFrames(file.content) && |mono| == |stereo|
      modifies file
      ensures file.Valid() && WholeFrames(file.content) && written == |mono|
      ensures |file.content| == |old(file.content)| + 4 * written
      ensures file.content[..HEADER_LEN] == old(file.content)[..HEADER_LEN]
      ensures Column(file.content, 0) == old(Column(file.content, 0)) + mono
      ensures Column(file.content, 1) == old(Column(file.content, 1)) + stereo
    {
      var longest := Max(|mono|, |stereo|);
      if longest == 0 {
        return 0;
      }
      var mixed := MixBuffers(mono, stereo);
      ColumnAppend(file.content, mono, stereo);
      file.SeekEnd();
      file.WriteAll(SamplesToBytes(mixed));
      assert file.content == old(file.content) + SamplesToBytes(mixed);
      written := longest;
    }

    /** Writes a block and counts its bytes. */
    method StoreBlock(file: WavFile, mono: seq<I16>, stereo: seq<I16>) returns (written: nat)
      requires Layout(file) && |mono| == |stereo|
      modifies file, this`samplesWritten
      ensures Layout(file) && written == |mono|
      ensures Column(file.content, 0) == old(Column(file.content, 0)) + mono
      ensures Column(file.content, 1) == old(Column(file.content, 1)) + stereo
    {
      written := WriteAudioData(file, mono, stereo);
      if written > 0 {
        samplesWritten := samplesWritten + written * 4;
      }
    }

    method ProcessBuffers(file: WavFile, mono: seq<I16>, stereo: seq<I16>)
      requires Layout(file) && |mono| == |stereo|
      modifies file, this`samplesWritten
      ensures Layout(file)
      ensures Column(file.content, 0) == old(Column(file.content, 0)) + mono
      ensures Column(file.content, 1) == old(Column(file.content, 1)) + stereo
    {
      if mono == [] && stereo == [] {
        return;
      }
      var _ := StoreBlock(file, mono, stereo);
    }

    /** One round of the flush loop moves a block of each channel, like a tick of its size. */
    method FlushOnce(file: WavFile) returns (written: nat)
      requires Layout(file)
      modifies file, this`samplesWritten, this`monoBuf, this`stereoBuf
      ensures Layout(file)
      ensures written == Min(MAX_CHUNK, Max(|old(monoBuf)|, |old(stereoBuf)|))
      ensures View(file) == TickAll(old(View(file)), written)
    {
      var mono, stereo := Pop(USIZE_MAX);
      if mono == [] && stereo == [] {
        return 0;
      }
      written := StoreBlock(file, mono, stereo);
    }

    /** Writes out whatever both buffers hold, the shorter channel padded with zeros. */
    method FlushBuffers(file: WavFile) returns (pops: nat)
      requires Layout(file)
      modifies file, this`samplesWritten, this`monoBuf, this`stereoBuf
      ensures Layout(file) && View(file) == Flush(old(View(file)))
      ensures pops == Max(CeilDiv(|old(monoBuf)|, MAX_CHUNK), CeilDiv(|old(stereoBuf)|, MAX_CHUNK)) + 1
    {
      ghost var n := Max(|monoBuf|, |stereoBuf|);
      pops := 0;
      while true
        invariant Layout(file) && Flush(View(file)) == Flush(old(View(file)))
        invariant pops + CeilDiv(Max(|monoBuf|, |stereoBuf|), MAX_CHUNK) == CeilDiv(n, MAX_CHUNK)
        decreases |monoBuf| + |stereoBuf|
      {
        FlushAfterTick(View(file));
        var written := FlushOnce(file);
        pops := pops + 1;
        if written == 0 {
          break;
        }
      }
    }

    // ---------- the loops ----------

    /** The recording loop on decoded audio: whichever of a frame, a tick or the
        cancellation comes next is taken; `events` is that order, up to the cancellation. */
    method ProcessRecordingWav(file: WavFile, first: AudioFrame, events: seq<Event>)
      requires file.Valid() && file.content == []
      requires samplesWritten == 0 && channelIdx == 0 && channels == map[] && monoBuf == [] && stereoBuf == []
      modifies this, file
      ensures Layout(file) && HeaderCurrent(file, None)
      ensures View(file) == Flush(Run([Frame(first)] + events, ChunkSize(samplerate, ptime)))
      ensures ZeroPadded(Column(file.content, 0), Routed([Frame(first)] + events, channels, 0))
      ensures ZeroPadded(Column(file.content, 1), Routed([Frame(first)] + events, channels, 1))
      ensures monoBuf == [] && stereoBuf == []
    {
      hide Routed, ZeroPadded, Step;
      UpdateWavHeader(file, None);
      assert View(file) == FRESH;
      AppendFrame(file, first);
      var chunkSize := ChunkSize(samplerate, ptime);
      ghost var taken := [Frame(first)];
      assert taken[..0] == [];
      assert View(file) == Step(FRESH, Frame(first), chunkSize);
      for i := 0 to |events|
        invariant Layout(file) && HeaderCurrent(file, None)
        invariant taken == [Frame(first)] + events[..i]
        invariant View(file) == Run(taken, chunkSize)
      {
        TakeEvent(file, events[i], chunkSize);
        assert (taken + [events[i]])[..|taken|] == taken;
        taken := taken + [events[i]];
      }
      assert taken == [Frame(first)] + events;
      var _ := FlushBuffers(file);
      RefreshHeader(file, None);
      FlushLossless(taken, chunkSize, 0);
      FlushLossless(taken, chunkSize, 1);
    }

    /** The branch of the loop that one frame or tick takes. */
    method TakeEvent(file: WavFile, event: Event, chunkSize: nat)
      requires Layout(file) && chunkSize < USIZE_MAX
      modifies this, file
      ensures Layout(file) && (event.Tick? || old(HeaderCurrent(file, None)) ==> HeaderCurrent(file, None))
      ensures View(file) == Step(old(View(file)), event, chunkSize)
    {
      match event {
        case Frame(frame) =>
          AppendFrame(file, frame);
        case Tick =>
          TickOnce(file, chunkSize);
      }
    }

    method TickOnce(file: WavFile, chunkSize: nat)
      requires Layout(file) && chunkSize < USIZE_MAX
      modifies this`samplesWritten, this`monoBuf, this`stereoBuf, file
      ensures Layout(file) && HeaderCurrent(file, None)
      ensures View(file) == TickAll(old(View(file)), Min(chunkSize, MAX_CHUNK))
    {
      var mono, stereo := Pop(chunkSize);
      ProcessBuffers(file, mono, stereo);
      RefreshHeader(file, None);
    }

    method RefreshHeader(file: WavFile, payloadType: Option<Byte>)
      requires Layout(file)
      modifies file
      ensures Layout(file) && HeaderCurrent(file, payloadType) && View(file) == old(View(file))
    {
      ColumnIgnoresHeader(file.content, HeaderBytes(HeaderFor(payloadType, samplerate, samplesWritten)), 0);
      ColumnIgnoresHeader(file.content, HeaderBytes(HeaderFor(payloadType, samplerate, samplesWritten)), 1);
      UpdateWavHeader(file, payloadType);
    }

    /** The recording loop on packets: payloads are stored as they are. */
    method ProcessRecordingRtp(file: WavFile, first: AudioFrame, frames: seq<AudioFrame>)
      requires file.Valid() && file.content == [] && samplesWritten == 0
      requires first.samples.Rtp?
      modifies this`samplesWritten, file
      ensures file.Valid() && HeaderCurrent(file, Some(first.samples.payloadType))
      ensures file.content[HEADER_LEN..] == Payloads([first] + frames)
    {
      var payloadType := Some(first.samples.payloadType);
      UpdateWavHeader(file, payloadType);
      WritePayload(file, first);
      ghost var taken := [first];
      assert taken[..0] == [];
      for i := 0 to |frames|
        invariant file.Valid() && file.pos == |file.content| == HEADER_LEN + samplesWritten
        invariant taken == [first] + frames[..i]
        invariant file.content[HEADER_LEN..] == Payloads(taken)
      {
        WritePayload(file, frames[i]);
        assert (taken + [frames[i]])[..|taken|] == taken;
        taken := taken + [frames[i]];
      }
      assert taken == [first] + frames;
      UpdateWavHeader(file, payloadType);
    }

    method WritePayload(file: WavFile, frame: AudioFrame)
      requires file.Valid() && file.pos == |file.content| == HEADER_LEN + samplesWritten
      modifies this`samplesWritten, file
      ensures file.Valid() && file.pos == |file.content| == HEADER_LEN + samplesWritten
      ensures file.content[HEADER_LEN..] == old(file.content)[HEADER_LEN..] + Payload(frame)
    {
      if frame.samples.Rtp? {
        file.WriteAll(frame.samples.payload);
        samplesWritten := samplesWritten + |frame.samples.payload|;
        assert file.content == old(file.content) + Payload(frame);
      }
    }
  }

  function Payload(frame: AudioFrame): seq<Byte> {
    if frame.samples.Rtp? then frame.samples.payload else []
  }

  function Payloads(frames: seq<AudioFrame>): seq<Byte> {
    if frames == [] then [] else Payloads(frames[..|frames| - 1]) + Payload(frames[|frames| - 1])
  }
}
