/** What a recording session computes, as a function of the frames and timer ticks it
    takes, and what that means for the two channels of the file. */
module RecorderRuns {
  import opened Primitives
  import opened Media

  datatype Event = Frame(frame: AudioFrame) | Tick

  const MAX_CHUNK: nat := 160000
  const USIZE_MAX: nat := U64 - 1

  /** Samples per tick; the product is 32-bit arithmetic. */
  function ChunkSize(samplerate: nat, ptime: nat): nat {
    samplerate / 1000 * ptime % U32
  }

  // ---------- one channel ----------

  /** Samples waiting, and samples already in the file. */
  datatype Lane = Lane(buf: seq<I16>, column: seq<I16>)

  function PadTo(xs: seq<I16>, n: nat): (padded: seq<I16>)
    ensures |padded| == Max(n, |xs|)
  {
    if |xs| >= n then xs else xs + Repeat(0, n - |xs|)
  }

  /** A tick moves exactly n samples to the file, zeros standing in for missing ones. */
  function TickLane(lane: Lane, n: nat): Lane {
    var k := Min(n, |lane.buf|);
    Lane(lane.buf[k..], lane.column + PadTo(lane.buf[..k], n))
  }

  /** The flush empties a channel, padded to the longer of the two. */
  function FlushLane(lane: Lane, n: nat): Lane {
    Lane([], lane.column + PadTo(lane.buf, n))
  }

  // ---------- a session ----------

  /** `channels` numbers the tracks in the order they were first heard. */
  datatype Session = Session(channels: map<string, nat>, left: Lane, right: Lane) {
    function Of(c: nat): Lane {
      if c == 0 then left else right
    }
  }

  const FRESH: Session := Session(map[], Lane([], []), Lane([], []))

  predicate Audible(f: AudioFrame) {
    f.samples.Pcm? && f.samples.samples != []
  }

  function Assign(channels: map<string, nat>, track: string): map<string, nat> {
    if track in channels then channels else channels[track := |channels|]
  }

  function TickAll(s: Session, n: nat): Session {
    Session(s.channels, TickLane(s.left, n), TickLane(s.right, n))
  }

  function Step(s: Session, e: Event, chunk: nat): Session {
    match e
    case Tick =>
      TickAll(s, Min(chunk, MAX_CHUNK))
    case Frame(f) =>
      if !Audible(f) then s
      else
        var channels := Assign(s.channels, f.trackId);
        if channels[f.trackId] % 2 == 0
        then Session(channels, Lane(s.left.buf + f.samples.samples, s.left.column), s.right)
        else Session(channels, s.left, Lane(s.right.buf + f.samples.samples, s.right.column))
  }

  function Run(events: seq<Event>, chunk: nat): Session {
    if events == [] then FRESH
    else Step(Run(events[..|events| - 1], chunk), events[|events| - 1], chunk)
  }

  function Flush(s: Session): Session {
    var n := Max(|s.left.buf|, |s.right.buf|);
    Session(s.channels, FlushLane(s.left, n), FlushLane(s.right, n))
  }

  /** Writing out a first block early does not change what a flush ends with. */
  lemma FlushAfterTick(s: Session)
    ensures var n := Max(|s.left.buf|, |s.right.buf|);
            var w := Min(MAX_CHUNK, n);
            && Flush(TickAll(s, w)) == Flush(s)
            && CeilDiv(n, MAX_CHUNK) == CeilDiv(n - w, MAX_CHUNK) + (if n > 0 then 1 else 0)
            && Max(|TickLane(s.left, w).buf|, |TickLane(s.right, w).buf|) == n - w
  {
    var n := Max(|s.left.buf|, |s.right.buf|);
    var w := Min(MAX_CHUNK, n);
    FlushLaneAfterTick(s.left, w, n);
    FlushLaneAfterTick(s.right, w, n);
  }

  lemma FlushLaneAfterTick(lane: Lane, w: nat, n: nat)
    requires w <= n && |lane.buf| <= n
    ensures FlushLane(TickLane(lane, w), n - w) == FlushLane(lane, n)
  {
    PadInTwo(lane.buf, w, n);
    var k := Min(w, |lane.buf|);
    assert lane.column + PadTo(lane.buf[..k], w) + PadTo(lane.buf[k..], n - w)
        == lane.column + (PadTo(lane.buf[..k], w) + PadTo(lane.buf[k..], n - w));
  }

  lemma PadInTwo(xs: seq<I16>, w: nat, n: nat)
    requires w <= n && |xs| <= n
    ensures var k := Min(w, |xs|); PadTo(xs[..k], w) + PadTo(xs[k..], n - w) == PadTo(xs, n)
  {
    if |xs| >= w {
      assert xs == xs[..w] + xs[w..];
    } else {
      assert xs[..|xs|] == xs && xs[|xs|..] == [];
      assert Repeat(0, w - |xs|) + Repeat(0, n - w) == Repeat(0, n - |xs|);
    }
  }

  // ---------- channel assignment ----------

  predicate Numbered(channels: map<string, nat>) {
    && (forall t :: t in channels ==> channels[t] < |channels|)
    && (forall t, u :: t in channels && u in channels && channels[t] == channels[u] ==> t == u)
  }

  lemma AssignNumbers(channels: map<string, nat>, track: string)
    requires Numbered(channels)
    ensures var after := Assign(channels, track);
            && track in after && Numbered(after)
            && forall t :: t in channels ==> t in after && after[t] == channels[t]
  {
    if track !in channels {
      assert Assign(channels, track).Keys == channels.Keys + {track};
    }
  }

  /** Distinct tracks have distinct numbers, so the first two tracks never share a channel. */
  lemma {:induction false} RunNumbers(events: seq<Event>, chunk: nat)
    ensures Numbered(Run(events, chunk).channels)
  {
    if events != [] {
      var n := |events| - 1;
      RunNumbers(events[..n], chunk);
      if events[n].Frame? {
        AssignNumbers(Run(events[..n], chunk).channels, events[n].frame.trackId);
      }
    }
  }

  lemma StepKeepsChannel(s: Session, e: Event, chunk: nat, track: string)
    requires track in s.channels
    ensures track in Step(s, e, chunk).channels && Step(s, e, chunk).channels[track] == s.channels[track]
  {
  }

  lemma RunKeepsChannel(events: seq<Event>, e: Event, chunk: nat, track: string)
    requires track in Run(events, chunk).channels
    ensures track in Run(events + [e], chunk).channels
    ensures Run(events + [e], chunk).channels[track] == Run(events, chunk).channels[track]
  {
    hide Step;
    assert (events + [e])[..|events|] == events;
    StepKeepsChannel(Run(events, chunk), e, chunk, track);
  }

  /** A track keeps the channel it was given, whatever comes after. */
  lemma {:induction false} ChannelIsForever(events: seq<Event>, more: seq<Event>, chunk: nat, track: string)
    requires track in Run(events, chunk).channels
    ensures track in Run(events + more, chunk).channels
    ensures Run(events + more, chunk).channels[track] == Run(events, chunk).channels[track]
  {
    hide Run;
    if more == [] {
      assert events + more == events;
    } else {
      var m := |more| - 1;
      var before := events + more[..m];
      ChannelIsForever(events, more[..m], chunk, track);
      assert before + [more[m]] == events + more;
      RunKeepsChannel(before, more[m], chunk, track);
    }
  }

  // ---------- losslessness ----------

  /** All audible samples that belong on channel c, in the order they arrived. */
  function Routed(events: seq<Event>, channels: map<string, nat>, c: nat): seq<I16> {
    if events == [] then []
    else
      var n := |events| - 1;
      var before := Routed(events[..n], channels, c);
      match events[n]
      case Tick => before
      case Frame(f) =>
        if Audible(f) && f.trackId in channels && channels[f.trackId] % 2 == c
        then before + f.samples.samples else before
  }

  /** `column` is `heard` with zeros inserted and nothing else changed. */
  predicate ZeroPadded(column: seq<I16>, heard: seq<I16>) {
    if column == [] then heard == []
    else
      var (c, h) := (|column| - 1, |heard| - 1);
      || (heard != [] && column[c] == heard[h] && ZeroPadded(column[..c], heard[..h]))
      || (column[c] == 0 && ZeroPadded(column[..c], heard))
  }

  lemma {:induction false} PaddedAppend(column: seq<I16>, heard: seq<I16>, xs: seq<I16>)
    requires ZeroPadded(column, heard)
    ensures ZeroPadded(column + xs, heard + xs)
  {
    if xs == [] {
      assert column + xs == column && heard + xs == heard;
    } else {
      var n := |xs| - 1;
      PaddedAppend(column, heard, xs[..n]);
      assert (column + xs)[..|column| + n] == column + xs[..n];
      assert (heard + xs)[..|heard| + n] == heard + xs[..n];
    }
  }

  lemma {:induction false} PaddedZeros(column: seq<I16>, heard: seq<I16>, n: nat)
    requires ZeroPadded(column, heard)
    ensures ZeroPadded(column + Repeat(0, n), heard)
  {
    if n == 0 {
      assert column + Repeat(0, n) == column;
    } else {
      PaddedZeros(column, heard, n - 1);
      assert (column + Repeat(0, n))[..|column| + n - 1] == column + Repeat(0, n - 1);
    }
  }

  /** Only padding can make the column longer: at equal length it is the audio itself. */
  lemma {:induction false} PaddedLength(column: seq<I16>, heard: seq<I16>)
    requires ZeroPadded(column, heard)
    ensures |column| >= |heard|
    ensures |column| == |heard| ==> column == heard
  {
    if column != [] {
      var (c, h) := (|column| - 1, |heard| - 1);
      if heard != [] && column[c] == heard[h] && ZeroPadded(column[..c], heard[..h]) {
        PaddedLength(column[..c], heard[..h]);
        assert column == column[..c] + [column[c]] && heard == heard[..h] + [heard[h]];
      } else {
        PaddedLength(column[..c], heard);
      }
    }
  }

  lemma TickKeepsPadded(lane: Lane, heard: seq<I16>, n: nat)
    requires ZeroPadded(lane.column + lane.buf, heard)
    ensures var after := TickLane(lane, n); ZeroPadded(after.column + after.buf, heard)
  {
    var after := TickLane(lane, n);
    if |lane.buf| >= n {
      assert lane.buf[..n] + lane.buf[n..] == lane.buf;
      assert after.column + after.buf == lane.column + lane.buf;
    } else {
      assert lane.buf[..|lane.buf|] == lane.buf;
      assert after.column + after.buf == (lane.column + lane.buf) + Repeat(0, n - |lane.buf|);
      PaddedZeros(lane.column + lane.buf, heard, n - |lane.buf|);
    }
  }

  lemma {:induction false} RoutedStable(events: seq<Event>, small: map<string, nat>, big: map<string, nat>, c: nat)
    requires forall i :: 0 <= i < |events| && events[i].Frame? && Audible(events[i].frame)
                     ==> events[i].frame.trackId in small
    requires forall t :: t in small ==> t in big && big[t] == small[t]
    ensures Routed(events, small, c) == Routed(events, big, c)
  {
    if events != [] {
      var n := |events| - 1;
      RoutedStable(events[..n], small, big, c);
      assert events[n] in events;
    }
  }

  lemma StepNumbers(s: Session, e: Event, chunk: nat)
    ensures forall t :: t in s.channels ==> t in Step(s, e, chunk).channels
    ensures e.Frame? && Audible(e.frame) ==> e.frame.trackId in Step(s, e, chunk).channels
  {
  }

  lemma {:induction false} AudibleTracksNumbered(events: seq<Event>, chunk: nat, i: nat)
    requires i < |events| && events[i].Frame? && Audible(events[i].frame)
    ensures events[i].frame.trackId in Run(events, chunk).channels
  {
    var n := |events| - 1;
    StepNumbers(Run(events[..n], chunk), events[n], chunk);
    if i < n {
      AudibleTracksNumbered(events[..n], chunk, i);
    }
  }

  /** Over every run: what is in the file followed by what still waits is, channel by
      channel, the samples of that channel in order with only zeros inserted. */
  lemma {:induction false} Lossless(events: seq<Event>, chunk: nat, c: nat)
    requires c < 2
    ensures var s := Run(events, chunk);
            ZeroPadded(s.Of(c).column + s.Of(c).buf, Routed(events, s.channels, c))
  {
    if events != [] {
      var n := |events| - 1;
      var before := Run(events[..n], chunk);
      Lossless(events[..n], chunk, c);
      if events[n].Tick? {
        TickKeepsPadded(before.Of(c), Routed(events[..n], before.channels, c), Min(chunk, MAX_CHUNK));
        assert Routed(events, before.channels, c) == Routed(events[..n], before.channels, c);
      } else {
        LosslessStep(events[..n], chunk, c, events[n].frame);
        assert events[..n] + [events[n]] == events;
      }
    }
  }

  /** One more frame, whether or not it is heard for the first time. */
  lemma LosslessStep(past: seq<Event>, chunk: nat, c: nat, f: AudioFrame)
    requires c < 2
    requires var s := Run(past, chunk);
             ZeroPadded(s.Of(c).column + s.Of(c).buf, Routed(past, s.channels, c))
    ensures var s := Step(Run(past, chunk), Frame(f), chunk);
            ZeroPadded(s.Of(c).column + s.Of(c).buf, Routed(past + [Frame(f)], s.channels, c))
  {
    var before := Run(past, chunk);
    var after := Step(before, Frame(f), chunk);
    var heard := Routed(past, before.channels, c);
    assert (past + [Frame(f)])[..|past|] == past;
    FrameKeepsRouting(past, chunk, c, f);
    if Audible(f) && after.channels[f.trackId] % 2 == c {
      LosslessFrame(before.Of(c), heard, f.samples.samples);
      assert Routed(past + [Frame(f)], after.channels, c) == heard + f.samples.samples;
    } else {
      assert Routed(past + [Frame(f)], after.channels, c) == heard;
    }
  }

  /** Numbering a new track does not move any earlier sample to another channel. */
  lemma FrameKeepsRouting(past: seq<Event>, chunk: nat, c: nat, f: AudioFrame)
    ensures var before := Run(past, chunk).channels;
            var after := Step(Run(past, chunk), Frame(f), chunk).channels;
            && Routed(past, after, c) == Routed(past, before, c)
            && (Audible(f) ==> f.trackId in after)
  {
    var before := Run(past, chunk).channels;
    RunNumbers(past, chunk);
    AssignNumbers(before, f.trackId);
    forall i | 0 <= i < |past| && past[i].Frame? && Audible(past[i].frame)
      ensures past[i].frame.trackId in before
    {
      AudibleTracksNumbered(past, chunk, i);
    }
    RoutedStable(past, before, Assign(before, f.trackId), c);
  }

  lemma LosslessFrame(lane: Lane, heard: seq<I16>, xs: seq<I16>)
    requires ZeroPadded(lane.column + lane.buf, heard)
    ensures ZeroPadded(lane.column + (lane.buf + xs), heard + xs)
  {
    PaddedAppend(lane.column + lane.buf, heard, xs);
    assert lane.column + (lane.buf + xs) == (lane.column + lane.buf) + xs;
  }

  /** After the final flush nothing waits and each column is exactly its channel's audio
      with only zeros inserted; both columns have the same length. */
  lemma FlushLossless(events: seq<Event>, chunk: nat, c: nat)
    requires c < 2
    ensures var s := Flush(Run(events, chunk));
            && s.Of(c).buf == []
            && ZeroPadded(s.Of(c).column, Routed(events, s.channels, c))
            && |s.left.column| == |s.right.column|
  {
    var s := Run(events, chunk);
    var n := Max(|s.left.buf|, |s.right.buf|);
    Lossless(events, chunk, c);
    ColumnsAligned(events, chunk);
    FlushKeepsPadded(s.Of(c), Routed(events, s.channels, c), n);
  }

  lemma FlushKeepsPadded(lane: Lane, heard: seq<I16>, n: nat)
    requires ZeroPadded(lane.column + lane.buf, heard) && |lane.buf| <= n
    ensures ZeroPadded(FlushLane(lane, n).column, heard)
  {
    assert lane.column + PadTo(lane.buf, n) == (lane.column + lane.buf) + Repeat(0, n - |lane.buf|);
    PaddedZeros(lane.column + lane.buf, heard, n - |lane.buf|);
  }

  function Ticks(events: seq<Event>): nat {
    if events == [] then 0
    else Ticks(events[..|events| - 1]) + (if events[|events| - 1].Tick? then 1 else 0)
  }

  /** Every tick adds the same number of samples to both columns, so the channels stay aligned. */
  lemma {:induction false} ColumnsAligned(events: seq<Event>, chunk: nat)
    ensures var s := Run(events, chunk);
            |s.left.column| == |s.right.column| == Ticks(events) * Min(chunk, MAX_CHUNK)
  {
    if events != [] {
      var (k, n) := (|events| - 1, Min(chunk, MAX_CHUNK));
      ColumnsAligned(events[..k], chunk);
      if events[k].Tick? {
        Distribute(Ticks(events[..k]), n);
        TickAdds(Run(events[..k], chunk).left, n);
        TickAdds(Run(events[..k], chunk).right, n);
      }
    }
  }

  lemma TickAdds(lane: Lane, n: nat)
    ensures |TickLane(lane, n).column| == |lane.column| + n
  {
  }

  lemma Distribute(t: nat, n: nat)
    ensures (t + 1) * n == t * n + n
  {
  }
}
