/** The processors a track runs its frames through, and muting and holding by editing that list in place. */
module ProcessorChain {
  import opened Primitives
  import opened Media

  /** `Other` is any processor this model does not look into, of some type and identity. */
  datatype Processor = Mute | Hold(onHold: bool) | Other(kind: nat, id: nat)
  datatype Kind = MuteKind | HoldKind | OtherKind(kind: nat)

  /** Processing ends early, with the frame as it then is, when a processor fails. */
  datatype Outcome = Done(frame: AudioFrame) | Stopped(frame: AudioFrame)

  /** What the other processors do to a frame. */
  type Effect = (Processor, AudioFrame) -> Outcome

  function KindOf(p: Processor): Kind {
    match p
    case Mute => MuteKind
    case Hold(_) => HoldKind
    case Other(k, _) => OtherKind(k)
  }

  predicate Has(chain: seq<Processor>, kind: Kind) {
    exists p :: p in chain && KindOf(p) == kind
  }

  function Without(chain: seq<Processor>, kind: Kind): seq<Processor> {
    if chain == [] then []
    else
      var n := |chain| - 1;
      if KindOf(chain[n]) == kind then Without(chain[..n], kind) else Without(chain[..n], kind) + [chain[n]]
  }

  // ---------- frames ----------

  function MuteFrame(f: AudioFrame): AudioFrame {
    match f.samples
    case Pcm(s) => f.(samples := Pcm(Repeat(0, |s|)))
    case Rtp(pt, _) => if 96 <= pt <= 127 then f.(samples := Empty) else f
    case Empty => f
  }

  function HoldFrame(f: AudioFrame): AudioFrame {
    if f.samples.Pcm? then f.(samples := Pcm(Repeat(0, |f.samples.samples|))) else f
  }

  function ApplyOne(effect: Effect, p: Processor, f: AudioFrame): Outcome {
    match p
    case Mute => Done(MuteFrame(f))
    case Hold(on) => Done(if on then HoldFrame(f) else f)
    case Other(_, _) => effect(p, f)
  }

  function ApplyAll(effect: Effect, chain: seq<Processor>, f: AudioFrame): Outcome {
    if chain == [] then Done(f)
    else
      match ApplyOne(effect, chain[0], f)
      case Done(g) => ApplyAll(effect, chain[1..], g)
      case Stopped(g) => Stopped(g)
  }

  /** An empty chain leaves the frame undecoded unless decoding is forced. */
  function Processed(effect: Effect, decode: AudioFrame -> AudioFrame, forceDecode: bool, chain: seq<Processor>,
                     f: AudioFrame): Outcome {
    if !forceDecode && chain == [] then Done(f) else ApplyAll(effect, chain, decode(f))
  }

  // ---------- muting and holding ----------

  function Muting(chain: seq<Processor>): seq<Processor> {
    if Has(chain, MuteKind) then chain else [Mute] + chain
  }

  function Holding(chain: seq<Processor>): seq<Processor> {
    [Hold(true)] + Without(chain, HoldKind)
  }

  class ProcessorChain {
    var processors: seq<Processor>
    var forceDecode: bool

    constructor ()
      ensures processors == [] && forceDecode
    {
      processors, forceDecode := [], true;
    }

    method InsertProcessor(p: Processor)
      modifies this`processors
      ensures processors == [p] + old(processors)
    {
      processors := [p] + processors;
    }

    method AppendProcessor(p: Processor)
      modifies this`processors
      ensures processors == old(processors) + [p]
    {
      processors := processors + [p];
    }

    method HasProcessor(kind: Kind) returns (found: bool)
      ensures found <==> Has(processors, kind)
    {
      for i := 0 to |processors|
        invariant !Has(processors[..i], kind)
      {
        if KindOf(processors[i]) == kind {
          return true;
        }
      }
      assert processors[..|processors|] == processors;
      found := false;
    }

    method RemoveProcessor(kind: Kind)
      modifies this`processors
      ensures processors == Without(old(processors), kind)
    {
      var kept := [];
      for i := 0 to |processors|
        invariant processors == old(processors)
        invariant kept == Without(processors[..i], kind)
      {
        assert processors[..i + 1][..i] == processors[..i];
        if KindOf(processors[i]) != kind {
          kept := kept + [processors[i]];
        }
      }
      assert processors[..|processors|] == processors;
      processors := kept;
    }

    method MuteTrack()
      modifies this`processors
      ensures processors == Muting(old(processors))
    {
      var muted := HasProcessor(MuteKind);
      if !muted {
        InsertProcessor(Mute);
      }
    }

    method UnmuteTrack()
      modifies this`processors
      ensures processors == Without(old(processors), MuteKind)
    {
      RemoveProcessor(MuteKind);
    }

    method HoldTrack()
      modifies this`processors
      ensures processors == Holding(old(processors))
    {
      RemoveProcessor(HoldKind);
      InsertProcessor(Hold(true));
    }

    method ResumeTrack()
      modifies this`processors
      ensures processors == Without(old(processors), HoldKind)
    {
      RemoveProcessor(HoldKind);
    }

    method ProcessFrame(effect: Effect, decode: AudioFrame -> AudioFrame, frame: AudioFrame) returns (outcome: Outcome)
      ensures outcome == Processed(effect, decode, forceDecode, processors, frame)
    {
      if !forceDecode && processors == [] {
        return Done(frame);
      }
      var current := decode(frame);
      for i := 0 to |processors|
        invariant ApplyAll(effect, processors, decode(frame)) == ApplyAll(effect, processors[i..], current)
      {
        assert processors[i..][1..] == processors[i + 1..];
        var one := ApplyOne(effect, processors[i], current);
        if one.Stopped? {
          return one;
        }
        current := one.frame;
      }
      outcome := Done(current);
    }
  }

  // ---------- whole runs ----------

  datatype Op = MuteOp | UnmuteOp | HoldOp | ResumeOp | Append(kind: nat, id: nat) | Remove(kind: nat)

  function Step(chain: seq<Processor>, op: Op): seq<Processor> {
    match op
    case MuteOp => Muting(chain)
    case UnmuteOp => Without(chain, MuteKind)
    case HoldOp => Holding(chain)
    case ResumeOp => Without(chain, HoldKind)
    case Append(k, id) => chain + [Other(k, id)]
    case Remove(k) => Without(chain, OtherKind(k))
  }

  function Run(originals: seq<Processor>, ops: seq<Op>): seq<Processor> {
    if ops == [] then originals else Step(Run(originals, ops[..|ops| - 1]), ops[|ops| - 1])
  }

  function BareStep(bare: seq<Processor>, op: Op): seq<Processor> {
    match op
    case Append(k, id) => bare + [Other(k, id)]
    case Remove(k) => Without(bare, OtherKind(k))
    case _ => bare
  }

  /** The same run on the other processors alone, as if nobody muted or held. */
  function Bare(originals: seq<Processor>, ops: seq<Op>): seq<Processor> {
    if ops == [] then originals else BareStep(Bare(originals, ops[..|ops| - 1]), ops[|ops| - 1])
  }

  /** The last of the two operations decides. */
  predicate Muted(ops: seq<Op>) {
    ops != [] && (ops[|ops| - 1].MuteOp? || (!ops[|ops| - 1].UnmuteOp? && Muted(ops[..|ops| - 1])))
  }

  predicate Held(ops: seq<Op>) {
    ops != [] && (ops[|ops| - 1].HoldOp? || (!ops[|ops| - 1].ResumeOp? && Held(ops[..|ops| - 1])))
  }

  predicate OthersOnly(chain: seq<Processor>) {
    forall i :: 0 <= i < |chain| ==> chain[i].Other?
  }

  /** At most one of each, present exactly when asked for. */
  predicate IsPrefix(p: seq<Processor>, muted: bool, held: bool) {
    if muted && held then p == [Mute, Hold(true)] || p == [Hold(true), Mute]
    else if muted then p == [Mute]
    else if held then p == [Hold(true)]
    else p == []
  }

  lemma {:induction false} WithoutConcat(a: seq<Processor>, b: seq<Processor>, kind: Kind)
    ensures Without(a + b, kind) == Without(a, kind) + Without(b, kind)
  {
    if b == [] {
      assert a + b == a;
    } else {
      WithoutConcat(a, b[..|b| - 1], kind);
      assert (a + b)[..|a + b| - 1] == a + b[..|b| - 1];
    }
  }

  /** Removal takes every processor of the type and leaves each other one as often as it stood there. */
  lemma {:induction false} WithoutExactly(chain: seq<Processor>, kind: Kind, p: Processor)
    ensures multiset(Without(chain, kind))[p] == if KindOf(p) == kind then 0 else multiset(chain)[p]
  {
    if chain != [] {
      var n := |chain| - 1;
      WithoutExactly(chain[..n], kind, p);
      assert chain == chain[..n] + [chain[n]];
    }
  }

  lemma {:induction false} WithoutAbsent(chain: seq<Processor>, kind: Kind)
    requires forall i :: 0 <= i < |chain| ==> KindOf(chain[i]) != kind
    ensures Without(chain, kind) == chain
  {
    if chain != [] {
      WithoutAbsent(chain[..|chain| - 1], kind);
    }
  }

  lemma {:induction false} WithoutOthers(chain: seq<Processor>, kind: Kind)
    requires OthersOnly(chain)
    ensures OthersOnly(Without(chain, kind))
  {
    if chain != [] {
      WithoutOthers(chain[..|chain| - 1], kind);
    }
  }

  lemma WithoutOne(a: Processor, kind: Kind)
    ensures Without([a], kind) == if KindOf(a) == kind then [] else [a]
  {
    assert [a][..0] == [];
  }

  lemma WithoutTwo(a: Processor, b: Processor, kind: Kind)
    ensures Without([a, b], kind) == Without([a], kind) + Without([b], kind)
  {
    assert [a, b] == [a] + [b];
    WithoutConcat([a], [b], kind);
  }

  lemma PrefixWithout(p: seq<Processor>, muted: bool, held: bool, kind: Kind)
    requires IsPrefix(p, muted, held)
    ensures IsPrefix(Without(p, kind), muted && kind != MuteKind, held && kind != HoldKind)
  {
    WithoutOne(Mute, kind);
    WithoutOne(Hold(true), kind);
    WithoutTwo(Mute, Hold(true), kind);
    WithoutTwo(Hold(true), Mute, kind);
  }

  /** After any run the chain is the other processors in their order, behind at most one mute and one hold, which are
      there exactly while muted and held. */
  lemma {:induction false} RunShape(originals: seq<Processor>, ops: seq<Op>) returns (prefix: seq<Processor>)
    requires OthersOnly(originals)
    ensures Run(originals, ops) == prefix + Bare(originals, ops)
    ensures IsPrefix(prefix, Muted(ops), Held(ops)) && OthersOnly(Bare(originals, ops))
  {
    if ops == [] {
      prefix := [];
    } else {
      var n := |ops| - 1;
      var before := RunShape(originals, ops[..n]);
      prefix := StepShape(before, Bare(originals, ops[..n]), ops[n], Muted(ops[..n]), Held(ops[..n]));
    }
  }

  lemma StepShape(p: seq<Processor>, bare: seq<Processor>, op: Op, muted: bool, held: bool) returns (q: seq<Processor>)
    requires IsPrefix(p, muted, held) && OthersOnly(bare)
    ensures IsPrefix(q, op.MuteOp? || (!op.UnmuteOp? && muted), op.HoldOp? || (!op.ResumeOp? && held))
    ensures Step(p + bare, op) == q + BareStep(bare, op) && OthersOnly(BareStep(bare, op))
  {
    match op
    case MuteOp =>
      MutingShape(p, bare, muted, held);
      q := if muted then p else [Mute] + p;
    case HoldOp =>
      q := HoldingShape(p, bare, muted, held);
    case UnmuteOp =>
      q := Without(p, MuteKind);
      RemovingShape(p, bare, MuteKind, muted, held);
    case ResumeOp =>
      q := Without(p, HoldKind);
      RemovingShape(p, bare, HoldKind, muted, held);
    case Append(k, id) =>
      q := p;
      assert p + bare + [Other(k, id)] == p + (bare + [Other(k, id)]);
    case Remove(k) =>
      q := p;
      RemovingOthers(p, bare, k, muted, held);
  }

  lemma HoldingShape(p: seq<Processor>, bare: seq<Processor>, muted: bool, held: bool) returns (q: seq<Processor>)
    requires IsPrefix(p, muted, held) && OthersOnly(bare)
    ensures IsPrefix(q, muted, true) && Holding(p + bare) == q + bare
  {
    q := [Hold(true)] + Without(p, HoldKind);
    RemovingShape(p, bare, HoldKind, muted, held);
  }

  lemma MutingShape(p: seq<Processor>, bare: seq<Processor>, muted: bool, held: bool)
    requires IsPrefix(p, muted, held) && OthersOnly(bare)
    ensures Has(p + bare, MuteKind) <==> muted
    ensures Muting(p + bare) == (if muted then p else [Mute] + p) + bare
  {
    if muted {
      assert Mute in p;
      assert Mute in p + bare;
    } else {
      forall q | q in p + bare ensures KindOf(q) != MuteKind {
        assert q in p || q in bare;
      }
      assert [Mute] + (p + bare) == [Mute] + p + bare;
    }
  }

  lemma RemovingShape(p: seq<Processor>, bare: seq<Processor>, kind: Kind, muted: bool, held: bool)
    requires IsPrefix(p, muted, held) && OthersOnly(bare) && !kind.OtherKind?
    ensures Without(p + bare, kind) == Without(p, kind) + bare
    ensures IsPrefix(Without(p, kind), muted && kind != MuteKind, held && kind != HoldKind)
  {
    WithoutConcat(p, bare, kind);
    WithoutAbsent(bare, kind);
    PrefixWithout(p, muted, held, kind);
  }

  lemma RemovingOthers(p: seq<Processor>, bare: seq<Processor>, k: nat, muted: bool, held: bool)
    requires IsPrefix(p, muted, held) && OthersOnly(bare)
    ensures Without(p + bare, OtherKind(k)) == p + Without(bare, OtherKind(k))
    ensures OthersOnly(Without(bare, OtherKind(k)))
  {
    WithoutConcat(p, bare, OtherKind(k));
    WithoutAbsent(p, OtherKind(k));
    WithoutOthers(bare, OtherKind(k));
  }

  // ---------- what the other processors see ----------

  function Silenced(muted: bool, held: bool, f: AudioFrame): AudioFrame {
    if muted then MuteFrame(f) else if held then HoldFrame(f) else f
  }

  lemma PrefixSilences(effect: Effect, p: seq<Processor>, bare: seq<Processor>, muted: bool, held: bool, f: AudioFrame)
    requires IsPrefix(p, muted, held)
    ensures ApplyAll(effect, p + bare, f) == ApplyAll(effect, bare, Silenced(muted, held, f))
  {
    SilencersCommute(f);
    if |p| == 0 {
      assert p + bare == bare;
    } else if |p| == 1 {
      assert (p + bare)[1..] == bare;
    } else {
      assert (p + bare)[1..][1..] == bare;
      assert (p + bare)[1..][0] == p[1];
    }
  }

  lemma SilencersCommute(f: AudioFrame)
    ensures MuteFrame(HoldFrame(f)) == MuteFrame(f) && HoldFrame(MuteFrame(f)) == MuteFrame(f)
  {
  }

  /** After any run a muted or held chain does to a frame what its other processors alone would do to the silenced
      frame; and a chain that is neither does what they alone would do. */
  lemma RunSilences(effect: Effect, decode: AudioFrame -> AudioFrame, forceDecode: bool,
                    originals: seq<Processor>, ops: seq<Op>, f: AudioFrame)
    requires OthersOnly(originals)
    ensures Processed(effect, decode, forceDecode, Run(originals, ops), f)
         == if Muted(ops) || Held(ops)
            then ApplyAll(effect, Bare(originals, ops), Silenced(Muted(ops), Held(ops), decode(f)))
            else Processed(effect, decode, forceDecode, Bare(originals, ops), f)
  {
    var prefix := RunShape(originals, ops);
    var bare := Bare(originals, ops);
    PrefixSilences(effect, prefix, bare, Muted(ops), Held(ops), decode(f));
    assert !(Muted(ops) || Held(ops)) ==> prefix + bare == bare;
  }

  /** Silence is as long as the sound was, and while muted no dynamic payload passes either. */
  lemma SilenceMeaning(muted: bool, held: bool, f: AudioFrame)
    requires muted || held
    ensures var g := Silenced(muted, held, f);
            && (f.samples.Pcm? ==> g.samples.Pcm? && |g.samples.samples| == |f.samples.samples|
                                   && forall i :: 0 <= i < |g.samples.samples| ==> g.samples.samples[i] == 0)
            && (muted && g.samples.Rtp? ==> !(96 <= g.samples.payloadType <= 127))
            && (!muted && !f.samples.Pcm? ==> g == f)
            && g.(samples := f.samples) == f
  {
  }
}
