/** The timed blocks under overlapping checks: looking up an entry, removing an expired one and blocking are separate
    steps under separate locks, and time passes in between. A check that passed may violate or not. */
module CapacityBlocks {
  import opened Primitives
  import opened CapacityFallback
  import Guard = CapacityGuard

  /** Where one check stands: it has found an expired entry, or it was let through. */
  datatype Stage = Idle | Removing(trunk: string) | Passed(trunk: string)

  /** `slips` counts, since an entry was first made, the checks let through because the expired entry they had found
      was live again when they came to remove it. */
  datatype State = State(now: nat, blocks: map<string, Guard.BlockEntry>, checkers: seq<Stage>, slips: map<string, nat>)

  datatype Action = Tick(time: nat) | Lookup(i: nat, trunk: string) | Remove(i: nat) | Violate(i: nat) | Leave(i: nat)

  function Expire(s: State, i: nat, t: string): State
    requires i < |s.checkers|
  {
    if t !in s.blocks then s.(checkers := s.checkers[i := Passed(t)])
    else if Guard.Active(s.blocks, t, s.now) then
      s.(checkers := s.checkers[i := Passed(t)], slips := s.slips[t := Get(s.slips, t) + 1])
    else s.(checkers := s.checkers[i := Passed(t)], blocks := s.blocks - {t}, slips := s.slips[t := 0])
  }

  /** Actions that cannot happen leave the state alone. */
  function Apply(s: State, a: Action): State {
    match a
    case Tick(d) => s.(now := s.now + d)
    case Lookup(i, t) =>
      if i >= |s.checkers| || !s.checkers[i].Idle? || Guard.Active(s.blocks, t, s.now) then s
      else s.(checkers := s.checkers[i := if t in s.blocks then Removing(t) else Passed(t)])
    case Remove(i) =>
      if i < |s.checkers| && s.checkers[i].Removing? then Expire(s, i, s.checkers[i].trunk) else s
    case Violate(i) =>
      if i < |s.checkers| && s.checkers[i].Passed?
      then s.(checkers := s.checkers[i := Idle], blocks := Guard.AutoBlock(s.blocks, s.checkers[i].trunk, s.now))
      else s
    case Leave(i) =>
      if i < |s.checkers| && s.checkers[i].Passed? then s.(checkers := s.checkers[i := Idle]) else s
  }

  function Initial(k: nat): State {
    State(0, map[], Repeat(Idle, k), map[])
  }

  function Run(s: State, actions: seq<Action>): State {
    if actions == [] then s
    else Apply(Run(s, actions[..|actions| - 1]), actions[|actions| - 1])
  }

  /** Undisturbed, lookup and removal are the guard's own. */
  lemma SoloLookup(s: State, i: nat, t: string, wait: nat)
    requires i < |s.checkers| && s.checkers[i].Idle?
    ensures var looked := Apply(Apply(s, Lookup(i, t)), Tick(wait));
            var after := if looked.checkers[i].Removing? then Apply(looked, Remove(i)) else looked;
            && after.blocks == Guard.AfterLookup(s.blocks, t, Guard.Clock(s.now, s.now + wait, 0))
            && (after.checkers[i] == Passed(t) <==> !Guard.Active(s.blocks, t, s.now))
  {
  }

  // ---------- the bound ----------

  function Passers(cs: seq<Stage>, t: string): (n: nat)
    ensures n <= |cs|
  {
    if cs == [] then 0
    else Passers(cs[..|cs| - 1], t) + (if cs[|cs| - 1] == Passed(t) then 1 else 0)
  }

  lemma {:induction false} PassersUpdate(cs: seq<Stage>, i: nat, c: Stage, t: string)
    requires i < |cs|
    ensures Passers(cs[i := c], t)
         == Passers(cs, t) - (if cs[i] == Passed(t) then 1 else 0) + (if c == Passed(t) then 1 else 0)
  {
    var n := |cs| - 1;
    if i < n {
      PassersUpdate(cs[..n], i, c, t);
      assert cs[i := c][..n] == cs[..n][i := c];
    } else {
      assert cs[i := c][..n] == cs[..n];
    }
  }

  /** Each check let through can add one escalation at most. */
  predicate Bounded(s: State, t: string) {
    t in s.blocks ==> s.blocks[t].escalationCount + Passers(s.checkers, t) <= |s.checkers| + Get(s.slips, t)
  }

  /** Without an entry there is nothing to have slipped past. */
  predicate NoSlips(s: State, t: string) {
    t !in s.blocks ==> Get(s.slips, t) == 0
  }

  lemma StepBounded(s: State, a: Action, t: string)
    requires Bounded(s, t) && NoSlips(s, t)
    ensures Bounded(Apply(s, a), t) && NoSlips(Apply(s, a), t) && |Apply(s, a).checkers| == |s.checkers|
  {
    var after := Apply(s, a);
    if !a.Tick? && a.i < |s.checkers| {
      PassersUpdate(s.checkers, a.i, after.checkers[a.i], t);
      assert s.checkers[a.i := s.checkers[a.i]] == s.checkers;
      if s.checkers[a.i] == Passed(t) {
        PassersUpdate(s.checkers, a.i, Idle, t);
      }
    }
  }

  lemma {:induction false} RunBounded(k: nat, actions: seq<Action>, t: string)
    ensures var s := Run(Initial(k), actions);
            Bounded(s, t) && NoSlips(s, t) && |s.checkers| == k
  {
    if actions != [] {
      RunBounded(k, actions[..|actions| - 1], t);
      StepBounded(Run(Initial(k), actions[..|actions| - 1]), actions[|actions| - 1], t);
    }
  }

  /** Under k overlapping checks a block's escalation count is at most k, plus one for every check that slipped through
      since the block was first made. */
  lemma EscalationBounded(k: nat, actions: seq<Action>, t: string)
    ensures var s := Run(Initial(k), actions);
            t in s.blocks ==> s.blocks[t].escalationCount <= k + Get(s.slips, t)
  {
    RunBounded(k, actions, t);
  }

  // ---------- one check at a time ----------

  /** The only check has found an expired entry, and nobody else can renew it. */
  predicate Alone(s: State) {
    && |s.checkers| == 1
    && (s.checkers[0].Removing? ==> !Guard.Active(s.blocks, s.checkers[0].trunk, s.now))
    && forall t :: t in s.slips ==> s.slips[t] == 0
  }

  lemma {:induction false} NobodySlipsAlone(actions: seq<Action>)
    ensures Alone(Run(Initial(1), actions))
  {
    if actions != [] {
      NobodySlipsAlone(actions[..|actions| - 1]);
    }
  }

  // ---------- two checks ----------

  lemma {:induction false} PowIsOdd(e: nat)
    ensures Guard.Pow(3, e) % 2 == 1
  {
    if e > 0 {
      PowIsOdd(e - 1);
    }
  }

  lemma OddRemainder(x: int, q: int, r: int)
    requires x % 2 == 1 && 60 * x == U64 * q + r
    ensures r != 0
  {
    var h := x / 2;
    assert x == 2 * h + 1;
    assert r == 4 * (2 * (15 * h + 7 - 0x2000_0000_0000_0000 * q) + 1);
  }

  lemma OddProduct(p: nat)
    requires p % 2 == 1
    ensures 60 * (p % U64) % U64 != 0
  {
    var x := p % U64;
    assert x % 2 == 1;
    OddRemainder(x, 60 * x / U64, 60 * x % U64);
  }

  /** However far it escalates, even past the overflow, a block lasts. */
  lemma BlocksLast(e: nat)
    ensures 0 < Guard.BlockSecs(e) <= 3600
  {
    PowIsOdd(e);
    OddProduct(Guard.Pow(3, e));
  }

  lemma RunOne(s: State, actions: seq<Action>, a: Action)
    ensures Run(s, actions + [a]) == Apply(Run(s, actions), a)
  {
    assert (actions + [a])[..|actions|] == actions;
  }

  lemma {:induction false} RunConcat(s: State, first: seq<Action>, second: seq<Action>)
    ensures Run(s, first + second) == Run(Run(s, first), second)
  {
    if second == [] {
      assert first + second == first;
    } else {
      var all := first + second;
      RunConcat(s, first, second[..|second| - 1]);
      assert all[..|all| - 1] == first + second[..|second| - 1];
    }
  }

  /** One check waits, let through, while the other is idle. */
  predicate Poised(s: State, waiting: nat, idle: nat, t: string) {
    && waiting < |s.checkers| && idle < |s.checkers| && waiting != idle
    && s.checkers[waiting] == Passed(t) && s.checkers[idle] == Idle
    && t in s.blocks
  }

  /** The block runs out, the idle check finds it expired, the waiting one renews it, and the idle one, finding it live
      again, is let through: the two have changed places and the block has escalated. */
  lemma Climb(s: State, waiting: nat, idle: nat, t: string) returns (actions: seq<Action>)
    requires Poised(s, waiting, idle, t)
    ensures var after := Run(s, actions);
            && Poised(after, idle, waiting, t)
            && after.blocks[t].escalationCount == s.blocks[t].escalationCount + 1
  {
    var wait := s.blocks[t].until;
    var a, b, c, d := Tick(wait), Lookup(idle, t), Violate(waiting), Remove(idle);
    RunOne(s, [], a);
    RunOne(s, [] + [a], b);
    RunOne(s, [] + [a] + [b], c);
    RunOne(s, [] + [a] + [b] + [c], d);
    actions := [] + [a] + [b] + [c] + [d];
    ClimbSteps(s, waiting, idle, t);
  }

  lemma ClimbSteps(s: State, waiting: nat, idle: nat, t: string)
    requires Poised(s, waiting, idle, t)
    ensures var expired := Apply(Apply(s, Tick(s.blocks[t].until)), Lookup(idle, t));
            var after := Apply(Apply(expired, Violate(waiting)), Remove(idle));
            && Poised(after, idle, waiting, t)
            && after.blocks[t].escalationCount == s.blocks[t].escalationCount + 1
  {
    BlocksLast(s.blocks[t].escalationCount);
    var expired := Apply(Apply(s, Tick(s.blocks[t].until)), Lookup(idle, t));
    assert expired.checkers == s.checkers[idle := Removing(t)] && expired.blocks == s.blocks;
    var renewed := Apply(expired, Violate(waiting));
    assert renewed.checkers == expired.checkers[waiting := Idle];
    assert Guard.Active(renewed.blocks, t, renewed.now);
  }

  lemma {:induction false} ClimbTo(s: State, waiting: nat, idle: nat, t: string, n: nat) returns (actions: seq<Action>)
    requires Poised(s, waiting, idle, t) && s.blocks[t].escalationCount <= n
    ensures var after := Run(s, actions);
            t in after.blocks && after.blocks[t].escalationCount == n
    decreases n - s.blocks[t].escalationCount
  {
    actions := [];
    if s.blocks[t].escalationCount < n {
      var first := Climb(s, waiting, idle, t);
      var rest := ClimbTo(Run(s, first), idle, waiting, t, n);
      RunConcat(s, first, rest);
      actions := first + rest;
    }
  }

  /** Escalation is bounded if and only if checks never overlap: one at a time it stays at the first block, and from two
      overlapping checks on every count is reached. */
  lemma EscalationReached(k: nat, t: string, n: nat) returns (actions: seq<Action>)
    requires k >= 2 && n > 0
    ensures var s := Run(Initial(k), actions);
            t in s.blocks && s.blocks[t].escalationCount == n
  {
    var s := Initial(k);
    var a, b, c := Lookup(0, t), Lookup(1, t), Violate(0);
    RunOne(s, [], a);
    RunOne(s, [] + [a], b);
    RunOne(s, [] + [a] + [b], c);
    var start := [] + [a] + [b] + [c];
    assert Poised(Run(s, start), 1, 0, t) && Run(s, start).blocks[t].escalationCount == 1;
    var climb := ClimbTo(Run(s, start), 1, 0, t, n);
    RunConcat(s, start, climb);
    actions := start + climb;
  }

  lemma NeverEscalatesAlone(actions: seq<Action>, t: string)
    ensures var s := Run(Initial(1), actions);
            t in s.blocks ==> s.blocks[t].escalationCount <= 1
  {
    EscalationBounded(1, actions, t);
    NobodySlipsAlone(actions);
  }
}
