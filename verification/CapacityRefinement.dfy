/** Undisturbed, the small steps of a check or a release do what the guard's own methods do. */
module CapacityRefinement {
  import opened Primitives
  import opened CapacityFallback
  import opened CapacityInterleaving
  import Guard = CapacityGuard

  function ConfigOf(lim: Limits, t: string): Guard.CapacityConfig {
    Guard.CapacityConfig(LimitOf(lim, t).maxCalls, LimitOf(lim, t).maxCps)
  }

  function VerdictOf(r: Guard.CheckResult): Option<Verdict> {
    match r
    case Allowed => Some(Allowed)
    case CpsExceeded(n, _) => Some(CpsExceeded(n))
    case ConcurrentExceeded(n, _) => Some(ConcurrentExceeded(n))
    case TrunkBlocked(_) => None
  }

  /** Equal counters, whatever objects hold them. */
  ghost predicate Agree(s: State, g: Guard.State) {
    forall u: string :: s.cps.Value(u) == Get(g.cps, u) && s.calls.Value(u) == Get(g.concurrent, u)
  }

  function AfterCps(lim: Limits, s: State, t: string): Checker {
    var n := s.cps.Value(t) + 1;
    if LimitOf(lim, t).maxCps.Some? && n > LimitOf(lim, t).maxCps.value then Done(Some(CpsExceeded(n))) else Gate(t)
  }

  /** A new check up to its CPS counter, which it finds or creates. */
  lemma FindCps(lim: Limits, s: State, i: nat, t: string) returns (actions: seq<Action>)
    requires Bound(s) && i < |s.checkers| && s.checkers[i].Done? && LimitOf(lim, t).maxCps.Some?
    ensures var after := Run(lim, s, actions);
            && Bound(after) && after.calls == s.calls && t in after.cps.ids
            && (forall u :: after.cps.Value(u) == s.cps.Value(u))
            && |after.checkers| == |s.checkers| && after.checkers[i] == CpsAdd(t, after.cps.ids[t])
  {
    InsertKeeps(s.cps, t);
    RunOne(lim, s, [], Begin(i, t));
    RunOne(lim, s, [] + [Begin(i, t)], Advance(i));
    actions := [] + [Begin(i, t)] + [Advance(i)];
    if t !in s.cps.ids {
      RunOne(lim, s, actions, Advance(i));
      actions := actions + [Advance(i)];
    }
    RunBound(lim, s, actions);
  }

  ghost predicate Raised(before: Registry, after: Registry, t: string, n: nat) {
    forall u :: after.Value(u) == before.Value(u) + if u == t then n else 0
  }

  lemma AddCps(lim: Limits, s: State, i: nat, t: string)
    requires Bound(s) && i < |s.checkers| && LimitOf(lim, t).maxCps.Some?
    requires t in s.cps.ids && s.checkers[i] == CpsAdd(t, s.cps.ids[t])
    ensures var after := AdvanceChecker(lim, s, i);
            && after.calls == s.calls && |after.checkers| == |s.checkers| && after.checkers[i] == AfterCps(lim, s, t)
            && Raised(s.cps, after.cps, t, 1)
  {
    StoreChangesOne(s.cps, t, s.cps.Value(t) + 1);
  }

  lemma SoloCps(lim: Limits, s: State, i: nat, t: string) returns (actions: seq<Action>)
    requires Bound(s) && i < |s.checkers| && s.checkers[i].Done?
    ensures var after := Run(lim, s, actions);
            && Bound(after) && after.calls == s.calls && |after.checkers| == |s.checkers|
            && Raised(s.cps, after.cps, t, if LimitOf(lim, t).maxCps.Some? then 1 else 0)
            && after.checkers[i] == AfterCps(lim, s, t)
  {
    if LimitOf(lim, t).maxCps.None? {
      actions := SkipCps(lim, s, i, t);
      RunBound(lim, s, actions);
    } else {
      var find := FindCps(lim, s, i, t);
      actions := AddAlone(lim, s, find, i, t);
      RunBound(lim, s, actions);
      SameGate(lim, s, Run(lim, s, find), Run(lim, s, actions), t);
    }
  }

  lemma SameGate(lim: Limits, s: State, ready: State, after: State, t: string)
    requires forall u :: ready.cps.Value(u) == s.cps.Value(u)
    requires Raised(ready.cps, after.cps, t, 1)
    ensures Raised(s.cps, after.cps, t, 1) && AfterCps(lim, ready, t) == AfterCps(lim, s, t)
  {
  }

  lemma AddAlone(lim: Limits, s: State, find: seq<Action>, i: nat, t: string) returns (actions: seq<Action>)
    requires var ready := Run(lim, s, find);
             && Bound(ready) && i < |ready.checkers| && LimitOf(lim, t).maxCps.Some?
             && t in ready.cps.ids && ready.checkers[i] == CpsAdd(t, ready.cps.ids[t])
    ensures var (ready, after) := (Run(lim, s, find), Run(lim, s, actions));
            && after.calls == ready.calls && |after.checkers| == |ready.checkers|
            && after.checkers[i] == AfterCps(lim, ready, t) && Raised(ready.cps, after.cps, t, 1)
  {
    AddCps(lim, Run(lim, s, find), i, t);
    RunOne(lim, s, find, Advance(i));
    actions := find + [Advance(i)];
  }

  lemma SkipCps(lim: Limits, s: State, i: nat, t: string) returns (actions: seq<Action>)
    requires i < |s.checkers| && s.checkers[i].Done? && LimitOf(lim, t).maxCps.None?
    ensures var after := Run(lim, s, actions);
            && after.cps == s.cps && after.calls == s.calls
            && |after.checkers| == |s.checkers| && after.checkers[i] == Gate(t)
  {
    RunOne(lim, s, [], Begin(i, t));
    RunOne(lim, s, [] + [Begin(i, t)], Advance(i));
    actions := [] + [Begin(i, t)] + [Advance(i)];
  }

  predicate Full(lim: Limits, s: State, t: string) {
    LimitOf(lim, t).maxCalls.Some? && s.calls.Value(t) >= LimitOf(lim, t).maxCalls.value
  }

  lemma SoloGate(lim: Limits, s: State, i: nat, t: string) returns (actions: seq<Action>)
    requires Bound(s) && i < |s.checkers| && s.checkers[i] == Gate(t)
    ensures var after := Run(lim, s, actions);
            && Bound(after) && after.cps == s.cps && |after.checkers| == |s.checkers|
            && after.checkers[i]
               == Done(Some(if Full(lim, s, t) then ConcurrentExceeded(s.calls.Value(t)) else Allowed))
            && Raised(s.calls, after.calls, t, if LimitOf(lim, t).maxCalls.Some? && !Full(lim, s, t) then 1 else 0)
  {
    RunOne(lim, s, [], Advance(i));
    actions := [] + [Advance(i)];
    RunBound(lim, s, actions);
    if LimitOf(lim, t).maxCalls.Some? && !Full(lim, s, t) {
      var rest := CountAlone(lim, Run(lim, s, actions), i, t);
      RunConcat(lim, s, actions, rest);
      actions := actions + rest;
    }
  }

  lemma CountAlone(lim: Limits, s: State, i: nat, t: string) returns (actions: seq<Action>)
    requires Bound(s) && i < |s.checkers| && s.checkers[i] == CallLookup(t)
    ensures var after := Run(lim, s, actions);
            && Bound(after) && after.cps == s.cps && |after.checkers| == |s.checkers|
            && after.checkers[i] == Done(Some(Allowed)) && Raised(s.calls, after.calls, t, 1)
  {
    var find := FindCounter(lim, s, i, t);
    var ready := Run(lim, s, find);
    AddCall(lim, ready, i, t);
    RunOne(lim, s, find, Advance(i));
    actions := find + [Advance(i)];
    RunBound(lim, s, actions);
  }

  lemma AddCall(lim: Limits, s: State, i: nat, t: string)
    requires Bound(s) && i < |s.checkers| && t in s.calls.ids && s.checkers[i] == CallAdd(t, s.calls.ids[t])
    ensures var after := AdvanceChecker(lim, s, i);
            && after.cps == s.cps && |after.checkers| == |s.checkers| && after.checkers[i] == Done(Some(Allowed))
            && Raised(s.calls, after.calls, t, 1)
  {
    StoreChangesOne(s.calls, t, s.calls.Value(t) + 1);
  }

  /** What the guard answers, and the counters it leaves, in terms of the counters of the step model. */
  lemma GuardOutcome(lim: Limits, s: State, t: string, g: Guard.State, now: nat, after: State)
    requires Agree(s, g)
    requires Raised(s.cps, after.cps, t, if LimitOf(lim, t).maxCps.Some? then 1 else 0)
    requires Raised(s.calls, after.calls, t,
                    if AfterCps(lim, s, t).Gate? && LimitOf(lim, t).maxCalls.Some? && !Full(lim, s, t) then 1 else 0)
    ensures var outcome := Guard.CheckLocal(g, t, ConfigOf(lim, t), now);
            && Agree(after, outcome.0)
            && VerdictOf(outcome.1)
               == if AfterCps(lim, s, t).Done? then AfterCps(lim, s, t).verdict
                  else Some(if Full(lim, s, t) then ConcurrentExceeded(s.calls.Value(t)) else Allowed)
  {
  }

  /** A check that nobody cuts into gives the guard's answer and leaves the guard's counters. */
  lemma SoloCheck(lim: Limits, s: State, i: nat, t: string, g: Guard.State, now: nat) returns (actions: seq<Action>)
    requires Bound(s) && i < |s.checkers| && s.checkers[i].Done? && Agree(s, g)
    ensures var after := Run(lim, s, actions);
            var outcome := Guard.CheckLocal(g, t, ConfigOf(lim, t), now);
            && Bound(after) && Agree(after, outcome.0)
            && i < |after.checkers| && after.checkers[i] == Done(VerdictOf(outcome.1))
  {
    actions := SoloCounters(lim, s, i, t);
    GuardOutcome(lim, s, t, g, now, Run(lim, s, actions));
  }

  lemma SoloCounters(lim: Limits, s: State, i: nat, t: string) returns (actions: seq<Action>)
    requires Bound(s) && i < |s.checkers| && s.checkers[i].Done?
    ensures var after := Run(lim, s, actions);
            var first := AfterCps(lim, s, t);
            && Bound(after) && |after.checkers| == |s.checkers|
            && Raised(s.cps, after.cps, t, if LimitOf(lim, t).maxCps.Some? then 1 else 0)
            && Raised(s.calls, after.calls, t,
                      if first.Gate? && LimitOf(lim, t).maxCalls.Some? && !Full(lim, s, t) then 1 else 0)
            && after.checkers[i]
               == if first.Done? then first
                  else Done(Some(if Full(lim, s, t) then ConcurrentExceeded(s.calls.Value(t)) else Allowed))
  {
    actions := SoloCps(lim, s, i, t);
    var counted := Run(lim, s, actions);
    if counted.checkers[i] == Gate(t) {
      var rest := SoloGate(lim, counted, i, t);
      RunConcat(lim, s, actions, rest);
      actions := actions + rest;
    }
  }

  /** And so does a release. */
  lemma SoloRelease(lim: Limits, s: State, j: nat, t: string, g: Guard.State) returns (actions: seq<Action>)
    requires Bound(s) && j < |s.releasers| && s.releasers[j].Idle? && Agree(s, g)
    ensures var after := Run(lim, s, actions);
            Bound(after) && j < |after.releasers| && after.releasers[j].Idle? && Agree(after, Guard.Release(g, t))
  {
    RunOne(lim, s, [], BeginRelease(j, t, false));
    actions := [] + [BeginRelease(j, t, false)];
    RunBound(lim, s, actions);
    var begun := Run(lim, s, actions);
    var rest := FinishRelease(lim, begun, j, t);
    RunConcat(lim, s, actions, rest);
    actions := actions + rest;
  }

  lemma FinishRelease(lim: Limits, s: State, j: nat, t: string) returns (actions: seq<Action>)
    requires Bound(s) && j < |s.releasers| && s.releasers[j] == Lookup(t, false)
    ensures var after := Run(lim, s, actions);
            && Bound(after) && |after.releasers| == |s.releasers| && after.releasers[j].Idle? && after.cps == s.cps
            && forall u :: after.calls.Value(u) == if u == t then Less(s.calls.Value(u)) else s.calls.Value(u)
  {
    RunOne(lim, s, [], AdvanceRelease(j));
    actions := [] + [AdvanceRelease(j)];
    RunBound(lim, s, actions);
    var looked := Run(lim, s, actions);
    if !looked.releasers[j].Idle? {
      var rest := FinishLoaded(lim, looked, j, t);
      RunConcat(lim, s, actions, rest);
      actions := actions + rest;
    }
  }

  lemma FinishLoaded(lim: Limits, s: State, j: nat, t: string) returns (actions: seq<Action>)
    requires Bound(s) && j < |s.releasers| && s.releasers[j].LoadValue? && s.releasers[j].trunk == t
    ensures var after := Run(lim, s, actions);
            && Bound(after) && |after.releasers| == |s.releasers| && after.releasers[j].Idle? && after.cps == s.cps
            && forall u :: after.calls.Value(u) == if u == t then Less(s.calls.Value(u)) else s.calls.Value(u)
  {
    assert ReleaserBound(s.releasers[j], s.calls);
    RunOne(lim, s, [], AdvanceRelease(j));
    actions := [] + [AdvanceRelease(j)];
    RunBound(lim, s, actions);
    var loaded := Run(lim, s, actions);
    if !loaded.releasers[j].Idle? {
      forall u ensures AdvanceReleaser(loaded, j).calls.Value(u)
                    == if u == t then Less(s.calls.Value(u)) else s.calls.Value(u) {
        ReleaseIsAtomic(loaded, j, u);
      }
      RunOne(lim, s, actions, AdvanceRelease(j));
      actions := actions + [AdvanceRelease(j)];
      RunBound(lim, s, actions);
    }
  }
}
