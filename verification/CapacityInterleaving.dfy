/** The local capacity path as small steps of many tasks. Every lock-held block and every
    atomic operation is one step, so all interleavings are runs. The block check before
    it can only keep a check from starting, and is left to CapacityGuard. */
module CapacityInterleaving {
  import opened Primitives
  import opened CapacityFallback

  datatype Limit = Limit(maxCalls: Option<nat>, maxCps: Option<nat>)
  type Limits = map<string, Limit>

  /** A trunk without an entry is unlimited. */
  function LimitOf(lim: Limits, t: string): Limit {
    if t in lim then lim[t] else Limit(None, None)
  }

  /** Shared counters: which counter a trunk is bound to, and the counters by number. */
  datatype Registry = Registry(ids: map<string, nat>, cells: seq<nat>) {
    predicate Valid() {
      && (forall t :: t in ids ==> ids[t] < |cells|)
      && (forall t, u :: t in ids && u in ids && ids[t] == ids[u] ==> t == u)
    }

    function Value(trunk: string): nat {
      if trunk in ids && ids[trunk] < |cells| then cells[ids[trunk]] else 0
    }

    /** `entry().or_insert_with()` under the write lock. */
    function Insert(trunk: string): Registry {
      if trunk in ids then this else Registry(ids[trunk := |cells|], cells + [0])
    }

    function Store(id: nat, n: nat): Registry {
      if id < |cells| then Registry(ids, cells[id := n]) else this
    }

    function Load(id: nat): nat {
      if id < |cells| then cells[id] else 0
    }
  }

  datatype Verdict = Allowed | CpsExceeded(current: nat) | ConcurrentExceeded(current: nat)

  /** Where one check stands. */
  datatype Checker =
    | Done(verdict: Option<Verdict>)
    | Start(trunk: string)
    | CpsInsert(trunk: string)
    | CpsAdd(trunk: string, id: nat)
    | Gate(trunk: string)
    | CallLookup(trunk: string)
    | CallInsert(trunk: string)
    | CallAdd(trunk: string, id: nat)

  /** Where one release stands; `counted` says whether the call was admitted by a local
      increment rather than by Redis or without a limit. */
  datatype Releaser =
    | Idle
    | Lookup(trunk: string, counted: bool)
    | LoadValue(trunk: string, counted: bool, id: nat)
    | Exchange(trunk: string, counted: bool, id: nat, seen: nat)

  /** What happened so far, for the statements only. */
  datatype Tally = Tally(
    passedCps: map<string, nat>,  // checks past the CPS gate since the last reset
    addedCps: map<string, nat>,   // CPS increments since the last reset
    admitted: map<string, nat>,   // local increments of the call counter
    lowered: map<string, nat>,    // decrements that took effect
    stolen: map<string, nat>,     // those of them made for a call that was not counted locally
    live: map<string, nat>,       // locally counted calls whose release is not complete
    free: map<string, nat>)       // locally counted calls whose release has not begun

  datatype State = State(cps: Registry, calls: Registry, checkers: seq<Checker>, releasers: seq<Releaser>, tally: Tally)

  function Bump(m: map<string, nat>, t: string): map<string, nat> {
    m[t := Get(m, t) + 1]
  }

  function Drop(m: map<string, nat>, t: string): map<string, nat> {
    m[t := Less(Get(m, t))]
  }

  datatype Action =
    | Begin(i: nat, trunk: string)                       // a finished checker takes a new call
    | Advance(i: nat)                                    // a checker takes its next step
    | BeginRelease(j: nat, trunk: string, counted: bool) // a call ends
    | AdvanceRelease(j: nat)
    | ResetCps(trunk: string)                            // one store of `reset_cps` or `reset_all_cps`

  function AdvanceChecker(lim: Limits, s: State, i: nat): State
    requires i < |s.checkers|
  {
    match s.checkers[i]
    case Done(_) => s
    case Start(t) =>
      if LimitOf(lim, t).maxCps.None? then s.(checkers := s.checkers[i := Gate(t)])
      else if t in s.cps.ids then s.(checkers := s.checkers[i := CpsAdd(t, s.cps.ids[t])])
      else s.(checkers := s.checkers[i := CpsInsert(t)])
    case CpsInsert(t) =>
      var cps := s.cps.Insert(t);
      s.(cps := cps, checkers := s.checkers[i := CpsAdd(t, cps.ids[t])])
    case CpsAdd(t, id) =>
      var n := s.cps.Load(id) + 1;
      var tally := s.tally.(addedCps := Bump(s.tally.addedCps, t));
      if LimitOf(lim, t).maxCps.Some? && n > LimitOf(lim, t).maxCps.value then
        s.(cps := s.cps.Store(id, n), checkers := s.checkers[i := Done(Some(CpsExceeded(n)))], tally := tally)
      else
        s.(cps := s.cps.Store(id, n), checkers := s.checkers[i := Gate(t)],
           tally := tally.(passedCps := Bump(tally.passedCps, t)))
    case Gate(t) =>
      if LimitOf(lim, t).maxCalls.None? then s.(checkers := s.checkers[i := Done(Some(Allowed))])
      else
        var current := s.calls.Value(t);
        if current >= LimitOf(lim, t).maxCalls.value
        then s.(checkers := s.checkers[i := Done(Some(ConcurrentExceeded(current)))])
        else s.(checkers := s.checkers[i := CallLookup(t)])
    case CallLookup(t) =>
      if t in s.calls.ids then s.(checkers := s.checkers[i := CallAdd(t, s.calls.ids[t])])
      else s.(checkers := s.checkers[i := CallInsert(t)])
    case CallInsert(t) =>
      var calls := s.calls.Insert(t);
      s.(calls := calls, checkers := s.checkers[i := CallAdd(t, calls.ids[t])])
    case CallAdd(t, id) =>
      s.(calls := s.calls.Store(id, s.calls.Load(id) + 1),
         checkers := s.checkers[i := Done(Some(Allowed))],
         tally := s.tally.(admitted := Bump(s.tally.admitted, t),
                           live := Bump(s.tally.live, t), free := Bump(s.tally.free, t)))
  }

  function Finish(s: State, j: nat, t: string, counted: bool): State
    requires j < |s.releasers|
  {
    s.(releasers := s.releasers[j := Idle],
       tally := if counted then s.tally.(live := Drop(s.tally.live, t)) else s.tally)
  }

  function AdvanceReleaser(s: State, j: nat): State
    requires j < |s.releasers|
  {
    match s.releasers[j]
    case Idle => s
    case Lookup(t, counted) =>
      if t in s.calls.ids then s.(releasers := s.releasers[j := LoadValue(t, counted, s.calls.ids[t])])
      else Finish(s, j, t, counted)
    case LoadValue(t, counted, id) =>
      var seen := s.calls.Load(id);
      if seen == 0 then Finish(s, j, t, counted)
      else s.(releasers := s.releasers[j := Exchange(t, counted, id, seen)])
    case Exchange(t, counted, id, seen) =>
      if s.calls.Load(id) == seen then
        Finish(s.(calls := s.calls.Store(id, Less(seen)),
                  tally := s.tally.(lowered := Bump(s.tally.lowered, t),
                                    stolen := if counted then s.tally.stolen else Bump(s.tally.stolen, t))),
               j, t, counted)
      else s.(releasers := s.releasers[j := LoadValue(t, counted, id)])
  }

  /** Actions that cannot happen leave the state alone. */
  function Apply(lim: Limits, s: State, a: Action): State {
    match a
    case Begin(i, t) =>
      if i < |s.checkers| && s.checkers[i].Done? then s.(checkers := s.checkers[i := Start(t)]) else s
    case Advance(i) => if i < |s.checkers| then AdvanceChecker(lim, s, i) else s
    case BeginRelease(j, t, counted) =>
      if j < |s.releasers| && s.releasers[j].Idle? && (counted ==> Get(s.tally.free, t) > 0) then
        s.(releasers := s.releasers[j := Lookup(t, counted)],
           tally := if counted then s.tally.(free := Drop(s.tally.free, t)) else s.tally)
      else s
    case AdvanceRelease(j) => if j < |s.releasers| then AdvanceReleaser(s, j) else s
    case ResetCps(t) =>
      s.(cps := if t in s.cps.ids then s.cps.Store(s.cps.ids[t], 0) else s.cps,
         tally := s.tally.(passedCps := s.tally.passedCps[t := 0], addedCps := s.tally.addedCps[t := 0]))
  }

  /** k checker slots, m releaser slots, nothing counted yet. */
  function Initial(k: nat, m: nat): State {
    State(Registry(map[], []), Registry(map[], []), Repeat(Done(None), k), Repeat(Idle, m),
          Tally(map[], map[], map[], map[], map[], map[], map[]))
  }

  function Run(lim: Limits, s: State, actions: seq<Action>): State {
    if actions == [] then s
    else Apply(lim, Run(lim, s, actions[..|actions| - 1]), actions[|actions| - 1])
  }

  lemma RunOne(lim: Limits, s: State, actions: seq<Action>, a: Action)
    ensures Run(lim, s, actions + [a]) == Apply(lim, Run(lim, s, actions), a)
  {
    assert (actions + [a])[..|actions|] == actions;
  }

  lemma {:induction false} RunConcat(lim: Limits, s: State, first: seq<Action>, second: seq<Action>)
    ensures Run(lim, s, first + second) == Run(lim, Run(lim, s, first), second)
  {
    hide Apply;
    if second == [] {
      assert first + second == first;
    } else {
      var (front, a) := (second[..|second| - 1], second[|second| - 1]);
      RunConcat(lim, s, first, front);
      var all := first + second;
      assert all[..|all| - 1] == first + front && all[|all| - 1] == a;
    }
  }

  // ---------- counting tasks ----------

  /** Past the concurrency gate but not yet counted. */
  predicate Passing(c: Checker, t: string) {
    (c.CallLookup? || c.CallInsert? || c.CallAdd?) && c.trunk == t
  }

  function Passers(cs: seq<Checker>, t: string): (n: nat)
    ensures n <= |cs|
  {
    if cs == [] then 0
    else Passers(cs[..|cs| - 1], t) + (if Passing(cs[|cs| - 1], t) then 1 else 0)
  }

  predicate Releasing(r: Releaser, t: string) {
    !r.Idle? && r.trunk == t && r.counted
  }

  function Releasers(rs: seq<Releaser>, t: string): nat {
    if rs == [] then 0
    else Releasers(rs[..|rs| - 1], t) + (if Releasing(rs[|rs| - 1], t) then 1 else 0)
  }

  lemma {:induction false} PassersUpdate(cs: seq<Checker>, i: nat, c: Checker, t: string)
    requires i < |cs|
    ensures Passers(cs[i := c], t)
         == Passers(cs, t) - (if Passing(cs[i], t) then 1 else 0) + (if Passing(c, t) then 1 else 0)
  {
    var n := |cs| - 1;
    if i < n {
      PassersUpdate(cs[..n], i, c, t);
      assert cs[i := c][..n] == cs[..n][i := c];
    } else {
      assert cs[i := c][..n] == cs[..n];
    }
  }

  lemma {:induction false} ReleasersUpdate(rs: seq<Releaser>, j: nat, r: Releaser, t: string)
    requires j < |rs|
    ensures Releasers(rs[j := r], t)
         == Releasers(rs, t) - (if Releasing(rs[j], t) then 1 else 0) + (if Releasing(r, t) then 1 else 0)
  {
    var n := |rs| - 1;
    if j < n {
      ReleasersUpdate(rs[..n], j, r, t);
      assert rs[j := r][..n] == rs[..n][j := r];
    } else {
      assert rs[j := r][..n] == rs[..n];
    }
  }

  // ---------- binding ----------

  predicate CheckerBound(c: Checker, cps: Registry, calls: Registry) {
    && (c.CpsAdd? ==> c.trunk in cps.ids && cps.ids[c.trunk] == c.id)
    && (c.CallAdd? ==> c.trunk in calls.ids && calls.ids[c.trunk] == c.id)
  }

  predicate ReleaserBound(r: Releaser, calls: Registry) {
    && (r.LoadValue? || r.Exchange? ==> r.trunk in calls.ids && calls.ids[r.trunk] == r.id)
    && (r.Exchange? ==> r.seen > 0)
  }

  /** Every task that holds a counter holds the one its trunk is bound to. */
  predicate Bound(s: State) {
    && s.cps.Valid() && s.calls.Valid()
    && (forall i :: 0 <= i < |s.checkers| ==> CheckerBound(s.checkers[i], s.cps, s.calls))
    && (forall j :: 0 <= j < |s.releasers| ==> ReleaserBound(s.releasers[j], s.calls))
  }

  lemma InsertKeeps(r: Registry, t: string)
    requires r.Valid()
    ensures r.Insert(t).Valid() && t in r.Insert(t).ids
    ensures forall u :: u in r.ids ==> u in r.Insert(t).ids && r.Insert(t).ids[u] == r.ids[u]
    ensures forall u :: r.Insert(t).Value(u) == r.Value(u)
  {
  }

  lemma StoreChangesOne(r: Registry, t: string, n: nat)
    requires r.Valid() && t in r.ids
    ensures r.Store(r.ids[t], n).Valid()
    ensures r.Store(r.ids[t], n).Value(t) == n
    ensures forall u :: u != t ==> r.Store(r.ids[t], n).Value(u) == r.Value(u)
  {
  }

  predicate SameBinding(r: Registry, after: Registry) {
    forall t :: t in r.ids ==> t in after.ids && after.ids[t] == r.ids[t]
  }

  /** Growing the registries and moving one checker keeps every other task bound. */
  lemma MoveKeepsBound(s: State, after: State, i: nat)
    requires Bound(s) && i < |s.checkers|
    requires GoodMove(s, after, i)
    ensures Bound(after)
  {
    forall n | 0 <= n < |after.checkers|
      ensures CheckerBound(after.checkers[n], after.cps, after.calls)
    {
      if n != i {
        assert CheckerBound(s.checkers[n], s.cps, s.calls);
      }
    }
    forall j | 0 <= j < |after.releasers|
      ensures ReleaserBound(after.releasers[j], after.calls)
    {
      assert ReleaserBound(s.releasers[j], s.calls);
    }
  }

  /** What a checker step does to the two registries. */
  predicate GoodMove(s: State, after: State, i: nat)
    requires i < |s.checkers|
  {
    && after.cps.Valid() && after.calls.Valid()
    && SameBinding(s.cps, after.cps) && SameBinding(s.calls, after.calls)
    && |after.checkers| == |s.checkers| && after.checkers == s.checkers[i := after.checkers[i]]
    && after.releasers == s.releasers && CheckerBound(after.checkers[i], after.cps, after.calls)
  }

  lemma InsertMoves(lim: Limits, s: State, i: nat)
    requires s.cps.Valid() && s.calls.Valid() && i < |s.checkers|
    requires s.checkers[i].CpsInsert? || s.checkers[i].CallInsert?
    ensures GoodMove(s, AdvanceChecker(lim, s, i), i)
  {
    InsertKeeps(s.cps, s.checkers[i].trunk);
    InsertKeeps(s.calls, s.checkers[i].trunk);
  }

  lemma AddMoves(lim: Limits, s: State, i: nat)
    requires s.cps.Valid() && s.calls.Valid() && i < |s.checkers| && CheckerBound(s.checkers[i], s.cps, s.calls)
    requires s.checkers[i].CpsAdd? || s.checkers[i].CallAdd?
    ensures GoodMove(s, AdvanceChecker(lim, s, i), i)
  {
    var (t, id) := (s.checkers[i].trunk, s.checkers[i].id);
    if s.checkers[i].CpsAdd? {
      StoreChangesOne(s.cps, t, s.cps.Load(id) + 1);
    } else {
      StoreChangesOne(s.calls, t, s.calls.Load(id) + 1);
    }
  }

  lemma OtherMoves(lim: Limits, s: State, i: nat)
    requires s.cps.Valid() && s.calls.Valid() && i < |s.checkers|
    requires var c := s.checkers[i]; c.Done? || c.Start? || c.Gate? || c.CallLookup?
    ensures GoodMove(s, AdvanceChecker(lim, s, i), i)
    ensures AdvanceChecker(lim, s, i).cps == s.cps && AdvanceChecker(lim, s, i).calls == s.calls
    ensures AdvanceChecker(lim, s, i).tally == s.tally
  {
    OthersOnlyMove(lim, s, i);
  }

  lemma OthersOnlyMove(lim: Limits, s: State, i: nat)
    requires i < |s.checkers|
    requires var c := s.checkers[i]; c.Done? || c.Start? || c.Gate? || c.CallLookup?
    ensures var after := AdvanceChecker(lim, s, i);
            && |after.checkers| == |s.checkers|
            && after == s.(checkers := s.checkers[i := after.checkers[i]])
            && CheckerBound(after.checkers[i], s.cps, s.calls)
  {
    assert s.checkers == s.checkers[i := s.checkers[i]];
  }

  lemma CheckerStepBound(lim: Limits, s: State, i: nat)
    requires Bound(s) && i < |s.checkers|
    ensures Bound(AdvanceChecker(lim, s, i))
    ensures SameBinding(s.cps, AdvanceChecker(lim, s, i).cps) && SameBinding(s.calls, AdvanceChecker(lim, s, i).calls)
  {
    var c := s.checkers[i];
    assert CheckerBound(c, s.cps, s.calls);
    if c.CpsInsert? || c.CallInsert? {
      InsertMoves(lim, s, i);
    } else if c.CpsAdd? || c.CallAdd? {
      AddMoves(lim, s, i);
    } else {
      OtherMoves(lim, s, i);
    }
    MoveKeepsBound(s, AdvanceChecker(lim, s, i), i);
  }

  lemma ReleaserStepBound(s: State, j: nat)
    requires Bound(s) && j < |s.releasers|
    ensures Bound(AdvanceReleaser(s, j))
    ensures AdvanceReleaser(s, j).cps == s.cps && SameBinding(s.calls, AdvanceReleaser(s, j).calls)
  {
    assert ReleaserBound(s.releasers[j], s.calls);
  }

  /** No step rebinds a trunk to another counter. */
  lemma StepBound(lim: Limits, s: State, a: Action)
    requires Bound(s)
    ensures Bound(Apply(lim, s, a))
    ensures SameBinding(s.cps, Apply(lim, s, a).cps) && SameBinding(s.calls, Apply(lim, s, a).calls)
  {
    if a.Advance? && a.i < |s.checkers| {
      CheckerStepBound(lim, s, a.i);
    } else if a.AdvanceRelease? && a.j < |s.releasers| {
      ReleaserStepBound(s, a.j);
    }
  }

  /** Whatever runs later, a trunk stays bound to the counter it first got. */
  lemma {:induction false} RunBound(lim: Limits, s: State, actions: seq<Action>)
    requires Bound(s)
    ensures Bound(Run(lim, s, actions))
    ensures SameBinding(s.cps, Run(lim, s, actions).cps) && SameBinding(s.calls, Run(lim, s, actions).calls)
  {
    if actions != [] {
      var n := |actions| - 1;
      RunBound(lim, s, actions[..n]);
      StepBound(lim, Run(lim, s, actions[..n]), actions[n]);
    }
  }

  // ---------- what every step keeps, trunk by trunk ----------

  /** The most a gate of k concurrent checks lets through. */
  function Ceiling(maxCalls: nat, k: nat): nat {
    if maxCalls == 0 || k == 0 then maxCalls else maxCalls + k - 1
  }

  /** No increment is lost, and the counter decides exactly which checks pass the CPS gate. */
  predicate CpsExact(lim: Limits, s: State, t: string) {
    var v := s.cps.Value(t);
    && Get(s.tally.addedCps, t) == v
    && Get(s.tally.passedCps, t) == if LimitOf(lim, t).maxCps.Some? then Min(v, LimitOf(lim, t).maxCps.value) else v
  }

  /** The call counter is admissions less effective decrements, never more than the live calls. */
  predicate CallsExact(s: State, t: string) {
    var v := s.calls.Value(t);
    && v + Get(s.tally.lowered, t) == Get(s.tally.admitted, t)
    && v <= Get(s.tally.live, t)
    && (Get(s.tally.stolen, t) == 0 ==> v == Get(s.tally.live, t))
    && Get(s.tally.live, t) == Get(s.tally.free, t) + Releasers(s.releasers, t)
  }

  predicate WithinCeiling(lim: Limits, s: State, t: string) {
    LimitOf(lim, t).maxCalls.Some? ==>
      s.calls.Value(t) + Passers(s.checkers, t) <= Ceiling(LimitOf(lim, t).maxCalls.value, |s.checkers|)
  }

  predicate Inv(lim: Limits, s: State, t: string) {
    Bound(s) && CpsExact(lim, s, t) && CallsExact(s, t) && WithinCeiling(lim, s, t)
  }

  /** A passing checker leaves room for itself below the number of slots. */
  lemma OthersPassing(cs: seq<Checker>, i: nat, c: Checker, t: string)
    requires i < |cs| && !Passing(cs[i], t)
    ensures Passers(cs, t) + 1 <= |cs|
  {
    PassersUpdate(cs, i, CallLookup(t), t);
  }

  lemma InsertKeepsInv(lim: Limits, s: State, i: nat, t: string)
    requires Inv(lim, s, t) && i < |s.checkers| && (s.checkers[i].CpsInsert? || s.checkers[i].CallInsert?)
    ensures Inv(lim, AdvanceChecker(lim, s, i), t)
  {
    CheckerStepBound(lim, s, i);
    var after := AdvanceChecker(lim, s, i);
    InsertKeeps(s.cps, s.checkers[i].trunk);
    InsertKeeps(s.calls, s.checkers[i].trunk);
    PassersUpdate(s.checkers, i, after.checkers[i], t);
  }

  lemma CpsAddExact(lim: Limits, s: State, i: nat, t: string)
    requires s.cps.Valid() && CpsExact(lim, s, t) && i < |s.checkers| && s.checkers[i].CpsAdd?
    requires CheckerBound(s.checkers[i], s.cps, s.calls)
    ensures CpsExact(lim, AdvanceChecker(lim, s, i), t)
  {
    var c := s.checkers[i];
    StoreChangesOne(s.cps, c.trunk, s.cps.Load(c.id) + 1);
  }

  lemma CpsAddKeepsInv(lim: Limits, s: State, i: nat, t: string)
    requires Inv(lim, s, t) && i < |s.checkers| && s.checkers[i].CpsAdd?
    ensures Inv(lim, AdvanceChecker(lim, s, i), t)
  {
    CheckerStepBound(lim, s, i);
    assert CheckerBound(s.checkers[i], s.cps, s.calls);
    CpsAddExact(lim, s, i, t);
    PassersUpdate(s.checkers, i, AdvanceChecker(lim, s, i).checkers[i], t);
  }

  lemma CallAddKeepsInv(lim: Limits, s: State, i: nat, t: string)
    requires Inv(lim, s, t) && i < |s.checkers| && s.checkers[i].CallAdd?
    ensures Inv(lim, AdvanceChecker(lim, s, i), t)
  {
    CheckerStepBound(lim, s, i);
    var (c, after) := (s.checkers[i], AdvanceChecker(lim, s, i));
    assert CheckerBound(c, s.cps, s.calls);
    StoreChangesOne(s.calls, c.trunk, s.calls.Load(c.id) + 1);
    PassersUpdate(s.checkers, i, after.checkers[i], t);
  }

  lemma OtherKeepsInv(lim: Limits, s: State, i: nat, t: string)
    requires Inv(lim, s, t) && i < |s.checkers|
    requires var c := s.checkers[i]; c.Done? || c.Start? || c.Gate? || c.CallLookup?
    ensures Inv(lim, AdvanceChecker(lim, s, i), t)
  {
    CheckerStepBound(lim, s, i);
    OtherMoves(lim, s, i);
    var (c, after) := (s.checkers[i], AdvanceChecker(lim, s, i));
    PassersUpdate(s.checkers, i, after.checkers[i], t);
    if c == Gate(t) {
      OthersPassing(s.checkers, i, c, t);
    }
  }

  lemma CheckerStepKeeps(lim: Limits, s: State, i: nat, t: string)
    requires Inv(lim, s, t) && i < |s.checkers|
    ensures Inv(lim, AdvanceChecker(lim, s, i), t)
  {
    var c := s.checkers[i];
    if c.CpsInsert? || c.CallInsert? {
      InsertKeepsInv(lim, s, i, t);
    } else if c.CpsAdd? {
      CpsAddKeepsInv(lim, s, i, t);
    } else if c.CallAdd? {
      CallAddKeepsInv(lim, s, i, t);
    } else {
      OtherKeepsInv(lim, s, i, t);
    }
  }

  /** A release that finishes lowers its trunk's counter by one, but never below zero, in a
      single step; every other step of a release leaves all counters alone. */
  lemma ReleaseIsAtomic(s: State, j: nat, u: string)
    requires Bound(s) && j < |s.releasers| && !s.releasers[j].Idle?
    ensures var after := AdvanceReleaser(s, j);
            && after.cps == s.cps
            && after.calls.Value(u) == if after.releasers[j].Idle? && u == s.releasers[j].trunk
                                       then Less(s.calls.Value(u))
                                       else s.calls.Value(u)
  {
    var r := s.releasers[j];
    assert ReleaserBound(r, s.calls);
    if r.Exchange? && s.calls.Load(r.id) == r.seen {
      StoreChangesOne(s.calls, r.trunk, Less(r.seen));
    }
  }

  /** The accounts of a release step that changes the counter. */
  lemma ExchangeExact(s: State, j: nat, t: string)
    requires CallsExact(s, t) && j < |s.releasers| && s.calls.Valid() && ReleaserBound(s.releasers[j], s.calls)
    requires s.releasers[j].Exchange? && s.calls.Load(s.releasers[j].id) == s.releasers[j].seen
    ensures CallsExact(AdvanceReleaser(s, j), t)
  {
    var r := s.releasers[j];
    ReleasersUpdate(s.releasers, j, Idle, t);
    ReleaserPresent(s.releasers, j, t);
    StoreChangesOne(s.calls, r.trunk, Less(r.seen));
  }

  /** A release step that does not change the counter moves on, or gives up its call when it finds zero. */
  lemma NoExchangeMoves(s: State, j: nat)
    requires j < |s.releasers| && s.calls.Valid() && ReleaserBound(s.releasers[j], s.calls)
    requires !(s.releasers[j].Exchange? && s.calls.Load(s.releasers[j].id) == s.releasers[j].seen)
    ensures var (r, after) := (s.releasers[j], AdvanceReleaser(s, j));
            && after.calls == s.calls && |after.releasers| == |s.releasers|
            && after.releasers == s.releasers[j := after.releasers[j]]
            && after.tally.admitted == s.tally.admitted && after.tally.lowered == s.tally.lowered
            && after.tally.stolen == s.tally.stolen && after.tally.free == s.tally.free
            && if r.Idle? || !after.releasers[j].Idle?
               then after.tally.live == s.tally.live && SameRelease(r, after.releasers[j])
               else s.calls.Value(r.trunk) == 0
                    && after.tally.live == if r.counted then Drop(s.tally.live, r.trunk) else s.tally.live
  {
  }

  predicate SameRelease(r: Releaser, q: Releaser) {
    (r.Idle? && q.Idle?) || (!r.Idle? && !q.Idle? && r.trunk == q.trunk && r.counted == q.counted)
  }

  /** The accounts of such a step. */
  lemma NoExchangeExact(s: State, j: nat, t: string)
    requires CallsExact(s, t) && j < |s.releasers| && s.calls.Valid() && ReleaserBound(s.releasers[j], s.calls)
    requires !(s.releasers[j].Exchange? && s.calls.Load(s.releasers[j].id) == s.releasers[j].seen)
    ensures CallsExact(AdvanceReleaser(s, j), t)
  {
    NoExchangeMoves(s, j);
    ReleasersUpdate(s.releasers, j, AdvanceReleaser(s, j).releasers[j], t);
    ReleaserPresent(s.releasers, j, t);
  }

  lemma ReleaserStepExact(s: State, j: nat, t: string)
    requires CallsExact(s, t) && j < |s.releasers| && s.calls.Valid() && ReleaserBound(s.releasers[j], s.calls)
    ensures CallsExact(AdvanceReleaser(s, j), t)
  {
    if s.releasers[j].Exchange? && s.calls.Load(s.releasers[j].id) == s.releasers[j].seen {
      ExchangeExact(s, j, t);
    } else {
      NoExchangeExact(s, j, t);
    }
  }

  lemma ReleaserStepKeeps(lim: Limits, s: State, j: nat, t: string)
    requires Inv(lim, s, t) && j < |s.releasers|
    ensures Inv(lim, AdvanceReleaser(s, j), t)
  {
    ReleaserStepBound(s, j);
    assert ReleaserBound(s.releasers[j], s.calls);
    ReleaserStepExact(s, j, t);
    ReleaserKeepsGates(lim, s, j, t);
  }

  lemma ReleaserKeepsGates(lim: Limits, s: State, j: nat, t: string)
    requires Bound(s) && CpsExact(lim, s, t) && WithinCeiling(lim, s, t) && j < |s.releasers|
    ensures CpsExact(lim, AdvanceReleaser(s, j), t) && WithinCeiling(lim, AdvanceReleaser(s, j), t)
  {
    ReleaserKeepsCps(s, j);
    if !s.releasers[j].Idle? {
      ReleaseIsAtomic(s, j, t);
    }
  }

  lemma ReleaserKeepsCps(s: State, j: nat)
    requires j < |s.releasers|
    ensures var after := AdvanceReleaser(s, j);
            && after.cps == s.cps && after.checkers == s.checkers
            && after.tally.addedCps == s.tally.addedCps && after.tally.passedCps == s.tally.passedCps
            && |after.releasers| == |s.releasers|
            && (s.releasers[j].Idle? ==> after == s)
  {
  }

  lemma ReleaserPresent(rs: seq<Releaser>, j: nat, t: string)
    requires j < |rs|
    ensures Releasing(rs[j], t) ==> Releasers(rs, t) > 0
  {
    ReleasersUpdate(rs, j, Idle, t);
  }

  lemma StepKeeps(lim: Limits, s: State, a: Action, t: string)
    requires Inv(lim, s, t)
    ensures Inv(lim, Apply(lim, s, a), t)
  {
    match a {
      case Begin(i, u) => BeginKeeps(lim, s, i, u, t);
      case Advance(i) =>
        if i < |s.checkers| {
          CheckerStepKeeps(lim, s, i, t);
        }
      case BeginRelease(j, u, counted) => BeginReleaseKeeps(lim, s, j, u, counted, t);
      case AdvanceRelease(j) =>
        if j < |s.releasers| {
          ReleaserStepKeeps(lim, s, j, t);
        }
      case ResetCps(u) => ResetKeeps(lim, s, u, t);
    }
  }

  lemma BeginKeeps(lim: Limits, s: State, i: nat, u: string, t: string)
    requires Inv(lim, s, t)
    ensures Inv(lim, Apply(lim, s, Begin(i, u)), t)
  {
    StepBound(lim, s, Begin(i, u));
    if i < |s.checkers| {
      PassersUpdate(s.checkers, i, Start(u), t);
    }
  }

  lemma BeginReleaseKeeps(lim: Limits, s: State, j: nat, u: string, counted: bool, t: string)
    requires Inv(lim, s, t)
    ensures Inv(lim, Apply(lim, s, BeginRelease(j, u, counted)), t)
  {
    StepBound(lim, s, BeginRelease(j, u, counted));
    if j < |s.releasers| {
      ReleasersUpdate(s.releasers, j, Lookup(u, counted), t);
    }
  }

  lemma ResetKeeps(lim: Limits, s: State, u: string, t: string)
    requires Inv(lim, s, t)
    ensures Inv(lim, Apply(lim, s, ResetCps(u)), t)
  {
    StepBound(lim, s, ResetCps(u));
    ResetExact(lim, s, u, t);
  }

  lemma ResetExact(lim: Limits, s: State, u: string, t: string)
    requires s.cps.Valid() && CpsExact(lim, s, t)
    ensures CpsExact(lim, Apply(lim, s, ResetCps(u)), t)
  {
    if u in s.cps.ids {
      StoreChangesOne(s.cps, u, 0);
    }
  }

  lemma {:induction false} InitialInv(lim: Limits, k: nat, m: nat, t: string)
    ensures Inv(lim, Initial(k, m), t)
  {
    NonePassing(Initial(k, m).checkers, t);
    NoneReleasing(Initial(k, m).releasers, t);
  }

  lemma {:induction false} NonePassing(cs: seq<Checker>, t: string)
    requires forall i :: 0 <= i < |cs| ==> !Passing(cs[i], t)
    ensures Passers(cs, t) == 0
  {
    if cs != [] {
      NonePassing(cs[..|cs| - 1], t);
    }
  }

  lemma {:induction false} NoneReleasing(rs: seq<Releaser>, t: string)
    requires forall j :: 0 <= j < |rs| ==> !Releasing(rs[j], t)
    ensures Releasers(rs, t) == 0
  {
    if rs != [] {
      NoneReleasing(rs[..|rs| - 1], t);
    }
  }

  lemma {:induction false} RunInv(lim: Limits, k: nat, m: nat, actions: seq<Action>, t: string)
    ensures Inv(lim, Run(lim, Initial(k, m), actions), t)
  {
    if actions == [] {
      InitialInv(lim, k, m, t);
    } else {
      var n := |actions| - 1;
      RunInv(lim, k, m, actions[..n], t);
      StepKeeps(lim, Run(lim, Initial(k, m), actions[..n]), actions[n], t);
    }
  }

  lemma {:induction false} RunSlots(lim: Limits, s: State, actions: seq<Action>)
    ensures |Run(lim, s, actions).checkers| == |s.checkers|
    ensures |Run(lim, s, actions).releasers| == |s.releasers|
  {
    if actions != [] {
      var (before, a) := (actions[..|actions| - 1], actions[|actions| - 1]);
      RunSlots(lim, s, before);
      RunOne(lim, s, before, a);
      assert before + [a] == actions;
      ApplySlots(lim, Run(lim, s, before), a);
    }
  }

  lemma ApplySlots(lim: Limits, s: State, a: Action)
    ensures |Apply(lim, s, a).checkers| == |s.checkers| && |Apply(lim, s, a).releasers| == |s.releasers|
  {
    if a.Advance? && a.i < |s.checkers| {
      ChecksDoNotRelease(lim, s, a.i);
    } else if a.AdvanceRelease? && a.j < |s.releasers| {
      ReleaserKeepsCps(s, a.j);
    }
  }

  // ---------- the statements ----------

  /** In every interleaving of k checks with releases and resets the call counter stays at
      or below max_calls + k - 1, and at or below the live calls it was raised for. */
  lemma ConcurrentBounded(lim: Limits, k: nat, m: nat, actions: seq<Action>, t: string, maxCalls: nat)
    requires t in lim && lim[t].maxCalls == Some(maxCalls)
    ensures var s := Run(lim, Initial(k, m), actions);
            && s.calls.Value(t) <= Ceiling(maxCalls, k)
            && s.calls.Value(t) <= Get(s.tally.live, t)
  {
    RunInv(lim, k, m, actions, t);
    RunSlots(lim, Initial(k, m), actions);
  }

  /** Between two resets the number of checks past the CPS gate is exactly the number of
      increments cut at the limit: no more than the limit pass, and none is refused early. */
  lemma CpsGateExact(lim: Limits, k: nat, m: nat, actions: seq<Action>, t: string, limit: nat)
    requires t in lim && lim[t].maxCps == Some(limit)
    ensures var s := Run(lim, Initial(k, m), actions);
            && s.cps.Value(t) == Get(s.tally.addedCps, t)
            && Get(s.tally.passedCps, t) == Min(Get(s.tally.addedCps, t), limit)
  {
    RunInv(lim, k, m, actions, t);
  }

  /** What the next action adds: a CPS increment for the trunk, and a check past its CPS gate. */
  predicate AddsCps(s: State, a: Action, t: string) {
    a.Advance? && a.i < |s.checkers| && s.checkers[a.i].CpsAdd? && s.checkers[a.i].trunk == t
  }

  predicate PassesCps(lim: Limits, s: State, a: Action, t: string) {
    AddsCps(s, a, t) && Apply(lim, s, a).checkers[a.i] == Gate(t)
  }

  function CpsAdded(lim: Limits, s: State, actions: seq<Action>, t: string): nat {
    if actions == [] then 0
    else
      var (before, a) := (actions[..|actions| - 1], actions[|actions| - 1]);
      CpsAdded(lim, s, before, t) + (if AddsCps(Run(lim, s, before), a, t) then 1 else 0)
  }

  function CpsPassed(lim: Limits, s: State, actions: seq<Action>, t: string): nat {
    if actions == [] then 0
    else
      var (before, a) := (actions[..|actions| - 1], actions[|actions| - 1]);
      CpsPassed(lim, s, before, t) + (if PassesCps(lim, Run(lim, s, before), a, t) then 1 else 0)
  }

  lemma CheckCountsCps(lim: Limits, s: State, i: nat, t: string)
    requires i < |s.checkers|
    ensures var after := AdvanceChecker(lim, s, i);
            && after.tally.addedCps
               == (if s.checkers[i].CpsAdd? then Bump(s.tally.addedCps, s.checkers[i].trunk) else s.tally.addedCps)
            && after.tally.passedCps
               == (if s.checkers[i].CpsAdd? && after.checkers[i] == Gate(s.checkers[i].trunk)
                   then Bump(s.tally.passedCps, s.checkers[i].trunk) else s.tally.passedCps)
  {
  }

  lemma StepCountsCps(lim: Limits, s: State, a: Action, t: string)
    requires a != ResetCps(t)
    ensures Get(Apply(lim, s, a).tally.addedCps, t) == Get(s.tally.addedCps, t) + (if AddsCps(s, a, t) then 1 else 0)
    ensures Get(Apply(lim, s, a).tally.passedCps, t)
         == Get(s.tally.passedCps, t) + (if PassesCps(lim, s, a, t) then 1 else 0)
  {
    if a.Advance? && a.i < |s.checkers| {
      CheckCountsCps(lim, s, a.i, t);
    } else if a.AdvanceRelease? && a.j < |s.releasers| {
      ReleaserKeepsCps(s, a.j);
    }
  }

  lemma {:induction false} CpsCounted(lim: Limits, k: nat, m: nat, actions: seq<Action>, t: string)
    requires ResetCps(t) !in actions
    ensures var s := Run(lim, Initial(k, m), actions);
            && Get(s.tally.addedCps, t) == CpsAdded(lim, Initial(k, m), actions, t)
            && Get(s.tally.passedCps, t) == CpsPassed(lim, Initial(k, m), actions, t)
  {
    if actions != [] {
      var (before, a) := (actions[..|actions| - 1], actions[|actions| - 1]);
      assert a in actions && forall x :: x in before ==> x in actions;
      CpsCounted(lim, k, m, before, t);
      StepCountsCps(lim, Run(lim, Initial(k, m), before), a, t);
    }
  }

  /** Without resets the limit is for good: over the whole run, counted action by action, the checks past the CPS gate
      are the increments cut at the limit. */
  lemma NeverReset(lim: Limits, k: nat, m: nat, actions: seq<Action>, t: string, limit: nat)
    requires t in lim && lim[t].maxCps == Some(limit) && ResetCps(t) !in actions
    ensures CpsPassed(lim, Initial(k, m), actions, t) == Min(CpsAdded(lim, Initial(k, m), actions, t), limit)
  {
    CpsCounted(lim, k, m, actions, t);
    CpsGateExact(lim, k, m, actions, t, limit);
  }

  // ---------- when the counter is exact ----------

  /** After the first n actions the counter is the number of live calls. */
  predicate ExactAt(lim: Limits, s: State, actions: seq<Action>, t: string, n: nat)
    requires n <= |actions|
  {
    var after := Run(lim, s, actions[..n]);
    after.calls.Value(t) == Get(after.tally.live, t)
  }

  lemma StealIsVisible(lim: Limits, s: State, a: Action, t: string)
    requires Inv(lim, s, t)
    ensures var after := Apply(lim, s, a);
            && Get(s.tally.stolen, t) <= Get(after.tally.stolen, t)
            && (Get(s.tally.stolen, t) < Get(after.tally.stolen, t) ==>
                  && after.calls.Value(t) + 1 == s.calls.Value(t)
                  && after.tally.live == s.tally.live)
  {
    if a.AdvanceRelease? && a.j < |s.releasers| {
      ReleaseStealIsVisible(s, a.j, t);
    } else if a.Advance? && a.i < |s.checkers| {
      ChecksDoNotRelease(lim, s, a.i);
    }
  }

  lemma ReleaseStealIsVisible(s: State, j: nat, t: string)
    requires Bound(s) && j < |s.releasers|
    ensures var after := AdvanceReleaser(s, j);
            && Get(s.tally.stolen, t) <= Get(after.tally.stolen, t)
            && (Get(s.tally.stolen, t) < Get(after.tally.stolen, t) ==>
                  && after.calls.Value(t) + 1 == s.calls.Value(t)
                  && after.tally.live == s.tally.live)
  {
    assert ReleaserBound(s.releasers[j], s.calls);
    if !s.releasers[j].Idle? {
      ReleaseIsAtomic(s, j, t);
    }
  }

  /** The counter equals the live calls throughout a run exactly when no release of a call
      that was never counted locally lowers it. */
  lemma {:induction false} ExactIff(lim: Limits, k: nat, m: nat, actions: seq<Action>, t: string)
    ensures (forall n: nat :: n <= |actions| ==> ExactAt(lim, Initial(k, m), actions, t, n))
            <==> Get(Run(lim, Initial(k, m), actions).tally.stolen, t) == 0
  {
    hide Apply;
    var s0 := Initial(k, m);
    if actions == [] {
      InitialInv(lim, k, m, t);
      assert actions[..0] == [];
    } else {
      var (before, a) := (actions[..|actions| - 1], actions[|actions| - 1]);
      ExactIff(lim, k, m, before, t);
      assert before + [a] == actions;
      ExactLast(lim, k, m, before, a, t);
      forall n: nat | n <= |before|
        ensures ExactAt(lim, s0, actions, t, n) <==> ExactAt(lim, s0, before, t, n)
      {
        assert before[..n] == actions[..n];
      }
    }
  }

  lemma ExactLast(lim: Limits, k: nat, m: nat, before: seq<Action>, a: Action, t: string)
    ensures var s0 := Initial(k, m);
            var was := Get(Run(lim, s0, before).tally.stolen, t);
            var now := Get(Run(lim, s0, before + [a]).tally.stolen, t);
            && was <= now
            && (now == 0 ==> ExactAt(lim, s0, before + [a], t, |before| + 1))
            && (was == 0 && now > 0 ==> !ExactAt(lim, s0, before + [a], t, |before| + 1))
  {
    var s := Run(lim, Initial(k, m), before);
    RunInv(lim, k, m, before, t);
    RunOne(lim, Initial(k, m), before, a);
    assert (before + [a])[..|before| + 1] == before + [a];
    StealIsVisible(lim, s, a, t);
    StepKeeps(lim, s, a, t);
  }

  predicate AllCounted(s: State) {
    forall j :: 0 <= j < |s.releasers| && !s.releasers[j].Idle? ==> s.releasers[j].counted
  }

  lemma ChecksDoNotRelease(lim: Limits, s: State, i: nat)
    requires i < |s.checkers|
    ensures AdvanceChecker(lim, s, i).releasers == s.releasers
    ensures |AdvanceChecker(lim, s, i).checkers| == |s.checkers|
    ensures AdvanceChecker(lim, s, i).tally.stolen == s.tally.stolen
  {
  }

  lemma StepCounted(lim: Limits, s: State, a: Action)
    requires AllCounted(s) && (a.BeginRelease? ==> a.counted)
    ensures AllCounted(Apply(lim, s, a)) && Apply(lim, s, a).tally.stolen == s.tally.stolen
  {
    if a.Advance? && a.i < |s.checkers| {
      ChecksDoNotRelease(lim, s, a.i);
    } else if a.AdvanceRelease? && a.j < |s.releasers| {
      ReleaseCounted(s, a.j);
    }
  }

  lemma ReleaseCounted(s: State, j: nat)
    requires AllCounted(s) && j < |s.releasers|
    ensures AllCounted(AdvanceReleaser(s, j)) && AdvanceReleaser(s, j).tally.stolen == s.tally.stolen
  {
    var r := s.releasers[j];
    assert AdvanceReleaser(s, j).releasers == s.releasers[j := AdvanceReleaser(s, j).releasers[j]];
  }

  lemma {:induction false} CountedOnly(lim: Limits, k: nat, m: nat, actions: seq<Action>)
    requires forall a :: a in actions && a.BeginRelease? ==> a.counted
    ensures AllCounted(Run(lim, Initial(k, m), actions))
    ensures Run(lim, Initial(k, m), actions).tally.stolen == map[]
  {
    if actions != [] {
      var (before, a) := (actions[..|actions| - 1], actions[|actions| - 1]);
      assert a in actions && before + [a] == actions;
      CountedOnly(lim, k, m, before);
      StepCounted(lim, Run(lim, Initial(k, m), before), a);
    }
  }

  /** So when only locally counted calls are released, the limit holds for the live calls
      themselves. */
  lemma LiveCallsBounded(lim: Limits, k: nat, m: nat, actions: seq<Action>, t: string, maxCalls: nat)
    requires t in lim && lim[t].maxCalls == Some(maxCalls)
    requires forall a :: a in actions && a.BeginRelease? ==> a.counted
    ensures Get(Run(lim, Initial(k, m), actions).tally.live, t) <= Ceiling(maxCalls, k)
  {
    ConcurrentBounded(lim, k, m, actions, t, maxCalls);
    CountedOnly(lim, k, m, actions);
    RunInv(lim, k, m, actions, t);
  }

  // ---------- the bound is attained ----------

  /** A checker that starts alone reaches the far side of the gate. */
  lemma PassGate(lim: Limits, s: State, i: nat, t: string) returns (actions: seq<Action>)
    requires i < |s.checkers| && s.checkers[i].Done? && LimitOf(lim, t).maxCps.None?
    requires LimitOf(lim, t).maxCalls.Some? && s.calls.Value(t) < LimitOf(lim, t).maxCalls.value
    ensures Run(lim, s, actions) == s.(checkers := s.checkers[i := CallLookup(t)])
  {
    actions := [];
    RunOne(lim, s, actions, Begin(i, t));
    actions := actions + [Begin(i, t)];
    RunOne(lim, s, actions, Advance(i));
    actions := actions + [Advance(i)];
    assert Run(lim, s, actions) == s.(checkers := s.checkers[i := Start(t)][i := Gate(t)]);
    RunOne(lim, s, actions, Advance(i));
    actions := actions + [Advance(i)];
    assert s.checkers[i := Start(t)][i := Gate(t)][i := CallLookup(t)] == s.checkers[i := CallLookup(t)];
  }

  /** A checker past the gate finds or creates its counter. */
  lemma FindCounter(lim: Limits, s: State, i: nat, t: string) returns (actions: seq<Action>)
    requires Bound(s) && i < |s.checkers| && s.checkers[i] == CallLookup(t)
    ensures var after := Run(lim, s, actions);
            && Bound(after) && t in after.calls.ids && after.cps == s.cps
            && (forall u :: after.calls.Value(u) == s.calls.Value(u))
            && after.checkers == s.checkers[i := CallAdd(t, after.calls.ids[t])]
            && after.tally == s.tally && after.releasers == s.releasers
  {
    RunOne(lim, s, [], Advance(i));
    assert [] + [Advance(i)] == [Advance(i)];
    actions := [Advance(i)];
    if t !in s.calls.ids {
      RunOne(lim, s, actions, Advance(i));
      actions := actions + [Advance(i)];
      NewCounter(lim, s, i, t);
    }
    RunBound(lim, s, actions);
  }

  lemma NewCounter(lim: Limits, s: State, i: nat, t: string)
    requires Bound(s) && i < |s.checkers| && s.checkers[i] == CallLookup(t) && t !in s.calls.ids
    ensures var after := AdvanceChecker(lim, AdvanceChecker(lim, s, i), i);
            && after.calls == s.calls.Insert(t) && t in after.calls.ids && after.cps == s.cps
            && (forall u :: after.calls.Value(u) == s.calls.Value(u))
            && after.checkers == s.checkers[i := CallAdd(t, after.calls.ids[t])]
            && after.tally == s.tally && after.releasers == s.releasers
  {
    InsertKeeps(s.calls, t);
    var id := |s.calls.cells|;
    assert s.checkers[i := CallInsert(t)][i := CallAdd(t, id)] == s.checkers[i := CallAdd(t, id)];
  }

  /** Then it finishes alone and raises the counter by one. */
  lemma CountOne(lim: Limits, s: State, i: nat, t: string) returns (actions: seq<Action>)
    requires Bound(s) && i < |s.checkers| && s.checkers[i] == CallLookup(t)
    ensures var after := Run(lim, s, actions);
            && Bound(after) && after.calls.Value(t) == s.calls.Value(t) + 1
            && after.checkers == s.checkers[i := Done(Some(Allowed))]
            && after.tally.live == Bump(s.tally.live, t) && after.releasers == s.releasers
  {
    var find := FindCounter(lim, s, i, t);
    var ready := Run(lim, s, find);
    var id := ready.calls.ids[t];
    StoreChangesOne(ready.calls, t, ready.calls.Load(id) + 1);
    StepBound(lim, ready, Advance(i));
    RunOne(lim, s, find, Advance(i));
    actions := find + [Advance(i)];
    assert s.checkers[i := CallAdd(t, id)][i := Done(Some(Allowed))] == s.checkers[i := Done(Some(Allowed))];
  }

  /** One checker, again and again, fills the trunk. */
  lemma FillTo(lim: Limits, s: State, t: string, target: nat) returns (actions: seq<Action>)
    requires Bound(s) && |s.checkers| > 0 && LimitOf(lim, t).maxCps.None?
    requires forall i :: 0 <= i < |s.checkers| ==> s.checkers[i].Done?
    requires LimitOf(lim, t).maxCalls.Some? && s.calls.Value(t) <= target <= LimitOf(lim, t).maxCalls.value
    ensures var after := Run(lim, s, actions);
            && Bound(after) && after.calls.Value(t) == target && |after.checkers| == |s.checkers|
            && after.releasers == s.releasers
            && forall i :: 0 <= i < |after.checkers| ==> after.checkers[i].Done?
    decreases target - s.calls.Value(t)
  {
    actions := [];
    if s.calls.Value(t) < target {
      var gate := PassGate(lim, s, 0, t);
      RunBound(lim, s, gate);
      var passed := Run(lim, s, gate);
      var count := CountOne(lim, passed, 0, t);
      RunConcat(lim, s, gate, count);
      var rest := FillTo(lim, Run(lim, passed, count), t, target);
      RunConcat(lim, s, gate + count, rest);
      actions := gate + count + rest;
    }
  }

  /** Checkers i, i + 1, ... all read the same count and pass together. */
  lemma PassAll(lim: Limits, s: State, i: nat, t: string) returns (actions: seq<Action>)
    requires Bound(s) && i <= |s.checkers| && LimitOf(lim, t).maxCps.None?
    requires forall n :: i <= n < |s.checkers| ==> s.checkers[n].Done?
    requires forall n :: 0 <= n < i ==> s.checkers[n] == CallLookup(t)
    requires LimitOf(lim, t).maxCalls.Some? && s.calls.Value(t) < LimitOf(lim, t).maxCalls.value
    ensures var after := Run(lim, s, actions);
            && Bound(after) && after.calls == s.calls && |after.checkers| == |s.checkers|
            && forall n :: 0 <= n < |after.checkers| ==> after.checkers[n] == CallLookup(t)
    decreases |s.checkers| - i
  {
    actions := [];
    if i < |s.checkers| {
      var gate := PassGate(lim, s, i, t);
      RunBound(lim, s, gate);
      var rest := PassAll(lim, Run(lim, s, gate), i + 1, t);
      RunConcat(lim, s, gate, rest);
      actions := gate + rest;
    }
  }

  /** Then each of them counts itself. */
  lemma CountAll(lim: Limits, s: State, i: nat, t: string) returns (actions: seq<Action>)
    requires Bound(s) && i <= |s.checkers|
    requires forall n :: i <= n < |s.checkers| ==> s.checkers[n] == CallLookup(t)
    ensures Run(lim, s, actions).calls.Value(t) == s.calls.Value(t) + (|s.checkers| - i)
    decreases |s.checkers| - i
  {
    actions := [];
    if i < |s.checkers| {
      var count := CountOne(lim, s, i, t);
      var rest := CountAll(lim, Run(lim, s, count), i + 1, t);
      RunConcat(lim, s, count, rest);
      actions := count + rest;
    }
  }

  /** max_calls + k - 1 is no over-estimate: for every limit and every number of checkers
      some interleaving reaches it. */
  lemma CeilingAttained(k: nat, m: nat, t: string, maxCalls: nat) returns (actions: seq<Action>)
    requires k > 0 && maxCalls > 0
    ensures Run(map[t := Limit(Some(maxCalls), None)], Initial(k, m), actions).calls.Value(t) == Ceiling(maxCalls, k)
  {
    var lim := map[t := Limit(Some(maxCalls), None)];
    var s := Initial(k, m);
    InitialInv(lim, k, m, t);
    var fill := FillTo(lim, s, t, maxCalls - 1);
    var filled := Run(lim, s, fill);
    var pass := PassAll(lim, filled, 0, t);
    var passed := Run(lim, filled, pass);
    var count := CountAll(lim, passed, 0, t);
    RunConcat(lim, s, fill, pass);
    RunConcat(lim, s, fill + pass, count);
    actions := fill + pass + count;
  }

  /** A release by an idle releaser, for a call that was not counted locally, lowers the
      counter and no live call ends. */
  lemma StealOne(lim: Limits, s: State, t: string) returns (actions: seq<Action>)
    requires Bound(s) && |s.releasers| > 0 && s.releasers[0].Idle? && s.calls.Value(t) > 0
    ensures var after := Run(lim, s, actions);
            && Bound(after) && after.calls.Value(t) == s.calls.Value(t) - 1
            && after.tally.live == s.tally.live && after.checkers == s.checkers
  {
    var id := s.calls.ids[t];
    var seen := s.calls.Value(t);
    actions := [];
    RunOne(lim, s, actions, BeginRelease(0, t, false));
    actions := actions + [BeginRelease(0, t, false)];
    RunOne(lim, s, actions, AdvanceRelease(0));
    actions := actions + [AdvanceRelease(0)];
    assert Run(lim, s, actions) == s.(releasers := s.releasers[0 := Lookup(t, false)][0 := LoadValue(t, false, id)]);
    RunOne(lim, s, actions, AdvanceRelease(0));
    actions := actions + [AdvanceRelease(0)];
    var ready := Run(lim, s, actions);
    assert ready.releasers[0] == Exchange(t, false, id, seen) && ready.calls == s.calls;
    RunBound(lim, s, actions);
    StoreChangesOne(ready.calls, t, Less(seen));
    StepBound(lim, ready, AdvanceRelease(0));
    RunOne(lim, s, actions, AdvanceRelease(0));
    actions := actions + [AdvanceRelease(0)];
  }

  /** With a release of a call admitted elsewhere the limit no longer bounds the live calls,
      not even for a single checker. */
  lemma UncountedReleaseBreaksLimit(t: string, maxCalls: nat) returns (actions: seq<Action>)
    requires maxCalls > 0
    ensures Get(Run(map[t := Limit(Some(maxCalls), None)], Initial(1, 1), actions).tally.live, t) > Ceiling(maxCalls, 1)
  {
    var lim := map[t := Limit(Some(maxCalls), None)];
    var s := Initial(1, 1);
    InitialInv(lim, 1, 1, t);
    var fill := FillTo(lim, s, t, maxCalls);
    RunInv(lim, 1, 1, fill, t);
    var full := Run(lim, s, fill);
    var steal := StealOne(lim, full, t);
    var robbed := Run(lim, full, steal);
    var pass := PassGate(lim, robbed, 0, t);
    RunBound(lim, robbed, pass);
    var count := CountOne(lim, Run(lim, robbed, pass), 0, t);
    RunConcat(lim, s, fill, steal);
    RunConcat(lim, s, fill + steal, pass);
    RunConcat(lim, s, fill + steal + pass, count);
    actions := fill + steal + pass + count;
  }
}
