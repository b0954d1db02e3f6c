/** The queue of call detail records and its one processor, as steps that interleave with any number of producers. */
module CdrPipeline {
  import opened Primitives

  const TTL: nat := 3600

  type Hook = nat

  /** `body` stands for the fields the pipeline only carries. */
  datatype Cdr = Cdr(uuid: nat, body: string)
  datatype Detail = Detail(cdr: Cdr, expires: nat)
  datatype Delivery = Delivery(hook: Hook, cdr: Cdr)

  /** Where the processor is with the record it popped. */
  datatype Hand = Idle
                | Popped(uuid: nat)
                | Loaded(cdr: Cdr)
                | Delivering(cdr: Cdr, rest: seq<Hook>, anySuccess: bool)
                | Writing(cdr: Cdr)

  /** Why a popped record went nowhere. */
  datatype Cause = Expired | LoadFailed | HooksUnknown | DiskFailed | Cancelled

  /** `accepted`, `pushed`, `popped` and `lost` are history; the rest is what Redis, the processor, the receivers and
      the disk hold. A list grows on the left and is popped on the right. */
  datatype State = State(now: nat, details: map<nat, Detail>, list: seq<nat>, hand: Hand,
                         log: seq<Delivery>, disk: map<nat, Cdr>,
                         accepted: map<nat, Cdr>, entering: set<nat>, pushed: seq<nat>, popped: seq<nat>,
                         lost: map<nat, Cause>)

  datatype Step = SetDetail(cdr: Cdr)
                | Push(uuid: nat)
                | Tick(seconds: nat)
                | Pop
                | Load
                | LoadFails
                | ListHooks(active: seq<Hook>)
                | ListFails
                | Deliver(ok: bool)
                | Write(ok: bool)
                | Cancel

  function HandUuid(h: Hand): nat
    requires !h.Idle?
  {
    if h.Popped? then h.uuid else h.cdr.uuid
  }

  predicate Enabled(s: State, step: Step) {
    match step
    case SetDetail(c) => c.uuid !in s.accepted
    case Push(u) => u in s.entering
    case Tick(_) => true
    case Pop => s.hand.Idle? && s.list != []
    case Load => s.hand.Popped?
    case LoadFails => s.hand.Popped?
    case ListHooks(_) => s.hand.Loaded?
    case ListFails => s.hand.Loaded?
    case Deliver(_) => s.hand.Delivering? && s.hand.rest != []
    case Write(_) => s.hand.Writing?
    case Cancel => !s.hand.Idle?
  }

  function Drop(s: State, cause: Cause): State
    requires !s.hand.Idle?
  {
    s.(hand := Idle, lost := s.lost[HandUuid(s.hand) := cause])
  }

  predicate Live(s: State, u: nat) {
    u in s.details && s.now < s.details[u].expires
  }

  /** After the last webhook the record is done, or goes to disk if none took it. */
  function NextHand(c: Cdr, rest: seq<Hook>, anySuccess: bool): Hand {
    if rest != [] then Delivering(c, rest, anySuccess)
    else if anySuccess then Idle
    else Writing(c)
  }

  function Next(s: State, step: Step): State
    requires Enabled(s, step)
  {
    match step
    case SetDetail(c) =>
      s.(details := s.details[c.uuid := Detail(c, s.now + TTL)], accepted := s.accepted[c.uuid := c],
         entering := s.entering + {c.uuid})
    case Push(u) => s.(list := [u] + s.list, entering := s.entering - {u}, pushed := s.pushed + [u])
    case Tick(t) => s.(now := s.now + t)
    case Pop =>
      var n := |s.list| - 1;
      s.(list := s.list[..n], hand := Popped(s.list[n]), popped := s.popped + [s.list[n]])
    case Load => if Live(s, s.hand.uuid) then s.(hand := Loaded(s.details[s.hand.uuid].cdr)) else Drop(s, Expired)
    case LoadFails => Drop(s, LoadFailed)
    case ListHooks(active) => s.(hand := NextHand(s.hand.cdr, active, false))
    case ListFails => Drop(s, HooksUnknown)
    case Deliver(ok) =>
      s.(hand := NextHand(s.hand.cdr, s.hand.rest[1..], s.hand.anySuccess || ok),
         log := if ok then s.log + [Delivery(s.hand.rest[0], s.hand.cdr)] else s.log)
    case Write(ok) =>
      if ok then s.(hand := Idle, disk := s.disk[s.hand.cdr.uuid := s.hand.cdr]) else Drop(s, DiskFailed)
    case Cancel => if s.hand.Delivering? && s.hand.anySuccess then s.(hand := Idle) else Drop(s, Cancelled)
  }

  const START := State(0, map[], [], Idle, [], map[], map[], {}, [], [], map[])

  predicate Possible(steps: seq<Step>)
    decreases |steps|, 0
  {
    steps == [] ||
    (Possible(steps[..|steps| - 1]) && Enabled(Run(steps[..|steps| - 1]), steps[|steps| - 1]))
  }

  function Run(steps: seq<Step>): State
    requires Possible(steps)
    decreases |steps|, 1
  {
    if steps == [] then START else Next(Run(steps[..|steps| - 1]), steps[|steps| - 1])
  }

  // ---------- the order of the queue ----------

  function Reversed<T>(s: seq<T>): (r: seq<T>)
    ensures |r| == |s|
    ensures forall i :: 0 <= i < |s| ==> r[i] == s[|s| - 1 - i]
  {
    if s == [] then [] else Reversed(s[1..]) + [s[0]]
  }

  predicate Distinct<T(==)>(s: seq<T>) {
    forall i, j :: 0 <= i < j < |s| ==> s[i] != s[j]
  }

  /** First in, first out: what was popped, then what is still listed, oldest first, is what was pushed. */
  predicate Ordered(s: State) {
    && s.pushed == s.popped + Reversed(s.list)
    && Distinct(s.pushed)
    && (forall u :: u in s.pushed ==> u in s.accepted && u !in s.entering)
    && (forall u :: u in s.entering ==> u in s.accepted)
    && (forall u :: u in s.accepted ==> u in s.entering || u in s.pushed)
    && (!s.hand.Idle? ==> s.popped != [] && s.popped[|s.popped| - 1] == HandUuid(s.hand))
  }

  lemma PushKeepsOrdered(s: State, u: nat)
    requires Ordered(s) && Enabled(s, Push(u))
    ensures Ordered(Next(s, Push(u)))
  {
    assert u !in s.pushed;
    assert s.popped + Reversed([u] + s.list) == s.popped + Reversed(s.list) + [u];
  }

  lemma PopKeepsOrdered(s: State)
    requires Ordered(s) && Enabled(s, Pop)
    ensures Ordered(Next(s, Pop))
  {
    var n := |s.list| - 1;
    assert s.popped + [s.list[n]] + Reversed(s.list[..n]) == s.popped + Reversed(s.list);
  }

  lemma SetDetailKeepsOrdered(s: State, c: Cdr)
    requires Ordered(s) && Enabled(s, SetDetail(c))
    ensures Ordered(Next(s, SetDetail(c)))
  {
  }

  lemma HandKeepsOrdered(s: State, t: State)
    requires Ordered(s)
    requires t.pushed == s.pushed && t.popped == s.popped && t.list == s.list
    requires t.accepted == s.accepted && t.entering == s.entering
    requires !t.hand.Idle? ==> !s.hand.Idle? && HandUuid(t.hand) == HandUuid(s.hand)
    ensures Ordered(t)
  {
  }

  lemma NextKeepsOrdered(s: State, step: Step)
    requires Ordered(s) && Genuine(s) && Enabled(s, step)
    ensures Ordered(Next(s, step))
  {
    match step
    case Push(u) => PushKeepsOrdered(s, u);
    case Pop => PopKeepsOrdered(s);
    case SetDetail(c) => SetDetailKeepsOrdered(s, c);
    case _ => HandKeepsOrdered(s, Next(s, step));
  }

  // ---------- the contents ----------

  /** A record is the one that was handed in under its uuid. */
  predicate Known(s: State, c: Cdr) {
    c.uuid in s.accepted && s.accepted[c.uuid] == c
  }

  predicate Genuine(s: State) {
    && (forall u :: u in s.details ==> Known(s, s.details[u].cdr) && s.details[u].cdr.uuid == u)
    && (s.hand.Loaded? || s.hand.Delivering? || s.hand.Writing? ==> Known(s, s.hand.cdr))
    && (forall d :: d in s.log ==> Known(s, d.cdr))
    && (forall u :: u in s.disk ==> Known(s, s.disk[u]) && s.disk[u].uuid == u)
  }

  lemma SetDetailKeepsGenuine(s: State, c: Cdr)
    requires Genuine(s) && Enabled(s, SetDetail(c))
    ensures Genuine(Next(s, SetDetail(c)))
  {
    var t := Next(s, SetDetail(c));
    assert forall d :: Known(s, d) ==> Known(t, d);
  }

  lemma NextKeepsHandGenuine(s: State, step: Step)
    requires Genuine(s) && Enabled(s, step) && !step.SetDetail?
    ensures var t := Next(s, step);
            && t.accepted == s.accepted && t.details == s.details
            && (t.hand.Loaded? || t.hand.Delivering? || t.hand.Writing? ==> Known(s, t.hand.cdr))
  {
  }

  lemma NextKeepsStoredGenuine(s: State, step: Step)
    requires Genuine(s) && Enabled(s, step) && !step.SetDetail?
    ensures forall d :: d in Next(s, step).log ==> Known(s, d.cdr)
    ensures var disk := Next(s, step).disk;
            forall u :: u in disk ==> Known(s, disk[u]) && disk[u].uuid == u
  {
  }

  lemma NextKeepsGenuine(s: State, step: Step)
    requires Genuine(s) && Enabled(s, step)
    ensures Genuine(Next(s, step))
  {
    if step.SetDetail? {
      SetDetailKeepsGenuine(s, step.cdr);
    } else {
      NextKeepsHandGenuine(s, step);
      NextKeepsStoredGenuine(s, step);
      hide Next;
    }
  }

  // ---------- the places ----------

  predicate InHand(s: State, u: nat) {
    !s.hand.Idle? && HandUuid(s.hand) == u
  }

  predicate Received(s: State, u: nat) {
    exists d :: d in s.log && d.cdr.uuid == u
  }

  predicate SomeSuccess(h: Hand) {
    h.Delivering? && h.anySuccess
  }

  /** A popped record is in hand, or was taken by a webhook, or is on disk, or is lost: one of these and no other. */
  predicate Placed(s: State, u: nat) {
    if InHand(s, u) then
      u in s.popped && u !in s.disk && u !in s.lost && (Received(s, u) <==> SomeSuccess(s.hand))
    else
      && (u in s.popped <==> Received(s, u) || u in s.disk || u in s.lost)
      && !(Received(s, u) && u in s.disk) && !(Received(s, u) && u in s.lost) && !(u in s.disk && u in s.lost)
  }

  ghost predicate AllPlaced(s: State) {
    && (forall u: nat :: Placed(s, u))
    && (s.hand.Delivering? ==> s.hand.rest != [])
  }

  lemma ReceivedAfter(s: State, t: State, d: Delivery, u: nat)
    requires t.log == s.log + [d]
    ensures Received(t, u) <==> Received(s, u) || d.cdr.uuid == u
  {
    if Received(s, u) {
      var e :| e in s.log && e.cdr.uuid == u;
      assert e in t.log;
    }
    assert d in t.log;
  }

  lemma PopPlaces(s: State, u: nat)
    requires Ordered(s) && AllPlaced(s) && Enabled(s, Pop)
    ensures Placed(Next(s, Pop), u)
  {
    var n := |s.list| - 1;
    assert s.pushed[|s.popped|] == s.list[n];
    assert forall i :: 0 <= i < |s.popped| ==> s.popped[i] == s.pushed[i];
    assert Placed(s, u);
  }

  lemma DeliverPlaces(s: State, ok: bool, u: nat)
    requires AllPlaced(s) && Enabled(s, Deliver(ok))
    ensures Placed(Next(s, Deliver(ok)), u)
  {
    assert Placed(s, u);
    if ok {
      ReceivedAfter(s, Next(s, Deliver(ok)), Delivery(s.hand.rest[0], s.hand.cdr), u);
    }
  }

  lemma OtherPlaces(s: State, step: Step, u: nat)
    requires AllPlaced(s) && Genuine(s) && Enabled(s, step) && !step.Pop? && !step.Deliver?
    ensures Placed(Next(s, step), u)
  {
    assert Placed(s, u);
  }

  lemma NextKeepsPlaces(s: State, step: Step)
    requires Ordered(s) && Genuine(s) && AllPlaced(s) && Enabled(s, step)
    ensures AllPlaced(Next(s, step))
  {
    forall u: nat ensures Placed(Next(s, step), u) {
      if step.Pop? {
        PopPlaces(s, u);
      } else if step.Deliver? {
        DeliverPlaces(s, step.ok, u);
      } else {
        OtherPlaces(s, step, u);
      }
    }
  }

  ghost predicate Invariant(s: State) {
    Ordered(s) && Genuine(s) && AllPlaced(s)
  }

  lemma {:induction false} RunInvariant(steps: seq<Step>)
    requires Possible(steps)
    ensures Invariant(Run(steps))
  {
    if steps == [] {
      assert forall u: nat :: Placed(START, u);
    } else {
      var n := |steps| - 1;
      RunInvariant(steps[..n]);
      NextKeepsOrdered(Run(steps[..n]), steps[n]);
      NextKeepsGenuine(Run(steps[..n]), steps[n]);
      NextKeepsPlaces(Run(steps[..n]), steps[n]);
    }
  }

  function Count(b: bool): nat {
    if b then 1 else 0
  }

  lemma {:induction false} ReversedHas<T>(s: seq<T>, x: T)
    ensures x in Reversed(s) <==> x in s
  {
    if s != [] {
      ReversedHas(s[1..], x);
      assert s == [s[0]] + s[1..];
    }
  }

  lemma DistinctParts(a: seq<nat>, b: seq<nat>, u: nat)
    requires Distinct(a + b)
    ensures !(u in a && u in b)
  {
    forall i | 0 <= i < |a| ensures a[i] !in b {
      forall j | 0 <= j < |b| ensures b[j] != a[i] {
        assert (a + b)[i] == a[i] && (a + b)[|a| + j] == b[j];
      }
    }
  }

  lemma WaitingOrPopped(s: State, u: nat)
    requires Ordered(s)
    ensures u in s.pushed <==> u in s.list || u in s.popped
    ensures !(u in s.list && u in s.popped)
  {
    ReversedHas(s.list, u);
    DistinctParts(s.popped, Reversed(s.list), u);
  }

  /** After any run every pushed record is in exactly one place: waiting in the queue, in the processor's hand, taken by
      at least one webhook, on disk, or lost; a record that was not pushed is in none of them. */
  lemma ExactlyOnePlace(steps: seq<Step>, u: nat)
    requires Possible(steps)
    ensures var s := Run(steps);
            Count(u in s.list) + Count(InHand(s, u)) + Count(Received(s, u) && !InHand(s, u)) + Count(u in s.disk)
            + Count(u in s.lost) == Count(u in s.pushed)
  {
    RunInvariant(steps);
    var s := Run(steps);
    WaitingOrPopped(s, u);
    assert Placed(s, u);
  }

  // ---------- the two commands of an enqueue ----------

  /** Enqueueing is two commands: after any run a stored detail is neither listed nor popped if and only if its producer
      has not come to the second one. */
  lemma UnlistedIffEntering(steps: seq<Step>, u: nat)
    requires Possible(steps) && u in Run(steps).details
    ensures u !in Run(steps).list && u !in Run(steps).popped <==> u in Run(steps).entering
  {
    RunInvariant(steps);
    WaitingOrPopped(Run(steps), u);
  }

  /** Then its hour can pass before the record was ever in the queue. */
  lemma ExpiresUnlisted(c: Cdr)
    ensures var steps := [SetDetail(c), Tick(TTL)];
            && Possible(steps) && c.uuid in Run(steps).details && !Live(Run(steps), c.uuid)
            && c.uuid !in Run(steps).list && c.uuid !in Run(steps).popped
  {
    var first := [SetDetail(c)];
    assert first[..0] == [];
    assert Possible(first) && Run(first) == Next(START, SetDetail(c));
    assert [SetDetail(c), Tick(TTL)][..1] == first;
  }

  // ---------- what can be lost, and why ----------

  /** Everything but expiry takes a failing step; expiry takes the hour the detail lives. */
  predicate Explained(steps: seq<Step>, s: State, u: nat)
    requires u in s.lost
  {
    match s.lost[u]
    case Expired => u in s.details && s.now >= s.details[u].expires
    case LoadFailed => LoadFails in steps
    case HooksUnknown => ListFails in steps
    case DiskFailed => Write(false) in steps
    case Cancelled => Cancel in steps
  }

  ghost predicate Detailed(s: State) {
    forall u :: u in s.accepted <==> u in s.details
  }

  lemma NextDetailed(s: State, step: Step)
    requires Detailed(s) && Enabled(s, step)
    ensures Detailed(Next(s, step))
  {
  }

  lemma {:induction false} RunDetailed(steps: seq<Step>)
    requires Possible(steps)
    ensures Detailed(Run(steps))
  {
    if steps != [] {
      RunDetailed(steps[..|steps| - 1]);
      NextDetailed(Run(steps[..|steps| - 1]), steps[|steps| - 1]);
    }
  }

  lemma LostStays(s: State, step: Step, u: nat)
    requires Genuine(s) && Placed(s, u) && Enabled(s, step) && u in s.lost
    ensures var t := Next(s, step);
            && u in t.lost && t.lost[u] == s.lost[u] && t.now >= s.now
            && (u in s.details ==> u in t.details && t.details[u] == s.details[u])
  {
  }

  lemma NewlyLost(s: State, step: Step, u: nat)
    requires Detailed(s) && Ordered(s) && Enabled(s, step) && u !in s.lost && u in Next(s, step).lost
    ensures match Next(s, step).lost[u]
            case Expired => u in s.details && s.now >= s.details[u].expires && Next(s, step).details == s.details
                            && Next(s, step).now == s.now
            case LoadFailed => step == LoadFails
            case HooksUnknown => step == ListFails
            case DiskFailed => step == Write(false)
            case Cancelled => step == Cancel
  {
    if step == Load {
      HandIsAccepted(s);
    }
  }

  lemma HandIsAccepted(s: State)
    requires Ordered(s) && !s.hand.Idle?
    ensures HandUuid(s.hand) in s.accepted
  {
    assert s.pushed[|s.popped| - 1] == s.popped[|s.popped| - 1];
  }

  lemma {:induction false} WhyLost(steps: seq<Step>, u: nat)
    requires Possible(steps) && u in Run(steps).lost
    ensures Explained(steps, Run(steps), u)
  {
    if steps != [] {
      var before := steps[..|steps| - 1];
      var step := steps[|steps| - 1];
      RunInvariant(before);
      RunDetailed(before);
      assert step in steps && forall x :: x in before ==> x in steps;
      assert Placed(Run(before), u);
      if u in Run(before).lost {
        WhyLost(before, u);
        LostStays(Run(before), step, u);
      } else {
        NewlyLost(Run(before), step, u);
      }
    }
  }

  predicate Failing(step: Step) {
    step == LoadFails || step == ListFails || step == Write(false) || step == Cancel
  }

  /** Without failures, a record can only be waiting, in hand, delivered or on disk until its hour is over. */
  lemma NothingLost(steps: seq<Step>, u: nat)
    requires Possible(steps) && (forall i :: 0 <= i < |steps| ==> !Failing(steps[i]))
    requires u in Run(steps).pushed && Live(Run(steps), u)
    ensures var s := Run(steps);
            Count(u in s.list) + Count(InHand(s, u)) + Count(Received(s, u) && !InHand(s, u)) + Count(u in s.disk) == 1
  {
    ExactlyOnePlace(steps, u);
    if u in Run(steps).lost {
      WhyLost(steps, u);
    }
  }

  // ---------- the order of deliveries ----------

  function Joined(uuids: seq<nat>, u: nat): seq<nat> {
    if uuids != [] && uuids[|uuids| - 1] == u then uuids else uuids + [u]
  }

  /** The uuids delivered, with the deliveries of one record to several webhooks taken together. */
  function DeliveredUuids(log: seq<Delivery>): seq<nat> {
    if log == [] then []
    else
      var n := |log| - 1;
      Joined(DeliveredUuids(log[..n]), log[n].cdr.uuid)
  }

  predicate Subsequence(a: seq<nat>, b: seq<nat>)
    decreases |b|
  {
    if a == [] then true
    else if b == [] then false
    else if a[|a| - 1] == b[|b| - 1] then Subsequence(a[..|a| - 1], b[..|b| - 1])
    else Subsequence(a, b[..|b| - 1])
  }

  lemma {:induction false} SubsequenceShorter(a: seq<nat>, b: seq<nat>)
    requires a != [] && Subsequence(a, b)
    ensures Subsequence(a[..|a| - 1], b)
    decreases |b|
  {
    if a[|a| - 1] == b[|b| - 1] {
      if |a| > 1 && a[|a| - 2] == b[|b| - 1] {
        SubsequenceShorter(a[..|a| - 1], b[..|b| - 1]);
      }
    } else {
      SubsequenceShorter(a, b[..|b| - 1]);
      if |a| > 1 && a[|a| - 2] == b[|b| - 1] {
        SubsequenceShorter(a[..|a| - 1], b[..|b| - 1]);
      }
    }
  }

  lemma SubsequenceAppend(a: seq<nat>, b: seq<nat>, x: nat)
    requires Subsequence(a, b)
    ensures Subsequence(a, b + [x])
  {
    assert (b + [x])[..|b|] == b;
    if a != [] {
      SubsequenceShorter(a, b);
    }
  }

  lemma SubsequenceSnoc(a: seq<nat>, b: seq<nat>)
    requires b != [] && Subsequence(a, b) && (a == [] || a[|a| - 1] != b[|b| - 1])
    ensures Subsequence(a + [b[|b| - 1]], b)
  {
    assert (a + [b[|b| - 1]])[..|a|] == a;
  }

  /** Records reach the webhooks in the order they were pushed: all deliveries of one before any of the next. */
  lemma {:induction false} DeliveredInOrder(steps: seq<Step>)
    requires Possible(steps)
    ensures Subsequence(DeliveredUuids(Run(steps).log), Run(steps).popped)
    ensures Run(steps).popped <= Run(steps).pushed
  {
    if steps != [] {
      var n := |steps| - 1;
      var s := Run(steps[..n]);
      DeliveredInOrder(steps[..n]);
      RunInvariant(steps[..n]);
      NextKeepsOrdered(s, steps[n]);
      StepInOrder(s, steps[n]);
    }
  }

  lemma StepInOrder(s: State, step: Step)
    requires Ordered(s) && Enabled(s, step) && Subsequence(DeliveredUuids(s.log), s.popped)
    ensures Subsequence(DeliveredUuids(Next(s, step).log), Next(s, step).popped)
  {
    if step.Pop? {
      SubsequenceAppend(DeliveredUuids(s.log), s.popped, s.list[|s.list| - 1]);
    } else if step.Deliver? && step.ok {
      DeliveryInOrder(s, Next(s, step));
    }
  }

  lemma DeliveryInOrder(s: State, t: State)
    requires Ordered(s) && Enabled(s, Deliver(true)) && t == Next(s, Deliver(true))
    requires Subsequence(DeliveredUuids(s.log), s.popped)
    ensures Subsequence(DeliveredUuids(t.log), t.popped)
  {
    var d := Delivery(s.hand.rest[0], s.hand.cdr);
    assert t.log == s.log + [d] && t.popped == s.popped;
    OneMoreDelivery(s.log, d);
    StillSubsequence(DeliveredUuids(s.log), s.popped, d.cdr.uuid);
  }

  lemma OneMoreDelivery(log: seq<Delivery>, d: Delivery)
    ensures DeliveredUuids(log + [d]) == Joined(DeliveredUuids(log), d.cdr.uuid)
  {
    assert (log + [d])[..|log|] == log;
  }

  lemma StillSubsequence(uuids: seq<nat>, popped: seq<nat>, u: nat)
    requires Subsequence(uuids, popped) && popped != [] && popped[|popped| - 1] == u
    ensures Subsequence(Joined(uuids, u), popped)
  {
    if uuids == [] || uuids[|uuids| - 1] != u {
      SubsequenceSnoc(uuids, popped);
    }
  }
}
