/** The queue and the processor as they run, one call at a time, and their place among the interleaved steps. */
module CdrProcessor {
  import opened Primitives
  import opened CdrPipeline

  datatype Webhook = Webhook(id: Hook, active: bool)
  datatype Outcome = Processed | Empty | Failed

  /** How the outside answers during one call: the pop and the load of the detail, the listing of the webhooks (absent
      when the configuration store fails), the receivers that answer with success, and the write of the file. */
  datatype Replies = Replies(popOk: bool, loadOk: bool, webhooks: Option<seq<Webhook>>, accepting: set<Hook>,
                             diskOk: bool)

  datatype Dequeued = Dequeued(record: Option<Cdr>) | QueueError

  datatype World = World(now: nat, details: map<nat, Detail>, list: seq<nat>, log: seq<Delivery>, disk: map<nat, Cdr>)

  function ActiveHooks(webhooks: seq<Webhook>): seq<Hook> {
    if webhooks == [] then []
    else
      var n := |webhooks| - 1;
      if webhooks[n].active then ActiveHooks(webhooks[..n]) + [webhooks[n].id] else ActiveHooks(webhooks[..n])
  }

  /** The deliveries of one record that succeed, in order. */
  function Deliveries(hooks: seq<Hook>, accepting: set<Hook>, c: Cdr): seq<Delivery> {
    if hooks == [] then []
    else
      var n := |hooks| - 1;
      var before := Deliveries(hooks[..n], accepting, c);
      if hooks[n] in accepting then before + [Delivery(hooks[n], c)] else before
  }

  /** The oldest entry goes; its record is found only while its detail lives. */
  function NextRecord(w: World): Option<Cdr> {
    if w.list == [] then None
    else
      var u := w.list[|w.list| - 1];
      if u in w.details && w.now < w.details[u].expires then Some(w.details[u].cdr) else None
  }

  function ProcessedOne(w: World, x: Replies): World {
    if !x.popOk || w.list == [] then w
    else
      var rest := w.(list := w.list[..|w.list| - 1]);
      if !x.loadOk || NextRecord(w).None? || x.webhooks.None? then rest
      else
        var c := NextRecord(w).value;
        var taken := Deliveries(ActiveHooks(x.webhooks.value), x.accepting, c);
        if taken == [] && x.diskOk then rest.(disk := w.disk[c.uuid := c]) else rest.(log := w.log + taken)
  }

  function OutcomeOf(w: World, x: Replies): Outcome {
    if !x.popOk then Failed
    else if w.list == [] then Empty
    else if !x.loadOk then Failed
    else if NextRecord(w).None? then Empty
    else if x.webhooks.None? then Failed
    else Processed
  }

  class CdrQueue {
    var now: nat
    var details: map<nat, Detail>
    var list: seq<nat>

    constructor ()
      ensures now == 0 && details == map[] && list == []
    {
      now, details, list := 0, map[], [];
    }

    method Enqueue(c: Cdr)
      modifies this`details, this`list
      ensures details == old(details)[c.uuid := Detail(c, now + TTL)] && list == [c.uuid] + old(list)
    {
      details := details[c.uuid := Detail(c, now + TTL)];
      list := [c.uuid] + list;
    }

    /** An entry whose detail cannot be loaded is gone all the same. */
    method Dequeue(popOk: bool, loadOk: bool) returns (r: Dequeued)
      modifies this`list
      ensures list == if !popOk || old(list) == [] then old(list) else old(list)[..|old(list)| - 1]
      ensures r == if !popOk || (old(list) != [] && !loadOk) then QueueError
                   else Dequeued(old(NextRecord(World(now, details, list, [], map[]))))
    {
      if !popOk {
        return QueueError;
      }
      if list == [] {
        return Dequeued(None);
      }
      var u := list[|list| - 1];
      list := list[..|list| - 1];
      if !loadOk {
        return QueueError;
      }
      if u in details && now < details[u].expires {
        r := Dequeued(Some(details[u].cdr));
      } else {
        r := Dequeued(None);
      }
    }
  }

  class CdrProcessor {
    const queue: CdrQueue
    var log: seq<Delivery>
    var disk: map<nat, Cdr>

    constructor (queue: CdrQueue)
      ensures this.queue == queue && log == [] && disk == map[]
    {
      this.queue := queue;
      log, disk := [], map[];
    }

    function View(): World
      reads this, queue
    {
      World(queue.now, queue.details, queue.list, log, disk)
    }

    method ProcessOne(x: Replies) returns (outcome: Outcome)
      modifies this`log, this`disk, queue`list
      ensures View() == ProcessedOne(old(View()), x) && outcome == OutcomeOf(old(View()), x)
    {
      var next := queue.Dequeue(x.popOk, x.loadOk);
      if next.QueueError? {
        return Failed;
      }
      if next.record.None? {
        return Empty;
      }
      var c := next.record.value;
      if x.webhooks.None? {
        return Failed;
      }
      var active := ActiveHooks(x.webhooks.value);
      assert log + [] == log;
      if active == [] {
        WriteToDisk(c, x.diskOk);
        return Processed;
      }
      var anySuccess := false;
      for i := 0 to |active|
        invariant disk == old(disk) && queue.list == old(queue.list)[..|old(queue.list)| - 1]
        invariant log == old(log) + Deliveries(active[..i], x.accepting, c)
        invariant anySuccess <==> Deliveries(active[..i], x.accepting, c) != []
      {
        assert active[..i + 1][..i] == active[..i];
        if active[i] in x.accepting {
          log := log + [Delivery(active[i], c)];
          anySuccess := true;
        }
      }
      assert active[..|active|] == active;
      if !anySuccess {
        WriteToDisk(c, x.diskOk);
      }
      outcome := Processed;
    }

    method WriteToDisk(c: Cdr, ok: bool)
      modifies this`disk
      ensures disk == if ok then old(disk)[c.uuid := c] else old(disk)
    {
      if ok {
        disk := disk[c.uuid := c];
      }
    }
  }

  // ---------- what one call does ----------

  predicate Takes(w: Webhook, accepting: set<Hook>) {
    w.active && w.id in accepting
  }

  lemma {:induction false} ActiveHooksMeaning(webhooks: seq<Webhook>, h: Hook)
    ensures h in ActiveHooks(webhooks) <==> exists w :: w in webhooks && w.active && w.id == h
  {
    if webhooks != [] {
      var n := |webhooks| - 1;
      ActiveHooksMeaning(webhooks[..n], h);
      assert forall w :: w in webhooks <==> w in webhooks[..n] || w == webhooks[n];
    }
  }

  lemma {:induction false} DeliveriesMeaning(hooks: seq<Hook>, accepting: set<Hook>, c: Cdr, d: Delivery)
    ensures d in Deliveries(hooks, accepting, c) <==> d.cdr == c && d.hook in hooks && d.hook in accepting
  {
    if hooks != [] {
      DeliveriesMeaning(hooks[..|hooks| - 1], accepting, c, d);
    }
  }

  /** A record found in the queue goes to disk exactly when the webhooks are known, no active one takes it and the write
      succeeds; a webhook gets it exactly when it is active and takes it. */
  lemma DiskIffNoneTakes(w: World, x: Replies, h: Hook)
    requires NextRecord(w).Some? && x.popOk && x.loadOk && x.webhooks.Some?
    ensures var c := NextRecord(w).value;
            var after := ProcessedOne(w, x);
            var taken := exists v :: v in x.webhooks.value && Takes(v, x.accepting);
            && after.disk == (if !taken && x.diskOk then w.disk[c.uuid := c] else w.disk)
            && w.log <= after.log
            && (Delivery(h, c) in after.log[|w.log|..]
                <==> exists v :: v in x.webhooks.value && Takes(v, x.accepting) && v.id == h)
  {
    var c := NextRecord(w).value;
    var (webhooks, accepting) := (x.webhooks.value, x.accepting);
    var active := ActiveHooks(webhooks);
    var delivered := Deliveries(active, accepting, c);
    DeliveriesMeaning(active, accepting, c, Delivery(h, c));
    ActiveHooksMeaning(webhooks, h);
    if delivered != [] {
      SomeoneTakes(webhooks, accepting, c, delivered[0]);
    }
    forall v | v in webhooks && Takes(v, accepting) ensures Delivery(v.id, c) in delivered {
      ActiveHooksMeaning(webhooks, v.id);
      DeliveriesMeaning(active, accepting, c, Delivery(v.id, c));
    }
    var after := ProcessedOne(w, x);
    assert after.log == w.log + delivered;
    assert after.log[|w.log|..] == delivered;
  }

  lemma SomeoneTakes(webhooks: seq<Webhook>, accepting: set<Hook>, c: Cdr, d: Delivery)
    requires d in Deliveries(ActiveHooks(webhooks), accepting, c)
    ensures exists x :: x in webhooks && Takes(x, accepting)
  {
    DeliveriesMeaning(ActiveHooks(webhooks), accepting, c, d);
    ActiveHooksMeaning(webhooks, d.hook);
    var x :| x in webhooks && x.active && x.id == d.hook;
    assert Takes(x, accepting);
  }

  // ---------- one call is a run of steps ----------

  function WorldOf(s: State): World {
    World(s.now, s.details, s.list, s.log, s.disk)
  }

  ghost predicate CanDo(s: State, steps: seq<Step>)
    decreases |steps|
  {
    steps == [] || (Enabled(s, steps[0]) && CanDo(Next(s, steps[0]), steps[1..]))
  }

  ghost function After(s: State, steps: seq<Step>): State
    requires CanDo(s, steps)
    decreases |steps|
  {
    if steps == [] then s else After(Next(s, steps[0]), steps[1..])
  }

  lemma {:induction false} Chained(s: State, a: seq<Step>, b: seq<Step>)
    requires CanDo(s, a) && CanDo(After(s, a), b)
    ensures CanDo(s, a + b) && After(s, a + b) == After(After(s, a), b)
    decreases |a|
  {
    if a == [] {
      assert a + b == b;
    } else {
      Chained(Next(s, a[0]), a[1..], b);
      assert (a + b)[1..] == a[1..] + b;
    }
  }

  function DeliverSteps(hooks: seq<Hook>, accepting: set<Hook>): seq<Step> {
    if hooks == [] then [] else [Deliver(hooks[0] in accepting)] + DeliverSteps(hooks[1..], accepting)
  }

  lemma {:induction false} DeliveriesFront(hooks: seq<Hook>, accepting: set<Hook>, c: Cdr)
    requires hooks != []
    ensures Deliveries(hooks, accepting, c)
         == (if hooks[0] in accepting then [Delivery(hooks[0], c)] else []) + Deliveries(hooks[1..], accepting, c)
  {
    var n := |hooks| - 1;
    if n > 0 {
      DeliveriesFront(hooks[..n], accepting, c);
      assert hooks[..n][1..] == hooks[1..][..n - 1];
    } else {
      assert hooks[..0] == [] && hooks[1..] == [];
    }
  }

  lemma {:induction false} DeliverAll(s: State, c: Cdr, hooks: seq<Hook>, any: bool, accepting: set<Hook>)
    requires s.hand == NextHand(c, hooks, any)
    ensures var taken := Deliveries(hooks, accepting, c);
            && CanDo(s, DeliverSteps(hooks, accepting))
            && After(s, DeliverSteps(hooks, accepting))
               == s.(log := s.log + taken, hand := NextHand(c, [], any || taken != []))
    decreases |hooks|
  {
    if hooks == [] {
      assert s.log + [] == s.log;
    } else {
      var ok := hooks[0] in accepting;
      var t := Next(s, Deliver(ok));
      DeliverAll(t, c, hooks[1..], any || ok, accepting);
      FirstStep(s, Deliver(ok), DeliverSteps(hooks[1..], accepting));
      DeliveryAdds(s, c, hooks, any, accepting);
    }
  }

  lemma DeliveryAdds(s: State, c: Cdr, hooks: seq<Hook>, any: bool, accepting: set<Hook>)
    requires hooks != [] && s.hand == NextHand(c, hooks, any)
    ensures var ok := hooks[0] in accepting;
            var t := Next(s, Deliver(ok));
            var later := Deliveries(hooks[1..], accepting, c);
            var taken := Deliveries(hooks, accepting, c);
            && t.hand == NextHand(c, hooks[1..], any || ok)
            && t.(log := t.log + later, hand := NextHand(c, [], (any || ok) || later != []))
               == s.(log := s.log + taken, hand := NextHand(c, [], any || taken != []))
  {
    var ok := hooks[0] in accepting;
    var one := if ok then [Delivery(hooks[0], c)] else [];
    var later := Deliveries(hooks[1..], accepting, c);
    DeliveriesFront(hooks, accepting, c);
    OneDelivery(s, c, hooks, any, ok);
    assert s.log + one + later == s.log + (one + later);
  }

  lemma OneDelivery(s: State, c: Cdr, hooks: seq<Hook>, any: bool, ok: bool)
    requires hooks != [] && s.hand == NextHand(c, hooks, any)
    ensures Next(s, Deliver(ok))
         == s.(hand := NextHand(c, hooks[1..], any || ok),
               log := s.log + if ok then [Delivery(hooks[0], c)] else [])
  {
    assert s.log + [] == s.log;
  }

  lemma FirstStep(s: State, step: Step, rest: seq<Step>)
    requires Enabled(s, step) && CanDo(Next(s, step), rest)
    ensures CanDo(s, [step] + rest) && After(s, [step] + rest) == After(Next(s, step), rest)
  {
    assert ([step] + rest)[1..] == rest;
  }

  /** `process_one` is a chain of enabled interleaved steps that nothing else cuts into, and it leaves the processor free
      again. */
  lemma ProcessOneIsRun(s: State, x: Replies) returns (steps: seq<Step>)
    requires s.hand.Idle?
    ensures CanDo(s, steps) && After(s, steps).hand.Idle?
    ensures WorldOf(After(s, steps)) == ProcessedOne(WorldOf(s), x)
  {
    steps := [];
    if x.popOk && s.list != [] {
      var popped := Next(s, Pop);
      if x.loadOk {
        var rest := Handled(Next(popped, Load), x.webhooks, x.accepting, x.diskOk);
        FirstStep(popped, Load, rest);
        FirstStep(s, Pop, [Load] + rest);
        steps := [Pop] + ([Load] + rest);
      } else {
        FirstStep(popped, LoadFails, []);
        FirstStep(s, Pop, [LoadFails] + []);
        steps := [Pop] + ([LoadFails] + []);
      }
    }
  }

  /** From a loaded record on; nothing is left to do when its detail had expired. */
  lemma Handled(s: State, webhooks: Option<seq<Webhook>>, accepting: set<Hook>, diskOk: bool) returns (steps: seq<Step>)
    requires s.hand.Idle? || s.hand.Loaded?
    ensures CanDo(s, steps) && After(s, steps).hand.Idle?
    ensures s.hand.Idle? || webhooks.None? ==> WorldOf(After(s, steps)) == WorldOf(s)
    ensures s.hand.Loaded? && webhooks.Some? ==>
              var taken := Deliveries(ActiveHooks(webhooks.value), accepting, s.hand.cdr);
              WorldOf(After(s, steps))
                == if taken == [] && diskOk then WorldOf(s).(disk := s.disk[s.hand.cdr.uuid := s.hand.cdr])
                   else WorldOf(s).(log := s.log + taken)
  {
    if s.hand.Idle? {
      steps := [];
    } else if webhooks.None? {
      steps := [ListFails];
    } else {
      var active := ActiveHooks(webhooks.value);
      var t := Next(s, ListHooks(active));
      var middle := DeliverSteps(active, accepting);
      DeliverAll(t, s.hand.cdr, active, false, accepting);
      var last := if Deliveries(active, accepting, s.hand.cdr) == [] then [Write(diskOk)] else [];
      Chained(t, middle, last);
      FirstStep(s, ListHooks(active), middle + last);
      steps := [ListHooks(active)] + (middle + last);
    }
  }

  /** A chain of enabled steps continues the run it starts from. */
  lemma {:induction false} RunContinues(before: seq<Step>, steps: seq<Step>)
    requires Possible(before) && CanDo(Run(before), steps)
    ensures Possible(before + steps) && Run(before + steps) == After(Run(before), steps)
    decreases |steps|
  {
    hide Next, Enabled;
    if steps == [] {
      assert before + steps == before;
    } else {
      var more := before + [steps[0]];
      assert more[..|more| - 1] == before;
      RunContinues(more, steps[1..]);
      assert before + steps == more + steps[1..];
    }
  }

  /** So wherever a run has come to with the processor free, one call goes on from there as steps of the same run. */
  lemma ProcessOneInRun(before: seq<Step>, x: Replies) returns (steps: seq<Step>)
    requires Possible(before) && Run(before).hand.Idle?
    ensures Possible(before + steps) && Run(before + steps).hand.Idle?
    ensures WorldOf(Run(before + steps)) == ProcessedOne(WorldOf(Run(before)), x)
  {
    hide Next, Enabled;
    steps := ProcessOneIsRun(Run(before), x);
    RunContinues(before, steps);
  }
}
