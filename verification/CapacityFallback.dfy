/** In-process capacity counters: one shared counter object per trunk and dimension. */
module CapacityFallback {
  import opened Primitives

  /** An atomic counter shared by everybody who looked up the same trunk. */
  class Counter {
    var value: nat

    constructor ()
      ensures value == 0
    {
      value := 0;
    }

    method FetchAdd() returns (before: nat)
      modifies this
      ensures before == old(value) && value == before + 1
    {
      before := value;
      value := value + 1;
    }

    method CompareExchange(expected: nat, desired: nat) returns (ok: bool)
      modifies this
      ensures ok == (old(value) == expected)
      ensures value == if ok then desired else old(value)
    {
      ok := value == expected;
      if ok {
        value := desired;
      }
    }
  }

  function Get(m: map<string, nat>, trunk: string): nat {
    if trunk in m then m[trunk] else 0
  }

  /** One less, but never below zero. */
  function Less(n: nat): nat {
    if n == 0 then 0 else n - 1
  }

  class LocalCapacityFallback {
    var concurrent: map<string, Counter>
    var cps: map<string, Counter>
    ghost var repr: set<object>

    /** Every trunk has its own counter in each map. */
    ghost predicate Valid()
      reads this, repr
    {
      && this !in repr
      && (forall t :: t in concurrent ==> concurrent[t] in repr)
      && (forall t :: t in cps ==> cps[t] in repr)
      && (forall t, u :: t in concurrent && u in concurrent && concurrent[t] == concurrent[u] ==> t == u)
      && (forall t, u :: t in cps && u in cps && cps[t] == cps[u] ==> t == u)
      && (forall t, u :: t in concurrent && u in cps ==> concurrent[t] != cps[u])
    }

    ghost function Concurrent(): map<string, nat>
      requires Valid()
      reads this, repr
    {
      map t | t in concurrent :: concurrent[t].value
    }

    ghost function Cps(): map<string, nat>
      requires Valid()
      reads this, repr
    {
      map t | t in cps :: cps[t].value
    }

    constructor ()
      ensures Valid() && fresh(repr)
      ensures Concurrent() == map[] && Cps() == map[]
    {
      concurrent, cps, repr := map[], map[], {};
    }

    method GetOrCreateCps(trunk: string) returns (c: Counter)
      requires Valid()
      modifies this
      ensures Valid() && fresh(repr - old(repr)) && concurrent == old(concurrent)
      ensures trunk in cps && c == cps[trunk]
      ensures cps == if trunk in old(cps) then old(cps) else old(cps)[trunk := c]
      ensures trunk !in old(cps) ==> c !in old(repr) && c.value == 0
      ensures old(repr) <= repr
      ensures Cps() == old(Cps())[trunk := Get(old(Cps()), trunk)] && Concurrent() == old(Concurrent())
    {
      if trunk in cps {
        return cps[trunk];
      }
      c := new Counter();
      cps := cps[trunk := c];
      repr := repr + {c};
    }

    method GetOrCreateConcurrent(trunk: string) returns (c: Counter)
      requires Valid()
      modifies this
      ensures Valid() && fresh(repr - old(repr)) && cps == old(cps)
      ensures trunk in concurrent && c == concurrent[trunk]
      ensures concurrent == if trunk in old(concurrent) then old(concurrent) else old(concurrent)[trunk := c]
      ensures trunk !in old(concurrent) ==> c !in old(repr) && c.value == 0
      ensures old(repr) <= repr
      ensures Concurrent() == old(Concurrent())[trunk := Get(old(Concurrent()), trunk)] && Cps() == old(Cps())
    {
      if trunk in concurrent {
        return concurrent[trunk];
      }
      c := new Counter();
      concurrent := concurrent[trunk := c];
      repr := repr + {c};
    }

    /** The atomic addition on a counter in hand. */
    method RaiseCps(trunk: string, counter: Counter) returns (n: nat)
      requires Valid() && trunk in cps && cps[trunk] == counter
      modifies counter
      ensures Valid() && n == old(Cps())[trunk] + 1
      ensures Cps() == old(Cps())[trunk := n] && Concurrent() == old(Concurrent())
    {
      var before := counter.FetchAdd();
      n := before + 1;
    }

    method IncrementCps(trunk: string) returns (n: nat)
      requires Valid()
      modifies this, repr
      ensures Valid() && fresh(repr - old(repr))
      ensures n == Get(old(Cps()), trunk) + 1
      ensures Cps() == old(Cps())[trunk := n] && Concurrent() == old(Concurrent())
    {
      var counter := GetOrCreateCps(trunk);
      n := RaiseCps(trunk, counter);
    }

    method GetCps(trunk: string) returns (n: nat)
      requires Valid()
      ensures n == Get(Cps(), trunk)
    {
      n := if trunk in cps then cps[trunk].value else 0;
    }

    method ResetCps(trunk: string)
      requires Valid()
      modifies repr
      ensures Valid() && Concurrent() == old(Concurrent())
      ensures Cps() == if trunk in old(Cps()) then old(Cps())[trunk := 0] else old(Cps())
    {
      if trunk in cps {
        cps[trunk].value := 0;
      }
    }

    /** Stores zero into every counter, one after the other. */
    method ResetAllCps()
      requires Valid()
      modifies repr
      ensures Valid() && Concurrent() == old(Concurrent())
      ensures Cps() == map t | t in old(Cps()) :: 0
    {
      var left := cps.Keys;
      while left != {}
        invariant Valid() && left <= cps.Keys
        invariant Concurrent() == old(Concurrent())
        invariant forall t :: t in cps ==> cps[t].value == if t in left then old(cps[t].value) else 0
      {
        var t :| t in left;
        cps[t].value := 0;
        left := left - {t};
      }
    }

    /** The atomic addition on a counter in hand. */
    method RaiseConcurrent(trunk: string, counter: Counter) returns (n: nat)
      requires Valid() && trunk in concurrent && concurrent[trunk] == counter
      modifies counter
      ensures Valid() && n == old(Concurrent())[trunk] + 1
      ensures Concurrent() == old(Concurrent())[trunk := n] && Cps() == old(Cps())
    {
      var before := counter.FetchAdd();
      n := before + 1;
    }

    method IncrementConcurrent(trunk: string) returns (n: nat)
      requires Valid()
      modifies this, repr
      ensures Valid() && fresh(repr - old(repr))
      ensures n == Get(old(Concurrent()), trunk) + 1
      ensures Concurrent() == old(Concurrent())[trunk := n] && Cps() == old(Cps())
    {
      var counter := GetOrCreateConcurrent(trunk);
      n := RaiseConcurrent(trunk, counter);
    }

    /** Never below zero: retries the exchange until it wins or finds zero. */
    method DecrementConcurrent(trunk: string)
      requires Valid()
      modifies repr
      ensures Valid() && Cps() == old(Cps())
      ensures Concurrent() == if trunk in old(Concurrent())
                              then old(Concurrent())[trunk := Less(Get(old(Concurrent()), trunk))]
                              else old(Concurrent())
    {
      if trunk in concurrent {
        var c := concurrent[trunk];
        var won := false;
        while !won
          invariant Valid()
          invariant won ==> c.value == Less(old(c.value))
          invariant !won ==> c.value == old(c.value)
          invariant forall o: Counter :: o in repr && o != c ==> o.value == old(o.value)
          decreases !won
        {
          var current := c.value;
          if current == 0 {
            break;
          }
          won := c.CompareExchange(current, current - 1);
        }
      }
    }

    method GetConcurrent(trunk: string) returns (n: nat)
      requires Valid()
      ensures n == Get(Concurrent(), trunk)
    {
      n := if trunk in concurrent then concurrent[trunk].value else 0;
    }
  }
}
