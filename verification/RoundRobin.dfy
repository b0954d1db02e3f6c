/** Round-robin selection: one counter per destination group. */
module RoundRobin {
  import opened Arithmetic

  function Counter(counters: map<string, nat>, key: string): nat {
    if key in counters then counters[key] else 0
  }

  /** The next index for a key, and the counters afterwards. */
  function Next(counters: map<string, nat>, key: string, trunkCount: nat): (map<string, nat>, nat) {
    if trunkCount == 0 then (counters, 0)
    else (counters[key := Counter(counters, key) + 1], Counter(counters, key) % trunkCount)
  }

  class RoutingState {
    var roundRobinCounters: map<string, nat>

    constructor ()
      ensures roundRobinCounters == map[]
    {
      roundRobinCounters := map[];
    }

    method NextRoundRobinIndex(key: string, trunkCount: nat) returns (r: nat)
      modifies this
      ensures (roundRobinCounters, r) == Next(old(roundRobinCounters), key, trunkCount)
      ensures trunkCount > 0 ==> r < trunkCount
    {
      if trunkCount == 0 {
        return 0;
      }
      if key !in roundRobinCounters {
        roundRobinCounters := roundRobinCounters[key := 0];
      }
      r := roundRobinCounters[key] % trunkCount;
      roundRobinCounters := roundRobinCounters[key := roundRobinCounters[key] + 1];
      assert roundRobinCounters == old(roundRobinCounters)[key := Counter(old(roundRobinCounters), key) + 1];
    }
  }

  // ---------- runs of calls, each for some key and some number of trunks ----------

  datatype Call = Call(key: string, trunkCount: nat)

  function Run(counters: map<string, nat>, calls: seq<Call>): map<string, nat> {
    if calls == [] then counters
    else
      var last := calls[|calls| - 1];
      Next(Run(counters, calls[..|calls| - 1]), last.key, last.trunkCount).0
  }

  /** What the calls for one key were given, in order. */
  function Picks(counters: map<string, nat>, calls: seq<Call>, key: string): seq<nat> {
    if calls == [] then []
    else
      var k := |calls| - 1;
      if calls[k].key != key then Picks(counters, calls[..k], key)
      else Picks(counters, calls[..k], key) + [Next(Run(counters, calls[..k]), key, calls[k].trunkCount).1]
  }

  /** The key's own group has n trunks throughout; other groups may have any number, even none. */
  predicate GroupOf(calls: seq<Call>, key: string, n: nat) {
    forall i :: 0 <= i < |calls| && calls[i].key == key ==> calls[i].trunkCount == n
  }

  /** Calls for other keys never disturb a key: its i-th pick only depends on where its own counter started. */
  lemma {:induction false} PicksByIndex(counters: map<string, nat>, calls: seq<Call>, n: nat, key: string)
    requires n > 0 && GroupOf(calls, key, n)
    ensures var picks := Picks(counters, calls, key);
            && Counter(Run(counters, calls), key) == Counter(counters, key) + |picks|
            && forall i :: 0 <= i < |picks| ==> picks[i] == (Counter(counters, key) + i) % n
  {
    if calls != [] {
      PicksByIndex(counters, calls[..|calls| - 1], n, key);
    }
  }

  /** How often index j occurs. */
  function Count(picks: seq<nat>, j: nat): nat {
    if picks == [] then 0
    else Count(picks[..|picks| - 1], j) + (if picks[|picks| - 1] == j then 1 else 0)
  }

  /** The picks of a counter that starts at c. */
  predicate Cyclic(picks: seq<nat>, c: nat, n: nat)
    requires n > 0
  {
    forall i :: 0 <= i < |picks| ==> picks[i] == (c + i) % n
  }

  // ---------- walking the cycle ----------

  /** After m <= n steps from position s exactly the next m positions were visited, once each. */
  predicate Visited(s: nat, m: nat, n: nat, j: nat) {
    s <= j < s + m || j + n < s + m
  }

  lemma {:induction false} WalkPosition(s: nat, c: nat, m: nat, n: nat)
    requires n > 0 && s == c % n && m < n
    ensures (c + m) % n == if s + m < n then s + m else s + m - n
  {
    if m > 0 {
      WalkPosition(s, c, m - 1, n);
      NextResidue(c + m - 1, n);
    }
  }

  lemma {:induction false} WindowCount(picks: seq<nat>, c: nat, n: nat, j: nat)
    requires n > 0 && j < n && |picks| <= n && Cyclic(picks, c, n)
    ensures Count(picks, j) == if Visited(c % n, |picks|, n, j) then 1 else 0
  {
    if picks != [] {
      var m := |picks| - 1;
      WindowCount(picks[..m], c, n, j);
      WalkPosition(c % n, c, m, n);
    }
  }

  /** Any n consecutive picks for a key give every index 0 .. n-1 exactly once. */
  lemma Permutation(counters: map<string, nat>, calls: seq<Call>, n: nat, key: string, from: nat, j: nat)
    requires n > 0 && GroupOf(calls, key, n) && j < n && from + n <= |Picks(counters, calls, key)|
    ensures Count(Picks(counters, calls, key)[from..from + n], j) == 1
  {
    var window := Picks(counters, calls, key)[from..from + n];
    var c := Counter(counters, key) + from;
    PicksByIndex(counters, calls, n, key);
    assert forall i :: 0 <= i < n ==> window[i] == Picks(counters, calls, key)[from + i];
    WindowCount(window, c, n, j);
  }

  /** The index picked after m picks from a fresh key, by stepping round. */
  function Position(m: nat, n: nat): nat
    requires n > 0
  {
    if m == 0 || Position(m - 1, n) + 1 == n then 0 else Position(m - 1, n) + 1
  }

  lemma {:induction false} PositionIsResidue(m: nat, n: nat)
    requires n > 0
    ensures Position(m, n) == m % n
  {
    var q := Quotient(m, n);
    DivisionUnique(n, q, Position(m, n), m / n, m % n);
  }

  lemma {:induction false} Quotient(m: nat, n: nat) returns (q: nat)
    requires n > 0
    ensures m == n * q + Position(m, n) && Position(m, n) < n
    ensures m == n * (m / n) + m % n && 0 <= m % n < n
  {
    Division(m, n);
    if m == 0 {
      q := 0;
    } else {
      var p := Quotient(m - 1, n);
      if Position(m - 1, n) + 1 == n {
        q := p + 1;
        assert n * q == n * p + n;
      } else {
        q := p;
      }
    }
  }

  /** Full rounds after m picks. */
  function Rounds(m: nat, n: nat): nat
    requires n > 0
  {
    if m == 0 then 0 else Rounds(m - 1, n) + (if Position(m, n) == 0 then 1 else 0)
  }

  /** Each index was picked once a round, and once more if the current round has passed it. */
  lemma {:induction false} FreshCount(picks: seq<nat>, n: nat, j: nat)
    requires n > 0 && j < n && forall i :: 0 <= i < |picks| ==> picks[i] == Position(i, n)
    ensures Count(picks, j) == Rounds(|picks|, n) + (if j < Position(|picks|, n) then 1 else 0)
  {
    if picks != [] {
      FreshCount(picks[..|picks| - 1], n, j);
    }
  }

  /** After any calls starting from a fresh key the load of any two indices differs by at most one, the earlier index
      never having less. */
  lemma Balanced(counters: map<string, nat>, calls: seq<Call>, n: nat, key: string, i: nat, j: nat)
    requires i < j < n && GroupOf(calls, key, n) && key !in counters
    ensures var picks := Picks(counters, calls, key);
            Count(picks, j) <= Count(picks, i) <= Count(picks, j) + 1
  {
    var picks := Picks(counters, calls, key);
    PicksByIndex(counters, calls, n, key);
    forall k | 0 <= k < |picks| ensures picks[k] == Position(k, n) {
      PositionIsResidue(k, n);
    }
    FreshCount(picks, n, i);
    FreshCount(picks, n, j);
  }
}
