/** Gateway health: two counters per gateway that disable it after enough failures in a
    row and bring it back after enough successes in a row. */
module Gateway {
  import opened Primitives

  datatype Status = Active | Disabled | Unknown
  datatype Config = Config(failureThreshold: nat, recoveryThreshold: nat)
  datatype Health = Health(status: Status, failures: nat, successes: nat)

  /** `check_threshold`, with the transition it reports. */
  function Check(config: Config, h: Health, success: bool): (Health, Option<Status>) {
    if success then
      if h.status.Disabled? && h.successes + 1 >= config.recoveryThreshold
      then (Health(Active, 0, 0), Some(Active))
      else (Health(h.status, 0, h.successes + 1), None)
    else
      if h.status.Active? && h.failures + 1 >= config.failureThreshold
      then (Health(Disabled, 0, 0), Some(Disabled))
      else (Health(h.status, h.failures + 1, 0), None)
  }

  // ---------- the objects ----------

  class GatewayState {
    const config: Config
    var status: Status
    var consecutiveFailures: nat
    var consecutiveSuccesses: nat

    constructor (config: Config, status: Status)
      ensures this.config == config && View() == Health(status, 0, 0)
    {
      this.config, this.status, consecutiveFailures, consecutiveSuccesses := config, status, 0, 0;
    }

    ghost function View(): Health
      reads this
    {
      Health(status, consecutiveFailures, consecutiveSuccesses)
    }

    method CheckThreshold(success: bool) returns (transition: Option<Status>)
      modifies this
      ensures (View(), transition) == Check(config, old(View()), success)
    {
      if success {
        consecutiveFailures := 0;
        consecutiveSuccesses := consecutiveSuccesses + 1;
        if status.Disabled? && consecutiveSuccesses >= config.recoveryThreshold {
          status := Active;
          consecutiveSuccesses := 0;
          return Some(Active);
        }
      } else {
        consecutiveSuccesses := 0;
        consecutiveFailures := consecutiveFailures + 1;
        if status.Active? && consecutiveFailures >= config.failureThreshold {
          status := Disabled;
          consecutiveFailures := 0;
          return Some(Disabled);
        }
      }
      return None;
    }
  }

  datatype AddResult = Added | UnsupportedTransport | AddFailed
  datatype RecordResult = Recorded | NotFound | StoreFailed

  function Lower(c: char): char {
    if 'A' <= c <= 'Z' then (c as int + 32) as char else c
  }

  /** Case does not matter. */
  predicate Supported(transport: string) {
    var t := seq(|transport|, i requires 0 <= i < |transport| => Lower(transport[i]));
    t == "udp" || t == "tcp" || t == "tls"
  }

  class GatewayManager {
    var gateways: map<string, GatewayState>
    /** The configurations in the configuration store. */
    var stored: map<string, Config>
    /** The health last written to the runtime store. */
    var published: map<string, Status>

    ghost predicate Valid()
      reads this
    {
      forall a, b :: a in gateways && b in gateways && gateways[a] == gateways[b] ==> a == b
    }

    constructor ()
      ensures Valid() && gateways == map[] && stored == map[] && published == map[]
    {
      gateways, stored, published := map[], map[], map[];
    }

    /** Adds or replaces a gateway; it starts Active. Nothing happens to the gateways when the transport is not known or
        one of the two stores fails, but the configuration may have been stored by then. */
    method AddGateway(name: string, config: Config, transport: string, configOk: bool, healthOk: bool)
      returns (r: AddResult)
      requires Valid()
      modifies this
      ensures Valid()
      ensures r == if !Supported(transport) then UnsupportedTransport
                   else if configOk && healthOk then Added else AddFailed
      ensures stored == if Supported(transport) && configOk then old(stored)[name := config] else old(stored)
      ensures published == if r.Added? then old(published)[name := Active] else old(published)
      ensures r.Added? ==>
                && name in gateways && fresh(gateways[name]) && gateways == old(gateways)[name := gateways[name]]
                && gateways[name].config == config && gateways[name].View() == Health(Active, 0, 0)
      ensures !r.Added? ==> gateways == old(gateways)
    {
      if !Supported(transport) {
        return UnsupportedTransport;
      }
      if !configOk {
        return AddFailed;
      }
      stored := stored[name := config];
      if !healthOk {
        return AddFailed;
      }
      published := published[name := Active];
      var g := new GatewayState(config, Active);
      gateways := gateways[name := g];
      r := Added;
    }

    /** Only a transition is written to the store; when that write fails the gateway has
        changed all the same. */
    method RecordHealthResult(name: string, success: bool, storeOk: bool) returns (r: RecordResult)
      requires Valid()
      modifies this`published, gateways.Values
      ensures Valid()
      ensures r.NotFound? <==> name !in gateways
      ensures r.NotFound? ==>
                published == old(published) && forall g :: g in gateways.Values ==> g.View() == old(g.View())
      ensures name in gateways ==>
                var (h, transition) := Check(gateways[name].config, old(gateways[name].View()), success);
                && gateways[name].View() == h
                && published
                   == (if transition.Some? && storeOk then old(published)[name := transition.value] else old(published))
                && (r == StoreFailed <==> transition.Some? && !storeOk)
      ensures forall n :: n in gateways && n != name ==> gateways[n].View() == old(gateways[n].View())
    {
      if name !in gateways {
        return NotFound;
      }
      var transition := gateways[name].CheckThreshold(success);
      if transition.Some? {
        if !storeOk {
          return StoreFailed;
        }
        published := published[name := transition.value];
      }
      return Recorded;
    }
  }

  // ---------- a history of results ----------

  function Run(config: Config, start: Status, results: seq<bool>): Health {
    if results == [] then Health(start, 0, 0)
    else Check(config, Run(config, start, results[..|results| - 1]), results[|results| - 1]).0
  }

  /** A run of n equal results ends at position i. */
  predicate WindowEndsAt(results: seq<bool>, i: nat, n: nat, success: bool) {
    n <= i <= |results| && forall k :: i - n <= k < i ==> results[k] == success
  }

  /** Some full window of failures ends later than every full window of successes. */
  ghost predicate FailuresLast(results: seq<bool>, f: nat, r: nat) {
    exists i: nat :: WindowEndsAt(results, i, f, false)
      && forall j: nat :: WindowEndsAt(results, j, r, true) ==> j < i
  }

  function FailureRun(config: Config): nat {
    Max(config.failureThreshold, 1)
  }

  function RecoveryRun(config: Config): nat {
    Max(config.recoveryThreshold, 1)
  }

  // ---------- the two counters against the windows ----------

  function Trailing(results: seq<bool>, success: bool): (n: nat)
    ensures n <= |results|
  {
    if results == [] || results[|results| - 1] != success then 0
    else 1 + Trailing(results[..|results| - 1], success)
  }

  lemma {:induction false} TrailingIsWindow(results: seq<bool>, n: nat, success: bool)
    requires n <= |results|
    ensures WindowEndsAt(results, |results|, n, success) <==> n <= Trailing(results, success)
  {
    if n > 0 {
      var k := |results| - 1;
      TrailingIsWindow(results[..k], n - 1, success);
      if results[k] == success && WindowEndsAt(results[..k], k, n - 1, success) {
        forall i | |results| - n <= i < |results| ensures results[i] == success {
          if i < k {
            assert results[..k][i] == success;
          }
        }
      } else if WindowEndsAt(results, |results|, n, success) {
        forall i | k - (n - 1) <= i < k ensures results[..k][i] == success {
          assert results[i] == success;
        }
      }
    }
  }

  /** The end of the last window, zero if there is none. */
  function LastWindow(results: seq<bool>, n: nat, success: bool): (i: nat)
    ensures i <= |results|
  {
    if results == [] then 0
    else if Trailing(results, success) >= n then |results|
    else LastWindow(results[..|results| - 1], n, success)
  }

  lemma WindowPrefix(results: seq<bool>, i: nat, n: nat, success: bool)
    requires i < |results|
    ensures WindowEndsAt(results, i, n, success) <==> WindowEndsAt(results[..|results| - 1], i, n, success)
  {
    var front := results[..|results| - 1];
    forall k | 0 <= k < i ensures front[k] == results[k] {}
  }

  lemma {:induction false} LastWindowIsLast(results: seq<bool>, n: nat, success: bool)
    requires n > 0
    ensures var last := LastWindow(results, n, success);
            && (last > 0 ==> WindowEndsAt(results, last, n, success))
            && (forall i: nat :: WindowEndsAt(results, i, n, success) ==> i <= last)
  {
    if results != [] {
      var m := |results|;
      LastWindowIsLast(results[..m - 1], n, success);
      if n <= m {
        TrailingIsWindow(results, n, success);
      }
      forall i: nat | i < m
        ensures WindowEndsAt(results, i, n, success) <==> WindowEndsAt(results[..m - 1], i, n, success)
      {
        WindowPrefix(results, i, n, success);
      }
    }
  }

  /** A gateway is in the state of whichever full window ended last; before any, where it started. */
  function LastWord(config: Config, start: Status, results: seq<bool>): Status {
    var (f, r) := (LastWindow(results, FailureRun(config), false), LastWindow(results, RecoveryRun(config), true));
    if f > r then Disabled else if r > f then Active else start
  }

  lemma {:induction false} RunFollowsWindows(config: Config, start: Status, results: seq<bool>)
    requires !start.Unknown?
    ensures var h := Run(config, start, results);
            && h.status == LastWord(config, start, results)
            && (h.status.Active? ==> h.failures == Trailing(results, false) < FailureRun(config))
            && (h.status.Disabled? ==> h.successes == Trailing(results, true) < RecoveryRun(config))
  {
    if results != [] {
      RunFollowsWindows(config, start, results[..|results| - 1]);
    }
  }

  /** Starting Active, after any history the gateway is Disabled exactly when a full window
      of failures ended later than every full window of successes. */
  lemma DisabledIffFailuresLast(config: Config, results: seq<bool>)
    ensures Run(config, Active, results).status.Disabled?
            <==> FailuresLast(results, FailureRun(config), RecoveryRun(config))
  {
    RunFollowsWindows(config, Active, results);
    LastWindowIsLast(results, FailureRun(config), false);
    LastWindowIsLast(results, RecoveryRun(config), true);
    var (f, r) := (LastWindow(results, FailureRun(config), false), LastWindow(results, RecoveryRun(config), true));
    if f > r {
      assert WindowEndsAt(results, f, FailureRun(config), false);
    }
    if r > 0 {
      assert WindowEndsAt(results, r, RecoveryRun(config), true);
    }
    if FailuresLast(results, FailureRun(config), RecoveryRun(config)) {
      var i: nat :| WindowEndsAt(results, i, FailureRun(config), false)
                    && forall j: nat :: WindowEndsAt(results, j, RecoveryRun(config), true) ==> j < i;
      assert i <= f && i > 0;
    }
  }

  /** A gateway whose stored health is unknown never changes. */
  lemma {:induction false} UnknownForever(config: Config, results: seq<bool>)
    ensures Run(config, Unknown, results).status.Unknown?
  {
    if results != [] {
      UnknownForever(config, results[..|results| - 1]);
    }
  }

  // ---------- transitions ----------

  /** The transitions reported along a history. */
  function Transitions(config: Config, results: seq<bool>): seq<Status> {
    if results == [] then []
    else
      var n := |results| - 1;
      Transitions(config, results[..n])
      + match Check(config, Run(config, Active, results[..n]), results[n]).1
        case Some(status) => [status]
        case None => []
  }

  /** They alternate, starting with Disabled, and the last one is where the gateway is now. */
  lemma {:induction false} TransitionsAlternate(config: Config, results: seq<bool>)
    ensures var ts := Transitions(config, results);
            && (forall i :: 0 <= i < |ts| ==> ts[i] == if i % 2 == 0 then Disabled else Active)
            && Run(config, Active, results).status == if |ts| % 2 == 0 then Active else Disabled
  {
    if results != [] {
      TransitionsAlternate(config, results[..|results| - 1]);
    }
  }

  /** Results that n transitions cost: a full run of failures for each disable, a full run
      of successes for each recovery. */
  function Cost(n: nat, f: nat, r: nat): nat {
    if n == 0 then 0 else Cost(n - 1, f, r) + (if n % 2 == 1 then f else r)
  }

  lemma {:induction false} TransitionsTakeTime(config: Config, results: seq<bool>)
    ensures var h := Run(config, Active, results);
            |results| >= Cost(|Transitions(config, results)|, FailureRun(config), RecoveryRun(config))
                         + (if h.status.Active? then h.failures else h.successes)
  {
    if results != [] {
      TransitionsTakeTime(config, results[..|results| - 1]);
      TransitionsAlternate(config, results[..|results| - 1]);
    }
  }

  lemma {:induction false} CostOfDisable(k: nat, f: nat, r: nat)
    requires k > 0
    ensures Cost(2 * k - 1, f, r) == k * f + (k - 1) * r
  {
    if k > 1 {
      CostOfDisable(k - 1, f, r);
      assert Cost(2 * k - 2, f, r) == Cost(2 * k - 3, f, r) + r;
      assert (k - 1) * f + f == k * f && (k - 2) * r + r == (k - 1) * r;
    }
  }

  lemma {:induction false} CostGrows(m: nat, n: nat, f: nat, r: nat)
    requires m <= n
    ensures Cost(m, f, r) <= Cost(n, f, r)
    decreases n
  {
    if m < n {
      CostGrows(m, n - 1, f, r);
    }
  }

  /** So the k-th disable needs at least k * F + (k - 1) * R results. */
  lemma DisablesTakeTime(config: Config, results: seq<bool>, k: nat)
    requires k > 0 && |Transitions(config, results)| >= 2 * k - 1
    ensures |results| >= k * FailureRun(config) + (k - 1) * RecoveryRun(config)
  {
    TransitionsTakeTime(config, results);
    CostGrows(2 * k - 1, |Transitions(config, results)|, FailureRun(config), RecoveryRun(config));
    CostOfDisable(k, FailureRun(config), RecoveryRun(config));
  }
}
