/** Digits from RTP telephone-event packets (sections 2.3 and 2.5.1 of RFC 4733). */
module Dtmf {
  import opened Primitives

  const MAX_EVENT: Byte := 15
  const DIGITS: string := "0123456789*#ABCD"

  datatype Payload = Payload(event: Byte, isEnd: bool, reserved: bool, volume: Byte, duration: nat)
  datatype Packet = Packet(payloadType: Byte, payload: seq<Byte>)

  /** Event byte; E bit, R bit and six volume bits; 16-bit duration, high byte first. */
  function Parse(b: seq<Byte>): Option<Payload> {
    if |b| < 4 || b[0] > MAX_EVENT then None
    else
      var low: int, high: int := b[3], b[2];
      Some(Payload(b[0], b[1] >= 0x80, b[1] / 0x40 % 2 == 1, b[1] % 0x40, 0x100 * high + low))
  }

  /** A sender's layout of the same fields. */
  function Encode(p: Payload): seq<Byte>
    requires p.volume < 0x40 && p.duration < U16
  {
    var flags: int := (if p.isEnd then 0x80 else 0) + (if p.reserved then 0x40 else 0) + p.volume;
    [p.event, flags, p.duration / 0x100, p.duration % 0x100]
  }

  /** Every event a sender can encode is read back; only events above D and short payloads are refused. */
  lemma ParseEncode(p: Payload, extra: seq<Byte>)
    requires p.volume < 0x40 && p.duration < U16
    ensures Parse(Encode(p) + extra) == if p.event <= MAX_EVENT then Some(p) else None
  {
    var b := Encode(p) + extra;
    assert b[0] == p.event && b[1] == Encode(p)[1] && b[2] == p.duration / 0x100 && b[3] == p.duration % 0x100;
  }

  predicate Valid(p: Packet) {
    96 <= p.payloadType <= 127 && Parse(p.payload).Some?
  }

  // ---------- the detector ----------

  datatype State = State(lastEvent: Byte, lastDuration: nat)

  const NEW_DETECTOR: State := State(0xFF, 0)

  function Detect(s: State, p: Packet): (State, Option<char>) {
    if !Valid(p) then (s, None)
    else
      var e := Parse(p.payload).value;
      (State(e.event, e.duration),
       if e.event == s.lastEvent && e.duration >= s.lastDuration then None else Some(DIGITS[e.event]))
  }

  class DtmfDetector {
    var lastEvent: Byte
    var lastDuration: nat

    constructor ()
      ensures View() == NEW_DETECTOR
    {
      lastEvent, lastDuration := 0xFF, 0;
    }

    ghost function View(): State
      reads this
    {
      State(lastEvent, lastDuration)
    }

    method DetectRtp(payloadType: Byte, payload: seq<Byte>) returns (digit: Option<char>)
      modifies this
      ensures (View(), digit) == Detect(old(View()), Packet(payloadType, payload))
    {
      if |payload| < 4 {
        return None;
      }
      if payloadType < 96 || payloadType > 127 {
        return None;
      }
      var parsed := Parse(payload);
      if parsed.None? {
        return None;
      }
      var (event, duration) := (lastEvent, lastDuration);
      lastEvent := parsed.value.event;
      lastDuration := parsed.value.duration;
      if parsed.value.event == event && parsed.value.duration >= duration {
        return None;
      }
      return Some(DIGITS[parsed.value.event]);
    }
  }

  // ---------- a run of packets ----------

  function Run(packets: seq<Packet>): (State, seq<char>) {
    if packets == [] then (NEW_DETECTOR, [])
    else
      var (s, digits) := Run(packets[..|packets| - 1]);
      var (after, digit) := Detect(s, packets[|packets| - 1]);
      (after, if digit.Some? then digits + [digit.value] else digits)
  }

  function Fields(p: Packet): Payload
    requires Valid(p)
  {
    Parse(p.payload).value
  }

  /** Packet p is the valid packet right before position i. */
  predicate PrecedesAt(packets: seq<Packet>, p: nat, i: nat) {
    p < i <= |packets| && Valid(packets[p]) && forall q :: p < q < i ==> !Valid(packets[q])
  }

  predicate Continues(earlier: Packet, later: Packet)
    requires Valid(earlier) && Valid(later)
  {
    Fields(later).event == Fields(earlier).event && Fields(later).duration >= Fields(earlier).duration
  }

  lemma {:induction false} StateIsLastValid(packets: seq<Packet>)
    ensures Run(packets).0 == NEW_DETECTOR ==> forall q :: 0 <= q < |packets| ==> !Valid(packets[q])
    ensures Run(packets).0 != NEW_DETECTOR ==>
              exists p: nat :: PrecedesAt(packets, p, |packets|)
                && Run(packets).0 == State(Fields(packets[p]).event, Fields(packets[p]).duration)
  {
    if packets != [] {
      var n := |packets| - 1;
      StateIsLastValid(packets[..n]);
      if Valid(packets[n]) {
        assert PrecedesAt(packets, n, n + 1);
      } else if Run(packets[..n]).0 != NEW_DETECTOR {
        var p: nat :| PrecedesAt(packets[..n], p, n)
                      && Run(packets[..n]).0 == State(Fields(packets[..n][p]).event, Fields(packets[..n][p]).duration);
        assert PrecedesAt(packets, p, n + 1);
      }
    }
  }

  /** A packet yields a digit exactly when it is valid and does not continue the valid packet
      before it: another event, or a smaller duration, or no valid packet before at all. */
  lemma EmitsIff(packets: seq<Packet>, next: Packet)
    ensures var digit := Detect(Run(packets).0, next).1;
            && (digit.Some? <==>
                  (Valid(next)
                   && !exists p: nat :: PrecedesAt(packets, p, |packets|) && Continues(packets[p], next)))
            && (digit.Some? ==> digit.value == DIGITS[Fields(next).event])
  {
    StateIsLastValid(packets);
    if Valid(next) && Run(packets).0 != NEW_DETECTOR {
      var p: nat :| PrecedesAt(packets, p, |packets|)
                    && Run(packets).0 == State(Fields(packets[p]).event, Fields(packets[p]).duration);
      forall q: nat | PrecedesAt(packets, q, |packets|) ensures q == p {}
    }
  }

  // ---------- key presses ----------

  /** One press as a sender reports it: an event and the growing durations of its packets. */
  datatype Press = Press(event: Byte, durations: seq<nat>)

  predicate WellFormed(p: Press) {
    && p.event <= MAX_EVENT && p.durations != []
    && NonDecreasing(p.durations)
  }

  predicate AllWellFormed(presses: seq<Press>) {
    forall i :: 0 <= i < |presses| ==> WellFormed(presses[i])
  }

  datatype Report = Report(event: Byte, duration: nat)

  /** What the valid packets of a stream say; everything else is dropped. */
  function Reports(packets: seq<Packet>): seq<Report> {
    if packets == [] then []
    else
      var n := |packets| - 1;
      if Valid(packets[n])
      then Reports(packets[..n]) + [Report(Fields(packets[n]).event, Fields(packets[n]).duration)]
      else Reports(packets[..n])
  }

  function ReportsOf(event: Byte, durations: seq<nat>): (reports: seq<Report>)
    ensures |reports| == |durations|
  {
    if durations == [] then []
    else ReportsOf(event, durations[..|durations| - 1]) + [Report(event, durations[|durations| - 1])]
  }

  function AllReports(presses: seq<Press>): seq<Report> {
    if presses == [] then []
    else
      var p := presses[|presses| - 1];
      AllReports(presses[..|presses| - 1]) + ReportsOf(p.event, p.durations)
  }

  function DigitsOf(reports: seq<Report>): seq<char> {
    if reports == [] then []
    else
      var n := |reports| - 1;
      var r := reports[n];
      DigitsOf(reports[..n])
      + if r.event > MAX_EVENT || (n > 0 && reports[n - 1].event == r.event && r.duration >= reports[n - 1].duration)
        then [] else [DIGITS[r.event]]
  }

  /** The detector remembers the last report. */
  function StateAfter(reports: seq<Report>): State {
    if reports == [] then NEW_DETECTOR
    else State(reports[|reports| - 1].event, reports[|reports| - 1].duration)
  }

  lemma OneReport(s: State, digits: seq<char>, reports: seq<Report>, p: Packet)
    requires s == StateAfter(reports) && digits == DigitsOf(reports) && Valid(p)
    ensures var (after, digit) := Detect(s, p);
            var more := reports + [Report(Fields(p).event, Fields(p).duration)];
            && after == StateAfter(more)
            && DigitsOf(more) == if digit.Some? then digits + [digit.value] else digits
  {
    var more := reports + [Report(Fields(p).event, Fields(p).duration)];
    assert more[..|reports|] == reports;
  }

  /** Invalid packets between others change nothing. */
  lemma {:induction false} InvalidPacketsIgnored(packets: seq<Packet>)
    ensures Run(packets).0 == StateAfter(Reports(packets)) && Run(packets).1 == DigitsOf(Reports(packets))
  {
    if packets != [] {
      var n := |packets| - 1;
      InvalidPacketsIgnored(packets[..n]);
      if Valid(packets[n]) {
        OneReport(Run(packets[..n]).0, Run(packets[..n]).1, Reports(packets[..n]), packets[n]);
      }
    }
  }

  /** The next press cannot be told from the one before when it repeats the event and does
      not start below its last duration. */
  predicate Separated(p: Press, next: Press)
    requires WellFormed(p) && WellFormed(next)
  {
    p.event != next.event || next.durations[0] < p.durations[|p.durations| - 1]
  }

  predicate NonDecreasing(durations: seq<nat>) {
    forall i :: 0 < i < |durations| ==> durations[i - 1] <= durations[i]
  }

  /** Digits of a press: its first packet decides, the rest continue it. */
  lemma {:induction false} PressAddsOne(before: seq<Report>, event: Byte, durations: seq<nat>)
    requires event <= MAX_EVENT && durations != [] && NonDecreasing(durations)
    ensures var joined := before != [] && before[|before| - 1].event == event
                          && durations[0] >= before[|before| - 1].duration;
            DigitsOf(before + ReportsOf(event, durations)) == DigitsOf(before) + if joined then [] else [DIGITS[event]]
  {
    var k := |durations| - 1;
    var front := before + ReportsOf(event, durations[..k]);
    assert before + ReportsOf(event, durations) == front + [Report(event, durations[k])];
    assert (front + [Report(event, durations[k])])[..|front|] == front;
    if k > 0 {
      PressAddsOne(before, event, durations[..k]);
      assert front[|front| - 1] == Report(event, durations[k - 1]);
    } else {
      assert front == before;
    }
  }

  /** How many presses are swallowed by the one before. */
  function Merged(presses: seq<Press>): nat
    requires AllWellFormed(presses)
  {
    if |presses| < 2 then 0
    else
      var n := |presses| - 1;
      Merged(presses[..n]) + (if Separated(presses[n - 1], presses[n]) then 0 else 1)
  }

  function OneEach(presses: seq<Press>): (digits: seq<char>)
    requires AllWellFormed(presses)
    ensures |digits| == |presses|
  {
    if presses == [] then []
    else OneEach(presses[..|presses| - 1]) + [DIGITS[presses[|presses| - 1].event]]
  }

  lemma LastReport(presses: seq<Press>)
    requires AllWellFormed(presses) && presses != []
    ensures var reports := AllReports(presses);
            var p := presses[|presses| - 1];
            reports != [] && reports[|reports| - 1] == Report(p.event, p.durations[|p.durations| - 1])
  {
    var p := presses[|presses| - 1];
    var last := ReportsOf(p.event, p.durations);
    assert AllReports(presses)[|AllReports(presses)| - 1] == last[|last| - 1];
  }

  /** One more press adds one digit, or none when it merges into the one before. */
  lemma NextPress(before: seq<Press>, p: Press)
    requires AllWellFormed(before) && WellFormed(p)
    ensures DigitsOf(AllReports(before + [p])) == DigitsOf(AllReports(before))
              + if before != [] && !Separated(before[|before| - 1], p) then [] else [DIGITS[p.event]]
  {
    hide DigitsOf;
    assert (before + [p])[..|before|] == before;
    PressAddsOne(AllReports(before), p.event, p.durations);
    if before != [] {
      LastReport(before);
    }
  }

  lemma {:induction false} PressDigits(presses: seq<Press>)
    requires AllWellFormed(presses)
    ensures |DigitsOf(AllReports(presses))| == |presses| - Merged(presses)
  {
    if presses != [] {
      hide DigitsOf, AllReports;
      PressDigits(presses[..|presses| - 1]);
      NextPress(presses[..|presses| - 1], presses[|presses| - 1]);
      assert presses[..|presses| - 1] + [presses[|presses| - 1]] == presses;
    }
  }

  lemma {:induction false} SeparatedDigits(presses: seq<Press>)
    requires AllWellFormed(presses) && Merged(presses) == 0
    ensures DigitsOf(AllReports(presses)) == OneEach(presses)
  {
    if presses != [] {
      hide DigitsOf, AllReports;
      SeparatedDigits(presses[..|presses| - 1]);
      NextPress(presses[..|presses| - 1], presses[|presses| - 1]);
      assert presses[..|presses| - 1] + [presses[|presses| - 1]] == presses;
    }
  }

  /** A stream that carries these presses, whatever invalid packets are mixed in, gives
      exactly one digit per press, in order, if and only if neighbouring presses are told
      apart by a new event or a lower duration. */
  lemma {:induction false} OneDigitPerPressIff(packets: seq<Packet>, presses: seq<Press>)
    requires AllWellFormed(presses)
    requires Reports(packets) == AllReports(presses)
    ensures Run(packets).1 == OneEach(presses)
            <==> forall i :: 0 <= i < |presses| - 1 ==> Separated(presses[i], presses[i + 1])
  {
    InvalidPacketsIgnored(packets);
    PressDigits(presses);
    MergedZero(presses);
    if Merged(presses) == 0 {
      SeparatedDigits(presses);
    }
  }

  lemma {:induction false} MergedZero(presses: seq<Press>)
    requires AllWellFormed(presses)
    ensures Merged(presses) == 0
            <==> forall i :: 0 <= i < |presses| - 1 ==> Separated(presses[i], presses[i + 1])
  {
    if |presses| >= 2 {
      var n := |presses| - 1;
      var before := presses[..n];
      MergedZero(before);
      assert forall i :: 0 <= i < n - 1 ==>
        (Separated(before[i], before[i + 1]) <==> Separated(presses[i], presses[i + 1]));
      if Merged(presses) != 0 && Separated(presses[n - 1], presses[n]) {
        assert Merged(before) != 0;
      }
    }
  }
}
