/** The budget ledger (packages/workgraph/workgraph.go) and its settlement
    (packages/billing/billing.go). Amounts are exact reals here. */
module Ledger {
  import opened Text

  datatype Clock = RunningClock | PausedWaitingHuman | Stopped | OtherClock(name: string)

  datatype HardStop = Unset | NoStop | WallClock | Compute

  datatype LateBill = LateBill(amount: real, reason: string)

  /** The fields of a `BudgetLedger` as a value. */
  datatype Book = Book(workId: string, ceiling: real, reserved: real, consumed: real, clock: Clock, hardStop: HardStop,
                       lateBills: seq<LateBill>)

  datatype Op = Consume(delta: real) | Pause | Resume | Late(bill: LateBill)

  function Apply(b: Book, op: Op): Book {
    match op
    case Consume(delta) =>
      if b.clock.Stopped? || b.clock.PausedWaitingHuman? then b
      else if b.consumed + delta >= b.ceiling then b.(consumed := b.ceiling, clock := Stopped, hardStop := Compute)
      else b.(consumed := b.consumed + delta)
    case Pause => if b.clock.RunningClock? then b.(clock := PausedWaitingHuman) else b
    case Resume => if b.clock.PausedWaitingHuman? then b.(clock := RunningClock) else b
    case Late(bill) => b.(lateBills := b.lateBills + [bill])
  }

  function Run(b: Book, ops: seq<Op>): Book {
    if ops == [] then b else Apply(Run(b, ops[..|ops| - 1]), ops[|ops| - 1])
  }

  // ---------------------------------------------------------------- the imperative form

  class BudgetLedger {
    const workId: string
    const ceiling: real
    var reserved: real
    var consumed: real
    var clock: Clock
    var hardStop: HardStop
    var lateBills: seq<LateBill>

    function Value(): Book
      reads this
    {
      Book(workId, ceiling, reserved, consumed, clock, hardStop, lateBills)
    }

    constructor (book: Book)
      ensures Value() == book
    {
      workId, ceiling, reserved, consumed := book.workId, book.ceiling, book.reserved, book.consumed;
      clock, hardStop, lateBills := book.clock, book.hardStop, book.lateBills;
    }

    method ConsumeDelta(delta: real) returns (exceeded: bool)
      modifies this
      ensures Value() == Apply(old(Value()), Consume(delta))
      ensures exceeded <==> !old(clock).Stopped? && clock.Stopped?
    {
      if clock == Stopped { return false; }
      if clock == PausedWaitingHuman { return false; }
      if consumed + delta >= ceiling {
        consumed := ceiling;
        clock := Stopped;
        hardStop := Compute;
        return true;
      }
      consumed := consumed + delta;
      exceeded := false;
    }

    method PauseClock()
      modifies this
      ensures Value() == Apply(old(Value()), Pause)
    {
      if clock == RunningClock { clock := PausedWaitingHuman; }
    }

    method ResumeClock()
      modifies this
      ensures Value() == Apply(old(Value()), Resume)
    {
      if clock == PausedWaitingHuman { clock := RunningClock; }
    }

    method RecordLateBill(bill: LateBill)
      modifies this
      ensures Value() == Apply(old(Value()), Late(bill))
    {
      lateBills := lateBills + [bill];
    }
  }

  // ---------------------------------------------------------------- closed form

  /** Whether the clock would be paused after these calls if it could never be stopped. */
  function PausedAfter(ops: seq<Op>): bool {
    if ops == [] then false
    else match ops[|ops| - 1]
      case Pause => true
      case Resume => false
      case _ => PausedAfter(ops[..|ops| - 1])
  }

  /** The deltas given while not paused, hard stop or not. */
  function Metered(ops: seq<Op>): seq<real> {
    if ops == [] then []
    else
      var init, last := ops[..|ops| - 1], ops[|ops| - 1];
      Metered(init) + if last.Consume? && !PausedAfter(init) then [last.delta] else []
  }

  function Sum(s: seq<real>): real { if s == [] then 0.0 else Sum(s[..|s| - 1]) + s[|s| - 1] }

  function LateBills(ops: seq<Op>): seq<LateBill> {
    if ops == [] then []
    else LateBills(ops[..|ops| - 1]) + if ops[|ops| - 1].Late? then [ops[|ops| - 1].bill] else []
  }

  /** Some non-empty prefix of the metered deltas reaches the ceiling. */
  ghost predicate Reaches(s: seq<real>, ceiling: real) {
    exists k :: 0 < k <= |s| && Sum(s[..k]) >= ceiling
  }

  lemma ReachesSnoc(s: seq<real>, x: real, ceiling: real)
    ensures Reaches(s + [x], ceiling) <==> Reaches(s, ceiling) || Sum(s) + x >= ceiling
  {
    var t := s + [x];
    assert t[..|s|] == s && t[..|t|] == t;
    assert Sum(t) == Sum(s) + x;
    if Reaches(t, ceiling) && !(Sum(t) >= ceiling) {
      var k :| 0 < k <= |t| && Sum(t[..k]) >= ceiling;
      assert k < |t| && t[..k] == s[..k];
    }
    if Reaches(s, ceiling) {
      var k :| 0 < k <= |s| && Sum(s[..k]) >= ceiling;
      assert t[..k] == s[..k];
    }
  }

  function Fresh(workId: string, ceiling: real, reserved: real): Book {
    Book(workId, ceiling, reserved, 0.0, RunningClock, Unset, [])
  }

  /** The ledger after any calls, for deltas of any sign and any ceiling: consumption is the
      ceiling once some prefix of the metered deltas has reached it, and their sum until then. */
  ghost function Expected(start: Book, ops: seq<Op>): Book {
    var metered := Metered(ops);
    var stopped := Reaches(metered, start.ceiling);
    start.(consumed := if stopped then start.ceiling else Sum(metered),
           clock := if stopped then Stopped else if PausedAfter(ops) then PausedWaitingHuman else RunningClock,
           hardStop := if stopped then Compute else start.hardStop,
           lateBills := LateBills(ops))
  }

  lemma {:induction false} ClosedForm(workId: string, ceiling: real, reserved: real, ops: seq<Op>)
    ensures Run(Fresh(workId, ceiling, reserved), ops) == Expected(Fresh(workId, ceiling, reserved), ops)
  {
    var start := Fresh(workId, ceiling, reserved);
    if ops == [] {
      assert !Reaches([], ceiling);
    } else {
      var init, last := ops[..|ops| - 1], ops[|ops| - 1];
      ClosedForm(workId, ceiling, reserved, init);
      if last.Consume? && !PausedAfter(init) {
        var m := Metered(init);
        ReachesSnoc(m, last.delta, ceiling);
        assert (m + [last.delta])[..|m|] == m;
        assert Metered(ops) == m + [last.delta];
      } else {
        assert Metered(ops) == Metered(init);
      }
    }
  }

  ghost predicate NonNegative(s: seq<real>) { forall i :: 0 <= i < |s| ==> s[i] >= 0.0 }

  lemma {:induction false} SumMonotone(s: seq<real>, k: nat)
    requires NonNegative(s) && k <= |s|
    ensures 0.0 <= Sum(s[..k]) <= Sum(s)
  {
    if k == |s| {
      assert s[..k] == s;
      if s != [] { SumMonotone(s[..|s| - 1], |s| - 1); assert s[..|s| - 1][..|s| - 1] == s[..|s| - 1]; }
    } else {
      SumMonotone(s[..|s| - 1], k);
      assert s[..|s| - 1][..k] == s[..k];
    }
  }

  function Min(a: real, b: real): real { if a < b then a else b }

  /** For non-negative deltas: consumption is min(ceiling, sum metered), except exactly when the
      ceiling is negative and nothing was metered yet; the clock is stopped exactly when metering
      has reached the ceiling. */
  lemma ConsumedIsMin(workId: string, ceiling: real, reserved: real, ops: seq<Op>)
    requires NonNegative(Metered(ops))
    ensures var b := Run(Fresh(workId, ceiling, reserved), ops);
      && (b.consumed == Min(ceiling, Sum(Metered(ops))) <==> ceiling >= 0.0 || Metered(ops) != [])
      && (ceiling >= 0.0 ==> 0.0 <= b.consumed <= b.ceiling)
      && (b.clock.Stopped? <==> Metered(ops) != [] && Sum(Metered(ops)) >= ceiling)
      && (b.hardStop == Compute <==> b.clock.Stopped?)
  {
    ClosedForm(workId, ceiling, reserved, ops);
    var m := Metered(ops);
    assert m[..|m|] == m;
    SumMonotone(m, |m|);
    forall k | 0 < k <= |m| ensures Sum(m[..k]) <= Sum(m) { SumMonotone(m, k); }
  }

  /** The failing case: a negative ceiling, nothing metered, and consumption stays at zero. */
  lemma NegativeCeilingBreaksMin(workId: string, ceiling: real, reserved: real)
    requires ceiling < 0.0
    ensures var b := Run(Fresh(workId, ceiling, reserved), []);
      b.consumed == 0.0 && Min(ceiling, Sum(Metered([]))) == ceiling && b.consumed > b.ceiling
  {
    ConsumedIsMin(workId, ceiling, reserved, []);
  }

  /** STOPPED is absorbing: no later call meters, re-opens the clock or clears the hard stop. */
  lemma {:induction false} StoppedIsFinal(b: Book, ops: seq<Op>)
    requires b.clock.Stopped?
    ensures var t := Run(b, ops); t == b.(lateBills := t.lateBills)
  {
    if ops != [] { StoppedIsFinal(b, ops[..|ops| - 1]); }
  }

  function WithoutLate(ops: seq<Op>): seq<Op> {
    if ops == [] then []
    else WithoutLate(ops[..|ops| - 1]) + if ops[|ops| - 1].Late? then [] else [ops[|ops| - 1]]
  }

  lemma RunSnoc(b: Book, ops: seq<Op>, op: Op)
    ensures Run(b, ops + [op]) == Apply(Run(b, ops), op)
  {
    assert (ops + [op])[..|ops|] == ops;
  }

  /** Late bills are invisible to metering: erasing them changes nothing but the list of bills. */
  lemma {:induction false} LateBillsInvisible(b: Book, ops: seq<Op>)
    ensures Run(b, WithoutLate(ops)) == Run(b, ops).(lateBills := b.lateBills)
  {
    if ops != [] {
      var init, last := ops[..|ops| - 1], ops[|ops| - 1];
      LateBillsInvisible(b, init);
      if last.Late? { assert WithoutLate(ops) == WithoutLate(init); } else { RunSnoc(b, WithoutLate(init), last); }
    }
  }

  // ---------------------------------------------------------------- settlement

  datatype Quittance = Quittance(id: string, workId: string, verification: string, idempotency: string)

  datatype Settlement = Settlement(workId: string, consumed: real, ceiling: real, hardStop: HardStop, clock: Clock,
                                   lateBills: seq<LateBill>, lateTotal: real, quittance: Quittance)

  datatype SettleError =
    | LedgerRequired | LedgerNoWorkId | NegativeConsumed | NegativeReserved | NegativeCeiling | NegativeLateBill
    | SettleWhileRunning | UnknownClock | QuittanceRequired | QuittanceWorkId | QuittanceIdempotency

  datatype SettleResult = Settled(s: Settlement) | Refused(error: SettleError)

  function Amounts(bills: seq<LateBill>): seq<real> { seq(|bills|, i requires 0 <= i < |bills| => bills[i].amount) }

  predicate Hex64(s: string) { |s| == 64 && All(s, HexLower) }

  /** Everything a lawful settlement demands of the ledger and the quittance. */
  ghost predicate Settleable(b: Book, q: Quittance) {
    && b.workId != "" && b.consumed >= 0.0 && b.reserved >= 0.0 && b.ceiling >= 0.0 && NonNegative(Amounts(b.lateBills))
    && (b.clock.Stopped? || b.clock.PausedWaitingHuman?) && q.workId == b.workId && Hex64(q.idempotency)
  }

  /** The first violated law, in the order they are checked. */
  ghost function FirstRefusal(b: Book, q: Option<Quittance>): Option<SettleError> {
    if b.workId == "" then Some(LedgerNoWorkId)
    else if b.consumed < 0.0 then Some(NegativeConsumed)
    else if b.reserved < 0.0 then Some(NegativeReserved)
    else if b.ceiling < 0.0 then Some(NegativeCeiling)
    else if !NonNegative(Amounts(b.lateBills)) then Some(NegativeLateBill)
    else if b.clock.RunningClock? then Some(SettleWhileRunning)
    else if b.clock.OtherClock? then Some(UnknownClock)
    else if q.None? then Some(QuittanceRequired)
    else if q.value.workId != b.workId then Some(QuittanceWorkId)
    else if !Hex64(q.value.idempotency) then Some(QuittanceIdempotency)
    else None
  }

  method Settle(ledger: BudgetLedger?, q: Option<Quittance>) returns (r: SettleResult)
    ensures r.Settled? <==> ledger != null && q.Some? && Settleable(ledger.Value(), q.value)
    ensures r.Refused? ==>
      Some(r.error) == if ledger == null then Some(LedgerRequired) else FirstRefusal(ledger.Value(), q)
    ensures r.Settled? ==>
      && r.s.workId == ledger.workId && r.s.ceiling == ledger.ceiling && r.s.quittance == q.value
      && r.s.consumed == Min(ledger.ceiling, ledger.consumed)
      && r.s.clock == ledger.clock && r.s.lateBills == ledger.lateBills && r.s.lateTotal == Sum(Amounts(ledger.lateBills))
      && r.s.hardStop == (if ledger.consumed > ledger.ceiling then Compute else if ledger.hardStop.Unset? then NoStop else ledger.hardStop)
  {
    if ledger == null { return Refused(LedgerRequired); }
    if ledger.workId == "" { return Refused(LedgerNoWorkId); }
    if ledger.consumed < 0.0 { return Refused(NegativeConsumed); }
    if ledger.reserved < 0.0 { return Refused(NegativeReserved); }
    if ledger.ceiling < 0.0 { return Refused(NegativeCeiling); }
    var bills := ledger.lateBills;
    for i := 0 to |bills|
      invariant forall k :: 0 <= k < i ==> Amounts(bills)[k] >= 0.0
    {
      if bills[i].amount < 0.0 {
        assert Amounts(bills)[i] < 0.0;
        return Refused(NegativeLateBill);
      }
    }
    match ledger.clock {
      case Stopped =>
      case PausedWaitingHuman =>
      case RunningClock => return Refused(SettleWhileRunning);
      case OtherClock(_) => return Refused(UnknownClock);
    }
    if q.None? { return Refused(QuittanceRequired); }
    if q.value.workId != ledger.workId { return Refused(QuittanceWorkId); }
    if !Hex64(q.value.idempotency) { return Refused(QuittanceIdempotency); }
    var consumed, hardStop := ledger.consumed, ledger.hardStop;
    if hardStop == Unset { hardStop := NoStop; }
    if consumed > ledger.ceiling {
      consumed := ledger.ceiling;
      hardStop := Compute;
    }
    var lateTotal := 0.0;
    for i := 0 to |bills|
      invariant lateTotal == Sum(Amounts(bills)[..i])
    {
      assert Amounts(bills)[..i + 1][..i] == Amounts(bills)[..i];
      lateTotal := lateTotal + bills[i].amount;
    }
    assert Amounts(bills)[..|bills|] == Amounts(bills);
    r := Settled(Settlement(ledger.workId, consumed, ledger.ceiling, hardStop, ledger.clock, bills, lateTotal, q.value));
  }

  /** Over any metered life the settlement's clamp is the identity and its hard stop is genuine:
      what is settled is min(ceiling, sum metered), and every late bill is in the separate total. */
  lemma SettlementOfRun(workId: string, ceiling: real, reserved: real, ops: seq<Op>)
    requires NonNegative(Metered(ops)) && (ceiling >= 0.0 || Metered(ops) != [])
    ensures var b := Run(Fresh(workId, ceiling, reserved), ops);
      && Min(b.ceiling, b.consumed) == b.consumed == Min(ceiling, Sum(Metered(ops)))
      && b.consumed <= b.ceiling && b.lateBills == LateBills(ops)
  {
    ClosedForm(workId, ceiling, reserved, ops);
    ConsumedIsMin(workId, ceiling, reserved, ops);
  }
}
