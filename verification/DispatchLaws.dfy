/** Safety of the acceptance seal over whole runs. */
module DispatchLaws {
  import opened Text
  import opened Dispatching
  import opened DispatchRuns

  // ---------------------------------------------------------------- all interleavings

  lemma {:induction false} RunFromKeeps(s: Sys, events: seq<Event>)
    requires Inv(s)
    ensures Inv(Run(s, events)) && Extends(s.db, Run(s, events).db) && s.log <= Run(s, events).log
  {
    if events != [] {
      var before := Run(s, events[..|events| - 1]);
      RunFromKeeps(s, events[..|events| - 1]);
      StepKeeps(before, events[|events| - 1]);
      ExtendsTransitive(s.db, before.db, Run(s, events).db);
    }
  }

  lemma ExtendsTransitive(a: Db, b: Db, c: Db)
    requires Extends(a, b) && Extends(b, c)
    ensures Extends(a, c)
  {
  }

  /** Every reachable state is lawful: see `Lawful` for what that says of each record. */
  lemma ReachableLawful(events: seq<Event>)
    ensures Inv(Run(INIT, events))
  {
    RunFromKeeps(INIT, events);
  }

  /** All successful callers of one idempotency key, in any interleaving, got the same dispatch,
      execution id, context id and trace id, and the store still holds it after any further run. */
  lemma OneWinnerForever(events: seq<Event>, later: seq<Event>, i: nat, j: nat)
    requires var log := Run(INIT, events).log;
      i < |log| && j < |log| && log[i].AcceptedAs? && log[j].AcceptedAs? && log[i].key == log[j].key
    ensures var log := Run(INIT, events).log; var end := Run(INIT, events + later).db;
      && SameIdentity(log[i].record, log[j].record)
      && LoadByKey(end, log[i].key).Some? && SameIdentity(log[i].record, LoadByKey(end, log[i].key).value)
      && LoadByExecution(end, log[i].record.executionId) == LoadByKey(end, log[i].key)
  {
    var s, key := Run(INIT, events), Run(INIT, events).log[i].key;
    ReachableLawful(events);
    assert ReplyLawful(s.db, s.log[i]) && ReplyLawful(s.db, s.log[j]);
    RunFromKeeps(s, later);
    RunConcat(INIT, events, later);
    LookupsAgree(Run(s, later).db, key);
  }

  /** A committed acceptance is handed back whatever the authority epoch has become. */
  lemma ReplayIgnoresEpoch(s: Sys, i: nat, c: nat, d: Dispatch, epoch: int, now: int, ctx: string, trace: string)
    requires Inv(s) && c !in s.flights && i < |s.log| && s.log[i].AcceptedAs? && s.log[i].key == d.idempotencyKey
    requires Bound(d) && SameCause(s.log[i].record.dispatch, d)
    ensures var t := Step(s, AcceptLoad(c, d, epoch, now, ctx, trace));
      && t.db == s.db && |t.log| == |s.log| + 1 && t.log[|s.log|].AcceptedAs?
      && SameIdentity(t.log[|s.log|].record, s.log[i].record)
  {
    assert ReplyLawful(s.db, s.log[i]);
    LookupsAgree(s.db, d.idempotencyKey);
  }

  /** A step that answers with a failure leaves both tables alone. */
  lemma FailuresChangeNothing(s: Sys, e: Event)
    requires Inv(s) && |Step(s, e).log| > |s.log| && Step(s, e).log[|s.log|].Failure?
    ensures Step(s, e).db == s.db
  {
    match e
    case AcceptLoad(c, d, epoch, now, ctx, trace) =>
    case AcceptInsert(c) =>
    case AcceptContextual(d, b, lease, wellFormed, now, ctx, trace) =>
    case OpLoad(c, id, op) =>
    case OpSave(c) =>
    case SpendNow(id, amount) =>
    case BindNow(b) =>
  }

  // ---------------------------------------------------------------- what one step does to one record

  datatype Change =
    | Untouched
    | Created
    | Committed(op: Op, snapshot: Acceptance, since: nat, record: Acceptance)
    | Charged(amount: int)

  /** The event is a save on `id` whose write is accepted. */
  ghost predicate Commits(s: Sys, e: Event, id: string) {
    && e.OpSave? && e.c in s.flights && s.flights[e.c].Loaded? && s.flights[e.c].id == id
    && Finish(s.db, id, s.flights[e.c].snapshot, s.flights[e.c].op).1.None?
  }

  ghost function ChangeOf(s: Sys, e: Event, id: string): Change {
    if Commits(s, e, id) then
      var f := s.flights[e.c];
      Committed(f.op, f.snapshot, f.since, Decide(f.snapshot, BindingOf(s.db, id), f.op).value)
    else if e.SpendNow? && e.id == id && Spend(s.db, id, e.amount).1 then Charged(e.amount)
    else if id !in s.db.rows && id in Step(s, e).db.rows then Created
    else Untouched
  }

  predicate About(r: Reply, id: string) { (r.Spent? || r.Done?) && r.id == id }

  ghost predicate Moves(s: Sys, t: Sys, id: string, ch: Change) {
    && s.log <= t.log && |t.log| <= |s.log| + 1
    && (|t.log| > |s.log| && t.log[|s.log|].Spent? ==> t.log[|s.log|].amount > 0)
    && (forall c :: c in t.flights && t.flights[c].Loaded? && t.flights[c].id == id ==>
          || (c in s.flights && t.flights[c] == s.flights[c])
          || (id in s.db.rows && t.flights[c].snapshot == s.db.rows[id] && t.flights[c].since == |s.log| == |t.log|))
    && (ch.Untouched? ==>
          && (id in t.db.rows <==> id in s.db.rows) && (id in t.db.rows ==> t.db.rows[id] == s.db.rows[id])
          && (|t.log| > |s.log| ==> !About(t.log[|s.log|], id)))
    && (ch.Created? ==>
          && id !in s.db.rows && id in t.db.rows && t.db.rows[id].budgetSpent == 0 && !t.db.rows[id].effectApplied
          && (|t.log| > |s.log| ==> !About(t.log[|s.log|], id)))
    && (ch.Committed? ==>
          && id in s.db.rows && id in t.db.rows && t.db.rows[id] == ch.record && t.log == s.log + [Done(id, ch.op)]
          && ch.record.budgetSpent == ch.snapshot.budgetSpent
          && (ch.op.ApplyEffect? && ch.op.known ==> !ch.snapshot.effectApplied && ch.record.effectApplied)
          && (!(ch.op.ApplyEffect? && ch.op.known) ==> ch.record.effectApplied == ch.snapshot.effectApplied))
    && (ch.Charged? ==>
          && id in s.db.rows && id in t.db.rows && t.log == s.log + [Spent(id, ch.amount)]
          && t.db.rows[id] == s.db.rows[id].(budgetSpent := s.db.rows[id].budgetSpent + ch.amount))
  }

  lemma DecideFields(a: Acceptance, b: Option<Binding>, op: Op)
    ensures Decide(a, b, op).Ok? ==>
      && Decide(a, b, op).value.budgetSpent == a.budgetSpent
      && (if op.ApplyEffect? && op.known then !a.effectApplied && Decide(a, b, op).value.effectApplied
          else Decide(a, b, op).value.effectApplied == a.effectApplied)
  {
  }

  lemma SaveMoves(s: Sys, e: Event, id: string)
    requires Inv(s) && e.OpSave?
    ensures Moves(s, Step(s, e), id, ChangeOf(s, e, id))
  {
    if e.c in s.flights && s.flights[e.c].Loaded? {
      var f := s.flights[e.c];
      assert FlightLawful(s, f);
      SavedRow(s.db, f.id, f.snapshot, f.op);
    }
  }

  /** A save that goes through writes its decision over exactly its own row. */
  lemma SavedRow(db: Db, id: string, loaded: Acceptance, op: Op)
    requires DbLawful(db) && id in db.rows && SameIdentity(loaded, db.rows[id]) && Lawful(loaded, db.subjects)
    ensures var r := Decide(loaded, BindingOf(db, id), op);
      && (r.Err? ==> Finish(db, id, loaded, op) == (db, Some(r.error)))
      && (r.Ok? ==> Finish(db, id, loaded, op) == (db.(rows := db.rows[id := r.value]), None)
                    && r.value.budgetSpent == loaded.budgetSpent
                    && (op.ApplyEffect? && op.known ==> !loaded.effectApplied && r.value.effectApplied)
                    && (!(op.ApplyEffect? && op.known) ==> r.value.effectApplied == loaded.effectApplied))
  {
    DecideFields(loaded, BindingOf(db, id), op);
    DecideKeepsLaw(loaded, BindingOf(db, id), op, db.subjects);
  }

  lemma InsertMoves(s: Sys, e: Event, id: string)
    requires Inv(s) && e.AcceptInsert?
    ensures Moves(s, Step(s, e), id, ChangeOf(s, e, id))
  {
    if e.c in s.flights && s.flights[e.c].Inserting? {
      assert FlightLawful(s, s.flights[e.c]);
      LookupsAgree(s.db, s.flights[e.c].candidate.dispatch.idempotencyKey);
    }
  }

  lemma AcceptLoadMoves(s: Sys, e: Event, id: string)
    requires Inv(s) && e.AcceptLoad?
    ensures Moves(s, Step(s, e), id, ChangeOf(s, e, id))
  {
  }

  lemma ContextualMoves(s: Sys, e: Event, id: string)
    requires Inv(s) && e.AcceptContextual?
    ensures Moves(s, Step(s, e), id, ChangeOf(s, e, id))
  {
    LookupsAgree(s.db, e.d.idempotencyKey);
  }

  lemma LoadMoves(s: Sys, e: Event, id: string)
    requires Inv(s) && e.OpLoad?
    ensures Moves(s, Step(s, e), id, ChangeOf(s, e, id))
  {
  }

  lemma SpendMoves(s: Sys, e: Event, id: string)
    requires Inv(s) && e.SpendNow?
    ensures Moves(s, Step(s, e), id, ChangeOf(s, e, id))
  {
  }

  lemma BindMoves(s: Sys, e: Event, id: string)
    requires Inv(s) && e.BindNow?
    ensures Moves(s, Step(s, e), id, ChangeOf(s, e, id))
  {
  }

  lemma StepMoves(s: Sys, e: Event, id: string)
    requires Inv(s)
    ensures Moves(s, Step(s, e), id, ChangeOf(s, e, id))
  {
    if e.AcceptLoad? { AcceptLoadMoves(s, e, id); }
    else if e.AcceptInsert? { InsertMoves(s, e, id); }
    else if e.AcceptContextual? { ContextualMoves(s, e, id); }
    else if e.OpLoad? { LoadMoves(s, e, id); }
    else if e.OpSave? { SaveMoves(s, e, id); }
    else if e.SpendNow? { SpendMoves(s, e, id); }
    else { BindMoves(s, e, id); }
  }

  // ---------------------------------------------------------------- budget

  ghost function Total(log: seq<Reply>, id: string): int {
    if log == [] then 0
    else
      var last := log[|log| - 1];
      Total(log[..|log| - 1], id) + if last.Spent? && last.id == id then last.amount else 0
  }

  lemma TotalSnoc(log: seq<Reply>, r: Reply, id: string)
    ensures Total(log + [r], id) == Total(log, id) + if r.Spent? && r.id == id then r.amount else 0
  {
    assert (log + [r])[..|log|] == log;
  }

  ghost predicate Positive(log: seq<Reply>) { forall i :: 0 <= i < |log| && log[i].Spent? ==> log[i].amount > 0 }

  ghost predicate SpentWithin(log: seq<Reply>, since: nat, id: string) {
    exists k :: since <= k < |log| && log[k].Spent? && log[k].id == id
  }

  /** Totals only grow, and grow exactly when a spend lands. */
  lemma {:induction false} TotalGrows(log: seq<Reply>, since: nat, id: string)
    requires since <= |log| && Positive(log)
    ensures Total(log, id) >= Total(log[..since], id)
    ensures Total(log, id) == Total(log[..since], id) <==> !SpentWithin(log, since, id)
  {
    if since == |log| {
      assert log[..since] == log;
    } else {
      var init := log[..|log| - 1];
      TotalGrows(init, since, id);
      assert init[..since] == log[..since];
      assert SpentWithin(log, since, id) <==> SpentWithin(init, since, id) || (log[|init|].Spent? && log[|init|].id == id);
    }
  }

  function SpentOf(db: Db, id: string): int { if id in db.rows then db.rows[id].budgetSpent else 0 }

  /** The record's counter is the sum of the spends that were reported successful. */
  ghost predicate Conserved(s: Sys, id: string) { SpentOf(s.db, id) == Total(s.log, id) }

  /** A spend on `id` succeeded between this save's load and now. */
  ghost predicate SpendCrossed(s: Sys, e: Event, id: string) {
    Commits(s, e, id) && SpentWithin(s.log, s.flights[e.c].since, id)
  }

  ghost predicate BudgetInv(s: Sys, id: string) {
    && Inv(s) && Positive(s.log) && Conserved(s, id)
    && forall c :: c in s.flights && s.flights[c].Loaded? && s.flights[c].id == id ==>
         s.flights[c].snapshot.budgetSpent == Total(s.log[..s.flights[c].since], id)
  }

  lemma BudgetMove(s: Sys, t: Sys, id: string, ch: Change)
    requires BudgetInv(s, id) && Inv(t) && Moves(s, t, id, ch)
    ensures !ch.Committed? ==> Conserved(t, id)
    ensures ch.Committed? ==> SpentOf(t.db, id) == ch.snapshot.budgetSpent && Total(t.log, id) == Total(s.log, id)
    ensures Positive(t.log)
  {
    if |t.log| > |s.log| {
      assert t.log == s.log + [t.log[|s.log|]];
      TotalSnoc(s.log, t.log[|s.log|], id);
    } else {
      assert t.log == s.log;
    }
  }

  lemma BudgetFlights(s: Sys, t: Sys, id: string, ch: Change)
    requires BudgetInv(s, id) && Inv(t) && Moves(s, t, id, ch)
    ensures forall c :: c in t.flights && t.flights[c].Loaded? && t.flights[c].id == id ==>
      t.flights[c].since <= |t.log| && t.flights[c].snapshot.budgetSpent == Total(t.log[..t.flights[c].since], id)
  {
    forall c | c in t.flights && t.flights[c].Loaded? && t.flights[c].id == id
      ensures t.flights[c].since <= |t.log| && t.flights[c].snapshot.budgetSpent == Total(t.log[..t.flights[c].since], id)
    {
      assert FlightLawful(t, t.flights[c]);
      if c in s.flights && t.flights[c] == s.flights[c] {
        assert FlightLawful(s, s.flights[c]);
        assert t.log[..t.flights[c].since] == s.log[..t.flights[c].since];
      } else {
        assert t.log[..|t.log|] == s.log;
      }
    }
  }

  lemma BudgetStep(s: Sys, e: Event, id: string)
    requires BudgetInv(s, id)
    ensures Conserved(Step(s, e), id) <==> !SpendCrossed(s, e, id)
    ensures Conserved(Step(s, e), id) ==> BudgetInv(Step(s, e), id)
  {
    var t := Step(s, e);
    StepKeeps(s, e);
    StepMoves(s, e, id);
    BudgetMove(s, t, id, ChangeOf(s, e, id));
    BudgetFlights(s, t, id, ChangeOf(s, e, id));
    if Commits(s, e, id) {
      assert FlightLawful(s, s.flights[e.c]);
      TotalGrows(s.log, s.flights[e.c].since, id);
    }
  }

  ghost function At(events: seq<Event>, n: nat): Sys
    requires n <= |events|
  {
    Run(INIT, events[..n])
  }

  lemma AtStep(events: seq<Event>, n: nat)
    requires n < |events|
    ensures At(events, n + 1) == Step(At(events, n), events[n])
  {
    assert events[..n + 1][..n] == events[..n];
  }

  lemma {:induction false} BudgetInvAt(events: seq<Event>, id: string, n: nat)
    requires n <= |events|
    requires (forall m :: 0 <= m < n ==> !SpendCrossed(At(events, m), events[m], id))
          || (forall m :: 0 <= m <= n ==> Conserved(At(events, m), id))
    ensures BudgetInv(At(events, n), id)
  {
    if n > 0 {
      BudgetInvAt(events, id, n - 1);
      AtStep(events, n - 1);
      BudgetStep(At(events, n - 1), events[n - 1], id);
    }
  }

  /** Conservation of budget, exactly: over a whole run the counter equals the sum of the
      successful spends after every step if and only if no accepted save writes back a record
      loaded before a spend that has landed since. */
  lemma BudgetConservedIff(events: seq<Event>, id: string)
    ensures (forall n :: 0 <= n <= |events| ==> Conserved(At(events, n), id)) <==>
            (forall n :: 0 <= n < |events| ==> !SpendCrossed(At(events, n), events[n], id))
  {
    if forall n :: 0 <= n <= |events| ==> Conserved(At(events, n), id) {
      forall n | 0 <= n < |events| ensures !SpendCrossed(At(events, n), events[n], id) {
        BudgetInvAt(events, id, n);
        AtStep(events, n);
        BudgetStep(At(events, n), events[n], id);
      }
    }
    if forall n :: 0 <= n < |events| ==> !SpendCrossed(At(events, n), events[n], id) {
      forall n | 0 <= n <= |events| ensures Conserved(At(events, n), id) { BudgetInvAt(events, id, n); }
    }
  }

  // ---------------------------------------------------------------- effects

  predicate KnownApply(r: Reply, id: string) { r.Done? && r.id == id && r.op.ApplyEffect? && r.op.known }

  /** How many times an effect with a known outcome was reported applied. */
  ghost function Applied(log: seq<Reply>, id: string): nat {
    if log == [] then 0
    else Applied(log[..|log| - 1], id) + if KnownApply(log[|log| - 1], id) then 1 else 0
  }

  lemma AppliedSnoc(log: seq<Reply>, r: Reply, id: string)
    ensures Applied(log + [r], id) == Applied(log, id) + if KnownApply(r, id) then 1 else 0
  {
    assert (log + [r])[..|log|] == log;
  }

  ghost predicate AppliedWithin(log: seq<Reply>, since: nat, id: string) {
    exists k :: since <= k < |log| && KnownApply(log[k], id)
  }

  lemma {:induction false} AppliedGrows(log: seq<Reply>, since: nat, id: string)
    requires since <= |log|
    ensures Applied(log, id) >= Applied(log[..since], id)
    ensures Applied(log, id) == Applied(log[..since], id) <==> !AppliedWithin(log, since, id)
  {
    if since == |log| {
      assert log[..since] == log;
    } else {
      var init := log[..|log| - 1];
      AppliedGrows(init, since, id);
      assert init[..since] == log[..since];
      assert AppliedWithin(log, since, id) <==> AppliedWithin(init, since, id) || KnownApply(log[|init|], id);
    }
  }

  predicate Flag(db: Db, id: string) { id in db.rows && db.rows[id].effectApplied }

  /** The effect was applied at most once, and the record says so. */
  ghost predicate Once(s: Sys, id: string) {
    Applied(s.log, id) <= 1 && (Flag(s.db, id) <==> Applied(s.log, id) == 1)
  }

  /** The effect was applied between this save's load and now. */
  ghost predicate ApplyCrossed(s: Sys, e: Event, id: string) {
    Commits(s, e, id) && AppliedWithin(s.log, s.flights[e.c].since, id)
  }

  ghost predicate EffectInv(s: Sys, id: string) {
    && Inv(s) && Once(s, id)
    && forall c :: c in s.flights && s.flights[c].Loaded? && s.flights[c].id == id ==>
         (s.flights[c].snapshot.effectApplied <==> Applied(s.log[..s.flights[c].since], id) == 1)
  }

  lemma EffectMove(s: Sys, t: Sys, id: string, ch: Change)
    requires EffectInv(s, id) && Inv(t) && Moves(s, t, id, ch)
    ensures !ch.Committed? ==> Once(t, id)
    ensures ch.Committed? ==> (Flag(t.db, id) <==> ch.record.effectApplied)
    ensures ch.Committed? ==>
      Applied(t.log, id) == Applied(s.log, id) + if ch.op.ApplyEffect? && ch.op.known then 1 else 0
  {
    if |t.log| > |s.log| {
      assert t.log == s.log + [t.log[|s.log|]];
      AppliedSnoc(s.log, t.log[|s.log|], id);
    } else {
      assert t.log == s.log;
    }
  }

  lemma EffectFlights(s: Sys, t: Sys, id: string, ch: Change)
    requires EffectInv(s, id) && Inv(t) && Moves(s, t, id, ch)
    ensures forall c :: c in t.flights && t.flights[c].Loaded? && t.flights[c].id == id ==>
      t.flights[c].since <= |t.log| &&
      (t.flights[c].snapshot.effectApplied <==> Applied(t.log[..t.flights[c].since], id) == 1)
  {
    forall c | c in t.flights && t.flights[c].Loaded? && t.flights[c].id == id
      ensures t.flights[c].since <= |t.log|
      ensures t.flights[c].snapshot.effectApplied <==> Applied(t.log[..t.flights[c].since], id) == 1
    {
      assert FlightLawful(t, t.flights[c]);
      if c in s.flights && t.flights[c] == s.flights[c] {
        assert FlightLawful(s, s.flights[c]);
        assert t.log[..t.flights[c].since] == s.log[..t.flights[c].since];
      } else {
        assert t.log[..|t.log|] == s.log;
      }
    }
  }

  lemma EffectStep(s: Sys, e: Event, id: string)
    requires EffectInv(s, id)
    ensures Once(Step(s, e), id) <==> !ApplyCrossed(s, e, id)
    ensures Once(Step(s, e), id) ==> EffectInv(Step(s, e), id)
  {
    var t := Step(s, e);
    StepKeeps(s, e);
    StepMoves(s, e, id);
    EffectMove(s, t, id, ChangeOf(s, e, id));
    EffectFlights(s, t, id, ChangeOf(s, e, id));
    if Commits(s, e, id) {
      assert FlightLawful(s, s.flights[e.c]);
      AppliedGrows(s.log, s.flights[e.c].since, id);
    }
  }

  lemma {:induction false} EffectInvAt(events: seq<Event>, id: string, n: nat)
    requires n <= |events|
    requires (forall m :: 0 <= m < n ==> !ApplyCrossed(At(events, m), events[m], id))
          || (forall m :: 0 <= m <= n ==> Once(At(events, m), id))
    ensures EffectInv(At(events, n), id)
  {
    if n > 0 {
      EffectInvAt(events, id, n - 1);
      AtStep(events, n - 1);
      EffectStep(At(events, n - 1), events[n - 1], id);
    }
  }

  /** At-most-once effects, exactly: after every step the effect was applied at most once and the
      record agrees, if and only if no accepted save writes back a record loaded before an
      application that has landed since. */
  lemma EffectOnceIff(events: seq<Event>, id: string)
    ensures (forall n :: 0 <= n <= |events| ==> Once(At(events, n), id)) <==>
            (forall n :: 0 <= n < |events| ==> !ApplyCrossed(At(events, n), events[n], id))
  {
    if forall n :: 0 <= n <= |events| ==> Once(At(events, n), id) {
      forall n | 0 <= n < |events| ensures !ApplyCrossed(At(events, n), events[n], id) {
        EffectInvAt(events, id, n);
        AtStep(events, n);
        EffectStep(At(events, n), events[n], id);
      }
    }
    if forall n :: 0 <= n < |events| ==> !ApplyCrossed(At(events, n), events[n], id) {
      forall n | 0 <= n <= |events| ensures Once(At(events, n), id) { EffectInvAt(events, id, n); }
    }
  }

  // ---------------------------------------------------------------- undisturbed calls

  /** Every load is followed at once by its own save. */
  ghost predicate Serial(events: seq<Event>) {
    forall n :: 0 <= n < |events| - 1 && events[n].OpLoad? ==> events[n + 1] == OpSave(events[n].c)
  }

  lemma {:induction false} SerialFlights(events: seq<Event>, n: nat)
    requires n <= |events| && Serial(events)
    ensures forall c :: c in At(events, n).flights && At(events, n).flights[c].Loaded? ==>
      n > 0 && events[n - 1].OpLoad? && events[n - 1].c == c && At(events, n).flights[c].since == |At(events, n).log|
  {
    if n > 0 {
      SerialFlights(events, n - 1);
      AtStep(events, n - 1);
    }
  }

  /** Calls that run alone conserve the budget and apply each effect at most once, at every step. */
  lemma SerialRunsAreExact(events: seq<Event>, id: string, n: nat)
    requires Serial(events) && n <= |events|
    ensures Conserved(At(events, n), id) && Once(At(events, n), id)
  {
    forall m | 0 <= m < |events| ensures !SpendCrossed(At(events, m), events[m], id) && !ApplyCrossed(At(events, m), events[m], id) {
      SerialFlights(events, m);
    }
    BudgetConservedIff(events, id);
    EffectOnceIff(events, id);
  }
}
