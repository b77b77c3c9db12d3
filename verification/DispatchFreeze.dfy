/** Revocation over interleavings: exactly when a revoked record can never change again, and the
    concrete schedules in which the load-then-save calls break the stronger claims. */
module DispatchFreeze {
  import opened Text
  import opened Dispatching
  import opened DispatchRuns
  import opened DispatchLaws

  /** The subject bindings a later decision on `id` may find. */
  ghost predicate PossibleBinding(db: Db, id: string, b: Option<Binding>) {
    if id in db.subjects then b == Some(db.subjects[id])
    else b.Some? ==> b.value.executionId == id && BindSubject(db, b.value).1.None?
  }

  /** Whatever this flight may yet write to `id`, it is the record already there. */
  ghost predicate Harmless(db: Db, id: string, f: Flight)
    requires id in db.rows
  {
    f.Loaded? && f.id == id ==>
      forall b :: PossibleBinding(db, id, b) && Decide(f.snapshot, b, f.op).Ok? ==>
        Decide(f.snapshot, b, f.op).value == db.rows[id]
  }

  ghost predicate AllHarmless(s: Sys, id: string)
    requires id in s.db.rows
  {
    forall c :: c in s.flights ==> Harmless(s.db, id, s.flights[c])
  }

  /** Nothing more can be decided on a revoked record except revoking it again. */
  lemma RevokedDecides(a: Acceptance, b: Option<Binding>, op: Op)
    requires a.revoked
    ensures Decide(a, b, op).Ok? ==> Decide(a, b, op).value == a
  {
  }

  lemma BindingsOnlySettle(s: Db, t: Db, id: string, b: Option<Binding>)
    requires Extends(s, t) && id in s.rows
    requires id in t.subjects && id !in s.subjects ==>
      t.subjects[id].executionId == id && BindSubject(s, t.subjects[id]).1.None?
    requires PossibleBinding(t, id, b)
    ensures PossibleBinding(s, id, b)
  {
  }

  /** A subject row for `id` appears only through a successful bind of it. */
  lemma NewSubject(s: Sys, e: Event, id: string)
    requires Inv(s) && id in Step(s, e).db.subjects && id !in s.db.subjects
    ensures Step(s, e).db.subjects[id].executionId == id && BindSubject(s.db, Step(s, e).db.subjects[id]).1.None?
  {
    SubjectsOnlyByBind(s, e);
  }

  lemma SubjectsOnlyByBind(s: Sys, e: Event)
    ensures !e.BindNow? ==> Step(s, e).db.subjects == s.db.subjects
  {
  }

  lemma FrozenRow(s: Sys, e: Event, id: string)
    requires Inv(s) && id in s.db.rows && s.db.rows[id].revoked && AllHarmless(s, id)
    ensures id in Step(s, e).db.rows && Step(s, e).db.rows[id] == s.db.rows[id]
  {
    StepMoves(s, e, id);
    if Commits(s, e, id) {
      assert Harmless(s.db, id, s.flights[e.c]);
      assert PossibleBinding(s.db, id, BindingOf(s.db, id));
    }
  }

  lemma FrozenStep(s: Sys, e: Event, id: string)
    requires Inv(s) && id in s.db.rows && s.db.rows[id].revoked && AllHarmless(s, id)
    ensures id in Step(s, e).db.rows && Step(s, e).db.rows[id] == s.db.rows[id] && AllHarmless(Step(s, e), id)
  {
    var t := Step(s, e);
    FrozenRow(s, e, id);
    StepKeeps(s, e);
    StepMoves(s, e, id);
    if id in t.db.subjects && id !in s.db.subjects { NewSubject(s, e, id); }
    StillHarmless(s, t, id, ChangeOf(s, e, id));
  }

  lemma StillHarmless(s: Sys, t: Sys, id: string, ch: Change)
    requires id in s.db.rows && s.db.rows[id].revoked && AllHarmless(s, id)
    requires Extends(s.db, t.db) && t.db.rows[id] == s.db.rows[id] && Moves(s, t, id, ch)
    requires id in t.db.subjects && id !in s.db.subjects ==>
      t.db.subjects[id].executionId == id && BindSubject(s.db, t.db.subjects[id]).1.None?
    ensures AllHarmless(t, id)
  {
    forall c | c in t.flights && t.flights[c].Loaded? && t.flights[c].id == id ensures Harmless(t.db, id, t.flights[c]) {
      var f := t.flights[c];
      forall b | PossibleBinding(t.db, id, b) && Decide(f.snapshot, b, f.op).Ok?
        ensures Decide(f.snapshot, b, f.op).value == t.db.rows[id]
      {
        if c in s.flights && s.flights[c] == f {
          assert Harmless(s.db, id, f);
          BindingsOnlySettle(s.db, t.db, id, b);
        } else {
          RevokedDecides(f.snapshot, b, f.op);
        }
      }
    }
  }

  lemma {:induction false} FrozenRun(s: Sys, events: seq<Event>, id: string)
    requires Inv(s) && id in s.db.rows && s.db.rows[id].revoked && AllHarmless(s, id)
    ensures id in Run(s, events).db.rows && Run(s, events).db.rows[id] == s.db.rows[id]
    ensures AllHarmless(Run(s, events), id)
  {
    if events != [] {
      FrozenRun(s, events[..|events| - 1], id);
      RunFromKeeps(s, events[..|events| - 1]);
      FrozenStep(Run(s, events[..|events| - 1]), events[|events| - 1], id);
    }
  }

  ghost predicate FrozenForever(s: Sys, id: string)
    requires id in s.db.rows
  {
    forall events :: id in Run(s, events).db.rows && Run(s, events).db.rows[id] == s.db.rows[id]
  }

  lemma LoadStep(s: Sys, c: nat, id: string, op: Op)
    requires Inv(s) && id in s.db.rows && c !in s.flights
    ensures Step(s, OpLoad(c, id, op)) == s.(flights := s.flights[c := Loaded(id, op, s.db.rows[id], |s.log|)])
    ensures Inv(Step(s, OpLoad(c, id, op)))
  {
    StepKeeps(s, OpLoad(c, id, op));
  }

  lemma SaveStep(s: Sys, c: nat, id: string, record: Acceptance)
    requires Inv(s) && c in s.flights && s.flights[c].Loaded? && s.flights[c].id == id
    requires Decide(s.flights[c].snapshot, BindingOf(s.db, id), s.flights[c].op) == Ok(record)
    ensures Step(s, OpSave(c)) ==
      Sys(s.db.(rows := s.db.rows[id := record]), s.flights - {c}, s.log + [Done(id, s.flights[c].op)])
    ensures Inv(Step(s, OpSave(c)))
  {
    assert FlightLawful(s, s.flights[c]);
    SavedRow(s.db, id, s.flights[c].snapshot, s.flights[c].op);
    StepKeeps(s, OpSave(c));
  }

  lemma RunOne(s: Sys, e: Event)
    ensures Run(s, [e]) == Step(s, e)
  {
    assert [e][..0] == [] && Run(s, []) == s;
  }

  lemma RunTwo(s: Sys, a: Event, b: Event)
    ensures Run(s, [a, b]) == Step(Step(s, a), b)
  {
    RunOne(s, a);
    assert [a, b][..1] == [a];
  }

  /** A flight whose decision passes under some binding it may yet find does commit it: after at
      most a bind, by its save. */
  lemma FlightCommits(s: Sys, id: string, c: nat, b: Option<Binding>) returns (events: seq<Event>)
    requires Inv(s) && id in s.db.rows && c in s.flights && s.flights[c].Loaded? && s.flights[c].id == id
    requires PossibleBinding(s.db, id, b) && Decide(s.flights[c].snapshot, b, s.flights[c].op).Ok?
    ensures Inv(Run(s, events)) && id in Run(s, events).db.rows
    ensures Run(s, events).db.rows[id] == Decide(s.flights[c].snapshot, b, s.flights[c].op).value
    ensures Run(s, events).flights == s.flights - {c}
    ensures Run(s, events).log == s.log + [Done(id, s.flights[c].op)]
         || Run(s, events).log == s.log + [SubjectBound(id)] + [Done(id, s.flights[c].op)]
  {
    var record := Decide(s.flights[c].snapshot, b, s.flights[c].op).value;
    if id !in s.db.subjects && b.Some? {
      var bind := BindNow(b.value);
      StepKeeps(s, bind);
      BindStep(s, id, b.value);
      events := [bind, OpSave(c)];
      RunTwo(s, bind, OpSave(c));
      SaveStep(Step(s, bind), c, id, record);
    } else {
      events := [OpSave(c)];
      RunOne(s, OpSave(c));
      SaveStep(s, c, id, record);
    }
  }

  lemma BindStep(s: Sys, id: string, b: Binding)
    requires id !in s.db.subjects && b.executionId == id && BindSubject(s.db, b).1.None?
    ensures var t := Step(s, BindNow(b)); t.db.rows == s.db.rows && t.flights == s.flights
    ensures var t := Step(s, BindNow(b)); BindingOf(t.db, id) == Some(b) && t.log == s.log + [SubjectBound(id)]
  {
  }

  /** Revocation freezes a record in every continuation, if and only if no call still in flight
      on that execution could write anything but the revoked record. */
  lemma FrozenIff(s: Sys, id: string)
    requires Inv(s) && id in s.db.rows && s.db.rows[id].revoked
    ensures FrozenForever(s, id) <==> AllHarmless(s, id)
  {
    if AllHarmless(s, id) {
      forall events ensures id in Run(s, events).db.rows && Run(s, events).db.rows[id] == s.db.rows[id] {
        FrozenRun(s, events, id);
      }
    } else {
      var c :| c in s.flights && !Harmless(s.db, id, s.flights[c]);
      var b :| PossibleBinding(s.db, id, b) && Decide(s.flights[c].snapshot, b, s.flights[c].op).Ok?
        && Decide(s.flights[c].snapshot, b, s.flights[c].op).value != s.db.rows[id];
      var events := FlightCommits(s, id, c, b);
    }
  }

  /** With nothing in flight on it, a revoked record never changes again. */
  lemma QuietRevocationIsFinal(s: Sys, id: string, events: seq<Event>)
    requires Inv(s) && id in s.db.rows && s.db.rows[id].revoked
    requires forall c :: c in s.flights && s.flights[c].Loaded? ==> s.flights[c].id != id
    ensures id in Run(s, events).db.rows && Run(s, events).db.rows[id] == s.db.rows[id]
  {
    FrozenRun(s, events, id);
  }

  // ---------------------------------------------------------------- concrete schedules

  ghost predicate Reachable(s: Sys) { exists events: seq<Event> :: Run(INIT, events) == s }

  lemma ReachesStep(s: Sys, e: Event)
    requires Reachable(s)
    ensures Reachable(Step(s, e))
  {
    var events: seq<Event> :| Run(INIT, events) == s;
    assert (events + [e])[..|events + [e]| - 1] == events;
    assert Run(INIT, events + [e]) == Step(s, e);
  }

  /** Any bound dispatch, accepted and then left alone. */
  lemma SampleAccepted(d: Dispatch) returns (s: Sys, id: string)
    requires Bound(d) && d.causalId != ""
    ensures Inv(s) && Reachable(s) && s.flights == map[] && id in s.db.rows && s.db.rows[id] == Candidate(d, 0, "", "")
    ensures Applied(s.log, id) == 0 && Total(s.log, id) == 0
  {
    id := ExecutionId(d.idempotencyKey);
    var candidate := Candidate(d, 0, "", "");
    ReachableLawful([]);
    assert Reachable(INIT) by { assert Run(INIT, []) == INIT; }
    var load := AcceptLoad(0, d, d.authorityEpoch, 0, "", "");
    var s1 := Step(INIT, load);
    assert s1 == INIT.(flights := map[0 := Inserting(candidate)]) by { assert LoadByKey(INIT.db, d.idempotencyKey).None?; }
    StepKeeps(INIT, load);
    ReachesStep(INIT, load);
    s := Inserts(s1, candidate);
    AppliedSnoc([], AcceptedAs(d.idempotencyKey, candidate), id);
    TotalSnoc([], AcceptedAs(d.idempotencyKey, candidate), id);
  }

  lemma Inserts(s: Sys, candidate: Acceptance) returns (t: Sys)
    requires Inv(s) && Reachable(s) && s == INIT.(flights := map[0 := Inserting(candidate)]) && Identified(candidate)
    ensures Inv(t) && Reachable(t) && t.flights == map[] && t.db == Db(map[candidate.executionId := candidate], map[], map[])
    ensures t.log == [] + [AcceptedAs(candidate.dispatch.idempotencyKey, candidate)]
  {
    assert LoadByKey(s.db, candidate.dispatch.idempotencyKey).None?;
    StepKeeps(s, AcceptInsert(0));
    ReachesStep(s, AcceptInsert(0));
    t := Step(s, AcceptInsert(0));
  }

  /** A load of the row, then the state it leaves. */
  lemma Loads(s: Sys, c: nat, id: string, op: Op) returns (t: Sys)
    requires Inv(s) && Reachable(s) && id in s.db.rows && c !in s.flights
    ensures t == s.(flights := s.flights[c := Loaded(id, op, s.db.rows[id], |s.log|)]) && Inv(t) && Reachable(t)
  {
    LoadStep(s, c, id, op);
    t := Step(s, OpLoad(c, id, op));
    ReachesStep(s, OpLoad(c, id, op));
  }

  /** A save, then the state it leaves. */
  lemma Saves(s: Sys, c: nat, id: string, record: Acceptance) returns (t: Sys)
    requires Inv(s) && Reachable(s) && c in s.flights && s.flights[c].Loaded? && s.flights[c].id == id
    requires Decide(s.flights[c].snapshot, BindingOf(s.db, id), s.flights[c].op) == Ok(record)
    ensures t == Sys(s.db.(rows := s.db.rows[id := record]), s.flights - {c}, s.log + [Done(id, s.flights[c].op)])
    ensures Inv(t) && Reachable(t) && t == Step(s, OpSave(c))
  {
    SaveStep(s, c, id, record);
    t := Step(s, OpSave(c));
    ReachesStep(s, OpSave(c));
  }

  lemma SpendStep(s: Sys, id: string, amount: int)
    requires Inv(s) && amount > 0 && id in s.db.rows && Spendable(s.db.rows[id], amount)
    ensures var row := s.db.rows[id].(budgetSpent := s.db.rows[id].budgetSpent + amount);
      Step(s, SpendNow(id, amount)) == Sys(s.db.(rows := s.db.rows[id := row]), s.flights, s.log + [Spent(id, amount)])
    ensures Inv(Step(s, SpendNow(id, amount)))
  {
    StepKeeps(s, SpendNow(id, amount));
  }

  lemma Spends(s: Sys, id: string, amount: int) returns (t: Sys)
    requires Inv(s) && Reachable(s) && amount > 0 && id in s.db.rows && Spendable(s.db.rows[id], amount)
    ensures t.flights == s.flights && t.log == s.log + [Spent(id, amount)] && t.db.subjects == s.db.subjects
    ensures Inv(t) && Reachable(t)
  {
    SpendStep(s, id, amount);
    ReachesStep(s, SpendNow(id, amount));
    t := Step(s, SpendNow(id, amount));
  }

  /** For any dispatch: a completion that loaded before a revocation and saves after it clears it. */
  lemma RevocationCanBeLost(d: Dispatch) returns (s: Sys, id: string, save: Event)
    requires Bound(d) && d.causalId != ""
    ensures Reachable(s) && id in s.db.rows && s.db.rows[id].revoked
    ensures id in Step(s, save).db.rows && !Step(s, save).db.rows[id].revoked
  {
    var s0, x := SampleAccepted(d);
    id := x;
    var row := s0.db.rows[id];
    var s1 := Loads(s0, 1, id, Complete(Succeeded));
    var s2 := Loads(s1, 2, id, Revoke);
    s := Saves(s2, 2, id, row.(revoked := true));
    save := OpSave(1);
    var t := Saves(s, 1, id, row.(outcome := Succeeded));
  }

  /** For any dispatch: two calls that both loaded before either saved both apply the effect. */
  lemma EffectCanApplyTwice(d: Dispatch) returns (s: Sys, id: string)
    requires Bound(d) && d.causalId != ""
    ensures Reachable(s) && Applied(s.log, id) == 2
  {
    var s0, x := SampleAccepted(d);
    id := x;
    var row, op := s0.db.rows[id], ApplyEffect(d.effectId, true);
    var s1 := Loads(s0, 1, id, op);
    var s2 := Loads(s1, 2, id, op);
    var s3 := Saves(s2, 1, id, row.(effectApplied := true));
    s := Saves(s3, 2, id, row.(effectApplied := true));
    AppliedSnoc(s0.log, Done(id, op), id);
    AppliedSnoc(s3.log, Done(id, op), id);
  }

  /** For any dispatch and spend: a completion that loaded before the spend and saves after it erases it. */
  lemma SpendCanBeLost(d: Dispatch, amount: int) returns (s: Sys, id: string)
    requires Bound(d) && d.causalId != "" && 0 < amount <= d.budgetCeiling
    ensures Reachable(s) && SpentOf(s.db, id) == 0 && Total(s.log, id) == amount
  {
    var s0, x := SampleAccepted(d);
    id := x;
    var row, op := s0.db.rows[id], Complete(Succeeded);
    var s1 := Loads(s0, 1, id, op);
    var s2 := Spends(s1, id, amount);
    s := Saves(s2, 1, id, row.(outcome := Succeeded));
    TotalSnoc(s0.log, Spent(id, amount), id);
    TotalSnoc(s2.log, Done(id, op), id);
  }
}
