/** Every interleaving of acceptor calls. A call that loads, decides and saves is two steps here,
    with any other steps in between; only the store's own transactions are single steps. */
module DispatchRuns {
  import opened Text
  import opened Dispatching

  /** A call in flight. `since` is the length of the reply log when it loaded. */
  datatype Flight =
    | Loaded(id: string, op: Op, snapshot: Acceptance, since: nat)
    | Inserting(candidate: Acceptance)

  datatype Reply =
    | AcceptedAs(key: string, record: Acceptance)
    | Done(id: string, op: Op)
    | Spent(id: string, amount: int)
    | Failure(error: Error)
    | SubjectBound(id: string)

  datatype Sys = Sys(db: Db, flights: map<nat, Flight>, log: seq<Reply>)

  datatype Event =
    | AcceptLoad(c: nat, d: Dispatch, epoch: int, now: int, ctx: string, trace: string)
    | AcceptInsert(c: nat)
    | AcceptContextual(d: Dispatch, binding: V2Binding, lease: Option<string>, wellFormed: bool, now: int, ctx: string, trace: string)
    | OpLoad(c: nat, id: string, op: Op)
    | OpSave(c: nat)
    | SpendNow(id: string, amount: int)
    | BindNow(subject: Binding)

  const INIT := Sys(Db(map[], map[], map[]), map[], [])

  function Answer(s: Sys, db: Db, r: Reply): Sys { s.(db := db, log := s.log + [r]) }

  function AcceptReply(key: string, r: Result<Acceptance>): Reply {
    match r case Ok(a) => AcceptedAs(key, a) case Err(e) => Failure(e)
  }

  /** One step; an event that is not enabled (no such flight) does nothing. */
  ghost function Step(s: Sys, e: Event): Sys {
    match e
    case AcceptLoad(c, d, epoch, now, ctx, trace) =>
      if c in s.flights then s
      else (match BeginAccept(LoadByKey(s.db, d.idempotencyKey), d, epoch, now, ctx, trace)
        case Replay(record) => Answer(s, s.db, AcceptedAs(d.idempotencyKey, record))
        case Refused(error) => Answer(s, s.db, Failure(error))
        case Insert(candidate) => s.(flights := s.flights[c := Inserting(candidate)]))
    case AcceptInsert(c) =>
      if c !in s.flights || !s.flights[c].Inserting? then s
      else
        var candidate := s.flights[c].candidate;
        var (db, r) := FinishAccept(s.db, candidate);
        Answer(s.(flights := s.flights - {c}), db, AcceptReply(candidate.dispatch.idempotencyKey, r))
    case AcceptContextual(d, b, lease, wellFormed, now, ctx, trace) =>
      var (db, r) := AcceptV2(s.db, d, b, lease, wellFormed, now, ctx, trace);
      Answer(s, db, AcceptReply(d.idempotencyKey, r))
    case OpLoad(c, id, op) =>
      if c in s.flights then s
      else if id !in s.db.rows then Answer(s, s.db, Failure(UnknownAcceptance))
      else s.(flights := s.flights[c := Loaded(id, op, s.db.rows[id], |s.log|)])
    case OpSave(c) =>
      if c !in s.flights || !s.flights[c].Loaded? then s
      else
        var f := s.flights[c];
        var (db, error) := Finish(s.db, f.id, f.snapshot, f.op);
        Answer(s.(flights := s.flights - {c}), db, if error.None? then Done(f.id, f.op) else Failure(error.value))
    case SpendNow(id, amount) =>
      var (db, ok) := Spend(s.db, id, amount);
      Answer(s, db, if ok then Spent(id, amount) else Failure(SpendError(s.db, id, amount).value))
    case BindNow(b) =>
      var (db, error) := BindSubject(s.db, b);
      Answer(s, db, if error.None? then SubjectBound(b.executionId) else Failure(error.value))
  }

  ghost function Run(s: Sys, events: seq<Event>): Sys {
    if events == [] then s else Step(Run(s, events[..|events| - 1]), events[|events| - 1])
  }

  lemma {:induction false} RunConcat(s: Sys, a: seq<Event>, b: seq<Event>)
    ensures Run(s, a + b) == Run(Run(s, a), b)
  {
    if b == [] {
      assert a + b == a;
    } else {
      RunConcat(s, a, b[..|b| - 1]);
      assert (a + b)[..|a + b| - 1] == a + b[..|b| - 1];
    }
  }

  // ---------------------------------------------------------------- what one record always satisfies

  /** Everything fixed when the record was accepted. */
  predicate SameIdentity(a: Acceptance, b: Acceptance) {
    && a.contract == b.contract && a.workId == b.workId && a.executionId == b.executionId && a.dispatch == b.dispatch
    && a.acceptedAt == b.acceptedAt && a.epochAt == b.epochAt && a.contextId == b.contextId && a.traceId == b.traceId
  }

  /** Verified means an ACCEPT verdict; a verdict is evidenced, independent and about the one
      admissible subject; the record's own counter respects the ceiling. */
  predicate Lawful(a: Acceptance, subjects: map<string, Binding>) {
    && (a.verified <==> a.verdict.Some? && a.verdict.value.result.AcceptVerdict?)
    && (a.verdict.Some? ==>
          && !a.verdict.value.result.OtherResult? && !Blank(a.verdict.value.evidenceRef)
          && a.verifierId != "" && a.verifierId != a.dispatch.runtimeDispatchId
          && (a.contract.V1? ==> a.verdict.value.subject == a.dispatch.verificationSubj)
          && (a.contract.V2? ==> a.executionId in subjects && a.verdict.value.subject == subjects[a.executionId].subject))
    && 0 <= a.budgetSpent
    && (a.dispatch.budgetCeiling >= 0 ==> a.budgetSpent <= a.dispatch.budgetCeiling)
    && (a.dispatch.budgetCeiling < 0 ==> a.budgetSpent == 0)
  }

  ghost predicate FlightLawful(s: Sys, f: Flight) {
    match f
    case Loaded(id, op, snapshot, since) =>
      id in s.db.rows && SameIdentity(snapshot, s.db.rows[id]) && Lawful(snapshot, s.db.subjects) && since <= |s.log|
    case Inserting(candidate) =>
      && candidate.contract.V1? && candidate.executionId == ExecutionId(candidate.dispatch.idempotencyKey)
      && candidate.dispatch.idempotencyKey != "" && candidate.budgetSpent == 0 && !candidate.effectApplied
      && Lawful(candidate, s.db.subjects)
  }

  ghost predicate ReplyLawful(db: Db, r: Reply) {
    r.AcceptedAs? ==> ExecutionId(r.key) in db.rows && SameIdentity(r.record, db.rows[ExecutionId(r.key)])
  }

  ghost predicate Inv(s: Sys) {
    && DbLawful(s.db)
    && (forall c :: c in s.flights ==> FlightLawful(s, s.flights[c]))
    && (forall i :: 0 <= i < |s.log| ==> ReplyLawful(s.db, s.log[i]))
  }

  /** How any step may move the tables: rows keep their identity, subjects are write-once. */
  ghost predicate Extends(a: Db, b: Db) {
    && (forall id :: id in a.rows ==> id in b.rows && SameIdentity(a.rows[id], b.rows[id]))
    && (forall id :: id in a.subjects ==> id in b.subjects && a.subjects[id] == b.subjects[id])
    && (forall ctx :: ctx in a.contexts ==> ctx in b.contexts && a.contexts[ctx] == b.contexts[ctx])
  }

  ghost predicate DbLawful(db: Db) {
    && Filed(db)
    && (forall id :: id in db.rows ==> RowLawful(db.rows[id], db))
  }

  ghost predicate RowLawful(a: Acceptance, db: Db) { Lawful(a, db.subjects) && Contexted(a, db.contexts) }

  /** A contract 2.0 acceptance has its own resolvable execution context. */
  predicate Contexted(a: Acceptance, contexts: map<string, Context>) {
    a.contract.V2? ==>
      && a.contextId in contexts && contexts[a.contextId].traceId == a.traceId && contexts[a.contextId].workId == a.workId
      && contexts[a.contextId].missionId == a.dispatch.missionId && contexts[a.contextId].authorityLeaseId == a.dispatch.authorityRef
  }

  lemma DecideKeepsLaw(a: Acceptance, binding: Option<Binding>, op: Op, subjects: map<string, Binding>)
    requires Lawful(a, subjects)
    requires binding == if a.executionId in subjects then Some(subjects[a.executionId]) else None
    ensures Decide(a, binding, op).Ok? ==>
      SameIdentity(a, Decide(a, binding, op).value) && Lawful(Decide(a, binding, op).value, subjects)
  {
    match op
    case Revoke =>
    case ApplyEffect(_, _) =>
    case Complete(_) =>
    case RecordVerdict(_, _, _, _, _, _, _) => VerdictKeepsLaw(a, binding, op, subjects);
  }

  lemma VerdictKeepsLaw(a: Acceptance, binding: Option<Binding>, op: Op, subjects: map<string, Binding>)
    requires Lawful(a, subjects) && op.RecordVerdict?
    requires binding == if a.executionId in subjects then Some(subjects[a.executionId]) else None
    ensures var r := DecideVerdict(a, binding, op);
      r.Ok? ==> SameIdentity(a, r.value) && Lawful(r.value, subjects)
  {
  }

  lemma RowAddKeeps(db: Db, a: Acceptance, after: Db)
    requires DbLawful(db) && a.executionId == ExecutionId(a.dispatch.idempotencyKey) && a.dispatch.idempotencyKey != ""
    requires a.dispatch.causalId != "" && a.executionId !in db.rows && Lawful(a, db.subjects) && Contexted(a, db.contexts)
    requires after == db.(rows := db.rows[a.executionId := a])
    ensures DbLawful(after) && Extends(db, after)
  {
  }

  lemma ContextAddKeeps(db: Db, ctx: string, ec: Context, after: Db)
    requires DbLawful(db) && ctx !in db.contexts && after == db.(contexts := db.contexts[ctx := ec])
    ensures DbLawful(after) && Extends(db, after)
  {
    forall id | id in after.rows ensures RowLawful(after.rows[id], after) { assert RowLawful(db.rows[id], db); }
  }

  lemma RowKept(db: Db, id: string)
    requires DbLawful(db) && id in db.rows
    ensures db.rows[id].executionId == id && Lawful(db.rows[id], db.subjects)
  {
    assert RowLawful(db.rows[id], db);
  }

  lemma ReplaceKeeps(db: Db, id: string, a: Acceptance, after: Db)
    requires DbLawful(db) && id in db.rows && SameIdentity(a, db.rows[id]) && Lawful(a, db.subjects)
    requires after == db.(rows := db.rows[id := a])
    ensures DbLawful(after) && Extends(db, after)
  {
    RowKept(db, id);
    forall x | x in after.rows ensures RowLawful(after.rows[x], after) { assert RowLawful(db.rows[x], db); }
  }

  lemma SubjectAddKeeps(db: Db, b: Binding)
    requires DbLawful(db) && b.executionId !in db.subjects
    ensures DbLawful(db.(subjects := db.subjects[b.executionId := b]))
    ensures Extends(db, db.(subjects := db.subjects[b.executionId := b]))
  {
    var after := db.(subjects := db.subjects[b.executionId := b]);
    forall id | id in after.rows ensures RowLawful(after.rows[id], after) { assert RowLawful(db.rows[id], db); }
  }

  lemma FinishKeeps(db: Db, id: string, loaded: Acceptance, op: Op)
    requires DbLawful(db) && id in db.rows && SameIdentity(loaded, db.rows[id]) && Lawful(loaded, db.subjects)
    ensures DbLawful(Finish(db, id, loaded, op).0) && Extends(db, Finish(db, id, loaded, op).0)
    ensures Finish(db, id, loaded, op).1.Some? ==> Finish(db, id, loaded, op).0 == db
  {
    DecideKeepsLaw(loaded, BindingOf(db, id), op, db.subjects);
    var r := Decide(loaded, BindingOf(db, id), op);
    if r.Ok? { ReplaceKeeps(db, id, r.value, Finish(db, id, loaded, op).0); }
  }

  lemma FinishAcceptKeeps(db: Db, candidate: Acceptance)
    requires DbLawful(db) && Lawful(candidate, db.subjects) && candidate.contract.V1?
    requires candidate.executionId == ExecutionId(candidate.dispatch.idempotencyKey) && candidate.dispatch.idempotencyKey != ""
    ensures var (after, r) := FinishAccept(db, candidate);
      && DbLawful(after) && Extends(db, after) && (r.Err? ==> after == db)
      && ReplyLawful(after, AcceptReply(candidate.dispatch.idempotencyKey, r))
  {
    LookupsAgree(db, candidate.dispatch.idempotencyKey);
    if FinishAccept(db, candidate).0 != db { RowAddKeeps(db, candidate, FinishAccept(db, candidate).0); }
  }

  lemma AcceptV2Keeps(db: Db, d: Dispatch, b: V2Binding, lease: Option<string>, wellFormed: bool, now: int, ctx: string, trace: string)
    requires DbLawful(db)
    ensures var (after, r) := AcceptV2(db, d, b, lease, wellFormed, now, ctx, trace);
      && DbLawful(after) && Extends(db, after) && (r.Err? ==> after == db)
      && ReplyLawful(after, AcceptReply(d.idempotencyKey, r))
  {
    var (after, r) := AcceptV2(db, d, b, lease, wellFormed, now, ctx, trace);
    if after == db {
      ExtendsSelf(db);
      StoredReply(db, d.idempotencyKey, r);
    } else {
      BothCommit(db, CandidateV2(d, b.workId, now, ctx, trace), NewContext(d, b, lease.value, trace), after);
    }
  }

  /** Handing back the stored winner of a key is a lawful reply. */
  lemma StoredReply(db: Db, key: string, r: Result<Acceptance>)
    requires Filed(db) && (r.Ok? ==> LoadByKey(db, key) == Some(r.value))
    ensures ReplyLawful(db, AcceptReply(key, r))
  {
    LookupsAgree(db, key);
  }

  /** A contract 2.0 acceptance and its context enter together. */
  lemma BothCommit(db: Db, a: Acceptance, ec: Context, after: Db)
    requires DbLawful(db) && a.executionId == ExecutionId(a.dispatch.idempotencyKey) && a.dispatch.idempotencyKey != ""
    requires a.dispatch.causalId != "" && a.executionId !in db.rows && a.contextId !in db.contexts && Lawful(a, db.subjects)
    requires Contexted(a, map[a.contextId := ec])
    requires after == db.(rows := db.rows[a.executionId := a], contexts := db.contexts[a.contextId := ec])
    ensures DbLawful(after) && Extends(db, after)
  {
    var between := db.(contexts := db.contexts[a.contextId := ec]);
    ContextAddKeeps(db, a.contextId, ec, between);
    RowAddKeeps(between, a, after);
  }

  lemma SpendKeeps(db: Db, id: string, amount: int)
    requires DbLawful(db)
    ensures DbLawful(Spend(db, id, amount).0) && Extends(db, Spend(db, id, amount).0)
  {
    if Spend(db, id, amount).1 { ChargeKeeps(db, id, amount); } else { ExtendsSelf(db); }
  }

  lemma ExtendsSelf(db: Db)
    ensures Extends(db, db)
  {
  }

  /** Charging a row keeps everything but its counter. */
  lemma ChargeKeeps(db: Db, id: string, amount: int)
    requires DbLawful(db) && amount > 0 && id in db.rows && Spendable(db.rows[id], amount)
    ensures DbLawful(Spend(db, id, amount).0) && Extends(db, Spend(db, id, amount).0)
  {
    RowKept(db, id);
    ChargedLawful(db.rows[id], db.subjects, db.rows[id].budgetSpent + amount);
    ReplaceKeeps(db, id, db.rows[id].(budgetSpent := db.rows[id].budgetSpent + amount), Spend(db, id, amount).0);
  }

  lemma ChargedLawful(a: Acceptance, subjects: map<string, Binding>, spent: int)
    requires Lawful(a, subjects) && a.budgetSpent < spent <= a.dispatch.budgetCeiling
    ensures Lawful(a.(budgetSpent := spent), subjects) && SameIdentity(a.(budgetSpent := spent), a)
  {
  }

  lemma BindKeeps(db: Db, b: Binding)
    requires DbLawful(db)
    ensures DbLawful(BindSubject(db, b).0) && Extends(db, BindSubject(db, b).0)
    ensures BindSubject(db, b).1.Some? ==> BindSubject(db, b).0 == db
  {
    if BindSubject(db, b).0 != db { SubjectAddKeeps(db, b); }
  }

  /** What one step may do. */
  ghost predicate LawfulStep(s: Sys, t: Sys) {
    Inv(t) && Extends(s.db, t.db) && s.log <= t.log
  }

  /** Growing the tables lawfully, forgetting flights and logging a lawful reply keep the invariant. */
  lemma AnswerKeeps(s: Sys, flights: map<nat, Flight>, db: Db, r: Reply, t: Sys)
    requires Inv(s) && DbLawful(db) && Extends(s.db, db) && ReplyLawful(db, r)
    requires flights.Keys <= s.flights.Keys && forall c :: c in flights ==> flights[c] == s.flights[c]
    requires t == Answer(s.(flights := flights), db, r)
    ensures LawfulStep(s, t)
  {
    forall c | c in t.flights ensures FlightLawful(t, t.flights[c]) { assert FlightLawful(s, s.flights[c]); }
    forall i | 0 <= i < |t.log| ensures ReplyLawful(t.db, t.log[i]) {
      if i < |s.log| { assert ReplyLawful(s.db, s.log[i]); }
    }
  }

  lemma FlightKeeps(s: Sys, c: nat, f: Flight, t: Sys)
    requires Inv(s) && FlightLawful(s, f) && t == s.(flights := s.flights[c := f])
    ensures LawfulStep(s, t)
  {
    forall x | x in t.flights ensures FlightLawful(t, t.flights[x]) {
      if x != c { assert FlightLawful(s, s.flights[x]); }
    }
  }

  lemma StepKeeps(s: Sys, e: Event)
    requires Inv(s)
    ensures LawfulStep(s, Step(s, e))
  {
    match e
    case AcceptLoad(_, _, _, _, _, _) => AcceptLoadKeeps(s, e);
    case AcceptInsert(_) => AcceptInsertKeeps(s, e);
    case AcceptContextual(_, _, _, _, _, _, _) => ContextualKeeps(s, e);
    case OpLoad(_, _, _) => OpLoadKeeps(s, e);
    case OpSave(_) => OpSaveKeeps(s, e);
    case SpendNow(_, _) => SpendStepKeeps(s, e);
    case BindNow(_) => BindStepKeeps(s, e);
  }

  lemma AcceptInsertKeeps(s: Sys, e: Event)
    requires Inv(s) && e.AcceptInsert?
    ensures LawfulStep(s, Step(s, e))
  {
    if e.c in s.flights && s.flights[e.c].Inserting? {
      var candidate := s.flights[e.c].candidate;
      assert FlightLawful(s, s.flights[e.c]);
      FinishAcceptKeeps(s.db, candidate);
      var (db, r) := FinishAccept(s.db, candidate);
      AnswerKeeps(s, s.flights - {e.c}, db, AcceptReply(candidate.dispatch.idempotencyKey, r), Step(s, e));
    }
  }

  lemma ContextualKeeps(s: Sys, e: Event)
    requires Inv(s) && e.AcceptContextual?
    ensures LawfulStep(s, Step(s, e))
  {
    AcceptV2Keeps(s.db, e.d, e.binding, e.lease, e.wellFormed, e.now, e.ctx, e.trace);
    var (db, r) := AcceptV2(s.db, e.d, e.binding, e.lease, e.wellFormed, e.now, e.ctx, e.trace);
    AnswerKeeps(s, s.flights, db, AcceptReply(e.d.idempotencyKey, r), Step(s, e));
  }

  lemma OpLoadKeeps(s: Sys, e: Event)
    requires Inv(s) && e.OpLoad?
    ensures LawfulStep(s, Step(s, e))
  {
    if e.c !in s.flights {
      if e.id in s.db.rows {
        assert RowLawful(s.db.rows[e.id], s.db);
        FlightKeeps(s, e.c, Loaded(e.id, e.op, s.db.rows[e.id], |s.log|), Step(s, e));
      } else {
        AnswerKeeps(s, s.flights, s.db, Failure(UnknownAcceptance), Step(s, e));
      }
    }
  }

  lemma OpSaveKeeps(s: Sys, e: Event)
    requires Inv(s) && e.OpSave?
    ensures LawfulStep(s, Step(s, e))
  {
    if e.c in s.flights && s.flights[e.c].Loaded? {
      var f := s.flights[e.c];
      assert FlightLawful(s, f);
      FinishKeeps(s.db, f.id, f.snapshot, f.op);
      var (db, error) := Finish(s.db, f.id, f.snapshot, f.op);
      AnswerKeeps(s, s.flights - {e.c}, db, if error.None? then Done(f.id, f.op) else Failure(error.value), Step(s, e));
    }
  }

  lemma SpendStepKeeps(s: Sys, e: Event)
    requires Inv(s) && e.SpendNow?
    ensures LawfulStep(s, Step(s, e))
  {
    SpendKeeps(s.db, e.id, e.amount);
    var (db, ok) := Spend(s.db, e.id, e.amount);
    AnswerKeeps(s, s.flights, db, if ok then Spent(e.id, e.amount) else Failure(SpendError(s.db, e.id, e.amount).value), Step(s, e));
  }

  lemma BindStepKeeps(s: Sys, e: Event)
    requires Inv(s) && e.BindNow?
    ensures LawfulStep(s, Step(s, e))
  {
    BindKeeps(s.db, e.subject);
    var (db, error) := BindSubject(s.db, e.subject);
    AnswerKeeps(s, s.flights, db, if error.None? then SubjectBound(e.subject.executionId) else Failure(error.value), Step(s, e));
  }

  lemma AcceptLoadKeeps(s: Sys, e: Event)
    requires Inv(s) && e.AcceptLoad?
    ensures LawfulStep(s, Step(s, e)) && Step(s, e).db == s.db
  {
    if e.c !in s.flights {
      LookupsAgree(s.db, e.d.idempotencyKey);
      match BeginAccept(LoadByKey(s.db, e.d.idempotencyKey), e.d, e.epoch, e.now, e.ctx, e.trace)
      case Replay(record) => AnswerKeeps(s, s.flights, s.db, AcceptedAs(e.d.idempotencyKey, record), Step(s, e));
      case Refused(error) => AnswerKeeps(s, s.flights, s.db, Failure(error), Step(s, e));
      case Insert(candidate) => FlightKeeps(s, e.c, Inserting(candidate), Step(s, e));
    }
  }
}
