/** The Runtime -> WORKS acceptance seal (internal/dispatch/acceptance.go) over its durable store
    (services/work/store/dispatch_store.go, dispatch_v2_store.go). */
module Dispatching {
  import opened Text

  datatype Error =
    | MissingBinding | StaleAuthority | CausalMismatch | UnknownAcceptance | EffectDuplicate | BudgetExhausted
    | Revoked | SelfVerification | StaleSubject | VerifierUnavailable | InvalidSpend | InvalidBudget
    | NotTerminal | MissingVerdictEvidence | InvalidVerdict | UnknownOutcome | ContextBinding
    | WorkerLeaseUnavailable | PlacementInvalid | PlacementMismatch | SubjectNotBound | SubjectConflict
    | InvalidSubject | V2Required | StoreRefused

  datatype Placement = Placement(schema: string, missionId: string, selectedNode: string,
                                 decisionDigest: string, snapshotDigest: string, policyVersion: string)

  datatype Dispatch = Dispatch(missionId: string, authorityRef: string, authorityEpoch: int, runtimeDispatchId: string,
                               attemptId: string, effectId: string, idempotencyKey: string, budgetRef: string,
                               budgetCeiling: int, checkpointId: string, evidenceRoot: string,
                               verificationSubj: string, causalId: string, placement: Option<Placement>)

  datatype Contract = V1 | V2

  datatype Outcome = Accepted | Succeeded | Failed | Indeterminate | OtherOutcome(name: string)

  datatype VerdictResult = AcceptVerdict | RejectVerdict | OtherResult(text: string)

  datatype Verdict = Verdict(result: VerdictResult, subject: string, evidenceRef: string, recordedAt: int)

  /** The durable WORKS-owned record. */
  datatype Acceptance = Acceptance(contract: Contract, workId: string, executionId: string, dispatch: Dispatch,
                                   acceptedAt: int, epochAt: int, effectApplied: bool, budgetSpent: int,
                                   revoked: bool, outcome: Outcome, verified: bool, verifierId: string,
                                   verdict: Option<Verdict>, contextId: string, traceId: string)

  datatype Binding = Binding(executionId: string, workId: string, attemptId: string, effectId: string,
                             causalId: string, subject: string)

  /** A stored execution context. */
  datatype Context = Context(workId: string, organizationId: string, tenantId: string, principalId: string, missionId: string,
                             authorityLeaseId: string, workerId: string, workerLeaseId: string, admissionDecisionId: string,
                             traceId: string)

  /** The tables: acceptances by execution id (with a unique idempotency key), verification
      subjects by execution id, and execution contexts by context id. */
  datatype Db = Db(rows: map<string, Acceptance>, subjects: map<string, Binding>, contexts: map<string, Context>)

  datatype Result<+T> = Ok(value: T) | Err(error: Error)

  function ExecutionId(key: string): string { "wexec/" + key }

  lemma ExecutionIdInjective(a: string, b: string)
    requires ExecutionId(a) == ExecutionId(b)
    ensures a == b
  {
    assert ExecutionId(a)[6..] == a && ExecutionId(b)[6..] == b;
  }

  // ---------------------------------------------------------------- store

  /** SELECT ... WHERE idempotency_key = key. */
  ghost function LoadByKey(db: Db, key: string): Option<Acceptance> {
    if id :| id in db.rows && db.rows[id].dispatch.idempotencyKey == key then Some(db.rows[id]) else None
  }

  /** SELECT ... WHERE works_execution_id = id. */
  function LoadByExecution(db: Db, id: string): Option<Acceptance> {
    if id in db.rows then Some(db.rows[id]) else None
  }

  /** Every row is filed under the execution id minted from its own key. */
  ghost predicate Filed(db: Db) {
    forall id :: id in db.rows ==>
      && db.rows[id].executionId == id == ExecutionId(db.rows[id].dispatch.idempotencyKey)
      && db.rows[id].dispatch.idempotencyKey != "" && db.rows[id].dispatch.causalId != ""
  }

  /** The by-key and by-execution lookups agree. */
  lemma LookupsAgree(db: Db, key: string)
    requires Filed(db)
    ensures LoadByKey(db, key) == LoadByExecution(db, ExecutionId(key))
  {
    if id :| id in db.rows && db.rows[id].dispatch.idempotencyKey == key {
      assert id == ExecutionId(key);
    }
    if ExecutionId(key) in db.rows {
      ExecutionIdInjective(key, db.rows[ExecutionId(key)].dispatch.idempotencyKey);
    }
  }

  predicate KeyTaken(db: Db, a: Acceptance) {
    exists id :: id in db.rows && id != a.executionId && db.rows[id].dispatch.idempotencyKey == a.dispatch.idempotencyKey
  }

  predicate Identified(a: Acceptance) {
    a.executionId != "" && a.dispatch.idempotencyKey != "" && a.dispatch.causalId != ""
  }

  // ---------------------------------------------------------------- accept

  predicate Bound(d: Dispatch) {
    d.missionId != "" && d.authorityRef != "" && d.runtimeDispatchId != "" && d.idempotencyKey != ""
  }

  /** The four fields `Accept` compares before handing back a committed winner. */
  predicate SameCause(a: Dispatch, d: Dispatch) {
    a.idempotencyKey == d.idempotencyKey && a.causalId == d.causalId
    && a.authorityEpoch == d.authorityEpoch && a.missionId == d.missionId
  }

  function Candidate(d: Dispatch, now: int, ctx: string, trace: string): Acceptance {
    Acceptance(V1, "", ExecutionId(d.idempotencyKey), d, now, d.authorityEpoch, false, 0, false, Accepted, false, "",
               None, ctx, trace)
  }

  datatype AcceptStart = Replay(record: Acceptance) | Refused(error: Error) | Insert(candidate: Acceptance)

  /** `Accept` up to its store insert, given what `LoadByIdempotency` returned. */
  function BeginAccept(existing: Option<Acceptance>, d: Dispatch, epoch: int, now: int, ctx: string, trace: string): AcceptStart {
    if !Bound(d) then Refused(MissingBinding)
    else if existing.Some? then
      if SameCause(existing.value.dispatch, d) then Replay(existing.value) else Refused(CausalMismatch)
    else if d.authorityEpoch < epoch then Refused(StaleAuthority)
    else Insert(Candidate(d, now, ctx, trace))
  }

  /** `AcceptIfAbsent`, and the comparison `Accept` makes with whatever it returned. */
  ghost function FinishAccept(db: Db, candidate: Acceptance): (Db, Result<Acceptance>) {
    if !Identified(candidate) then (db, Err(StoreRefused))
    else
      var existing := LoadByKey(db, candidate.dispatch.idempotencyKey);
      if existing.Some? then
        (db, if SameCause(existing.value.dispatch, candidate.dispatch) then Ok(existing.value) else Err(CausalMismatch))
      else if candidate.executionId in db.rows then (db, Err(StoreRefused))
      else (db.(rows := db.rows[candidate.executionId := candidate]), Ok(candidate))
  }

  // ---------------------------------------------------------------- accept, contract 2.0

  datatype V2Binding = V2Binding(workId: string, organizationId: string, tenantId: string, principalId: string,
                                 authorityLeaseId: string, workerLeaseId: string, admissionDecisionId: string)

  predicate Sha256Ref(s: string) { |s| == 71 && s[..7] == "sha256:" && All(s[7..], HexLower) }

  predicate Blank(s: string) { All(s, (c: char) => c == ' ' || '\t' <= c <= '\r') }

  predicate ValidPlacement(p: Option<Placement>, missionId: string) {
    p.Some? ==>
      && p.value.schema == "runtime.placement-dispatch-binding/0.1"
      && p.value.missionId == missionId && !Blank(p.value.selectedNode)
      && Sha256Ref(p.value.decisionDigest) && Sha256Ref(p.value.snapshotDigest)
      && !Blank(p.value.policyVersion)
  }

  function CandidateV2(d: Dispatch, workId: string, now: int, ctx: string, trace: string): Acceptance {
    Acceptance(V2, workId, ExecutionId(d.idempotencyKey), d, now, 0, false, 0, false, Accepted, false, "", None, ctx, trace)
  }

  function RefuseV2(d: Dispatch, b: V2Binding): Option<Error> {
    if !Bound(d) || d.effectId == "" || d.attemptId == "" || d.causalId == "" then Some(MissingBinding)
    else if !ValidPlacement(d.placement, d.missionId) then Some(PlacementInvalid)
    else if b.workId == "" || b.organizationId == "" || b.tenantId == "" || b.principalId == "" || b.authorityLeaseId == ""
         || b.workerLeaseId == "" || b.admissionDecisionId == "" || d.authorityRef != b.authorityLeaseId
    then Some(ContextBinding)
    else None
  }

  /** What the store compares before it hands back a committed winner. */
  predicate StoredCause(a: Acceptance, d: Dispatch, workId: string) {
    && a.contract.V2? && a.workId == workId && a.dispatch.causalId == d.causalId && a.dispatch.missionId == d.missionId
    && a.dispatch.authorityRef == d.authorityRef && a.dispatch.placement == d.placement
  }

  /** What the acceptor compares after it. */
  predicate SameCauseV2(a: Acceptance, d: Dispatch, workId: string) {
    && StoredCause(a, d, workId) && a.dispatch.idempotencyKey == d.idempotencyKey
    && a.dispatch.runtimeDispatchId == d.runtimeDispatchId && a.dispatch.effectId == d.effectId
  }

  /** The stored context is that of this acceptance and carries the presented binding. */
  predicate CarriesBinding(ec: Context, a: Acceptance, d: Dispatch, b: V2Binding) {
    && ec.traceId == a.traceId && ec.workId == b.workId && ec.organizationId == b.organizationId && ec.tenantId == b.tenantId
    && ec.principalId == b.principalId && ec.missionId == d.missionId && ec.authorityLeaseId == b.authorityLeaseId
    && ec.workerLeaseId == b.workerLeaseId && ec.admissionDecisionId == b.admissionDecisionId
  }

  function NewContext(d: Dispatch, b: V2Binding, workerId: string, trace: string): Context {
    Context(b.workId, b.organizationId, b.tenantId, b.principalId, d.missionId, b.authorityLeaseId, workerId, b.workerLeaseId,
            b.admissionDecisionId, trace)
  }

  function ReplayV2(db: Db, a: Acceptance, d: Dispatch, b: V2Binding): Result<Acceptance> {
    if !StoredCause(a, d, b.workId) then Err(CausalMismatch)
    else if a.contextId !in db.contexts then Err(ContextBinding)
    else if !SameCauseV2(a, d, b.workId) then Err(CausalMismatch)
    else if !CarriesBinding(db.contexts[a.contextId], a, d, b) then Err(ContextBinding)
    else Ok(a)
  }

  /** `AcceptV2` with its single store transaction, which commits the acceptance and its execution
      context together. `lease` is the worker behind the presented lease when that lease is active
      for this Work; `wellFormed` says the new context passes its own validation. */
  ghost function AcceptV2(db: Db, d: Dispatch, b: V2Binding, lease: Option<string>, wellFormed: bool,
                          now: int, ctx: string, trace: string): (Db, Result<Acceptance>) {
    var candidate := CandidateV2(d, b.workId, now, ctx, trace);
    var existing := LoadByKey(db, d.idempotencyKey);
    if RefuseV2(d, b).Some? then (db, Err(RefuseV2(d, b).value))
    else if existing.Some? then (db, ReplayV2(db, existing.value, d, b))
    else if lease.None? then (db, Err(WorkerLeaseUnavailable))
    else if d.placement.Some? && d.placement.value.selectedNode != lease.value then (db, Err(PlacementMismatch))
    else if !wellFormed then (db, Err(ContextBinding))
    else if candidate.executionId in db.rows then (db, Err(StoreRefused))
    else if ctx in db.contexts then (db, Err(ContextBinding))
    else (db.(rows := db.rows[candidate.executionId := candidate],
              contexts := db.contexts[ctx := NewContext(d, b, lease.value, trace)]), Ok(candidate))
  }

  // ---------------------------------------------------------------- one load-modify-save call

  datatype Op =
    | Revoke
    | ApplyEffect(effectId: string, known: bool)
    | Complete(outcome: Outcome)
    | RecordVerdict(verifierId: string, subject: string, current: bool, available: bool, result: VerdictResult,
                    evidenceRef: string, now: int)

  /** The subject a verdict must be about, or why there is none yet. */
  function ExpectedSubject(a: Acceptance, binding: Option<Binding>): Result<string> {
    if a.contract.V1? then Ok(a.dispatch.verificationSubj)
    else if binding.None? || binding.value.subject == "" then Err(SubjectNotBound)
    else Ok(binding.value.subject)
  }

  function BlankResult(r: VerdictResult): bool { r.OtherResult? && Blank(r.text) }

  function DecideVerdict(a: Acceptance, binding: Option<Binding>, op: Op): Result<Acceptance>
    requires op.RecordVerdict?
  {
    if op.verifierId == "" || op.verifierId == a.dispatch.runtimeDispatchId then Err(SelfVerification)
    else if ExpectedSubject(a, binding).Err? then Err(ExpectedSubject(a, binding).error)
    else if !op.current || op.subject != ExpectedSubject(a, binding).value then Err(StaleSubject)
    else if !op.available then Err(VerifierUnavailable)
    else if a.revoked then Err(Revoked)
    else if a.outcome != Succeeded && a.outcome != Failed then Err(NotTerminal)
    else if BlankResult(op.result) || Blank(op.evidenceRef) then Err(MissingVerdictEvidence)
    else if op.result.OtherResult? then Err(InvalidVerdict)
    else Ok(a.(verified := op.result.AcceptVerdict?, verifierId := op.verifierId,
               verdict := Some(Verdict(op.result, op.subject, op.evidenceRef, op.now))))
  }

  /** The record a call writes back, computed from the record it loaded. */
  function Decide(a: Acceptance, binding: Option<Binding>, op: Op): Result<Acceptance> {
    match op
    case Revoke => Ok(a.(revoked := true))
    case ApplyEffect(effectId, known) =>
      if a.revoked then Err(Revoked)
      else if effectId != a.dispatch.effectId then Err(CausalMismatch)
      else if a.effectApplied then Err(EffectDuplicate)
      else if !known then Ok(a.(outcome := Indeterminate))
      else Ok(a.(effectApplied := true))
    case Complete(outcome) =>
      if a.revoked then Err(Revoked)
      else if outcome.Succeeded? || outcome.Failed? then Ok(a.(outcome := outcome))
      else Err(UnknownOutcome)
    case RecordVerdict(_, _, _, _, _, _, _) => DecideVerdict(a, binding, op)
  }

  function BindingOf(db: Db, id: string): Option<Binding> {
    if id in db.subjects then Some(db.subjects[id]) else None
  }

  /** Decide on a loaded record and `Save` the outcome over whatever the row holds now. */
  function Finish(db: Db, id: string, loaded: Acceptance, op: Op): (Db, Option<Error>) {
    match Decide(loaded, BindingOf(db, id), op)
    case Err(e) => (db, Some(e))
    case Ok(a) => if Identified(a) then (db.(rows := db.rows[a.executionId := a]), None) else (db, Some(StoreRefused))
  }

  // ---------------------------------------------------------------- spend

  predicate Spendable(a: Acceptance, amount: int) {
    !a.revoked && 0 <= a.budgetSpent <= a.dispatch.budgetCeiling && amount <= a.dispatch.budgetCeiling - a.budgetSpent
  }

  predicate Budgeted(a: Acceptance) { 0 <= a.budgetSpent <= a.dispatch.budgetCeiling }

  predicate Exhausted(a: Acceptance, amount: int) {
    !a.revoked && Budgeted(a) && a.budgetSpent + amount > a.dispatch.budgetCeiling
  }

  /** `SpendIfWithinCeiling`: one transaction. */
  function Spend(db: Db, id: string, amount: int): (Db, bool) {
    if amount > 0 && id in db.rows && Spendable(db.rows[id], amount)
    then (db.(rows := db.rows[id := db.rows[id].(budgetSpent := db.rows[id].budgetSpent + amount)]), true)
    else (db, false)
  }

  /** Why a spend is refused, when the record is read back at once. */
  function SpendError(db: Db, id: string, amount: int): Option<Error> {
    if amount <= 0 then Some(InvalidSpend)
    else if id !in db.rows then Some(UnknownAcceptance)
    else if db.rows[id].revoked then Some(Revoked)
    else if !Budgeted(db.rows[id]) then Some(InvalidBudget)
    else if Exhausted(db.rows[id], amount) then Some(BudgetExhausted)
    else None
  }

  // ---------------------------------------------------------------- verification subject

  predicate SlugChar(c: char) { 'A' <= c <= 'Z' || 'a' <= c <= 'z' || '0' <= c <= '9' || c in {'.', '_', '-'} }

  predicate Slug(s: string) { s != "" && All(s, SlugChar) }

  /** git:<owner>/<repo>@<40 hex>. */
  predicate ExactGitSubject(s: string) {
    && |s| > 45 && s[..4] == "git:" && s[|s| - 41] == '@' && All(s[|s| - 40..], HexLower)
    && var (owner, repo, found) := Cut(s[4..|s| - 41], '/');
    && found && Slug(owner) && Slug(repo)
  }

  predicate BindsRow(a: Acceptance, b: Binding) {
    && a.executionId == b.executionId && a.contract.V2? && a.workId == b.workId && a.dispatch.attemptId == b.attemptId
    && a.dispatch.effectId == b.effectId && a.dispatch.causalId == b.causalId
  }

  /** `BindVerificationSubject`: the first binding wins, replaying it is idempotent. */
  function BindSubject(db: Db, b: Binding): (Db, Option<Error>) {
    if !ExactGitSubject(b.subject) then (db, Some(InvalidSubject))
    else if b.executionId !in db.rows then (db, Some(UnknownAcceptance))
    else if !db.rows[b.executionId].contract.V2? then (db, Some(V2Required))
    else if !BindsRow(db.rows[b.executionId], b) then (db, Some(CausalMismatch))
    else if b.executionId == "" || b.workId == "" || b.attemptId == "" || b.effectId == "" || b.causalId == "" then (db, Some(InvalidSubject))
    else if b.executionId in db.subjects then
      var winner := db.subjects[b.executionId];
      (db, if winner.(subject := b.subject) != b then Some(CausalMismatch)
           else if winner.subject != b.subject then Some(SubjectConflict) else None)
    else (db.(subjects := db.subjects[b.executionId := b]), None)
  }

  // ---------------------------------------------------------------- the imperative form

  /** An undisturbed call: load, decide and save with nothing in between. */
  function Undisturbed(db: Db, id: string, op: Op): (Db, Option<Error>) {
    if id !in db.rows then (db, Some(UnknownAcceptance)) else Finish(db, id, db.rows[id], op)
  }

  ghost function AcceptUndisturbed(db: Db, d: Dispatch, epoch: int, now: int, ctx: string, trace: string): (Db, Result<Acceptance>) {
    match BeginAccept(LoadByKey(db, d.idempotencyKey), d, epoch, now, ctx, trace)
    case Replay(record) => (db, Ok(record))
    case Refused(error) => (db, Err(error))
    case Insert(candidate) => FinishAccept(db, candidate)
  }

  /** The acceptor over its store, each method running alone. */
  class Acceptor {
    var db: Db

    constructor ()
      ensures db == Db(map[], map[], map[]) && Filed(db)
    {
      db := Db(map[], map[], map[]);
    }

    method FindByKey(key: string) returns (found: Option<Acceptance>)
      requires Filed(db)
      ensures found == LoadByKey(db, key)
    {
      LookupsAgree(db, key);
      var rest := db.rows.Keys;
      while rest != {}
        invariant rest <= db.rows.Keys
        invariant forall id :: id in db.rows && id !in rest ==> db.rows[id].dispatch.idempotencyKey != key
        decreases rest
      {
        var id :| id in rest;
        if db.rows[id].dispatch.idempotencyKey == key { return Some(db.rows[id]); }
        rest := rest - {id};
      }
      found := None;
    }

    method Accept(d: Dispatch, epoch: int, now: int, ctx: string, trace: string) returns (r: Result<Acceptance>)
      requires Filed(db)
      modifies this
      ensures Filed(db) && (db, r) == AcceptUndisturbed(old(db), d, epoch, now, ctx, trace)
    {
      if d.missionId == "" || d.authorityRef == "" || d.runtimeDispatchId == "" || d.idempotencyKey == "" {
        return Err(MissingBinding);
      }
      var existing := FindByKey(d.idempotencyKey);
      if existing.Some? {
        if !SameCause(existing.value.dispatch, d) { return Err(CausalMismatch); }
        return Ok(existing.value);
      }
      if d.authorityEpoch < epoch { return Err(StaleAuthority); }
      var candidate := Candidate(d, now, ctx, trace);
      if !Identified(candidate) { return Err(StoreRefused); }
      LookupsAgree(db, d.idempotencyKey);
      db := db.(rows := db.rows[candidate.executionId := candidate]);
      r := Ok(candidate);
    }

    method RevokeExecution(id: string) returns (error: Option<Error>)
      requires Filed(db)
      modifies this
      ensures Filed(db) && (db, error) == Undisturbed(old(db), id, Revoke)
    {
      if id !in db.rows { return Some(UnknownAcceptance); }
      var acc := db.rows[id];
      acc := acc.(revoked := true);
      error := Save(acc);
    }

    /** An upsert by execution id under the UNIQUE idempotency key. */
    method Save(acc: Acceptance) returns (error: Option<Error>)
      modifies this
      ensures error.None? <==> Identified(acc) && !KeyTaken(old(db), acc)
      ensures error.None? ==> db == old(db).(rows := old(db).rows[acc.executionId := acc])
      ensures error.Some? ==> error == Some(StoreRefused) && db == old(db)
      ensures old(Filed(db)) && acc.executionId == ExecutionId(acc.dispatch.idempotencyKey) ==>
        Filed(db) && !KeyTaken(old(db), acc)
    {
      if !Identified(acc) || KeyTaken(db, acc) {
        error := Some(StoreRefused);
      } else {
        db := db.(rows := db.rows[acc.executionId := acc]);
        error := None;
      }
    }

    /** The atomic spend, then the reload that names the reason of a refusal. */
    method SpendBudget(id: string, amount: int) returns (error: Option<Error>)
      requires Filed(db)
      modifies this
      ensures Filed(db) && db == Spend(old(db), id, amount).0
      ensures error.None? <==> Spend(old(db), id, amount).1
      ensures error == SpendError(old(db), id, amount)
      ensures error == Some(InvalidSpend) <==> amount <= 0
      ensures error == Some(UnknownAcceptance) <==> amount > 0 && id !in db.rows
      ensures error == Some(Revoked) <==> amount > 0 && id in db.rows && db.rows[id].revoked
      ensures error == Some(InvalidBudget) <==> amount > 0 && id in db.rows && !db.rows[id].revoked && !Budgeted(db.rows[id])
      ensures error == Some(BudgetExhausted) <==> amount > 0 && id in old(db).rows && Exhausted(old(db).rows[id], amount)
    {
      if amount <= 0 { return Some(InvalidSpend); }
      if id in db.rows && Spendable(db.rows[id], amount) {
        var acc := db.rows[id];
        acc := acc.(budgetSpent := acc.budgetSpent + amount);
        db := db.(rows := db.rows[id := acc]);
        return None;
      }
      if id !in db.rows { return Some(UnknownAcceptance); }
      var acc := db.rows[id];
      if acc.revoked { return Some(Revoked); }
      if acc.dispatch.budgetCeiling < 0 || acc.budgetSpent < 0 || acc.budgetSpent > acc.dispatch.budgetCeiling {
        return Some(InvalidBudget);
      }
      error := Some(BudgetExhausted);
    }

    method ApplyEffectOnce(id: string, effectId: string, known: bool) returns (error: Option<Error>)
      requires Filed(db)
      modifies this
      ensures Filed(db) && (db, error) == Undisturbed(old(db), id, ApplyEffect(effectId, known))
    {
      if id !in db.rows { return Some(UnknownAcceptance); }
      var acc := db.rows[id];
      if acc.revoked { return Some(Revoked); }
      if effectId != acc.dispatch.effectId { return Some(CausalMismatch); }
      if acc.effectApplied { return Some(EffectDuplicate); }
      if !known {
        acc := acc.(outcome := Indeterminate);
      } else {
        acc := acc.(effectApplied := true);
      }
      error := Save(acc);
    }

    method CompleteExecution(id: string, outcome: Outcome) returns (error: Option<Error>)
      requires Filed(db)
      modifies this
      ensures Filed(db) && (db, error) == Undisturbed(old(db), id, Complete(outcome))
    {
      if id !in db.rows { return Some(UnknownAcceptance); }
      var acc := db.rows[id];
      if acc.revoked { return Some(Revoked); }
      if outcome != Succeeded && outcome != Failed { return Some(UnknownOutcome); }
      acc := acc.(outcome := outcome);
      error := Save(acc);
    }

    method RecordVerdictFor(id: string, op: Op) returns (error: Option<Error>)
      requires Filed(db) && op.RecordVerdict?
      modifies this
      ensures Filed(db) && (db, error) == Undisturbed(old(db), id, op)
    {
      if id !in db.rows { return Some(UnknownAcceptance); }
      var acc := db.rows[id];
      if op.verifierId == "" || op.verifierId == acc.dispatch.runtimeDispatchId { return Some(SelfVerification); }
      var expected := acc.dispatch.verificationSubj;
      if acc.contract.V2? {
        var binding := BindingOf(db, id);
        if binding.None? || binding.value.subject == "" { return Some(SubjectNotBound); }
        expected := binding.value.subject;
      }
      if !op.current || op.subject != expected { return Some(StaleSubject); }
      if !op.available { return Some(VerifierUnavailable); }
      if acc.revoked { return Some(Revoked); }
      if acc.outcome != Succeeded && acc.outcome != Failed { return Some(NotTerminal); }
      if BlankResult(op.result) || Blank(op.evidenceRef) { return Some(MissingVerdictEvidence); }
      if op.result.OtherResult? { return Some(InvalidVerdict); }
      acc := acc.(verified := op.result == AcceptVerdict, verifierId := op.verifierId);
      acc := acc.(verdict := Some(Verdict(op.result, op.subject, op.evidenceRef, op.now)));
      error := Save(acc);
    }
  }
}
