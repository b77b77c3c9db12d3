/** What each acceptor call means, in direct terms: exactly when it succeeds, which error it gives
    otherwise, and what it leaves in the store. */
module DispatchMeaning {
  import opened Text
  import opened Dispatching
  import opened DispatchRuns
  import opened DispatchLaws

  // ---------------------------------------------------------------- accept

  /** No acceptance was committed under this key. */
  ghost predicate Unbound(db: Db, key: string) { forall id :: id in db.rows ==> db.rows[id].dispatch.idempotencyKey != key }

  predicate FullyBound(d: Dispatch) {
    d.missionId != "" && d.authorityRef != "" && d.runtimeDispatchId != "" && d.idempotencyKey != ""
  }

  /** A first acceptance succeeds exactly for a bound dispatch with a cause whose authority epoch is
      not behind the current one, and stores an untouched record of it. */
  lemma FirstAcceptance(db: Db, d: Dispatch, epoch: int, now: int, ctx: string, trace: string)
    requires Filed(db) && Unbound(db, d.idempotencyKey)
    ensures var (after, r) := AcceptUndisturbed(db, d, epoch, now, ctx, trace);
      && (r == Err(MissingBinding) <==> !FullyBound(d))
      && (r == Err(StaleAuthority) <==> FullyBound(d) && d.authorityEpoch < epoch)
      && (r == Err(StoreRefused) <==> FullyBound(d) && d.authorityEpoch >= epoch && d.causalId == "")
      && (r.Ok? <==> FullyBound(d) && d.authorityEpoch >= epoch && d.causalId != "")
      && (r.Err? ==> after == db)
      && (r.Ok? ==> r.value == Untouched("wexec/" + d.idempotencyKey, d, now, ctx, trace)
                    && after == db.(rows := db.rows["wexec/" + d.idempotencyKey := r.value]))
  {
    LookupsAgree(db, d.idempotencyKey);
  }

  function Untouched(id: string, d: Dispatch, now: int, ctx: string, trace: string): Acceptance {
    Acceptance(V1, "", id, d, now, d.authorityEpoch, false, 0, false, Accepted, false, "", None, ctx, trace)
  }

  /** Under a key already committed, the winner is handed back exactly to a dispatch of the same
      cause, epoch and mission; nothing changes. */
  lemma RepeatedAcceptance(db: Db, id: string, d: Dispatch, epoch: int, now: int, ctx: string, trace: string)
    requires Filed(db) && id in db.rows && db.rows[id].dispatch.idempotencyKey == d.idempotencyKey
    ensures var (after, r) := AcceptUndisturbed(db, d, epoch, now, ctx, trace);
      && after == db
      && (r == Err(MissingBinding) <==> !FullyBound(d))
      && (r == Ok(db.rows[id]) <==> FullyBound(d) && SameOrigin(db.rows[id].dispatch, d))
      && (r == Err(CausalMismatch) <==> FullyBound(d) && !SameOrigin(db.rows[id].dispatch, d))
  {
    LookupsAgree(db, d.idempotencyKey);
  }

  predicate SameOrigin(a: Dispatch, d: Dispatch) {
    a.causalId == d.causalId && a.authorityEpoch == d.authorityEpoch && a.missionId == d.missionId
  }

  /** A candidate that lost the race to another insert is answered like a repetition. */
  lemma LostRace(db: Db, id: string, candidate: Acceptance)
    requires Filed(db) && id in db.rows && db.rows[id].dispatch.idempotencyKey == candidate.dispatch.idempotencyKey
    requires candidate.executionId == "wexec/" + candidate.dispatch.idempotencyKey && candidate.dispatch.causalId != ""
    ensures var (after, r) := FinishAccept(db, candidate);
      && after == db
      && r == if SameOrigin(db.rows[id].dispatch, candidate.dispatch) then Ok(db.rows[id]) else Err(CausalMismatch)
  {
    LookupsAgree(db, candidate.dispatch.idempotencyKey);
  }

  // ---------------------------------------------------------------- where an acceptance comes from

  /** Event n asked for this acceptance while its epoch was not behind the current one. */
  ghost predicate AskedBy(events: seq<Event>, n: nat, a: Acceptance) {
    && n < |events| && events[n].AcceptLoad? && events[n].d == a.dispatch && events[n].epoch <= a.dispatch.authorityEpoch
    && events[n].now == a.acceptedAt && events[n].ctx == a.contextId && events[n].trace == a.traceId
    && a.epochAt == a.dispatch.authorityEpoch && a.executionId == "wexec/" + a.dispatch.idempotencyKey
  }

  ghost predicate Asked(events: seq<Event>, a: Acceptance) { exists n: nat :: AskedBy(events, n, a) }

  ghost predicate AllAsked(events: seq<Event>, s: Sys) {
    && (forall id :: id in s.db.rows && s.db.rows[id].contract.V1? ==> Asked(events, s.db.rows[id]))
    && (forall c :: c in s.flights && s.flights[c].Inserting? ==> Asked(events, s.flights[c].candidate))
  }

  lemma StillAsked(events: seq<Event>, e: Event, a: Acceptance, b: Acceptance)
    requires Asked(events, a) && SameIdentity(a, b)
    ensures Asked(events + [e], b)
  {
    var n: nat :| AskedBy(events, n, a);
    assert AskedBy(events + [e], n, b);
  }

  /** A row appears only as the candidate of an insert, or as a contract 2.0 acceptance. */
  lemma NewRow(s: Sys, e: Event, id: string)
    requires Inv(s) && id in Step(s, e).db.rows && id !in s.db.rows
    ensures || (e.AcceptInsert? && e.c in s.flights && s.flights[e.c].Inserting? && Step(s, e).db.rows[id] == s.flights[e.c].candidate)
            || (e.AcceptContextual? && Step(s, e).db.rows[id].contract.V2?)
  {
    if e.OpSave? && e.c in s.flights && s.flights[e.c].Loaded? {
      assert FlightLawful(s, s.flights[e.c]);
      SavedRow(s.db, s.flights[e.c].id, s.flights[e.c].snapshot, s.flights[e.c].op);
    }
  }

  /** An insert starts in flight only from a load that found the key unbound and the epoch fresh. */
  lemma NewInsert(s: Sys, e: Event, c: nat)
    requires c in Step(s, e).flights && Step(s, e).flights[c].Inserting?
    ensures || (c in s.flights && s.flights[c] == Step(s, e).flights[c])
            || (e.AcceptLoad? && e.epoch <= e.d.authorityEpoch
                && Step(s, e).flights[c].candidate == Untouched("wexec/" + e.d.idempotencyKey, e.d, e.now, e.ctx, e.trace))
  {
  }

  lemma AskedStep(events: seq<Event>, s: Sys, e: Event)
    requires Inv(s) && AllAsked(events, s)
    ensures AllAsked(events + [e], Step(s, e))
  {
    var t := Step(s, e);
    StepKeeps(s, e);
    forall c | c in t.flights && t.flights[c].Inserting? ensures Asked(events + [e], t.flights[c].candidate) {
      NewInsert(s, e, c);
      if c in s.flights && s.flights[c] == t.flights[c] {
        StillAsked(events, e, s.flights[c].candidate, t.flights[c].candidate);
      } else {
        assert AskedBy(events + [e], |events|, t.flights[c].candidate);
      }
    }
    forall id | id in t.db.rows && t.db.rows[id].contract.V1? ensures Asked(events + [e], t.db.rows[id]) {
      if id in s.db.rows {
        StillAsked(events, e, s.db.rows[id], t.db.rows[id]);
      } else {
        NewRow(s, e, id);
        StillAsked(events, e, s.flights[e.c].candidate, t.db.rows[id]);
      }
    }
  }

  /** In every run each contract 1.0 acceptance, whatever became of it since, was asked for by a
      call whose dispatch it carries and whose authority epoch was not stale then. */
  lemma {:induction false} EveryAcceptanceWasFresh(events: seq<Event>)
    ensures AllAsked(events, Run(INIT, events))
  {
    if events != [] {
      var before := events[..|events| - 1];
      EveryAcceptanceWasFresh(before);
      ReachableLawful(before);
      AskedStep(before, Run(INIT, before), events[|events| - 1]);
      assert events == before + [events[|events| - 1]];
    }
  }

  // ---------------------------------------------------------------- one load-modify-save call

  lemma RevokeMeans(a: Acceptance, b: Option<Binding>)
    ensures Decide(a, b, Revoke) == Ok(a.(revoked := true))
  {
  }

  /** An application is accepted exactly on an unrevoked, unapplied record of that effect; with an
      unknown outcome it is not marked applied but leaves the record indeterminate. */
  lemma ApplyMeans(a: Acceptance, b: Option<Binding>, effectId: string, known: bool)
    ensures var r := Decide(a, b, ApplyEffect(effectId, known));
      && (r == Err(Revoked) <==> a.revoked)
      && (r == Err(CausalMismatch) <==> !a.revoked && effectId != a.dispatch.effectId)
      && (r == Err(EffectDuplicate) <==> !a.revoked && effectId == a.dispatch.effectId && a.effectApplied)
      && (r.Ok? <==> !a.revoked && effectId == a.dispatch.effectId && !a.effectApplied)
      && (r.Ok? && known ==> r.value == a.(effectApplied := true))
      && (r.Ok? && !known ==> r.value == a.(outcome := Indeterminate))
  {
  }

  /** A completion is accepted exactly on an unrevoked record, for one of the two final outcomes,
      and records that one. */
  lemma CompleteMeans(a: Acceptance, b: Option<Binding>, outcome: Outcome)
    ensures var r := Decide(a, b, Complete(outcome));
      && (r == Err(Revoked) <==> a.revoked)
      && (r == Err(UnknownOutcome) <==> !a.revoked && outcome != Succeeded && outcome != Failed)
      && (r.Ok? <==> !a.revoked && outcome in {Succeeded, Failed})
      && (r.Ok? ==> r.value == a.(outcome := outcome))
  {
  }

  /** The laws of a verdict, in the order they are checked. */
  const VERDICT_LAWS: seq<Error> := [
    SelfVerification, SubjectNotBound, StaleSubject, VerifierUnavailable, Revoked, NotTerminal, MissingVerdictEvidence, InvalidVerdict
  ]

  /** The subject a verdict on this record must be about: the accepted one, or the bound one. */
  function Subject(a: Acceptance, b: Option<Binding>): Option<string> {
    match a.contract
    case V1 => Some(a.dispatch.verificationSubj)
    case V2 => if b.Some? && b.value.subject != "" then Some(b.value.subject) else None
  }

  predicate VerdictHolds(a: Acceptance, b: Option<Binding>, op: Op, e: Error)
    requires op.RecordVerdict?
  {
    match e
    case SelfVerification => op.verifierId != "" && op.verifierId != a.dispatch.runtimeDispatchId
    case SubjectNotBound => Subject(a, b).Some?
    case StaleSubject => op.current && Subject(a, b) == Some(op.subject)
    case VerifierUnavailable => op.available
    case Revoked => !a.revoked
    case NotTerminal => a.outcome == Succeeded || a.outcome == Failed
    case MissingVerdictEvidence => !Blank(op.evidenceRef) && !(op.result.OtherResult? && Blank(op.result.text))
    case InvalidVerdict => op.result == AcceptVerdict || op.result == RejectVerdict
    case _ => true
  }

  function VerdictLaw(a: Acceptance, b: Option<Binding>, op: Op): Error -> bool
    requires op.RecordVerdict?
  {
    (e: Error) => VerdictHolds(a, b, op, e)
  }

  function ErrorOf<T>(r: Result<T>): Option<Error> { match r case Ok(_) => None case Err(e) => Some(e) }

  /** A verdict is recorded exactly when all its laws hold, otherwise the error is the first broken
      one; the record then says who found what, about which subject, on which evidence. */
  lemma VerdictMeans(a: Acceptance, b: Option<Binding>, op: Op)
    requires op.RecordVerdict?
    ensures Ruled(VERDICT_LAWS, VerdictLaw(a, b, op), ErrorOf(Decide(a, b, op)))
    ensures var r := Decide(a, b, op);
      r.Ok? ==> r.value == a.(verified := op.result == AcceptVerdict, verifierId := op.verifierId,
                              verdict := Some(Verdict(op.result, op.subject, op.evidenceRef, op.now)))
  {
    var law := VerdictLaw(a, b, op);
    match Decide(a, b, op)
    case Ok(_) =>
      forall i | 0 <= i < |VERDICT_LAWS| ensures law(VERDICT_LAWS[i]) { VerdictOrder(a, b, op, i); }
      RuledNone(VERDICT_LAWS, law);
    case Err(e) =>
      VerdictOrder(a, b, op, VerdictIndex(e));
      forall i | 0 <= i < VerdictIndex(e) ensures law(VERDICT_LAWS[i]) { VerdictOrder(a, b, op, i); }
      RuledSome(VERDICT_LAWS, law, VerdictIndex(e));
  }

  /** Before the reported error every law holds, and there it does not. */
  lemma VerdictOrder(a: Acceptance, b: Option<Binding>, op: Op, i: nat)
    requires op.RecordVerdict? && i < |VERDICT_LAWS|
    ensures var r := Decide(a, b, op);
      && (r.Err? ==> VERDICT_LAWS[VerdictIndex(r.error)] == r.error && !VerdictHolds(a, b, op, r.error))
      && (r.Ok? || i < VerdictIndex(r.error) ==> VerdictHolds(a, b, op, VERDICT_LAWS[i]))
  {
  }

  function VerdictIndex(e: Error): (i: nat)
    ensures i < |VERDICT_LAWS| && (e in VERDICT_LAWS ==> VERDICT_LAWS[i] == e)
  {
    match e
    case SubjectNotBound => 1
    case StaleSubject => 2
    case VerifierUnavailable => 3
    case Revoked => 4
    case NotTerminal => 5
    case MissingVerdictEvidence => 6
    case InvalidVerdict => 7
    case _ => 0
  }

  // ---------------------------------------------------------------- verification subject

  ghost predicate GitReading(s: string, owner: string, repo: string, sha: string) {
    && s == "git:" + owner + "/" + repo + "@" + sha
    && owner != "" && repo != "" && |sha| == 40
    && (forall i :: 0 <= i < |owner| ==> SlugChar(owner[i])) && (forall i :: 0 <= i < |repo| ==> SlugChar(repo[i]))
    && (forall i :: 0 <= i < |sha| ==> sha[i] in "0123456789abcdef")
  }

  lemma HexDigits(sha: string)
    ensures All(sha, HexLower) <==> forall i :: 0 <= i < |sha| ==> sha[i] in "0123456789abcdef"
  {
    forall c: char ensures HexLower(c) <==> c in "0123456789abcdef" { HexDigit(c); }
  }

  lemma HexDigit(c: char)
    ensures HexLower(c) <==> c in "0123456789abcdef"
  {
    var digits := "0123456789abcdef";
    if HexLower(c) {
      var i := if c <= '9' then c as int - '0' as int else c as int - 'a' as int + 10;
      assert digits[i] == c;
    }
  }

  /** The recogniser accepts exactly git:<owner>/<repo>@<40 hexadecimal digits>. */
  lemma GitSubjectIsPattern(s: string)
    ensures ExactGitSubject(s) <==> exists owner, repo, sha :: GitReading(s, owner, repo, sha)
  {
    if ExactGitSubject(s) {
      var sha := s[|s| - 40..];
      var body := s[4..|s| - 41];
      var (owner, repo, found) := Cut(body, '/');
      HexDigits(sha);
      assert body == owner + "/" + repo;
      assert s == s[..4] + body + [s[|s| - 41]] + sha;
      assert s == "git:" + owner + "/" + repo + "@" + sha;
      assert GitReading(s, owner, repo, sha);
    }
    if owner, repo, sha :| GitReading(s, owner, repo, sha) { GitPatternRecognised(s, owner, repo, sha); }
  }

  lemma GitPatternRecognised(s: string, owner: string, repo: string, sha: string)
    requires GitReading(s, owner, repo, sha)
    ensures ExactGitSubject(s)
  {
    HexDigits(sha);
    var body := owner + ['/'] + repo;
    assert s == "git:" + body + "@" + sha;
    assert s[..4] == "git:" && s[|s| - 41] == '@' && s[|s| - 40..] == sha && s[4..|s| - 41] == body;
    assert '/' !in owner;
    CutJoin(owner, '/', repo);
  }

  /** A binding succeeds exactly for an exact git subject of a contract 2.0 acceptance with this
      whole correlation, when no other subject was bound before; it is then the bound one. */
  lemma BindMeans(db: Db, b: Binding)
    requires Filed(db)
    ensures var (after, error) := BindSubject(db, b);
      && (error.None? <==>
            && ExactGitSubject(b.subject) && b.executionId in db.rows && Correlates(db.rows[b.executionId], b)
            && (b.executionId in db.subjects ==> db.subjects[b.executionId] == b))
      && (error.None? ==> b.executionId in after.subjects && after.subjects[b.executionId] == b)
      && after == db.(subjects := after.subjects)
      && (forall id :: id in db.subjects ==> id in after.subjects && after.subjects[id] == db.subjects[id])
      && (forall id :: id in after.subjects && id !in db.subjects ==> error.None? && id == b.executionId)
  {
  }

  predicate Correlates(a: Acceptance, b: Binding) {
    && a.contract == V2 && a.workId == b.workId != "" && a.dispatch.attemptId == b.attemptId != ""
    && a.dispatch.effectId == b.effectId != "" && a.dispatch.causalId == b.causalId != ""
  }

  // ---------------------------------------------------------------- accept, contract 2.0

  predicate FullyBoundV2(d: Dispatch, b: V2Binding) {
    && FullyBound(d) && d.effectId != "" && d.attemptId != "" && d.causalId != ""
    && b.workId != "" && b.organizationId != "" && b.tenantId != "" && b.principalId != "" && b.authorityLeaseId != ""
    && b.workerLeaseId != "" && b.admissionDecisionId != "" && d.authorityRef == b.authorityLeaseId
  }

  predicate Placed(p: Option<Placement>, missionId: string) {
    p.None? || (
      && p.value.schema == "runtime.placement-dispatch-binding/0.1" && p.value.missionId == missionId
      && !Blank(p.value.selectedNode) && !Blank(p.value.policyVersion)
      && Sha256Ref(p.value.decisionDigest) && Sha256Ref(p.value.snapshotDigest))
  }

  /** A first contract 2.0 acceptance succeeds exactly for a fully bound dispatch, placed on the
      worker that holds the presented lease, with a fresh well-formed context; record and context
      are stored together and say what was presented. */
  lemma FirstContextual(db: Db, d: Dispatch, b: V2Binding, lease: Option<string>, wellFormed: bool, now: int, ctx: string, trace: string)
    requires Filed(db) && Unbound(db, d.idempotencyKey)
    ensures var (after, r) := AcceptV2(db, d, b, lease, wellFormed, now, ctx, trace);
      && (r.Ok? <==>
            && FullyBoundV2(d, b) && Placed(d.placement, d.missionId) && lease.Some?
            && (d.placement.Some? ==> d.placement.value.selectedNode == lease.value) && wellFormed && ctx !in db.contexts)
      && (r.Err? ==> after == db)
      && (r.Ok? ==>
            && r.value == Untouched("wexec/" + d.idempotencyKey, d, now, ctx, trace).(contract := V2, workId := b.workId, epochAt := 0)
            && after.rows == db.rows["wexec/" + d.idempotencyKey := r.value] && after.subjects == db.subjects
            && after.contexts == db.contexts[ctx := Presented(d, b, lease.value, trace)])
  {
    LookupsAgree(db, d.idempotencyKey);
  }

  function Presented(d: Dispatch, b: V2Binding, worker: string, trace: string): Context {
    Context(workId := b.workId, organizationId := b.organizationId, tenantId := b.tenantId, principalId := b.principalId,
            missionId := d.missionId, authorityLeaseId := b.authorityLeaseId, workerId := worker, workerLeaseId := b.workerLeaseId,
            admissionDecisionId := b.admissionDecisionId, traceId := trace)
  }

  /** Under a committed key it hands the winner back exactly to the same dispatch and binding. */
  lemma RepeatedContextual(db: Db, id: string, d: Dispatch, b: V2Binding, lease: Option<string>, wellFormed: bool, now: int,
                           ctx: string, trace: string)
    requires DbLawful(db) && id in db.rows && db.rows[id].dispatch.idempotencyKey == d.idempotencyKey
    ensures var (after, r) := AcceptV2(db, d, b, lease, wellFormed, now, ctx, trace);
      && after == db
      && (r.Ok? ==> r.value == db.rows[id])
      && (r.Ok? <==>
            && FullyBoundV2(d, b) && Placed(d.placement, d.missionId) && db.rows[id].contract == V2 && db.rows[id].workId == b.workId
            && SameDispatch(db.rows[id].dispatch, d) && SamePresented(db.contexts[db.rows[id].contextId], b))
  {
    LookupsAgree(db, d.idempotencyKey);
    RowKept(db, id);
    assert RowLawful(db.rows[id], db);
  }

  predicate SameDispatch(a: Dispatch, d: Dispatch) {
    && a.causalId == d.causalId && a.missionId == d.missionId && a.authorityRef == d.authorityRef
    && a.runtimeDispatchId == d.runtimeDispatchId && a.effectId == d.effectId && a.placement == d.placement
  }

  predicate SamePresented(ec: Context, b: V2Binding) {
    && ec.organizationId == b.organizationId && ec.tenantId == b.tenantId && ec.principalId == b.principalId
    && ec.workerLeaseId == b.workerLeaseId && ec.admissionDecisionId == b.admissionDecisionId
  }
}
