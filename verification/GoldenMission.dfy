/** The Golden Mission runner (packages/goldenmission/goldenmission.go): identity chain, durable
    journal, crash, recovery and the shared effect log. */
module GoldenMission {
  import opened Text

  datatype Branch = Success | Refusal | Revocation | CrashRecovery | VerifierFailure | OtherBranch(name: string)

  datatype Identity = Identity(tenantId: string, principalId: string, missionId: string, authorityLeaseId: string,
                               executionContextId: string, workId: string, traceId: string, actionId: string,
                               actionDecisionId: string)

  datatype StageName = Studio | Aie | TrustGateway | Runtime | Works | Verifying | OtherStage(name: string)

  datatype Stage = Stage(name: StageName, ids: Identity)

  datatype Mission = Mission(branch: Branch, canonical: Identity, stages: seq<Stage>, refusedBy: StageName,
                             revokedAfter: StageName, subjectRef: string)

  datatype Decision = Accept | Reject | Refuse | Revoked | Recovered | OtherDecision(name: string)

  datatype Verification = Verification(verifierPrincipal: string, verdict: Decision, actionId: string,
                                       actionDecisionId: string, subjectRef: string)

  datatype Field =
    | TenantId | PrincipalId | MissionId | AuthorityLeaseId | ExecutionContextId | WorkId | TraceId | ActionId
    | ActionDecisionId

  datatype Reason =
    | InvalidCanonical | EmptyChain | UnknownStage(at: nat) | OutOfOrder(at: nat)
    | PrincipalDrift(stage: StageName)          // GOLDEN-002
    | BrokenActionIdentity                      // GOLDEN-003
    | Mismatch(field: Field, stage: StageName)
    | IdentityPreserved(count: nat)             // GOLDEN-001

  datatype Error = UnknownBranch | BadIdentity | SelfVerification | BadVerification | BadJournal | BadRunnerPrincipal
                 | PrefixExecuted | NoSuchStage | PrefixRejected

  /** What a run answers; a self-verification attempt is both an error and a reject. */
  datatype Outcome = Failed(error: Error) | Decided(decision: Decision)

  // ---------------------------------------------------------------- shapes

  predicate HexId(prefix: string, s: string) {
    |s| == |prefix| + 32 && s[..|prefix|] == prefix && All(s[|prefix|..], HexLower)
  }

  predicate RefChar(c: char) { 'A' <= c <= 'Z' || 'a' <= c <= 'z' || '0' <= c <= '9' || c in {'.', '_', '/', '-'} }

  predicate SubjectRefWith(s: string, hex: nat) {
    && |s| > hex + 5 && s[..4] == "git:" && s[|s| - hex - 1] == '@'
    && All(s[|s| - hex..], HexLower) && All(s[4..|s| - hex - 1], RefChar)
  }

  predicate SubjectRef(s: string) { SubjectRefWith(s, 40) || SubjectRefWith(s, 64) }

  predicate ValidIdentity(c: Identity) {
    && HexId("ten_", c.tenantId) && HexId("prn_", c.principalId) && HexId("auth_", c.authorityLeaseId)
    && HexId("ctx_", c.executionContextId) && HexId("wrk_", c.workId) && HexId("trc_", c.traceId)
    && HexId("act_", c.actionId) && HexId("pdr_", c.actionDecisionId)
    && c.missionId != "" && |c.missionId| <= 256
  }

  function StageOrder(s: StageName): Option<nat> {
    match s
    case Studio => Some(0) case Aie => Some(1) case TrustGateway => Some(2) case Runtime => Some(3)
    case Works => Some(4) case Verifying => Some(5) case OtherStage(_) => None
  }

  /** The index in the canonical order, -1 when unknown. */
  function Rank(s: StageName): int { match StageOrder(s) case Some(i) => i case None => -1 }

  predicate Consequential(s: StageName) { s.TrustGateway? || s.Runtime? || s.Works? || s.Verifying? }

  const FIELDS: seq<Field> := [
    TenantId, PrincipalId, MissionId, AuthorityLeaseId, ExecutionContextId, WorkId, TraceId, ActionId, ActionDecisionId
  ]

  function Get(id: Identity, f: Field): string {
    match f
    case TenantId => id.tenantId case PrincipalId => id.principalId case MissionId => id.missionId
    case AuthorityLeaseId => id.authorityLeaseId case ExecutionContextId => id.executionContextId
    case WorkId => id.workId case TraceId => id.traceId case ActionId => id.actionId
    case ActionDecisionId => id.actionDecisionId
  }

  // ---------------------------------------------------------------- the identity law

  /** A present field must equal the canonical value; an absent one is not checked. */
  predicate Agrees(canonical: Identity, s: Stage, f: Field) { Get(s.ids, f) == "" || Get(s.ids, f) == Get(canonical, f) }

  predicate Faithful(canonical: Identity, s: Stage) { forall f :: f in FIELDS ==> Agrees(canonical, s, f) }

  predicate Ordered(stages: seq<Stage>) {
    && (forall i :: 0 <= i < |stages| ==> StageOrder(stages[i].name).Some?)
    && (forall i :: 0 < i < |stages| ==> StageOrder(stages[i - 1].name).value < StageOrder(stages[i].name).value)
  }

  /** Canonical identity is preserved across the whole chain. */
  predicate Preserved(canonical: Identity, stages: seq<Stage>) {
    && ValidIdentity(canonical) && stages != [] && Ordered(stages)
    && forall i :: 0 <= i < |stages| ==> Faithful(canonical, stages[i])
  }

  /** How a stage's first disagreeing field is reported. */
  function BreakReason(s: Stage, f: Field): Reason {
    if f.PrincipalId? && Consequential(s.name) then PrincipalDrift(s.name)
    else if s.name.Works? && f.ActionId? && s.ids.actionDecisionId == "" then BrokenActionIdentity
    else Mismatch(f, s.name)
  }

  /** The reason names the first break: everything before stage i, and every earlier field of it, was in order. */
  ghost predicate FirstBreak(canonical: Identity, stages: seq<Stage>, i: nat, reason: Reason) {
    && i < |stages| && Ordered(stages[..i]) && (forall k :: 0 <= k < i ==> Faithful(canonical, stages[k]))
    && (reason == UnknownStage(i) ==> StageOrder(stages[i].name).None?)
    && (reason == OutOfOrder(i) ==> i > 0 && 0 <= Rank(stages[i].name) <= Rank(stages[i - 1].name))
    && (reason != UnknownStage(i) && reason != OutOfOrder(i) ==>
          FieldBreak(canonical, stages[i], reason))
  }

  ghost predicate FieldBreak(canonical: Identity, s: Stage, reason: Reason) {
    exists k :: 0 <= k < |FIELDS| && FirstField(canonical, s, k) && reason == BreakReason(s, FIELDS[k])
  }

  predicate FirstField(canonical: Identity, s: Stage, k: nat)
    requires k < |FIELDS|
  {
    !Agrees(canonical, s, FIELDS[k]) && forall j :: 0 <= j < k ==> Agrees(canonical, s, FIELDS[j])
  }

  method CheckChain(canonical: Identity, stages: seq<Stage>) returns (d: Decision, reason: Reason)
    ensures d == Accept || d == Reject
    ensures d == Accept <==> Preserved(canonical, stages)
    ensures d == Accept ==> reason == IdentityPreserved(|stages|)
    ensures d == Reject && ValidIdentity(canonical) && stages != [] ==>
      exists i :: FirstBreak(canonical, stages, i, reason)
  {
    if !ValidIdentity(canonical) { return Reject, InvalidCanonical; }
    if stages == [] { return Reject, EmptyChain; }
    var prev: int := -1;
    for i := 0 to |stages|
      invariant Ordered(stages[..i])
      invariant prev == if i == 0 then -1 else StageOrder(stages[i - 1].name).value
      invariant forall k :: 0 <= k < i ==> Faithful(canonical, stages[k])
    {
      var s := stages[i];
      var idx := StageOrder(s.name);
      if idx.None? {
        assert FirstBreak(canonical, stages, i, UnknownStage(i));
        return Reject, UnknownStage(i);
      }
      if idx.value <= prev {
        assert FirstBreak(canonical, stages, i, OutOfOrder(i));
        return Reject, OutOfOrder(i);
      }
      prev := idx.value;
      var broken := CheckStage(canonical, s);
      if broken.Some? {
        assert FirstBreak(canonical, stages, i, broken.value);
        return Reject, broken.value;
      }
    }
    assert stages[..|stages|] == stages;
    return Accept, IdentityPreserved(|stages|);
  }

  method CheckStage(canonical: Identity, s: Stage) returns (broken: Option<Reason>)
    ensures broken.None? <==> Faithful(canonical, s)
    ensures broken.Some? ==> FieldBreak(canonical, s, broken.value)
  {
    for k := 0 to |FIELDS|
      invariant forall j :: 0 <= j < k ==> Agrees(canonical, s, FIELDS[j])
    {
      if !Agrees(canonical, s, FIELDS[k]) {
        assert FirstField(canonical, s, k);
        return Some(BreakReason(s, FIELDS[k]));
      }
    }
    broken := None;
  }

  // ---------------------------------------------------------------- journal

  datatype Kind = MissionStarted | StageDone | OtherKind(name: string)

  datatype JournalEntry = JournalEntry(num: int, kind: Kind, stage: StageName, actionKey: string, canonical: Identity)

  function EffectKey(c: Identity): string { c.workId + "|" + c.actionId }

  /** Keys of valid identities separate distinct (work, action) pairs. */
  lemma EffectKeyInjective(a: Identity, b: Identity)
    requires ValidIdentity(a) && ValidIdentity(b) && EffectKey(a) == EffectKey(b)
    ensures a.workId == b.workId && a.actionId == b.actionId
  {
    assert EffectKey(a)[..36] == a.workId && EffectKey(b)[..36] == b.workId;
    assert EffectKey(a)[37..] == a.actionId && EffectKey(b)[37..] == b.actionId;
  }

  predicate StageEntryOk(entries: seq<JournalEntry>, i: nat)
    requires 0 < i < |entries|
  {
    && entries[i].num == i + 1 && entries[i].kind.StageDone? && entries[i].actionKey == entries[0].actionKey
    && entries[i].canonical == entries[0].canonical && StageOrder(entries[i].stage).Some?
    && (i > 1 ==> Rank(entries[i - 1].stage) < Rank(entries[i].stage))
  }

  /** A snapshot that may resume: one action, one mission, contiguous and in stage order. */
  predicate ResumableJournal(entries: seq<JournalEntry>) {
    && |entries| >= 2
    && entries[0].actionKey != "" && ValidIdentity(entries[0].canonical)
    && entries[0].kind.MissionStarted? && entries[0].num == 1
    && forall i :: 0 < i < |entries| ==> StageEntryOk(entries, i)
  }

  method ValidJournal(entries: seq<JournalEntry>) returns (ok: bool)
    ensures ok <==> ResumableJournal(entries)
  {
    if |entries| < 2 { return false; }
    var key := entries[0].actionKey;
    if key == "" { return false; }
    if !ValidIdentity(entries[0].canonical) { return false; }
    if entries[0].kind != MissionStarted || entries[0].num != 1 { return false; }
    var prev: int := -1;
    for i := 1 to |entries|
      invariant forall k :: 0 < k < i ==> StageEntryOk(entries, k)
      invariant prev == if i == 1 then -1 else Rank(entries[i - 1].stage)
    {
      var e := entries[i];
      var idx := StageOrder(e.stage);
      if e.num != i + 1 || e.kind != StageDone || e.actionKey != key || e.canonical != entries[0].canonical {
        assert !StageEntryOk(entries, i);
        return false;
      }
      if idx.None? || idx.value <= prev {
        assert !StageEntryOk(entries, i);
        return false;
      }
      assert StageEntryOk(entries, i);
      prev := idx.value;
    }
    ok := true;
  }

  function Started(c: Identity): JournalEntry { JournalEntry(1, MissionStarted, OtherStage(""), EffectKey(c), c) }

  function StageEntry(c: Identity, i: nat, s: Stage): JournalEntry { JournalEntry(i + 2, StageDone, s.name, EffectKey(c), c) }

  /** The journal of a mission whose first stages ran. */
  function JournalOf(c: Identity, stages: seq<Stage>): seq<JournalEntry> {
    [Started(c)] + seq(|stages|, i requires 0 <= i < |stages| => StageEntry(c, i, stages[i]))
  }

  /** Every journal a successful prefix writes is accepted for recovery. */
  lemma PrefixJournalResumes(c: Identity, stages: seq<Stage>)
    requires Preserved(c, stages)
    ensures ResumableJournal(JournalOf(c, stages))
  {
    var j := JournalOf(c, stages);
    assert EffectKey(c)[|c.workId|] == '|';
    forall i | 0 < i < |j| ensures StageEntryOk(j, i) {
      assert j[i] == StageEntry(c, i - 1, stages[i - 1]);
      if i > 1 { assert j[i - 1] == StageEntry(c, i - 2, stages[i - 2]); }
    }
  }

  function StageNames(stages: seq<Stage>): seq<StageName> { seq(|stages|, i requires 0 <= i < |stages| => stages[i].name) }

  function JournalStages(entries: seq<JournalEntry>): seq<StageName> {
    if entries == [] then []
    else
      var last := entries[|entries| - 1];
      JournalStages(entries[..|entries| - 1]) + if last.kind.StageDone? then [last.stage] else []
  }

  lemma {:induction false} JournalStagesOf(c: Identity, stages: seq<Stage>)
    ensures JournalStages(JournalOf(c, stages)) == StageNames(stages)
  {
    var j := JournalOf(c, stages);
    if stages == [] {
      assert j == [Started(c)] && j[..0] == [];
    } else {
      var init := stages[..|stages| - 1];
      JournalStagesOf(c, init);
      assert j[..|j| - 1] == JournalOf(c, init);
      assert StageNames(stages) == StageNames(init) + [stages[|stages| - 1].name];
    }
  }

  predicate HasStage(stages: seq<Stage>, name: StageName) { exists i :: 0 <= i < |stages| && stages[i].name == name }

  lemma NamesHaveStage(stages: seq<Stage>, name: StageName)
    ensures name in StageNames(stages) <==> HasStage(stages, name)
  {
    if HasStage(stages, name) {
      var i :| 0 <= i < |stages| && stages[i].name == name;
      assert StageNames(stages)[i] == name;
    }
  }
}
