/** Two lives of the runner around one shared effect log. */
module GoldenRuns {
  import opened Text
  import opened GoldenMission

  /** Applications per effect key. */
  type Counts = map<string, nat>

  function CountOf(counts: Counts, key: string): nat { if key in counts then counts[key] else 0 }

  function Bump(counts: Counts, key: string, effect: bool): Counts {
    if effect then counts[key := CountOf(counts, key) + 1] else counts
  }

  // ---------------------------------------------------------------- decisions

  predicate Refusable(m: Mission) {
    m.refusedBy.TrustGateway? && HasStage(m.stages, TrustGateway) && !HasStage(m.stages, Works) && !HasStage(m.stages, Verifying)
  }

  predicate Revocable(m: Mission) {
    && StageOrder(m.revokedAfter).Some? && HasStage(m.stages, TrustGateway)
    && forall i :: 0 <= i < |m.stages| ==> Rank(m.stages[i].name) <= Rank(m.revokedAfter)
  }

  /** `Run`: the decision, and whether the effect was applied. */
  function RunOutcome(m: Mission): (Outcome, bool) {
    if m.branch.OtherBranch? then (Failed(UnknownBranch), false)
    else if !Preserved(m.canonical, m.stages) then (Decided(Reject), false)
    else match m.branch
      case Refusal => (Decided(if Refusable(m) then Refuse else Reject), false)
      case Revocation => if Revocable(m) then (Decided(Revoked), HasStage(m.stages, Works)) else (Decided(Reject), false)
      case _ => (Decided(Reject), false)
  }

  predicate WellFormedVerification(v: Verification) {
    && HexId("prn_", v.verifierPrincipal) && (v.verdict.Accept? || v.verdict.Reject?)
    && HexId("act_", v.actionId) && HexId("pdr_", v.actionDecisionId)
    && (v.subjectRef != "" ==> SubjectRef(v.subjectRef))
  }

  const FULL_CHAIN: seq<StageName> := [Studio, Aie, TrustGateway, Runtime, Works, Verifying]

  /** The journal is a non-empty prefix of the resumed mission's chain, of the same mission. */
  predicate Resumes(journal: seq<JournalEntry>, m: Mission) {
    var done := JournalStages(journal);
    && journal != [] && journal[0].canonical == m.canonical
    && done != [] && done <= StageNames(m.stages)
    && HasStage(m.stages, Works) && HasStage(m.stages, Verifying)
  }

  function CompleteRecovery(recovered: bool, journal: seq<JournalEntry>, m: Mission, v: Verification): (Outcome, bool) {
    if !recovered || !Resumes(journal, m) || v.verdict.Reject? then (Decided(Reject), false)
    else (Decided(Recovered), Works !in JournalStages(journal))
  }

  /** `RunWithVerification`. */
  function VerifiedOutcome(principal: string, recovered: bool, journal: seq<JournalEntry>, m: Mission, v: Verification): (Outcome, bool) {
    if m.branch.OtherBranch? then (Failed(UnknownBranch), false)
    else if !WellFormedVerification(v) then (Failed(BadVerification), false)
    else if m.subjectRef != "" && !SubjectRef(m.subjectRef) then (Failed(BadIdentity), false)
    else if m.subjectRef != v.subjectRef then (Decided(Reject), false)
    else if v.verifierPrincipal == principal || v.verifierPrincipal == m.canonical.principalId then (Failed(SelfVerification), false)
    else if v.actionId != m.canonical.actionId || v.actionDecisionId != m.canonical.actionDecisionId then (Decided(Reject), false)
    else if !Preserved(m.canonical, m.stages) then (Decided(Reject), false)
    else match m.branch
      case Refusal => RunOutcome(m)
      case Revocation => RunOutcome(m)
      case Success =>
        if StageNames(m.stages) == FULL_CHAIN && v.verdict.Accept? then (Decided(Accept), true) else (Decided(Reject), false)
      case CrashRecovery => CompleteRecovery(recovered, journal, m, v)
      case VerifierFailure => (Decided(Reject), false)
      case OtherBranch(_) => (Decided(Reject), false)
  }

  function FirstIndex(stages: seq<Stage>, name: StageName): (at: int)
    ensures -1 <= at < |stages|
    ensures at >= 0 ==> stages[at].name == name && forall k :: 0 <= k < at ==> stages[k].name != name
    ensures at < 0 ==> !HasStage(stages, name)
  {
    if stages == [] then -1
    else if stages[0].name == name then 0
    else
      var at := FirstIndex(stages[1..], name);
      assert forall k :: 0 < k < |stages| ==> stages[k] == stages[1..][k - 1];
      if at < 0 then -1 else at + 1
  }

  /** `RunPrefix`: the journal it writes, or why it refuses. */
  function PrefixOutcome(journal: seq<JournalEntry>, m: Mission, upto: StageName): (error: Option<Error>) {
    if m.branch != CrashRecovery then Some(UnknownBranch)
    else if journal != [] then Some(PrefixExecuted)
    else if FirstIndex(m.stages, upto) < 0 then Some(NoSuchStage)
    else if !Preserved(m.canonical, m.stages[..FirstIndex(m.stages, upto) + 1]) then Some(PrefixRejected)
    else None
  }

  lemma JournalGrows(c: Identity, ran: seq<Stage>, i: nat)
    requires i < |ran|
    ensures JournalOf(c, ran[..i + 1]) == JournalOf(c, ran[..i]) + [StageEntry(c, i, ran[i])]
  {
    assert ran[..i + 1][..i] == ran[..i];
  }

  // ---------------------------------------------------------------- the imperative form

  class EffectLog {
    var applied: Counts

    constructor ()
      ensures applied == map[]
    {
      applied := map[];
    }

    method Apply(key: string) returns (first: bool)
      modifies this
      ensures applied == Bump(old(applied), key, true) && (first <==> CountOf(old(applied), key) == 0)
    {
      applied := applied[key := CountOf(applied, key) + 1];
      first := applied[key] == 1;
    }
  }

  class Runner {
    const principal: string
    const log: EffectLog
    const recovered: bool
    var journal: seq<JournalEntry>

    constructor New(principal: string, log: EffectLog)
      requires HexId("prn_", principal)
      ensures this.principal == principal && this.log == log && !recovered && journal == []
    {
      this.principal, this.log, this.recovered, this.journal := principal, log, false, [];
    }

    constructor Recover(principal: string, log: EffectLog, entries: seq<JournalEntry>)
      requires HexId("prn_", principal) && ResumableJournal(entries)
      ensures this.principal == principal && this.log == log && recovered && journal == entries
    {
      this.principal, this.log, this.recovered, this.journal := principal, log, true, entries;
    }

    method Run(m: Mission) returns (o: Outcome)
      modifies log
      ensures o == RunOutcome(m).0 && log.applied == Bump(old(log.applied), EffectKey(m.canonical), RunOutcome(m).1)
    {
      if m.branch.OtherBranch? { return Failed(UnknownBranch); }
      var d, reason := CheckChain(m.canonical, m.stages);
      if d == Reject { return Decided(Reject); }
      match m.branch {
        case Refusal => o := Decided(if Refusable(m) then Refuse else Reject);
        case Revocation => o := RunRevocation(m);
        case _ => o := Decided(Reject);
      }
    }

    method RunRevocation(m: Mission) returns (o: Outcome)
      modifies log
      ensures o == Decided(if Revocable(m) then Revoked else Reject)
      ensures log.applied == Bump(old(log.applied), EffectKey(m.canonical), Revocable(m) && HasStage(m.stages, Works))
    {
      var point := StageOrder(m.revokedAfter);
      if point.None? { return Decided(Reject); }
      if !HasStage(m.stages, TrustGateway) { return Decided(Reject); }
      for i := 0 to |m.stages|
        invariant forall k :: 0 <= k < i ==> Rank(m.stages[k].name) <= point.value
      {
        if Rank(m.stages[i].name) > point.value { return Decided(Reject); }
      }
      if HasStage(m.stages, Works) { var first := log.Apply(EffectKey(m.canonical)); }
      o := Decided(Revoked);
    }

    method WriteJournal(c: Identity, ran: seq<Stage>)
      modifies this`journal
      ensures journal == JournalOf(c, ran)
    {
      journal := [Started(c)];
      for i := 0 to |ran|
        invariant journal == JournalOf(c, ran[..i])
      {
        JournalGrows(c, ran, i);
        journal := journal + [StageEntry(c, i, ran[i])];
      }
      assert ran[..|ran|] == ran;
    }

    /** Executes a crash-recovery mission up to a stage, journalling every step. */
    method RunPrefix(m: Mission, upto: StageName) returns (error: Option<Error>)
      modifies this`journal, log
      ensures error == PrefixOutcome(old(journal), m, upto)
      ensures error.Some? ==> journal == old(journal) && log.applied == old(log.applied)
      ensures error.None? ==>
        var ran := m.stages[..FirstIndex(m.stages, upto) + 1];
        && journal == JournalOf(m.canonical, ran)
        && log.applied == Bump(old(log.applied), EffectKey(m.canonical), HasStage(ran, Works))
    {
      if m.branch != CrashRecovery { return Some(UnknownBranch); }
      if journal != [] { return Some(PrefixExecuted); }
      var at := FirstIndex(m.stages, upto);
      if at < 0 { return Some(NoSuchStage); }
      var ran := m.stages[..at + 1];
      var d, reason := CheckChain(m.canonical, ran);
      if d == Reject { return Some(PrefixRejected); }
      WriteJournal(m.canonical, ran);
      if HasStage(ran, Works) { var first := log.Apply(EffectKey(m.canonical)); }
      error := None;
    }

    method RunWithVerification(m: Mission, v: Verification) returns (o: Outcome)
      modifies log
      ensures o == VerifiedOutcome(principal, recovered, journal, m, v).0
      ensures log.applied ==
        Bump(old(log.applied), EffectKey(m.canonical), VerifiedOutcome(principal, recovered, journal, m, v).1)
    {
      if m.branch.OtherBranch? { return Failed(UnknownBranch); }
      if !WellFormedVerification(v) { return Failed(BadVerification); }
      if m.subjectRef != "" && !SubjectRef(m.subjectRef) { return Failed(BadIdentity); }
      if (m.subjectRef == "") != (v.subjectRef == "") || (m.subjectRef != "" && v.subjectRef != m.subjectRef) {
        return Decided(Reject);
      }
      if v.verifierPrincipal == principal || v.verifierPrincipal == m.canonical.principalId { return Failed(SelfVerification); }
      if v.actionId != m.canonical.actionId || v.actionDecisionId != m.canonical.actionDecisionId { return Decided(Reject); }
      var d, reason := CheckChain(m.canonical, m.stages);
      if d == Reject { return Decided(Reject); }
      match m.branch {
        case Refusal => o := Run(m);
        case Revocation => o := Run(m);
        case Success =>
          if StageNames(m.stages) != FULL_CHAIN || v.verdict.Reject? { return Decided(Reject); }
          var first := log.Apply(EffectKey(m.canonical));
          o := Decided(Accept);
        case CrashRecovery => o := RunCrashRecovery(m, v);
        case VerifierFailure => o := Decided(Reject);
        case OtherBranch(_) => o := Decided(Reject);
      }
    }

    method RunCrashRecovery(m: Mission, v: Verification) returns (o: Outcome)
      modifies log
      ensures o == CompleteRecovery(recovered, journal, m, v).0
      ensures log.applied == Bump(old(log.applied), EffectKey(m.canonical), CompleteRecovery(recovered, journal, m, v).1)
    {
      if !recovered { return Decided(Reject); }
      if journal == [] || journal[0].canonical != m.canonical { return Decided(Reject); }
      var done: seq<StageName> := [];
      for i := 0 to |journal|
        invariant done == JournalStages(journal[..i])
        invariant log.applied == old(log.applied)
      {
        assert journal[..i + 1][..i] == journal[..i];
        if journal[i].kind.StageDone? { done := done + [journal[i].stage]; }
      }
      assert journal[..|journal|] == journal;
      if done == [] || !(done <= StageNames(m.stages)) { return Decided(Reject); }
      if !HasStage(m.stages, Works) || !HasStage(m.stages, Verifying) { return Decided(Reject); }
      if v.verdict.Reject? { return Decided(Reject); }
      if Works !in done { var first := log.Apply(EffectKey(m.canonical)); }
      o := Decided(Recovered);
    }
  }

  // ---------------------------------------------------------------- exactly once

  /** No refused, rejected or failed run ever applies an effect. */
  lemma NoEffectWithoutDecision(principal: string, recovered: bool, journal: seq<JournalEntry>, m: Mission, v: Verification)
    ensures RunOutcome(m).1 ==> RunOutcome(m).0 == Decided(Revoked)
    ensures var r := VerifiedOutcome(principal, recovered, journal, m, v);
      r.1 ==> r.0 in {Decided(Accept), Decided(Revoked), Decided(Recovered)}
  {
  }

  datatype Completion = Completion(principal: string, m: Mission, v: Verification)

  /** What a caller must present for a verified run to get past the checks all branches share. */
  predicate Admissible(principal: string, m: Mission, v: Verification) {
    && WellFormedVerification(v) && v.subjectRef == m.subjectRef
    && v.verifierPrincipal != principal && v.verifierPrincipal != m.canonical.principalId
    && v.actionId == m.canonical.actionId && v.actionDecisionId == m.canonical.actionDecisionId
    && Preserved(m.canonical, m.stages)
  }

  /** A call that completes the mission of this journal: everything here is known before the call. */
  predicate Completes(journal: seq<JournalEntry>, c: Completion) {
    Admissible(c.principal, c.m, c.v) && c.m.branch.CrashRecovery? && Resumes(journal, c.m) && c.v.verdict.Accept?
  }

  /** A run answers "recovered" exactly when the runner was resumed and the call completes its
      journal; it then applies the effect exactly when works is not journalled. */
  lemma RecoveredIff(recovered: bool, journal: seq<JournalEntry>, c: Completion)
    ensures VerifiedOutcome(c.principal, recovered, journal, c.m, c.v).0 == Decided(Recovered) <==> recovered && Completes(journal, c)
    ensures recovered && Completes(journal, c) ==>
      (VerifiedOutcome(c.principal, recovered, journal, c.m, c.v).1 <==> Works !in JournalStages(journal))
  {
  }

  /** The prefix's own application, read off its journal. */
  lemma PrefixEffect(c: Identity, ran: seq<Stage>)
    ensures HasStage(ran, Works) <==> Works in JournalStages(JournalOf(c, ran))
  {
    JournalStagesOf(c, ran);
    NamesHaveStage(ran, Works);
  }

  /** For every mission, stage, pair of runner lives and verifier: a successful prefix leaves a
      journal that recovery accepts, and one completion that answers "recovered" brings the
      effect count exactly one above what it was before the prefix, whatever happened to other
      keys in between. */
  lemma ExactlyOnceAcrossLives(before: Counts, first: Mission, upto: StageName, between: Counts,
                               principal: string, resumed: Mission, v: Verification)
    requires PrefixOutcome([], first, upto).None?
    ensures var ran := first.stages[..FirstIndex(first.stages, upto) + 1];
      var journal := JournalOf(first.canonical, ran);
      var key := EffectKey(first.canonical);
      var crashed := Bump(before, key, HasStage(ran, Works));
      var (o, effect) := VerifiedOutcome(principal, true, journal, resumed, v);
      && ResumableJournal(journal)
      && (CountOf(between, key) == CountOf(crashed, key) && o == Decided(Recovered) ==>
            EffectKey(resumed.canonical) == key &&
            CountOf(Bump(between, EffectKey(resumed.canonical), effect), key) == CountOf(before, key) + 1)
  {
    var ran := first.stages[..FirstIndex(first.stages, upto) + 1];
    PrefixJournalResumes(first.canonical, ran);
    PrefixEffect(first.canonical, ran);
    CompletionResumes(JournalOf(first.canonical, ran), Completion(principal, resumed, v));
    OneInAll(before, between, EffectKey(first.canonical), HasStage(ran, Works));
  }

  lemma CompletionResumes(journal: seq<JournalEntry>, c: Completion)
    requires journal != []
    ensures VerifiedOutcome(c.principal, true, journal, c.m, c.v).0 == Decided(Recovered) ==>
      c.m.canonical == journal[0].canonical &&
      (VerifiedOutcome(c.principal, true, journal, c.m, c.v).1 <==> Works !in JournalStages(journal))
  {
    RecoveredIff(true, journal, c);
  }

  /** Either the prefix applied the effect or the completion does. */
  lemma OneInAll(before: Counts, between: Counts, key: string, prefix: bool)
    ensures CountOf(between, key) == CountOf(Bump(before, key, prefix), key) ==>
      CountOf(Bump(between, key, !prefix), key) == CountOf(before, key) + 1
  {
  }

  /** A call on a runner resumed from the journal: with or without a verifier. */
  datatype Call = Direct(m: Mission) | Verified(c: Completion)
  {
    function Key(): string { EffectKey(if Direct? then m.canonical else c.m.canonical) }
  }

  function CallEffect(journal: seq<JournalEntry>, call: Call): bool {
    match call
    case Direct(m) => RunOutcome(m).1
    case Verified(c) => VerifiedOutcome(c.principal, true, journal, c.m, c.v).1
  }

  /** The effect counts after any calls, by any runners resumed from one journal. */
  function Calls(counts: Counts, journal: seq<JournalEntry>, list: seq<Call>): Counts {
    if list == [] then counts
    else
      var call := list[|list| - 1];
      Bump(Calls(counts, journal, list[..|list| - 1]), call.Key(), CallEffect(journal, call))
  }

  predicate RevokesAfterWorks(m: Mission) { m.branch.Revocation? && Revocable(m) && HasStage(m.stages, Works) }

  /** The calls that apply their mission's effect, told from their inputs alone: the completion of a
      journal without works, an accepted success of the full chain, and a revocation after works.
      Only the first looks at the journal. */
  predicate Applies(journal: seq<JournalEntry>, call: Call) {
    match call
    case Direct(m) => Preserved(m.canonical, m.stages) && RevokesAfterWorks(m)
    case Verified(c) =>
      || (Completes(journal, c) && Works !in JournalStages(journal))
      || (Admissible(c.principal, c.m, c.v) && c.m.branch.Success? && StageNames(c.m.stages) == FULL_CHAIN && c.v.verdict.Accept?)
      || (Admissible(c.principal, c.m, c.v) && RevokesAfterWorks(c.m))
  }

  lemma AppliesIff(journal: seq<JournalEntry>, call: Call)
    ensures CallEffect(journal, call) <==> Applies(journal, call)
  {
  }

  /** How many of the calls apply the effect of this key. */
  function Applying(journal: seq<JournalEntry>, key: string, list: seq<Call>): nat {
    if list == [] then 0
    else
      var call := list[|list| - 1];
      Applying(journal, key, list[..|list| - 1]) + if Applies(journal, call) && call.Key() == key then 1 else 0
  }

  /** Whatever is called on resumed runners, each key's count grows by exactly its applying calls. */
  lemma {:induction false} CallsCount(counts: Counts, journal: seq<JournalEntry>, key: string, list: seq<Call>)
    ensures CountOf(Calls(counts, journal, list), key) == CountOf(counts, key) + Applying(journal, key, list)
  {
    if list != [] {
      CallsCount(counts, journal, key, list[..|list| - 1]);
      AppliesIff(journal, list[|list| - 1]);
    }
  }

  /** Exactly once, exactly: after a prefix and any calls on runners resumed from its journal, the
      effect was applied once if and only if the prefix's own application and the applying calls of
      its key make one together. */
  lemma ExactlyOnceIff(before: Counts, first: Mission, upto: StageName, list: seq<Call>)
    requires PrefixOutcome([], first, upto).None?
    ensures var ran := first.stages[..FirstIndex(first.stages, upto) + 1];
      var journal := JournalOf(first.canonical, ran);
      var key := EffectKey(first.canonical);
      CountOf(Calls(Bump(before, key, HasStage(ran, Works)), journal, list), key) == CountOf(before, key) + 1
      <==> (if HasStage(ran, Works) then 1 else 0) + Applying(journal, key, list) == 1
  {
    var ran := first.stages[..FirstIndex(first.stages, upto) + 1];
    var key := EffectKey(first.canonical);
    CallsCount(Bump(before, key, HasStage(ran, Works)), JournalOf(first.canonical, ran), key, list);
  }

  /** A resumed runner is not confined to crash recovery: a success mission is accepted and applied
      whatever the journal holds. */
  lemma SuccessIgnoresJournal(journal: seq<JournalEntry>, c: Completion)
    requires Admissible(c.principal, c.m, c.v) && c.m.branch.Success?
    requires StageNames(c.m.stages) == FULL_CHAIN && c.v.verdict.Accept?
    ensures VerifiedOutcome(c.principal, true, journal, c.m, c.v) == (Decided(Accept), true)
  {
  }

  /** For every valid identity and independent accepting verifier: a prefix that reached works, then
      a success of the same identity on the resumed runner, and the effect is applied twice. */
  lemma ResumedSuccessDoubles(id: Identity, principal: string, v: Verification) returns (first: Mission, again: Completion)
    requires ValidIdentity(id) && WellFormedVerification(v) && v.verdict.Accept? && v.subjectRef == ""
    requires v.verifierPrincipal != principal && v.verifierPrincipal != id.principalId
    requires v.actionId == id.actionId && v.actionDecisionId == id.actionDecisionId
    ensures PrefixOutcome([], first, Works).None? && EffectKey(first.canonical) == EffectKey(id)
    ensures var ran := first.stages[..FirstIndex(first.stages, Works) + 1];
      var journal := JournalOf(first.canonical, ran);
      CountOf(Calls(Bump(map[], EffectKey(id), HasStage(ran, Works)), journal, [Verified(again)]), EffectKey(id)) == 2
  {
    var stages := FullStages(id);
    first := Mission(CrashRecovery, id, stages, Works, Works, "");
    again := Completion(principal, Mission(Success, id, stages, Works, Works, ""), v);
    var ran := stages[..FirstIndex(stages, Works) + 1];
    PrefixPreserved(id, stages, FirstIndex(stages, Works) + 1);
    assert ran[FirstIndex(stages, Works)].name == Works;
    var journal := JournalOf(id, ran);
    SuccessIgnoresJournal(journal, again);
    CallsCount(Bump(map[], EffectKey(id), true), journal, EffectKey(id), [Verified(again)]);
    assert [Verified(again)][..0] == [] && Applying(journal, EffectKey(id), []) == 0;
  }

  lemma FullStages(id: Identity) returns (stages: seq<Stage>)
    requires ValidIdentity(id)
    ensures StageNames(stages) == FULL_CHAIN && Preserved(id, stages) && HasStage(stages, Works)
  {
    var none := Identity("", "", "", "", "", "", "", "", "");
    stages := [Stage(Studio, none), Stage(Aie, none), Stage(TrustGateway, none), Stage(Runtime, none), Stage(Works, none),
               Stage(Verifying, none)];
    forall i, f | 0 <= i < |stages| && f in FIELDS ensures Agrees(id, stages[i], f) {}
    assert stages[4].name == Works;
  }

  lemma PrefixPreserved(id: Identity, stages: seq<Stage>, n: nat)
    requires Preserved(id, stages) && 0 < n <= |stages|
    ensures Preserved(id, stages[..n])
  {
  }

  function Sevens(): string { seq(32, _ => '7') }

  lemma HexIdOfSevens(prefix: string)
    ensures HexId(prefix, prefix + Sevens())
  {
    assert (prefix + Sevens())[|prefix|..] == Sevens();
  }

  /** A concrete mission whose prefix stops before works and whose journal is completed twice:
      the effect is applied twice. */
  lemma RepeatedCompletionDoubles() returns (m: Mission, c: Completion)
    ensures PrefixOutcome([], m, Aie).None?
    ensures var journal := JournalOf(m.canonical, m.stages[..FirstIndex(m.stages, Aie) + 1]);
      CountOf(Calls(map[], journal, [Verified(c), Verified(c)]), EffectKey(m.canonical)) == 2
  {
    var id := SampleIdentity();
    m := SampleMission(id);
    var v := SampleVerification();
    c := Completion(m.canonical.principalId, m, v);
    var ran := m.stages[..FirstIndex(m.stages, Aie) + 1];
    var journal := JournalOf(m.canonical, ran);
    JournalStagesOf(m.canonical, ran);
    SampleRecovers(m, c, journal);
    TwoCompletions(journal, c);
  }

  lemma {:induction false} TwoCompletions(journal: seq<JournalEntry>, c: Completion)
    requires journal != [] && c.m.canonical == journal[0].canonical
    requires VerifiedOutcome(c.principal, true, journal, c.m, c.v) == (Decided(Recovered), true)
    ensures CountOf(Calls(map[], journal, [Verified(c), Verified(c)]), EffectKey(journal[0].canonical)) == 2
  {
    var call := Verified(c);
    assert [call, call][..1] == [call] && [call][..0] == [];
    assert Calls(map[], journal, []) == map[];
    assert Calls(map[], journal, [call]) == Bump(map[], call.Key(), true);
  }

  lemma SampleIdentity() returns (id: Identity)
    ensures ValidIdentity(id) && id.principalId == "prn_" + Sevens() && id.actionId == "act_" + Sevens()
    ensures id.actionDecisionId == "pdr_" + Sevens()
  {
    var h := Sevens();
    id := Identity("ten_" + h, "prn_" + h, "m", "auth_" + h, "ctx_" + h, "wrk_" + h, "trc_" + h, "act_" + h, "pdr_" + h);
    HexIdOfSevens("ten_"); HexIdOfSevens("prn_"); HexIdOfSevens("auth_"); HexIdOfSevens("ctx_"); HexIdOfSevens("wrk_");
    HexIdOfSevens("trc_"); HexIdOfSevens("act_"); HexIdOfSevens("pdr_");
  }

  lemma SampleVerification() returns (v: Verification)
    ensures WellFormedVerification(v) && v.verdict.Accept? && v.subjectRef == "" && v.verifierPrincipal != "prn_" + Sevens()
    ensures v.actionId == "act_" + Sevens() && v.actionDecisionId == "pdr_" + Sevens()
  {
    var other := "prn_" + seq(32, _ => '8');
    assert HexId("prn_", other) by { assert other[4..] == seq(32, _ => '8'); }
    assert other != "prn_" + Sevens() by { assert other[4] == '8' && ("prn_" + Sevens())[4] == '7'; }
    HexIdOfSevens("act_"); HexIdOfSevens("pdr_");
    v := Verification(other, Accept, "act_" + Sevens(), "pdr_" + Sevens(), "");
  }

  lemma {:induction false} SampleMission(id: Identity) returns (m: Mission)
    requires ValidIdentity(id)
    ensures m.branch == CrashRecovery && m.canonical == id && m.subjectRef == "" && Preserved(id, m.stages)
    ensures HasStage(m.stages, Works) && HasStage(m.stages, Verifying)
    ensures FirstIndex(m.stages, Aie) == 0 && m.stages != [] && m.stages[0].name == Aie
    ensures PrefixOutcome([], m, Aie).None?
  {
    var none := Identity("", "", "", "", "", "", "", "", "");
    m := Mission(CrashRecovery, id, [Stage(Aie, none), Stage(Works, none), Stage(Verifying, none)], Aie, Aie, "");
    forall i, f | 0 <= i < |m.stages| && f in FIELDS ensures Agrees(id, m.stages[i], f) {}
    assert m.stages[1].name == Works && m.stages[2].name == Verifying;
    assert m.stages[..1] == [Stage(Aie, none)];
    assert Preserved(id, m.stages[..1]);
  }

  lemma {:induction false} SampleRecovers(m: Mission, c: Completion, journal: seq<JournalEntry>)
    requires m.branch == CrashRecovery && m.subjectRef == "" && Preserved(m.canonical, m.stages) && c.m == m
    requires HasStage(m.stages, Works) && HasStage(m.stages, Verifying) && m.stages[0].name == Aie
    requires journal != [] && journal[0].canonical == m.canonical && JournalStages(journal) == StageNames(m.stages[..1])
    requires WellFormedVerification(c.v) && c.v.verdict.Accept? && c.v.subjectRef == ""
    requires c.v.verifierPrincipal != c.principal && c.v.verifierPrincipal != m.canonical.principalId
    requires c.v.actionId == m.canonical.actionId && c.v.actionDecisionId == m.canonical.actionDecisionId
    ensures VerifiedOutcome(c.principal, true, journal, m, c.v) == (Decided(Recovered), true)
  {
    assert StageNames(m.stages[..1]) == [Aie] && StageNames(m.stages)[0] == Aie;
    assert [Aie] <= StageNames(m.stages);
  }

  // ---------------------------------------------------------------- construction

  /** `NewRunner`: a malformed principal is refused, a nil log is replaced by a fresh one. */
  method NewRunner(principal: string, log: EffectLog?) returns (runner: Runner?, error: Option<Error>)
    ensures error == if HexId("prn_", principal) then None else Some(BadRunnerPrincipal)
    ensures runner != null <==> error.None?
    ensures runner != null ==> fresh(runner) && runner.principal == principal && !runner.recovered && runner.journal == []
    ensures runner != null && log != null ==> runner.log == log
    ensures runner != null && log == null ==> fresh(runner.log) && runner.log.applied == map[]
  {
    if !HexId("prn_", principal) { return null, Some(BadRunnerPrincipal); }
    var l := log;
    if l == null { l := new EffectLog(); }
    runner := new Runner.New(principal, l);
    error := None;
  }

  /** `Recover`: only a resumable journal resumes. */
  method RecoverRunner(principal: string, log: EffectLog?, entries: seq<JournalEntry>) returns (runner: Runner?, error: Option<Error>)
    ensures error == if !HexId("prn_", principal) then Some(BadRunnerPrincipal)
                     else if !ResumableJournal(entries) then Some(BadJournal) else None
    ensures runner != null <==> error.None?
    ensures runner != null ==> fresh(runner) && runner.principal == principal && runner.recovered && runner.journal == entries
    ensures runner != null && log != null ==> runner.log == log
    ensures runner != null && log == null ==> fresh(runner.log) && runner.log.applied == map[]
  {
    if !HexId("prn_", principal) { return null, Some(BadRunnerPrincipal); }
    var ok := ValidJournal(entries);
    if !ok { return null, Some(BadJournal); }
    var l := log;
    if l == null { l := new EffectLog(); }
    runner := new Runner.Recover(principal, l, entries);
    error := None;
  }
}
