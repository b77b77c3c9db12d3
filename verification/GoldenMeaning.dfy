/** What a run decides and what a journal is, in direct terms. */
module GoldenMeaning {
  import opened Text
  import opened GoldenMission
  import opened GoldenRuns

  // ---------------------------------------------------------------- chains and identities

  /** A stage's rank is its place in the full chain. */
  lemma RankIsPosition(s: StageName)
    ensures StageOrder(s).Some? <==> s in FULL_CHAIN
    ensures StageOrder(s).Some? ==> StageOrder(s).value < |FULL_CHAIN| && FULL_CHAIN[StageOrder(s).value] == s
  {
    match s
    case Studio => assert FULL_CHAIN[0] == s;
    case Aie => assert FULL_CHAIN[1] == s;
    case TrustGateway => assert FULL_CHAIN[2] == s;
    case Runtime => assert FULL_CHAIN[3] == s;
    case Works => assert FULL_CHAIN[4] == s;
    case Verifying => assert FULL_CHAIN[5] == s;
    case OtherStage(_) =>
  }

  predicate Carries(observed: string, canonical: string) { observed == "" || observed == canonical }

  /** A stage that carries nothing but the mission's own identity. */
  predicate SameIdentity(c: Identity, s: Identity) {
    && Carries(s.tenantId, c.tenantId) && Carries(s.principalId, c.principalId) && Carries(s.missionId, c.missionId)
    && Carries(s.authorityLeaseId, c.authorityLeaseId) && Carries(s.executionContextId, c.executionContextId)
    && Carries(s.workId, c.workId) && Carries(s.traceId, c.traceId) && Carries(s.actionId, c.actionId)
    && Carries(s.actionDecisionId, c.actionDecisionId)
  }

  lemma FaithfulMeans(c: Identity, s: Stage)
    ensures Faithful(c, s) <==> SameIdentity(c, s.ids)
  {
    if Faithful(c, s) {
      assert Agrees(c, s, FIELDS[0]) && Agrees(c, s, FIELDS[1]) && Agrees(c, s, FIELDS[2]) && Agrees(c, s, FIELDS[3]);
      assert Agrees(c, s, FIELDS[4]) && Agrees(c, s, FIELDS[5]) && Agrees(c, s, FIELDS[6]) && Agrees(c, s, FIELDS[7]);
      assert Agrees(c, s, FIELDS[8]);
    }
  }

  /** Ranks strictly grow along the chain, and every stage is one of its six. */
  ghost predicate Advancing(names: seq<StageName>) {
    && (forall i :: 0 <= i < |names| ==> names[i] in FULL_CHAIN)
    && (forall i, j :: 0 <= i < j < |names| ==> Rank(names[i]) < Rank(names[j]))
  }

  lemma {:induction false} OrderedIsAdvancing(stages: seq<Stage>)
    ensures Ordered(stages) <==> Advancing(StageNames(stages))
  {
    var names := StageNames(stages);
    forall i | 0 <= i < |stages| ensures StageOrder(stages[i].name).Some? <==> names[i] in FULL_CHAIN { RankIsPosition(names[i]); }
    if Ordered(stages) {
      forall i, j | 0 <= i < j < |names| ensures Rank(names[i]) < Rank(names[j]) { RanksGrow(stages, i, j); }
    }
    if Advancing(names) {
      forall i | 0 < i < |stages| ensures StageOrder(stages[i - 1].name).value < StageOrder(stages[i].name).value {
        assert Rank(names[i - 1]) < Rank(names[i]);
      }
    }
  }

  lemma {:induction false} RanksGrow(stages: seq<Stage>, i: nat, j: nat)
    requires Ordered(stages) && i < j < |stages|
    ensures Rank(stages[i].name) < Rank(stages[j].name)
    decreases j
  {
    if i < j - 1 { RanksGrow(stages, i, j - 1); }
  }

  /** A chain is accepted exactly when the identity is valid, there is a stage, stages advance
      through the full chain, and each of the nine fields a stage carries is the mission's. */
  lemma PreservedMeans(c: Identity, stages: seq<Stage>)
    ensures Preserved(c, stages) <==>
      && ValidIdentity(c) && stages != [] && Advancing(StageNames(stages))
      && forall i :: 0 <= i < |stages| ==> SameIdentity(c, stages[i].ids)
  {
    OrderedIsAdvancing(stages);
    forall i | 0 <= i < |stages| ensures Faithful(c, stages[i]) <==> SameIdentity(c, stages[i].ids) { FaithfulMeans(c, stages[i]); }
  }

  // ---------------------------------------------------------------- journals

  /** A journal as it is written down: an opening entry, then the stages in order, contiguously
      numbered, all bound to one action and one identity. */
  ghost predicate JournalReading(j: seq<JournalEntry>, c: Identity, key: string, opening: StageName, names: seq<StageName>) {
    && ValidIdentity(c) && key != "" && names != [] && Advancing(names) && |j| == |names| + 1
    && j[0] == JournalEntry(1, MissionStarted, opening, key, c)
    && forall i :: 0 <= i < |names| ==> j[i + 1] == JournalEntry(i + 2, StageDone, names[i], key, c)
  }

  function EntryStage(e: JournalEntry): Stage { Stage(e.stage, e.canonical) }

  function Entries(j: seq<JournalEntry>): seq<Stage> { seq(|j|, i requires 0 <= i < |j| => EntryStage(j[i])) }

  /** Exactly such journals are resumed from. */
  lemma ResumableIff(j: seq<JournalEntry>)
    ensures ResumableJournal(j) <==> exists c, key, opening, names :: JournalReading(j, c, key, opening, names)
  {
    if ResumableJournal(j) {
      var stages := Entries(j[1..]);
      forall i | 0 <= i < |stages| ensures stages[i].name == j[i + 1].stage && StageEntryOk(j, i + 1) {}
      assert Ordered(stages);
      OrderedIsAdvancing(stages);
      assert JournalReading(j, j[0].canonical, j[0].actionKey, j[0].stage, StageNames(stages));
    }
    if c, key, opening, names :| JournalReading(j, c, key, opening, names) {
      forall i | 0 < i < |j| ensures StageEntryOk(j, i) {
        assert j[i] == JournalEntry(i + 1, StageDone, names[i - 1], key, c);
        RankIsPosition(names[i - 1]);
        if i > 1 { assert j[i - 1] == JournalEntry(i, StageDone, names[i - 2], key, c) && Rank(names[i - 2]) < Rank(names[i - 1]); }
      }
    }
  }

  // ---------------------------------------------------------------- decisions

  predicate Presentable(v: Verification) {
    && HexId("prn_", v.verifierPrincipal) && HexId("act_", v.actionId) && HexId("pdr_", v.actionDecisionId)
    && (v.verdict == Accept || v.verdict == Reject) && (v.subjectRef == "" || SubjectRef(v.subjectRef))
  }

  /** Past the errors: a known branch, a presentable verification about the mission's own subject. */
  predicate Addressed(m: Mission, v: Verification) { !m.branch.OtherBranch? && Presentable(v) && m.subjectRef == v.subjectRef }

  /** And past the checks all branches share: an independent verifier of this action, and an intact chain. */
  predicate Sound(principal: string, m: Mission, v: Verification) {
    && Addressed(m, v) && v.verifierPrincipal != principal && v.verifierPrincipal != m.canonical.principalId
    && v.actionId == m.canonical.actionId && v.actionDecisionId == m.canonical.actionDecisionId
    && Preserved(m.canonical, m.stages)
  }

  /** A gateway refused, and nothing past it ran. */
  predicate RefusedAtGateway(m: Mission) {
    && m.branch == Refusal && m.refusedBy == TrustGateway && (exists i :: 0 <= i < |m.stages| && m.stages[i].name == TrustGateway)
    && forall i :: 0 <= i < |m.stages| ==> m.stages[i].name != Works && m.stages[i].name != Verifying
  }

  /** Authority was withdrawn at a known point, after the gateway, and nothing ran past it. */
  predicate HaltedInTime(m: Mission) {
    && m.branch == Revocation && m.revokedAfter in FULL_CHAIN && (exists i :: 0 <= i < |m.stages| && m.stages[i].name == TrustGateway)
    && forall i :: 0 <= i < |m.stages| ==> Rank(m.stages[i].name) <= Rank(m.revokedAfter)
  }

  /** The whole chain ran and an independent verifier accepts. */
  predicate FullyVerified(m: Mission, v: Verification) {
    && m.branch == Success && v.verdict == Accept && |m.stages| == 6
    && m.stages[0].name == Studio && m.stages[1].name == Aie && m.stages[2].name == TrustGateway
    && m.stages[3].name == Runtime && m.stages[4].name == Works && m.stages[5].name == Verifying
  }

  lemma FullChain(m: Mission)
    ensures StageNames(m.stages) == FULL_CHAIN <==>
      && |m.stages| == 6 && m.stages[0].name == Studio && m.stages[1].name == Aie && m.stages[2].name == TrustGateway
      && m.stages[3].name == Runtime && m.stages[4].name == Works && m.stages[5].name == Verifying
  {
    var names := StageNames(m.stages);
    if names == FULL_CHAIN {
      assert names[0] == Studio && names[1] == Aie && names[2] == TrustGateway && names[3] == Runtime && names[4] == Works && names[5] == Verifying;
    }
  }

  /** A run without a verifier decides exactly this; everything else is rejected. */
  lemma RunDecides(m: Mission)
    ensures var o := RunOutcome(m).0;
      && (o == Failed(UnknownBranch) <==> m.branch.OtherBranch?)
      && (o == Decided(Refuse) <==> Preserved(m.canonical, m.stages) && RefusedAtGateway(m))
      && (o == Decided(Revoked) <==> Preserved(m.canonical, m.stages) && HaltedInTime(m))
      && o in {Failed(UnknownBranch), Decided(Refuse), Decided(Revoked), Decided(Reject)}
  {
    RankIsPosition(m.revokedAfter);
  }

  /** The errors of a verified run, each exactly when. */
  lemma VerifiedFails(principal: string, recovered: bool, journal: seq<JournalEntry>, m: Mission, v: Verification)
    ensures var o := VerifiedOutcome(principal, recovered, journal, m, v).0;
      && (o == Failed(UnknownBranch) <==> m.branch.OtherBranch?)
      && (o == Failed(BadVerification) <==> !m.branch.OtherBranch? && !Presentable(v))
      && (o == Failed(BadIdentity) <==> !m.branch.OtherBranch? && Presentable(v) && m.subjectRef != "" && !SubjectRef(m.subjectRef))
      && (o == Failed(SelfVerification) <==>
            Addressed(m, v) && (v.verifierPrincipal == principal || v.verifierPrincipal == m.canonical.principalId))
      && (o.Failed? ==> o.error in {UnknownBranch, BadVerification, BadIdentity, SelfVerification})
  {
  }

  /** The decisions of a verified run, each exactly when; everything else, a rejecting verifier and
      the verifier-failure branch included, is rejected. */
  lemma VerifiedDecides(principal: string, recovered: bool, journal: seq<JournalEntry>, m: Mission, v: Verification)
    ensures var o := VerifiedOutcome(principal, recovered, journal, m, v).0;
      && (o == Decided(Accept) <==> Sound(principal, m, v) && FullyVerified(m, v))
      && (o == Decided(Refuse) <==> Sound(principal, m, v) && RefusedAtGateway(m))
      && (o == Decided(Revoked) <==> Sound(principal, m, v) && HaltedInTime(m))
      && (o == Decided(Recovered) <==> recovered && Sound(principal, m, v) && Recovers(journal, m, v))
      && (o.Decided? ==> o.decision in {Accept, Refuse, Revoked, Recovered, Reject})
  {
    if Sound(principal, m, v) {
      match m.branch
      case Success => FullChain(m);
      case CrashRecovery =>
      case VerifierFailure =>
      case _ => RunDecides(m);
    } else {
      UnsoundIsRejected(principal, recovered, journal, m, v);
    }
  }

  lemma UnsoundIsRejected(principal: string, recovered: bool, journal: seq<JournalEntry>, m: Mission, v: Verification)
    requires !Sound(principal, m, v)
    ensures var o := VerifiedOutcome(principal, recovered, journal, m, v).0; o.Failed? || o == Decided(Reject)
  {
  }

  /** The mission resumes its own journal, reaches works and verification, and is accepted. */
  predicate Recovers(journal: seq<JournalEntry>, m: Mission, v: Verification) {
    && m.branch == CrashRecovery && v.verdict == Accept
    && journal != [] && journal[0].canonical == m.canonical
    && JournalStages(journal) != [] && JournalStages(journal) <= StageNames(m.stages)
    && (exists i :: 0 <= i < |m.stages| && m.stages[i].name == Works)
    && (exists i :: 0 <= i < |m.stages| && m.stages[i].name == Verifying)
  }

  /** A prefix runs exactly for a crash-recovery mission on a runner without a journal, up to the
      first occurrence of a stage it has, when the chain so far is intact. */
  lemma PrefixDecides(journal: seq<JournalEntry>, m: Mission, upto: StageName)
    ensures PrefixOutcome(journal, m, upto).None? <==>
      && m.branch == CrashRecovery && journal == []
      && exists at :: FirstAt(m.stages, upto, at) && Preserved(m.canonical, m.stages[..at + 1])
    ensures PrefixOutcome(journal, m, upto) == Some(NoSuchStage) <==>
      m.branch == CrashRecovery && journal == [] && forall i :: 0 <= i < |m.stages| ==> m.stages[i].name != upto
  {
    var at := FirstIndex(m.stages, upto);
    if at >= 0 { assert FirstAt(m.stages, upto, at); }
    if k :| FirstAt(m.stages, upto, k) { assert k == at; }
  }

  ghost predicate FirstAt(stages: seq<Stage>, name: StageName, at: int) {
    0 <= at < |stages| && stages[at].name == name && forall k :: 0 <= k < at ==> stages[k].name != name
  }
}
