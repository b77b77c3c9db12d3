/** Correlating rail receipts with the obligations of one economic transaction
    (internal/economic/settlement_correlation.go). */
module SettlementCorrelation {
  import opened Text

  datatype LegKind = Asset | Cash | Fee | OtherKind(name: string)

  datatype LegOutcome = Ready | Locked | Committed | FailedLeg | UnknownLeg | OtherOutcome(name: string)

  datatype Obligation = Obligation(legId: string, kind: LegKind, rail: string, obligationHash: string, legalHash: string)

  datatype Receipt = Receipt(schema: string, transactionId: string, legId: string, kind: LegKind, rail: string,
                             obligationHash: string, legalHash: string, evidenceHash: string, outcome: LegOutcome,
                             externalEffects: int, final: bool)

  datatype Code =
    | SchemaMismatch | TransactionMismatch | Overclaim | UnexpectedLeg | DuplicateReceipt | EvidenceInvalid
    | EvidenceReused | BindingMismatch | NotCommitted | MissingReceipt

  datatype Reason = Reason(legId: string, code: Code)

  datatype Verdict = Correlated | Uncertain

  /** `reasons` is a multiset because the list is sorted before it is returned. */
  datatype Correlation = Correlation(verdict: Verdict, reconciliationRequired: bool, final: bool, externalEffects: int,
                                     matchedLegs: seq<string>, reasons: multiset<Reason>)

  datatype Result = Ok(c: Correlation) | Refused

  const RECEIPT_SCHEMA := "aftergraph.rail-settlement-receipt/v1"

  predicate Sha256Ref(s: string) { |s| == 71 && s[..7] == "sha256:" && All(s[7..], HexLower) }

  type Expected = map<string, Obligation>

  // ---------------------------------------------------------------- obligations

  predicate ObligationOk(legal: string, o: Obligation) {
    o.legId != "" && o.rail != "" && Sha256Ref(o.obligationHash) && o.legalHash == legal && !o.kind.OtherKind?
  }

  function LegOfObligation(o: Obligation): string { o.legId }

  predicate HasKind(obligations: seq<Obligation>, kind: LegKind) { exists o :: o in obligations && o.kind == kind }

  predicate EachOk(legal: string, obligations: seq<Obligation>) { forall o :: o in obligations ==> ObligationOk(legal, o) }

  ghost predicate ObligationsOk(legal: string, obligations: seq<Obligation>) {
    && EachOk(legal, obligations) && DistinctBy(obligations, LegOfObligation)
    && HasKind(obligations, Asset) && HasKind(obligations, Cash)
  }

  /** The map files exactly these obligations by leg. */
  ghost predicate Files(expected: Expected, obligations: seq<Obligation>) {
    && (forall o :: o in obligations ==> o.legId in expected && expected[o.legId] == o)
    && (forall leg :: leg in expected ==> expected[leg] in obligations && expected[leg].legId == leg)
  }

  /** What the loop knows after the obligations filed so far. */
  ghost predicate FiledSoFar(legal: string, done: seq<Obligation>, expected: Expected, hasAsset: bool, hasCash: bool) {
    && EachOk(legal, done) && DistinctBy(done, LegOfObligation) && Files(expected, done)
    && (hasAsset <==> HasKind(done, Asset)) && (hasCash <==> HasKind(done, Cash))
  }

  lemma FilesGrow(expected: Expected, done: seq<Obligation>, o: Obligation)
    requires Files(expected, done) && o.legId !in expected
    ensures Files(expected[o.legId := o], done + [o])
  {
  }

  lemma FiledStep(legal: string, done: seq<Obligation>, expected: Expected, hasAsset: bool, hasCash: bool, o: Obligation)
    requires FiledSoFar(legal, done, expected, hasAsset, hasCash) && ObligationOk(legal, o) && o.legId !in expected
    ensures FiledSoFar(legal, done + [o], expected[o.legId := o], hasAsset || o.kind.Asset?, hasCash || o.kind.Cash?)
  {
    FilesGrow(expected, done, o);
    DistinctSnoc(done, o, LegOfObligation);
    var next := done + [o];
    assert forall x :: x in next <==> x in done || x == o;
  }

  lemma BadObligation(legal: string, obligations: seq<Obligation>, i: nat)
    requires i < |obligations| && !ObligationOk(legal, obligations[i])
    ensures !ObligationsOk(legal, obligations)
  {
    assert obligations[i] in obligations;
  }

  lemma DuplicateLeg(legal: string, expected: Expected, obligations: seq<Obligation>, i: nat)
    requires i < |obligations| && Files(expected, obligations[..i]) && obligations[i].legId in expected
    ensures !ObligationsOk(legal, obligations)
  {
    var twin := expected[obligations[i].legId];
    var k :| 0 <= k < i && obligations[..i][k] == twin;
    assert LegOfObligation(obligations[k]) == LegOfObligation(obligations[i]);
  }

  method FileObligations(legal: string, obligations: seq<Obligation>) returns (ok: bool, expected: Expected)
    ensures ok <==> ObligationsOk(legal, obligations)
    ensures ok ==> Files(expected, obligations)
  {
    expected := map[];
    var hasAsset, hasCash := false, false;
    for i := 0 to |obligations|
      invariant FiledSoFar(legal, obligations[..i], expected, hasAsset, hasCash)
    {
      var o := obligations[i];
      if !ObligationOk(legal, o) { BadObligation(legal, obligations, i); }
      if o.legId == "" || o.rail == "" { return false, expected; }
      if !Sha256Ref(o.obligationHash) { return false, expected; }
      if o.legalHash != legal { return false, expected; }
      if o.legId in expected {
        DuplicateLeg(legal, expected, obligations, i);
        return false, expected;
      }
      if o.kind.OtherKind? { return false, expected; }
      FiledStep(legal, obligations[..i], expected, hasAsset, hasCash, o);
      assert obligations[..i + 1] == obligations[..i] + [o];
      match o.kind {
        case Asset => hasAsset := true;
        case Cash => hasCash := true;
        case _ =>
      }
      expected := expected[o.legId := o];
    }
    assert obligations[..|obligations|] == obligations;
    ok := hasAsset && hasCash;
  }

  // ---------------------------------------------------------------- receipts

  /** Nothing wrong with this receipt on its own. */
  predicate Acceptable(tx: string, expected: Expected, r: Receipt) {
    && r.schema == RECEIPT_SCHEMA && r.transactionId == tx && r.externalEffects == 0 && !r.final
    && r.legId in expected && Sha256Ref(r.evidenceHash) && Binds(expected[r.legId], r) && r.outcome.Committed?
  }

  predicate Binds(o: Obligation, r: Receipt) {
    r.kind == o.kind && r.rail == o.rail && r.obligationHash == o.obligationHash && r.legalHash == o.legalHash
  }

  /** The loop's state. */
  datatype Tally = Tally(seenLeg: set<string>, seenEvidence: set<string>, matched: set<string>, reasons: multiset<Reason>)

  function Blame(t: Tally, r: Receipt, code: Code): Tally { t.(reasons := t.reasons + multiset{Reason(r.legId, code)}) }

  /** The checks before the leg is marked as seen. */
  function LegFault(tx: string, expected: Expected, seenLeg: set<string>, r: Receipt): Option<Code> {
    if r.schema != RECEIPT_SCHEMA then Some(SchemaMismatch)
    else if r.transactionId != tx then Some(TransactionMismatch)
    else if r.externalEffects != 0 || r.final then Some(Overclaim)
    else if r.legId !in expected then Some(UnexpectedLeg)
    else if r.legId in seenLeg then Some(DuplicateReceipt)
    else None
  }

  /** The checks before the evidence is marked as seen. */
  function EvidenceFault(seenEvidence: set<string>, r: Receipt): Option<Code> {
    if !Sha256Ref(r.evidenceHash) then Some(EvidenceInvalid)
    else if r.evidenceHash in seenEvidence then Some(EvidenceReused)
    else None
  }

  function BindingFault(o: Obligation, r: Receipt): Option<Code> {
    if !Binds(o, r) then Some(BindingMismatch) else if !r.outcome.Committed? then Some(NotCommitted) else None
  }

  /** One receipt through the ladder of checks. */
  function Judge(tx: string, expected: Expected, t: Tally, r: Receipt): Tally {
    var early := LegFault(tx, expected, t.seenLeg, r);
    if early.Some? then Blame(t, r, early.value)
    else
      var t := t.(seenLeg := t.seenLeg + {r.legId});
      var evidence := EvidenceFault(t.seenEvidence, r);
      if evidence.Some? then Blame(t, r, evidence.value)
      else
        var t := t.(seenEvidence := t.seenEvidence + {r.evidenceHash});
        var binding := BindingFault(expected[r.legId], r);
        if binding.Some? then Blame(t, r, binding.value) else t.(matched := t.matched + {r.legId})
  }

  lemma FaultlessIff(tx: string, expected: Expected, t: Tally, r: Receipt)
    ensures (LegFault(tx, expected, t.seenLeg, r).None? && EvidenceFault(t.seenEvidence, r).None?
             && BindingFault(expected[r.legId], r).None?) <==>
            (Acceptable(tx, expected, r) && r.legId !in t.seenLeg && r.evidenceHash !in t.seenEvidence)
  {
  }

  function Fold(tx: string, expected: Expected, receipts: seq<Receipt>): Tally {
    if receipts == [] then Tally({}, {}, {}, multiset{})
    else Judge(tx, expected, Fold(tx, expected, receipts[..|receipts| - 1]), receipts[|receipts| - 1])
  }

  function LegOf(r: Receipt): string { r.legId }
  function EvidenceOf(r: Receipt): string { r.evidenceHash }

  /** Every receipt acceptable, no leg twice, no evidence hash twice. */
  ghost predicate CleanReceipts(tx: string, expected: Expected, receipts: seq<Receipt>) {
    && (forall r :: r in receipts ==> Acceptable(tx, expected, r))
    && DistinctBy(receipts, LegOf) && DistinctBy(receipts, EvidenceOf)
  }

  predicate HasLeg(receipts: seq<Receipt>, leg: string) { exists r :: r in receipts && LegOf(r) == leg }

  predicate HasEvidence(receipts: seq<Receipt>, e: string) { exists r :: r in receipts && EvidenceOf(r) == e }

  ghost predicate Faithful(t: Tally, receipts: seq<Receipt>) {
    && (forall leg :: leg in t.seenLeg <==> HasLeg(receipts, leg))
    && (forall e :: e in t.seenEvidence <==> HasEvidence(receipts, e))
    && t.matched == t.seenLeg
  }

  /** A receipt passes the ladder exactly when it is acceptable and new by leg and by evidence. */
  lemma JudgeIff(tx: string, expected: Expected, t: Tally, r: Receipt)
    ensures var u := Judge(tx, expected, t, r);
      && (u.reasons == t.reasons <==> Acceptable(tx, expected, r) && r.legId !in t.seenLeg && r.evidenceHash !in t.seenEvidence)
      && t.reasons <= u.reasons
      && (u.reasons == t.reasons ==>
            u == Tally(t.seenLeg + {r.legId}, t.seenEvidence + {r.evidenceHash}, t.matched + {r.legId}, t.reasons))
  {
    FaultlessIff(tx, expected, t, r);
    forall code: Code ensures t.reasons + multiset{Reason(r.legId, code)} != t.reasons {
      Grows(t.reasons, Reason(r.legId, code));
    }
  }

  lemma Grows(m: multiset<Reason>, x: Reason)
    ensures m + multiset{x} != m
  {
    assert (m + multiset{x})[x] == m[x] + 1;
  }

  lemma FaithfulGrows(t: Tally, receipts: seq<Receipt>, r: Receipt)
    requires Faithful(t, receipts)
    ensures Faithful(Tally(t.seenLeg + {r.legId}, t.seenEvidence + {r.evidenceHash}, t.matched + {r.legId}, t.reasons), receipts + [r])
  {
    forall x ensures HasLeg(receipts + [r], x) <==> HasLeg(receipts, x) || x == r.legId {
      assert r in receipts + [r] && LegOf(r) == r.legId;
    }
    forall x ensures HasEvidence(receipts + [r], x) <==> HasEvidence(receipts, x) || x == r.evidenceHash {
      assert r in receipts + [r] && EvidenceOf(r) == r.evidenceHash;
    }
  }

  /** The loop raises no reason exactly when the receipts are clean, and then it has seen and
      matched exactly their legs. */
  lemma {:induction false} FoldIff(tx: string, expected: Expected, receipts: seq<Receipt>)
    ensures var t := Fold(tx, expected, receipts);
      && (t.reasons == multiset{} <==> CleanReceipts(tx, expected, receipts))
      && (t.reasons == multiset{} ==> Faithful(t, receipts))
  {
    if receipts != [] {
      var init, r := receipts[..|receipts| - 1], receipts[|receipts| - 1];
      FoldIff(tx, expected, init);
      assert receipts == init + [r];
      JudgeStep(tx, expected, Fold(tx, expected, init), init, r);
    }
  }

  lemma JudgeStep(tx: string, expected: Expected, t: Tally, init: seq<Receipt>, r: Receipt)
    requires t.reasons == multiset{} <==> CleanReceipts(tx, expected, init)
    requires t.reasons == multiset{} ==> Faithful(t, init)
    ensures var u := Judge(tx, expected, t, r);
      && (u.reasons == multiset{} <==> CleanReceipts(tx, expected, init + [r]))
      && (u.reasons == multiset{} ==> Faithful(u, init + [r]))
  {
    JudgeIff(tx, expected, t, r);
    CleanSnoc(tx, expected, init, r);
    if t.reasons == multiset{} { FaithfulGrows(t, init, r); }
  }

  lemma CleanSnoc(tx: string, expected: Expected, init: seq<Receipt>, r: Receipt)
    ensures CleanReceipts(tx, expected, init + [r]) <==>
      CleanReceipts(tx, expected, init) && Acceptable(tx, expected, r)
      && (forall q :: q in init ==> LegOf(q) != LegOf(r)) && (forall q :: q in init ==> EvidenceOf(q) != EvidenceOf(r))
  {
    DistinctSnoc(init, r, LegOf);
    DistinctSnoc(init, r, EvidenceOf);
    assert forall q :: q in init + [r] <==> q in init || q == r;
  }

  // ---------------------------------------------------------------- which reason a receipt earns

  const RECEIPT_LAWS: seq<Code> := [
    SchemaMismatch, TransactionMismatch, Overclaim, UnexpectedLeg, DuplicateReceipt, EvidenceInvalid, EvidenceReused,
    BindingMismatch, NotCommitted
  ]

  /** The law behind each code, for a receipt that follows those behind the tally. */
  predicate ReceiptHolds(tx: string, expected: Expected, t: Tally, r: Receipt, code: Code) {
    match code
    case SchemaMismatch => r.schema == "aftergraph.rail-settlement-receipt/v1"
    case TransactionMismatch => r.transactionId == tx
    case Overclaim => r.externalEffects == 0 && !r.final
    case UnexpectedLeg => r.legId in expected
    case DuplicateReceipt => r.legId !in t.seenLeg
    case EvidenceInvalid => Sha256Ref(r.evidenceHash)
    case EvidenceReused => r.evidenceHash !in t.seenEvidence
    case BindingMismatch => r.legId in expected ==>
      var o := expected[r.legId];
      r.kind == o.kind && r.rail == o.rail && r.obligationHash == o.obligationHash && r.legalHash == o.legalHash
    case NotCommitted => r.outcome == Committed
    case MissingReceipt => true
  }

  function ReceiptLaw(tx: string, expected: Expected, t: Tally, r: Receipt): Code -> bool {
    (code: Code) => ReceiptHolds(tx, expected, t, r, code)
  }

  /** The first fault the ladder finds. */
  function FaultOf(tx: string, expected: Expected, t: Tally, r: Receipt): Option<Code> {
    if LegFault(tx, expected, t.seenLeg, r).Some? then LegFault(tx, expected, t.seenLeg, r)
    else if EvidenceFault(t.seenEvidence, r).Some? then EvidenceFault(t.seenEvidence, r)
    else BindingFault(expected[r.legId], r)
  }

  function LawIndex(code: Code): (i: nat)
    ensures i < |RECEIPT_LAWS| && (code != MissingReceipt ==> RECEIPT_LAWS[i] == code)
  {
    match code
    case SchemaMismatch => 0 case TransactionMismatch => 1 case Overclaim => 2 case UnexpectedLeg => 3
    case DuplicateReceipt => 4 case EvidenceInvalid => 5 case EvidenceReused => 6 case BindingMismatch => 7
    case NotCommitted => 8 case MissingReceipt => 0
  }

  lemma FaultOrder(tx: string, expected: Expected, t: Tally, r: Receipt, i: nat)
    requires i < |RECEIPT_LAWS|
    ensures var fault := FaultOf(tx, expected, t, r);
      && (fault.Some? ==> fault.value != MissingReceipt && !ReceiptHolds(tx, expected, t, r, fault.value))
      && (fault.None? || i < LawIndex(fault.value) ==> ReceiptHolds(tx, expected, t, r, RECEIPT_LAWS[i]))
  {
  }

  /** A receipt earns exactly the code of the first law it breaks, under its own leg, and none when
      it breaks none. */
  lemma ReceiptRuled(tx: string, expected: Expected, t: Tally, r: Receipt)
    ensures Ruled(RECEIPT_LAWS, ReceiptLaw(tx, expected, t, r), FaultOf(tx, expected, t, r))
    ensures Judge(tx, expected, t, r).reasons ==
      match FaultOf(tx, expected, t, r) case None => t.reasons case Some(code) => t.reasons + multiset{Reason(r.legId, code)}
  {
    var law := ReceiptLaw(tx, expected, t, r);
    match FaultOf(tx, expected, t, r)
    case None =>
      forall i | 0 <= i < |RECEIPT_LAWS| ensures law(RECEIPT_LAWS[i]) { FaultOrder(tx, expected, t, r, i); }
      RuledNone(RECEIPT_LAWS, law);
    case Some(code) =>
      FaultOrder(tx, expected, t, r, LawIndex(code));
      forall i | 0 <= i < LawIndex(code) ensures law(RECEIPT_LAWS[i]) { FaultOrder(tx, expected, t, r, i); }
      RuledSome(RECEIPT_LAWS, law, LawIndex(code));
  }

  /** A leg and an evidence hash are used up exactly by the receipts that get past their checks. */
  lemma UsedUp(tx: string, expected: Expected, t: Tally, r: Receipt)
    ensures var u := Judge(tx, expected, t, r);
      && u.seenLeg == t.seenLeg + (if LegFault(tx, expected, t.seenLeg, r).None? then {r.legId} else {})
      && u.seenEvidence == t.seenEvidence +
           (if LegFault(tx, expected, t.seenLeg, r).None? && EvidenceFault(t.seenEvidence, r).None? then {r.evidenceHash} else {})
      && u.matched == t.matched + (if FaultOf(tx, expected, t, r).None? then {r.legId} else {})
  {
  }

  // ---------------------------------------------------------------- what the reasons are

  /** The receipt speaks for its leg: right schema and transaction, no over-claim, a known leg. */
  predicate Heard(tx: string, expected: Expected, r: Receipt) {
    r.schema == RECEIPT_SCHEMA && r.transactionId == tx && r.externalEffects == 0 && !r.final && r.legId in expected
  }

  predicate LegHeard(tx: string, expected: Expected, receipts: seq<Receipt>, leg: string) {
    exists r :: r in receipts && r.legId == leg && Heard(tx, expected, r)
  }

  /** A leg counts as seen exactly when some receipt speaks for it, whatever became of that receipt. */
  lemma {:induction false} SeenIff(tx: string, expected: Expected, receipts: seq<Receipt>, leg: string)
    ensures leg in Fold(tx, expected, receipts).seenLeg <==> LegHeard(tx, expected, receipts, leg)
  {
    if receipts != [] {
      var init, r := receipts[..|receipts| - 1], receipts[|receipts| - 1];
      SeenIff(tx, expected, init, leg);
      SeenIff(tx, expected, init, r.legId);
      assert receipts == init + [r];
      assert LegHeard(tx, expected, receipts, leg) <==>
        LegHeard(tx, expected, init, leg) || (r.legId == leg && Heard(tx, expected, r));
    }
  }

  /** Every receipt is matched to its leg or earns exactly one reason. */
  lemma {:induction false} MatchedOrBlamed(tx: string, expected: Expected, receipts: seq<Receipt>)
    ensures var t := Fold(tx, expected, receipts);
      |t.matched| + |t.reasons| == |receipts| && t.matched <= t.seenLeg
  {
    if receipts != [] { MatchedOrBlamed(tx, expected, receipts[..|receipts| - 1]); }
  }

  function MissingReasons(expected: Expected, seenLeg: set<string>): multiset<Reason> {
    multiset(set leg | leg in expected && leg !in seenLeg :: Reason(leg, MissingReceipt))
  }

  // ---------------------------------------------------------------- the verdict

  /** The receipts pair off with the obligations: clean, and every leg covered. */
  ghost predicate Bijection(tx: string, expected: Expected, receipts: seq<Receipt>) {
    && CleanReceipts(tx, expected, receipts)
    && forall leg :: leg in expected ==> HasLeg(receipts, leg)
  }

  method Correlate(tx: string, intent: string, legal: string, obligations: seq<Obligation>, receipts: seq<Receipt>)
    returns (result: Result, ghost expected: Expected)
    ensures result.Ok? <==>
      tx != "" && Sha256Ref(intent) && Sha256Ref(legal) && |obligations| >= 2 && ObligationsOk(legal, obligations)
    ensures result.Ok? ==> Files(expected, obligations) && !result.c.final && result.c.externalEffects == 0
    ensures result.Ok? ==> (result.c.verdict == Correlated <==> Bijection(tx, expected, receipts))
    ensures result.Ok? ==> (result.c.verdict == Correlated <==> result.c.reasons == multiset{})
    ensures result.Ok? ==> (result.c.reconciliationRequired <==> result.c.verdict == Uncertain)
    ensures result.Ok? ==> StrictlySorted(result.c.matchedLegs) && Elements(result.c.matchedLegs) == Fold(tx, expected, receipts).matched
    ensures result.Ok? && result.c.verdict == Correlated ==> Elements(result.c.matchedLegs) == expected.Keys
    ensures result.Ok? ==> var t := Fold(tx, expected, receipts);
      && result.c.reasons == t.reasons + MissingReasons(expected, t.seenLeg)
      && |t.reasons| == |receipts| - |Elements(result.c.matchedLegs)|
      && forall leg :: leg in t.seenLeg <==> LegHeard(tx, expected, receipts, leg)
  {
    expected := map[];
    if tx == "" { return Refused, expected; }
    if !Sha256Ref(intent) { return Refused, expected; }
    if !Sha256Ref(legal) { return Refused, expected; }
    if |obligations| < 2 { return Refused, expected; }
    var ok, filed := FileObligations(legal, obligations);
    expected := filed;
    if !ok { return Refused, expected; }
    var t := JudgeAll(tx, filed, receipts);
    FoldIff(tx, filed, receipts);
    MatchedOrBlamed(tx, filed, receipts);
    forall leg ensures leg in t.seenLeg <==> LegHeard(tx, filed, receipts, leg) { SeenIff(tx, filed, receipts, leg); }
    var missing := MissingLegs(filed, t.seenLeg);
    var reasons := t.reasons + missing;
    assert reasons == multiset{} <==> t.reasons == multiset{} && missing == multiset{} by {
      assert |reasons| == |t.reasons| + |missing|;
    }
    var matched := SortIds(t.matched);
    var uncertain := |reasons| > 0;
    if t.reasons == multiset{} { MatchedAreExpected(tx, filed, receipts, t); }
    result := Ok(Correlation(if uncertain then Uncertain else Correlated, uncertain, false, 0, matched, reasons));
  }

  lemma MatchedAreExpected(tx: string, expected: Expected, receipts: seq<Receipt>, t: Tally)
    requires CleanReceipts(tx, expected, receipts) && Faithful(t, receipts)
    ensures (forall leg :: leg in expected ==> leg in t.seenLeg) <==> Bijection(tx, expected, receipts)
    ensures (forall leg :: leg in expected ==> leg in t.seenLeg) ==> t.matched == expected.Keys
  {
    forall leg | leg in t.seenLeg ensures leg in expected {
      var r :| r in receipts && LegOf(r) == leg;
      assert Acceptable(tx, expected, r);
    }
  }

  /** The receipt loop. */
  method JudgeAll(tx: string, expected: Expected, receipts: seq<Receipt>) returns (t: Tally)
    ensures t == Fold(tx, expected, receipts)
  {
    var seenLeg: set<string>, seenEvidence: set<string>, matched: set<string> := {}, {}, {};
    var reasons: multiset<Reason> := multiset{};
    for i := 0 to |receipts|
      invariant Tally(seenLeg, seenEvidence, matched, reasons) == Fold(tx, expected, receipts[..i])
    {
      var r := receipts[i];
      assert receipts[..i + 1][..i] == receipts[..i];
      if r.schema != RECEIPT_SCHEMA { reasons := reasons + multiset{Reason(r.legId, SchemaMismatch)}; continue; }
      if r.transactionId != tx { reasons := reasons + multiset{Reason(r.legId, TransactionMismatch)}; continue; }
      if r.externalEffects != 0 || r.final { reasons := reasons + multiset{Reason(r.legId, Overclaim)}; continue; }
      if r.legId !in expected { reasons := reasons + multiset{Reason(r.legId, UnexpectedLeg)}; continue; }
      if r.legId in seenLeg { reasons := reasons + multiset{Reason(r.legId, DuplicateReceipt)}; continue; }
      seenLeg := seenLeg + {r.legId};
      if !Sha256Ref(r.evidenceHash) { reasons := reasons + multiset{Reason(r.legId, EvidenceInvalid)}; continue; }
      if r.evidenceHash in seenEvidence { reasons := reasons + multiset{Reason(r.legId, EvidenceReused)}; continue; }
      seenEvidence := seenEvidence + {r.evidenceHash};
      if !Binds(expected[r.legId], r) { reasons := reasons + multiset{Reason(r.legId, BindingMismatch)}; continue; }
      if r.outcome != Committed { reasons := reasons + multiset{Reason(r.legId, NotCommitted)}; continue; }
      matched := matched + {r.legId};
    }
    assert receipts[..|receipts|] == receipts;
    t := Tally(seenLeg, seenEvidence, matched, reasons);
  }

  /** The closing loop: exactly one reason per obligation leg without a receipt. */
  method MissingLegs(expected: Expected, seenLeg: set<string>) returns (reasons: multiset<Reason>)
    ensures reasons == MissingReasons(expected, seenLeg)
    ensures reasons == multiset{} <==> forall leg :: leg in expected ==> leg in seenLeg
  {
    reasons := multiset{};
    var rest := expected.Keys;
    while rest != {}
      invariant rest <= expected.Keys
      invariant forall x :: reasons[x] == if MissingSoFar(expected, seenLeg, rest, x) then 1 else 0
      decreases rest
    {
      var leg :| leg in rest;
      if leg !in seenLeg { reasons := reasons + multiset{Reason(leg, MissingReceipt)}; }
      rest := rest - {leg};
    }
    OnePerLeg(expected, seenLeg, reasons);
  }

  ghost predicate MissingSoFar(expected: Expected, seenLeg: set<string>, rest: set<string>, x: Reason) {
    x.code.MissingReceipt? && x.legId in expected && x.legId !in rest && x.legId !in seenLeg
  }

  lemma OnePerLeg(expected: Expected, seenLeg: set<string>, reasons: multiset<Reason>)
    requires forall x :: reasons[x] == if MissingSoFar(expected, seenLeg, {}, x) then 1 else 0
    ensures reasons == MissingReasons(expected, seenLeg)
    ensures reasons == multiset{} <==> forall leg :: leg in expected ==> leg in seenLeg
  {
    forall x ensures reasons[x] == MissingReasons(expected, seenLeg)[x] {
      if MissingSoFar(expected, seenLeg, {}, x) { assert x == Reason(x.legId, MissingReceipt); }
    }
    if reasons == multiset{} {
      forall leg | leg in expected ensures leg in seenLeg { assert reasons[Reason(leg, MissingReceipt)] == 0; }
    } else {
      var x :| x in reasons;
      assert MissingSoFar(expected, seenLeg, {}, x);
    }
  }

  /** The verdict does not depend on the order in which receipts arrive. */
  lemma VerdictOrderIrrelevant(tx: string, expected: Expected, receipts: seq<Receipt>, shuffled: seq<Receipt>)
    requires multiset(receipts) == multiset(shuffled)
    ensures Bijection(tx, expected, receipts) <==> Bijection(tx, expected, shuffled)
  {
    SameMembers(receipts, shuffled);
    if DistinctBy(receipts, LegOf) { DistinctPermuted(receipts, shuffled, LegOf); }
    if DistinctBy(shuffled, LegOf) { DistinctPermuted(shuffled, receipts, LegOf); }
    if DistinctBy(receipts, EvidenceOf) { DistinctPermuted(receipts, shuffled, EvidenceOf); }
    if DistinctBy(shuffled, EvidenceOf) { DistinctPermuted(shuffled, receipts, EvidenceOf); }
  }

  ghost function KeysOf<T(!new)>(s: seq<T>, key: T -> string): set<string> { set x | x in s :: key(x) }

  lemma {:induction false} DistinctCount<T(!new)>(s: seq<T>, key: T -> string)
    requires DistinctBy(s, key)
    ensures |KeysOf(s, key)| == |s|
  {
    if s != [] {
      var init, last := s[..|s| - 1], s[|s| - 1];
      assert s == init + [last];
      DistinctSnoc(init, last, key);
      DistinctCount(init, key);
      assert KeysOf(s, key) == KeysOf(init, key) + {key(last)};
    }
  }

  lemma LegsAgree(tx: string, expected: Expected, obligations: seq<Obligation>, receipts: seq<Receipt>)
    requires Files(expected, obligations) && Bijection(tx, expected, receipts)
    ensures KeysOf(receipts, LegOf) == expected.Keys == KeysOf(obligations, LegOfObligation)
  {
    forall leg | leg in expected ensures leg in KeysOf(receipts, LegOf) { assert HasLeg(receipts, leg); }
    forall r | r in receipts ensures LegOf(r) in expected { assert Acceptable(tx, expected, r); }
    forall leg | leg in expected ensures leg in KeysOf(obligations, LegOfObligation) {
      assert LegOfObligation(expected[leg]) == leg;
    }
  }

  /** A correlated transaction has exactly one receipt per obligation. */
  lemma BijectionCounts(tx: string, legal: string, expected: Expected, obligations: seq<Obligation>, receipts: seq<Receipt>)
    requires ObligationsOk(legal, obligations) && Files(expected, obligations) && Bijection(tx, expected, receipts)
    ensures |receipts| == |obligations|
  {
    DistinctCount(receipts, LegOf);
    DistinctCount(obligations, LegOfObligation);
    LegsAgree(tx, expected, obligations, receipts);
  }
}
