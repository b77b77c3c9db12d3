/** What every sequence of lifecycle calls keeps, and what a reconciliation leaves canonical. */
module VerifiedRuns {
  import opened Text
  import opened Impact
  import opened VerifiedState

  ghost function Run(nodes: Nodes, edges: set<Edge>, calls: seq<Call>): Nodes {
    if calls == [] then nodes
    else Apply(Run(nodes, edges, calls[..|calls| - 1]), edges, calls[|calls| - 1])
  }

  /** A fresh attempt opens exactly from the states that are not VERIFIED; reopening a candidate
      changes nothing, any other loses its old proof and keeps its fingerprint. */
  lemma BeginMeans(n: Node)
    ensures BeginNode(n).Ok? <==> n.state in {Unknown, Stale, Invalidated, Rejected, Candidate}
    ensures BeginNode(n).Err? ==> BeginNode(n).error == InvalidTransition
    ensures n.state == Candidate ==> BeginNode(n) == Ok(n)
    ensures n.state in {Unknown, Stale, Invalidated, Rejected} ==>
      BeginNode(n) == Ok(Node(n.id, Candidate, n.fingerprint, None))
  {
  }

  /** A candidate is verified exactly by a fingerprint and a complete proof. */
  lemma VerifyMeans(n: Node, fingerprint: string, proof: Proof)
    ensures var complete := proof.verifierId != "" && proof.evidenceRef != "" && proof.subjectRef != "" && proof.verifiedAt != 0;
      && (VerifyNode(n, fingerprint, proof) == Err(InvalidTransition) <==> n.state != Candidate)
      && (VerifyNode(n, fingerprint, proof) == Err(InvalidVerification) <==> n.state == Candidate && !(fingerprint != "" && complete))
      && (VerifyNode(n, fingerprint, proof).Ok? <==> n.state == Candidate && fingerprint != "" && complete)
      && (VerifyNode(n, fingerprint, proof).Ok? ==>
            VerifyNode(n, fingerprint, proof).value == Node(n.id, Verified, fingerprint, Some(proof)))
  {
  }

  lemma RejectMeans(n: Node)
    ensures RejectNode(n) == if n.state == Candidate then Ok(Node(n.id, Rejected, n.fingerprint, n.verification)) else Err(InvalidTransition)
  {
  }

  /** From every well-formed graph, a subject that is not VERIFIED can be made so, by a Begin and a
      Verify with any fingerprint and complete proof, and only it changes. */
  lemma Reverifiable(nodes: Nodes, edges: set<Edge>, id: string, fingerprint: string, proof: Proof)
    requires WellFormed(nodes, edges) && id in nodes && nodes[id].state != Verified
    requires fingerprint != "" && ValidVerification(Some(proof))
    ensures Run(nodes, edges, [Begin(id), Verify(id, fingerprint, proof)]) == nodes[id := Node(id, Verified, fingerprint, Some(proof))]
  {
    var calls := [Begin(id), Verify(id, fingerprint, proof)];
    assert calls[..1] == [Begin(id)] && [Begin(id)][..0] == [];
    assert NodeWellFormed(id, nodes[id]);
    BeginMeans(nodes[id]);
    var mid := Run(nodes, edges, [Begin(id)]);
    assert mid == Apply(Run(nodes, edges, []), edges, Begin(id)) == Apply(nodes, edges, Begin(id));
    VerifyMeans(mid[id], fingerprint, proof);
  }

  lemma ApplyKeeps(nodes: Nodes, edges: set<Edge>, c: Call)
    requires WellFormed(nodes, edges)
    ensures WellFormed(Apply(nodes, edges, c), edges) && Apply(nodes, edges, c).Keys == nodes.Keys
  {
    if c.Reconcile? {
      if ReconcileOk(nodes, c) { DemoteWellFormed(nodes, edges, Drifted(c.checkpoint.value, c.current.value)); }
    }
  }

  /** In every run a VERIFIED subject carries a fingerprint and a valid proof. */
  lemma {:induction false} RunKeeps(nodes: Nodes, edges: set<Edge>, calls: seq<Call>)
    requires WellFormed(nodes, edges)
    ensures WellFormed(Run(nodes, edges, calls), edges) && Run(nodes, edges, calls).Keys == nodes.Keys
  {
    if calls != [] {
      RunKeeps(nodes, edges, calls[..|calls| - 1]);
      ApplyKeeps(Run(nodes, edges, calls[..|calls| - 1]), edges, calls[|calls| - 1]);
    }
  }

  ghost function At(nodes: Nodes, edges: set<Edge>, calls: seq<Call>, id: string, k: nat): Node
    requires WellFormed(nodes, edges) && id in nodes && k <= |calls|
  {
    RunKeeps(nodes, edges, calls[..k]);
    Run(nodes, edges, calls[..k])[id]
  }

  /** Call k verified `id`: the subject was a CANDIDATE and the proof was in order. */
  ghost predicate VerifiedBy(nodes: Nodes, edges: set<Edge>, calls: seq<Call>, id: string, k: nat)
    requires WellFormed(nodes, edges) && id in nodes
  {
    && k < |calls| && calls[k].Verify? && calls[k].id == id
    && At(nodes, edges, calls, id, k).state.Candidate?
    && calls[k].fingerprint != "" && ValidVerification(Some(calls[k].proof))
  }

  /** Call j opened a fresh attempt on `id`: from a closed state, discarding the old proof. */
  ghost predicate OpenedBy(nodes: Nodes, edges: set<Edge>, calls: seq<Call>, id: string, j: nat)
    requires WellFormed(nodes, edges) && id in nodes
  {
    && j < |calls| && calls[j] == Begin(id)
    && At(nodes, edges, calls, id, j).state in {Unknown, Stale, Invalidated, Rejected}
  }

  lemma AtStep(nodes: Nodes, edges: set<Edge>, calls: seq<Call>, id: string, k: nat)
    requires WellFormed(nodes, edges) && id in nodes && k < |calls|
    ensures var before, after := At(nodes, edges, calls, id, k), At(nodes, edges, calls, id, k + 1);
            var c := calls[k];
            && (after.fingerprint != before.fingerprint ==> VerifiedBy(nodes, edges, calls, id, k))
            && (VerifiedBy(nodes, edges, calls, id, k) ==>
                  after == before.(state := Verified, fingerprint := c.fingerprint, verification := Some(c.proof)))
            && (after.state.Verified? && !VerifiedBy(nodes, edges, calls, id, k) ==> after == before)
            && (after.state.Candidate? && !before.state.Candidate? ==>
                  OpenedBy(nodes, edges, calls, id, k) && after.verification.None?)
            && (before.state.Verified? && !after.state.Verified? ==>
                  c.Reconcile? && ReconcileOk(Run(nodes, edges, calls[..k]), c)
                  && Reached(edges, Drifted(c.checkpoint.value, c.current.value), id))
  {
    assert calls[..k + 1][..k] == calls[..k];
    RunKeeps(nodes, edges, calls[..k]);
    CallMoves(Run(nodes, edges, calls[..k]), edges, calls[k], id);
  }

  /** What one call can do to one subject. */
  lemma CallMoves(nodes: Nodes, edges: set<Edge>, c: Call, id: string)
    requires WellFormed(nodes, edges) && id in nodes
    ensures id in Apply(nodes, edges, c)
    ensures var before, after := nodes[id], Apply(nodes, edges, c)[id];
            var verified := c.Verify? && c.id == id && before.state.Candidate? && c.fingerprint != "" && ValidVerification(Some(c.proof));
            && (after.fingerprint != before.fingerprint ==> verified)
            && (verified ==> after == before.(state := Verified, fingerprint := c.fingerprint, verification := Some(c.proof)))
            && (after.state.Verified? && !verified ==> after == before)
            && (after.state.Candidate? && !before.state.Candidate? ==>
                  c == Begin(id) && before.state in {Unknown, Stale, Invalidated, Rejected} && after.verification.None?)
            && (before.state.Verified? && !after.state.Verified? ==>
                  c.Reconcile? && ReconcileOk(nodes, c) && Reached(edges, Drifted(c.checkpoint.value, c.current.value), id))
  {
  }

  /** A fingerprint differs from the initial one only if some Verify call wrote it. */
  lemma {:induction false} FingerprintOnlyByVerify(nodes: Nodes, edges: set<Edge>, calls: seq<Call>, id: string, i: nat, n: nat)
    requires WellFormed(nodes, edges) && id in nodes && i <= n <= |calls|
    ensures At(nodes, edges, calls, id, n).fingerprint != At(nodes, edges, calls, id, i).fingerprint ==>
      exists k :: i <= k < n && VerifiedBy(nodes, edges, calls, id, k)
               && At(nodes, edges, calls, id, n).fingerprint == calls[k].fingerprint
    decreases n
  {
    if i < n {
      AtStep(nodes, edges, calls, id, n - 1);
      FingerprintOnlyByVerify(nodes, edges, calls, id, i, n - 1);
    }
  }

  /** A subject that is VERIFIED after n calls but was not after i was verified in between, from
      CANDIDATE, with the proof it now carries. */
  lemma {:induction false} VerifiedNeedsCandidate(nodes: Nodes, edges: set<Edge>, calls: seq<Call>, id: string, i: nat, n: nat)
    returns (k: nat)
    requires WellFormed(nodes, edges) && id in nodes && i <= n <= |calls|
    requires !At(nodes, edges, calls, id, i).state.Verified? && At(nodes, edges, calls, id, n).state.Verified?
    ensures i <= k < n && VerifiedBy(nodes, edges, calls, id, k)
    ensures At(nodes, edges, calls, id, n).verification == Some(calls[k].proof)
    ensures At(nodes, edges, calls, id, n).fingerprint == calls[k].fingerprint
    decreases n
  {
    AtStep(nodes, edges, calls, id, n - 1);
    if VerifiedBy(nodes, edges, calls, id, n - 1) {
      k := n - 1;
    } else {
      k := VerifiedNeedsCandidate(nodes, edges, calls, id, i, n - 1);
    }
  }

  /** A CANDIDATE that was not one after i calls was opened by a Begin in between. */
  lemma {:induction false} CandidateNeedsBegin(nodes: Nodes, edges: set<Edge>, calls: seq<Call>, id: string, i: nat, n: nat)
    returns (j: nat)
    requires WellFormed(nodes, edges) && id in nodes && i <= n <= |calls|
    requires !At(nodes, edges, calls, id, i).state.Candidate? && At(nodes, edges, calls, id, n).state.Candidate?
    ensures i <= j < n && OpenedBy(nodes, edges, calls, id, j)
    decreases n
  {
    AtStep(nodes, edges, calls, id, n - 1);
    if At(nodes, edges, calls, id, n - 1).state.Candidate? {
      j := CandidateNeedsBegin(nodes, edges, calls, id, i, n - 1);
    } else {
      j := n - 1;
    }
  }

  /** Re-verification law: a subject demoted (or rejected, or never seen) is canonical again only
      through a Begin that discards the old proof and, after it, a Verify with a fresh one. */
  lemma ReverificationPassesThroughCandidate(nodes: Nodes, edges: set<Edge>, calls: seq<Call>, id: string, i: nat)
    requires WellFormed(nodes, edges) && id in nodes && i <= |calls|
    requires At(nodes, edges, calls, id, i).state in {Unknown, Stale, Invalidated, Rejected}
    requires At(nodes, edges, calls, id, |calls|).state.Verified?
    ensures exists j, k :: i <= j < k < |calls| && OpenedBy(nodes, edges, calls, id, j)
                        && VerifiedBy(nodes, edges, calls, id, k)
                        && At(nodes, edges, calls, id, |calls|).verification == Some(calls[k].proof)
  {
    var k := VerifiedNeedsCandidate(nodes, edges, calls, id, i, |calls|);
    var j := CandidateNeedsBegin(nodes, edges, calls, id, i, k);
  }

  /** After reconciling a fully VERIFIED graph, canonical means: no drifted subject reaches it. */
  lemma CanonicalIffUnreached(nodes: Nodes, edges: set<Edge>, checkpoint: Snapshot, current: Snapshot, id: string)
    requires WellFormed(nodes, edges) && id in nodes
    requires forall x :: x in nodes ==> nodes[x].state.Verified?
    requires SnapshotOk(nodes, checkpoint) && SnapshotOk(nodes, current)
    ensures var after := Apply(nodes, edges, Reconcile(Some(checkpoint), Some(current)));
            Canonical(after[id]) <==> !Reached(edges, Drifted(checkpoint, current), id)
  {
    HardIsReached(edges, Drifted(checkpoint, current), id);
  }

  /** INVALIDATED survives a reconciliation exactly when the drift misses the subject or reaches
      it across a hard edge; a purely soft drift softens it to STALE. */
  lemma InvalidatedSurvivesIff(nodes: Nodes, edges: set<Edge>, drift: set<string>, id: string)
    requires id in nodes && nodes[id].state.Invalidated?
    ensures Demote(nodes, edges, drift)[id].state.Invalidated? <==>
            (Reached(edges, drift, id) ==> HardReached(edges, drift, id))
  {
    HardIsReached(edges, drift, id);
  }

  /** A concrete softening: b is INVALIDATED, its DATA dependency a drifts, and b becomes STALE. */
  lemma InvalidatedIsNotSticky() returns (nodes: Nodes, edges: set<Edge>, c: Call)
    ensures WellFormed(nodes, edges) && c.Reconcile? && ReconcileOk(nodes, c)
    ensures "b" in nodes && nodes["b"].state.Invalidated?
    ensures "b" in Apply(nodes, edges, c) && Apply(nodes, edges, c)["b"].state.Stale?
  {
    var e := Edge("a", "b", Data);
    edges := {e};
    nodes := map["a" := Node("a", Stale, "f", None), "b" := Node("b", Invalidated, "g", None)];
    c := Reconcile(Some(map["a" := "f"]), Some(map["a" := "h"]));
    var drift := Drifted(c.checkpoint.value, c.current.value);
    assert "a" in drift;
    SoftNeverInvalidates(edges, drift, "b");
    RootReached(edges, drift, "a");
    ReachStep(edges, drift, e);
    assert WellFormed(nodes, edges);
    assert ReconcileOk(nodes, c);
  }

  // ---------------------------------------------------------------- order of the inputs

  function IdOf(n: Node): string { n.id }

  lemma {:induction false} AcceptedMeaning(list: seq<Node>)
    ensures NodesAccepted(list) <==>
      (forall n :: n in list ==> NodeError([], n).None?) && DistinctBy(list, IdOf)
  {
    if list != [] {
      var init, last := list[..|list| - 1], list[|list| - 1];
      AcceptedMeaning(init);
      assert list == init + [last];
      DistinctSnoc(init, last, IdOf);
      assert NodeError(init, last).None? <==>
        NodeError([], last).None? && forall m :: m in init ==> IdOf(m) != IdOf(last);
      assert (forall n :: n in list ==> NodeError([], n).None?) <==>
        (forall n :: n in init ==> NodeError([], n).None?) && NodeError([], last).None?
        by { assert forall n :: n in list <==> n in init || n == last; }
    }
  }

  /** `NewGraph` builds the same graph, or refuses, whatever the order of its lists. */
  lemma OrderIrrelevant(list: seq<Node>, list': seq<Node>, edges: seq<Edge>, edges': seq<Edge>, a: Nodes, b: Nodes)
    requires multiset(list) == multiset(list') && multiset(edges) == multiset(edges')
    ensures NodesAccepted(list) <==> NodesAccepted(list')
    ensures EdgesAccepted(Ids(list), edges) <==> EdgesAccepted(Ids(list'), edges')
    ensures Elements(edges) == Elements(edges')
    ensures Files(a, list) && Files(b, list') ==> a == b
  {
    SameMembers(list, list');
    SameMembers(edges, edges');
    AcceptedMeaning(list);
    AcceptedMeaning(list');
    if DistinctBy(list, IdOf) { DistinctPermuted(list, list', IdOf); }
    if DistinctBy(list', IdOf) { DistinctPermuted(list', list, IdOf); }
    assert Ids(list) == Ids(list');
    AcceptedEdges(Ids(list), edges);
    AcceptedEdges(Ids(list), edges');
  }

  lemma AcceptedEdges(ids: set<string>, edges: seq<Edge>)
    ensures EdgesAccepted(ids, edges) <==> forall e :: e in edges ==> EdgeError(ids, e).None?
  {
  }
}
