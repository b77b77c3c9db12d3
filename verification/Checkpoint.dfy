/** Verification-aware resume checkpoints (packages/verifiedstate/checkpoint.go). */
module CheckpointLaw {
  import opened Text
  import opened Impact
  import opened VerifiedState
  import opened VerifiedRuns

  const SCHEMA := "verified-state-checkpoint/0.1"

  /** A nil snapshot map is None. */
  datatype Checkpoint = Checkpoint(schema: string, nodes: seq<Node>, edges: seq<Edge>, snapshot: Option<Snapshot>)

  datatype Failure = InvalidCheckpoint | Graph(error: Error)

  datatype Outcome = Resumed(report: Report) | Refused(failure: Failure)

  predicate Monitors(nodes: seq<Node>, id: string, fingerprint: string) {
    exists n :: n in nodes && n.id == id && n.fingerprint == fingerprint
  }

  /** A record of verified truth: every node canonical, every monitored fingerprint the verified one. */
  ghost predicate Trusted(c: Checkpoint) {
    && c.schema == SCHEMA && c.nodes != []
    && c.snapshot.Some? && c.snapshot.value != map[]
    && NodesAccepted(c.nodes) && EdgesAccepted(Ids(c.nodes), c.edges)
    && (forall n :: n in c.nodes ==> Canonical(n))
    && (forall id :: id in c.snapshot.value ==>
          c.snapshot.value[id] != "" && Monitors(c.nodes, id, c.snapshot.value[id]))
  }

  method Validate(c: Checkpoint) returns (ok: bool)
    ensures ok <==> Trusted(c)
  {
    if c.schema != SCHEMA || c.nodes == [] { return false; }
    if c.snapshot.None? || c.snapshot.value == map[] { return false; }
    var built := NewGraph(c.nodes, c.edges);
    if built.Err? { return false; }
    var g := built.value;
    var ids := SortIds(set n | n in c.nodes :: n.id);
    assert forall id :: id in ids <==> id in Elements(ids);
    AllCanonical(g.nodes, c.nodes, ids);
    var error := g.CanCanonicalize(ids);
    if error.Some? { return false; }
    error := g.ValidateSnapshot(c.snapshot.value);
    MonitoredMeaning(g.nodes, c.nodes, c.snapshot.value);
    if error.Some? { return false; }
    ok := Matches(g.nodes, c.snapshot.value);
  }

  /** The closing loop of `Validate`: every monitored fingerprint equals the canonical one. */
  method Matches(nodes: Nodes, snapshot: Snapshot) returns (ok: bool)
    ensures ok <==> forall id :: id in snapshot ==> id in nodes && nodes[id].fingerprint == snapshot[id]
  {
    var rest := snapshot.Keys;
    while rest != {}
      invariant rest <= snapshot.Keys
      invariant forall id :: id in snapshot && id !in rest ==> id in nodes && nodes[id].fingerprint == snapshot[id]
      decreases rest
    {
      var id :| id in rest;
      if id !in nodes || nodes[id].fingerprint != snapshot[id] { return false; }
      rest := rest - {id};
    }
    ok := true;
  }

  lemma AllCanonical(nodes: Nodes, list: seq<Node>, ids: seq<string>)
    requires Files(nodes, list) && list != []
    requires forall id :: id in ids <==> id in (set n | n in list :: n.id)
    ensures ids != []
    ensures (forall id :: id in ids ==> id in nodes && Canonical(nodes[id])) <==> (forall n :: n in list ==> Canonical(n))
  {
    assert list[0].id in ids;
    if forall id :: id in ids ==> id in nodes && Canonical(nodes[id]) {
      forall n | n in list ensures Canonical(n) { assert n.id in ids; }
    }
  }

  lemma MonitoredMeaning(nodes: Nodes, list: seq<Node>, snapshot: Snapshot)
    requires Files(nodes, list) && forall id :: id in nodes ==> id != ""
    ensures (SnapshotOk(nodes, snapshot) && forall id :: id in snapshot ==> nodes[id].fingerprint == snapshot[id]) <==>
            (forall id :: id in snapshot ==> snapshot[id] != "" && Monitors(list, id, snapshot[id]))
  {
  }

  predicate Observable(c: Checkpoint, current: Snapshot) {
    forall id :: id in current ==> current[id] != "" && id in Ids(c.nodes)
  }

  /** `Checkpoint.Reconcile`: refuses an untrusted checkpoint or a malformed observation, otherwise
      reports the impact of the drift on the checkpointed graph. */
  method Resume(c: Checkpoint, current: Option<Snapshot>) returns (r: Outcome)
    ensures r.Resumed? <==> Trusted(c) && current.Some? && Observable(c, current.value)
    ensures r == Refused(InvalidCheckpoint) <==> !Trusted(c)
    ensures r.Resumed? ==> Reports(r.report, c.snapshot.value, current.value, Elements(c.edges))
  {
    var ok := Validate(c);
    if !ok { return Refused(InvalidCheckpoint); }
    var built := NewGraph(c.nodes, c.edges);
    var g := built.value;
    MonitoredMeaning(g.nodes, c.nodes, c.snapshot.value);
    assert g.nodes.Keys == Ids(c.nodes);
    var report := g.ReconcileSnapshots(c.snapshot, current);
    if report.Err? { return Refused(Graph(report.error)); }
    r := Resumed(report.value);
  }

  /** Observing exactly the checkpointed world reports no drift and demotes nothing. */
  lemma UnchangedWorldIsQuiet(c: Checkpoint, r: Report)
    requires Trusted(c) && Reports(r, c.snapshot.value, c.snapshot.value, Elements(c.edges))
    ensures r == Report([], [], [], [])
  {
    assert Drifted(c.snapshot.value, c.snapshot.value) == {};
    ElementsEmpty(r.changed);
    ElementsEmpty(r.missing);
    ElementsEmpty(r.added);
    assert Elements(ImpactedIds(r.impacted)) == {};
    ElementsEmpty(ImpactedIds(r.impacted));
  }

  /** Two reports of one reconciliation are equal: nothing of Go's map order survives in them. */
  lemma ReportIsDeterministic(r: Report, r': Report, before: Snapshot, after: Snapshot, edges: set<Edge>)
    requires Reports(r, before, after, edges) && Reports(r', before, after, edges)
    ensures r == r'
  {
    SortedUnique(r.changed, r'.changed);
    SortedUnique(r.missing, r'.missing);
    SortedUnique(r.added, r'.added);
    var a, b := ImpactedIds(r.impacted), ImpactedIds(r'.impacted);
    assert Elements(a) == Elements(b);
    SortedUnique(a, b);
    forall i | 0 <= i < |r.impacted| ensures r.impacted[i] == r'.impacted[i] {
      assert a[i] == r.impacted[i].nodeId && b[i] == r'.impacted[i].nodeId;
    }
  }
}
