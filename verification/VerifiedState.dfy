/** The verification lifecycle of canonical subjects (packages/verifiedstate/verifiedstate.go):
    a graph of mutable nodes, its lifecycle calls, and reconciliation against a fresh observation. */
module VerifiedState {
  import opened Text
  import opened Impact

  /** Lifecycle states; `Unrecognised` is any string `validState` refuses. */
  datatype State =
    | Unknown | Candidate | Verified | Stale | Invalidated | Rejected
    | Unrecognised(name: string)

  datatype Error =
    | UnknownNode | DuplicateNode | InvalidState | InvalidTransition | InvalidEdge
    | InvalidVerification | NotCanonical | InvalidSnapshot

  datatype Result<+T> = Ok(value: T) | Err(error: Error)

  /** `verifiedAt` is an instant; 0 is Go's zero time. */
  datatype Proof = Proof(verifierId: string, evidenceRef: string, subjectRef: string, verifiedAt: int)

  datatype Node = Node(id: string, state: State, fingerprint: string, verification: Option<Proof>)

  type Snapshot = map<string, string>
  type Nodes = map<string, Node>

  predicate ValidVerification(v: Option<Proof>) {
    v.Some? && v.value.verifierId != "" && v.value.evidenceRef != "" && v.value.subjectRef != ""
    && v.value.verifiedAt != 0
  }

  /** The central law's evidence: a fingerprint and the proof that justified it. */
  predicate Justified(n: Node) { n.fingerprint != "" && ValidVerification(n.verification) }

  predicate Canonical(n: Node) { n.state.Verified? && Justified(n) }

  // ---------------------------------------------------------------- construction

  predicate Listed(nodes: seq<Node>, id: string) { exists m :: m in nodes && m.id == id }

  /** First refusal of the node loop for `n` after `before` were filed. */
  function NodeError(before: seq<Node>, n: Node): Option<Error> {
    if n.id == "" then Some(UnknownNode)
    else if n.state.Unrecognised? then Some(InvalidState)
    else if Listed(before, n.id) then Some(DuplicateNode)
    else if n.state.Verified? && !Justified(n) then Some(InvalidVerification)
    else None
  }

  predicate BadEdge(e: Edge) { e.from == "" || e.to == "" || e.from == e.to || e.kind.Other? }

  function EdgeError(ids: set<string>, e: Edge): Option<Error> {
    if BadEdge(e) then Some(InvalidEdge)
    else if e.from !in ids || e.to !in ids then Some(UnknownNode)
    else None
  }

  function Ids(nodes: seq<Node>): set<string> { set n | n in nodes :: n.id }

  ghost predicate NodesAccepted(nodes: seq<Node>) {
    nodes == [] ||
    (var last := |nodes| - 1; NodesAccepted(nodes[..last]) && NodeError(nodes[..last], nodes[last]).None?)
  }

  /** The error is that of the first refused node. */
  ghost predicate NodesRefused(list: seq<Node>, error: Error) {
    exists i :: 0 <= i < |list| && NodesAccepted(list[..i]) && NodeError(list[..i], list[i]) == Some(error)
  }

  ghost predicate EdgesRefused(ids: set<string>, list: seq<Edge>, error: Error) {
    exists i :: 0 <= i < |list| && EdgesAccepted(ids, list[..i]) && EdgeError(ids, list[i]) == Some(error)
  }

  lemma {:induction false} AcceptedPrefix(nodes: seq<Node>, i: nat)
    requires i <= |nodes| && NodesAccepted(nodes)
    ensures NodesAccepted(nodes[..i])
  {
    if i < |nodes| {
      AcceptedPrefix(nodes[..|nodes| - 1], i);
      assert nodes[..|nodes| - 1][..i] == nodes[..i];
    } else {
      assert nodes[..i] == nodes;
    }
  }

  ghost predicate EdgesAccepted(ids: set<string>, edges: seq<Edge>) {
    forall i :: 0 <= i < |edges| ==> EdgeError(ids, edges[i]).None?
  }

  /** What a built graph satisfies, whatever happened to it since. */
  ghost predicate WellFormed(nodes: Nodes, edges: set<Edge>) {
    && (forall id :: id in nodes ==> NodeWellFormed(id, nodes[id]))
    && (forall e :: e in edges ==> EdgeError(nodes.Keys, e).None?)
  }

  predicate NodeWellFormed(id: string, n: Node) {
    && id != "" && n.id == id && !n.state.Unrecognised?
    && (n.state.Verified? ==> Justified(n))
  }

  /** The nodes file exactly the given list, by id. */
  ghost predicate Files(nodes: Nodes, list: seq<Node>) {
    && (forall n :: n in list ==> n.id in nodes && nodes[n.id] == n)
    && (forall id :: id in nodes ==> nodes[id] in list && nodes[id].id == id)
  }

  /** The node loop of `NewGraph`: stops at the first refused node. */
  method FileNodes(list: seq<Node>) returns (r: Result<Nodes>)
    ensures r.Ok? <==> NodesAccepted(list)
    ensures r.Ok? ==> Files(r.value, list) && WellFormed(r.value, {})
    ensures r.Err? ==> NodesRefused(list, r.error)
  {
    var nodes: Nodes := map[];
    for i := 0 to |list|
      invariant Filing(nodes, list[..i])
    {
      var n := list[i];
      AcceptedStep(list, i);
      FiledId(nodes, list[..i], n.id);
      if n.id == "" { return Err(UnknownNode); }
      if n.state.Unrecognised? { return Err(InvalidState); }
      if n.id in nodes { return Err(DuplicateNode); }
      if n.state.Verified? && !Justified(n) { return Err(InvalidVerification); }
      FilingGrows(nodes, list, i);
      nodes := nodes[n.id := n];
    }
    assert list[..|list|] == list;
    r := Ok(nodes);
  }

  /** The loop's state after a prefix of the list. */
  ghost predicate Filing(nodes: Nodes, done: seq<Node>) {
    NodesAccepted(done) && Files(nodes, done) && WellFormed(nodes, {})
  }

  lemma FilingGrows(nodes: Nodes, list: seq<Node>, i: nat)
    requires i < |list| && Filing(nodes, list[..i]) && NodeError(list[..i], list[i]).None? && list[i].id !in nodes
    ensures Filing(nodes[list[i].id := list[i]], list[..i + 1])
  {
    AcceptedStep(list, i);
    FilesAppend(nodes, list[..i], list[i]);
    assert list[..i] + [list[i]] == list[..i + 1];
  }

  lemma AcceptedStep(list: seq<Node>, i: nat)
    requires i < |list| && NodesAccepted(list[..i])
    ensures NodeError(list[..i], list[i]).Some? ==> !NodesAccepted(list)
    ensures NodeError(list[..i], list[i]).None? ==> NodesAccepted(list[..i + 1])
  {
    assert list[..i + 1][..i] == list[..i];
    if NodesAccepted(list) { AcceptedPrefix(list, i + 1); }
  }

  lemma FiledId(nodes: Nodes, list: seq<Node>, id: string)
    requires Files(nodes, list)
    ensures id in nodes <==> Listed(list, id)
  {
  }

  lemma FilesAppend(nodes: Nodes, list: seq<Node>, n: Node)
    requires Files(nodes, list) && WellFormed(nodes, {}) && n.id !in nodes && NodeWellFormed(n.id, n)
    ensures Files(nodes[n.id := n], list + [n]) && WellFormed(nodes[n.id := n], {})
  {
  }

  function Append(outgoing: Outgoing, e: Edge): Outgoing {
    outgoing[e.from := (if e.from in outgoing then outgoing[e.from] else []) + [e]]
  }

  /** The edge loop of `NewGraph`. */
  method FileEdges(ids: set<string>, list: seq<Edge>) returns (r: Result<Outgoing>)
    ensures r.Ok? <==> EdgesAccepted(ids, list)
    ensures r.Ok? ==> FiledBySource(r.value) && EdgesOf(r.value) == Elements(list)
    ensures r.Err? ==> EdgesRefused(ids, list, r.error)
  {
    var outgoing: Outgoing := map[];
    for i := 0 to |list|
      invariant EdgesAccepted(ids, list[..i])
      invariant FiledBySource(outgoing)
      invariant forall e :: e in EdgesOf(outgoing) <==> e in list[..i]
    {
      var e := list[i];
      assert list[..i + 1] == list[..i] + [e];
      if BadEdge(e) { return Err(InvalidEdge); }
      if e.from !in ids { return Err(UnknownNode); }
      if e.to !in ids { return Err(UnknownNode); }
      EdgesOfAppend(outgoing, e);
      outgoing := Append(outgoing, e);
    }
    assert list[..|list|] == list;
    r := Ok(outgoing);
  }

  lemma EdgesOfAppend(outgoing: Outgoing, e: Edge)
    ensures forall x :: x in EdgesOf(Append(outgoing, e)) <==> x in EdgesOf(outgoing) || x == e
  {
    var list := if e.from in outgoing then outgoing[e.from] else [];
    var after := Append(outgoing, e);
    forall x | x in EdgesOf(after) ensures x in EdgesOf(outgoing) || x == e {
      var id :| id in after && x in after[id];
      if id == e.from { assert x in list || x == e; }
    }
    forall x | x in EdgesOf(outgoing) || x == e ensures x in EdgesOf(after) {
      if x == e {
        assert e in after[e.from];
      } else {
        var id :| id in outgoing && x in outgoing[id];
        assert x in after[id];
      }
    }
  }

  // ---------------------------------------------------------------- one lifecycle call

  function BeginNode(n: Node): Result<Node> {
    match n.state
    case Unknown | Stale | Invalidated | Rejected => Ok(n.(state := Candidate, verification := None))
    case Candidate => Ok(n)
    case _ => Err(InvalidTransition)
  }

  function VerifyNode(n: Node, fingerprint: string, proof: Proof): Result<Node> {
    if !n.state.Candidate? then Err(InvalidTransition)
    else if fingerprint == "" || !ValidVerification(Some(proof)) then Err(InvalidVerification)
    else Ok(n.(state := Verified, fingerprint := fingerprint, verification := Some(proof)))
  }

  function RejectNode(n: Node): Result<Node> {
    if !n.state.Candidate? then Err(InvalidTransition) else Ok(n.(state := Rejected))
  }

  predicate SnapshotOk(nodes: Nodes, s: Snapshot) {
    forall id :: id in s ==> id != "" && s[id] != "" && id in nodes
  }

  /** Subjects whose observation changed or disappeared. */
  function Drifted(checkpoint: Snapshot, current: Snapshot): set<string> {
    set id | id in checkpoint && (id !in current || checkpoint[id] != current[id])
  }

  function Demoted(n: Node, severity: nat): Node {
    if severity == 0 then n else if severity == 1 then n.(state := Stale) else n.(state := Invalidated)
  }

  /** The nodes after a drift: exactly the reached subjects are demoted, by their severity. */
  ghost function Demote(nodes: Nodes, edges: set<Edge>, drift: set<string>): Nodes {
    map id | id in nodes :: Demoted(nodes[id], Severity(edges, drift, id))
  }

  datatype Call =
    | Begin(id: string)
    | Verify(id: string, fingerprint: string, proof: Proof)
    | Reject(id: string)
    | Reconcile(checkpoint: Option<Snapshot>, current: Option<Snapshot>)

  predicate ReconcileOk(nodes: Nodes, c: Call)
    requires c.Reconcile?
  {
    c.checkpoint.Some? && c.current.Some? && SnapshotOk(nodes, c.checkpoint.value) && SnapshotOk(nodes, c.current.value)
  }

  function NodeCall(n: Node, c: Call): Result<Node>
    requires !c.Reconcile?
  {
    match c
    case Begin(_) => BeginNode(n)
    case Verify(_, fingerprint, proof) => VerifyNode(n, fingerprint, proof)
    case Reject(_) => RejectNode(n)
  }

  /** The whole effect of one call; a refused call changes nothing. */
  ghost function Apply(nodes: Nodes, edges: set<Edge>, c: Call): Nodes {
    if c.Reconcile? then
      if ReconcileOk(nodes, c) then Demote(nodes, edges, Drifted(c.checkpoint.value, c.current.value)) else nodes
    else if c.id in nodes && NodeCall(nodes[c.id], c).Ok? then
      nodes[c.id := NodeCall(nodes[c.id], c).value]
    else nodes
  }

  function CallError(nodes: Nodes, c: Call): Option<Error>
    requires !c.Reconcile?
  {
    if c.id !in nodes then Some(UnknownNode)
    else match NodeCall(nodes[c.id], c) case Ok(_) => None case Err(e) => Some(e)
  }

  datatype Impacted = Impacted(nodeId: string, state: State)

  datatype Report = Report(changed: seq<string>, missing: seq<string>, added: seq<string>, impacted: seq<Impacted>)

  function ImpactedIds(list: seq<Impacted>): seq<string> { seq(|list|, i requires 0 <= i < |list| => list[i].nodeId) }

  /** A nil snapshot, else a bad entry of the checkpoint, else one of the observation. */
  ghost predicate ReconcileRefused(nodes: Nodes, checkpoint: Option<Snapshot>, current: Option<Snapshot>, error: Error) {
    if checkpoint.None? || current.None? then error == InvalidSnapshot
    else if !SnapshotOk(nodes, checkpoint.value) then BadEntry(nodes, checkpoint.value, error)
    else BadEntry(nodes, current.value, error)
  }

  /** The impact list of a drift: exactly the reached subjects, in order, with their new states. */
  ghost predicate ListsImpact(impacted: seq<Impacted>, edges: set<Edge>, drift: set<string>) {
    && StrictlySorted(ImpactedIds(impacted))
    && (forall id :: id in ImpactedIds(impacted) <==> Reached(edges, drift, id))
    && (forall i :: 0 <= i < |impacted| ==>
          impacted[i].state == if HardReached(edges, drift, impacted[i].nodeId) then Invalidated else Stale)
  }

  /** The audit record of a reconciliation: every list is determined by the inputs alone. */
  ghost predicate Reports(r: Report, checkpoint: Snapshot, current: Snapshot, edges: set<Edge>) {
    var drift := Drifted(checkpoint, current);
    && StrictlySorted(r.changed) && StrictlySorted(r.missing) && StrictlySorted(r.added)
    && Elements(r.changed) == (set id | id in checkpoint && id in current && checkpoint[id] != current[id])
    && Elements(r.missing) == checkpoint.Keys - current.Keys
    && Elements(r.added) == current.Keys - checkpoint.Keys
    && ListsImpact(r.impacted, edges, drift)
  }

  predicate Fingerprinted(n: Node) { n.fingerprint != "" }

  /** Position i is the first whose subject is missing or not fit. */
  ghost predicate FirstUnfit(nodes: Nodes, ids: seq<string>, i: nat, fit: Node -> bool) {
    && i < |ids| && !(ids[i] in nodes && fit(nodes[ids[i]]))
    && forall k :: 0 <= k < i ==> ids[k] in nodes && fit(nodes[ids[k]])
  }

  /** Some entry of the snapshot earns this error; when several do, Go's map order picks one. */
  ghost predicate BadEntry(nodes: Nodes, s: Snapshot, error: Error) {
    exists id :: id in s && error == EntryError(nodes, s, id) && (id == "" || s[id] == "" || id !in nodes)
  }

  function EntryError(nodes: Nodes, s: Snapshot, id: string): Error
    requires id in s
  {
    if id == "" || s[id] == "" then InvalidSnapshot else UnknownNode
  }

  class Graph {
    var nodes: Nodes
    const outgoing: Outgoing

    ghost predicate Valid()
      reads this
    {
      WellFormed(nodes, EdgesOf(outgoing)) && FiledBySource(outgoing)
    }

    constructor (nodes: Nodes, outgoing: Outgoing)
      requires WellFormed(nodes, EdgesOf(outgoing)) && FiledBySource(outgoing)
      ensures Valid() && this.nodes == nodes && this.outgoing == outgoing
    {
      this.nodes := nodes;
      this.outgoing := outgoing;
    }

    /** Starts a fresh verification attempt; VERIFIED cannot be overwritten directly. */
    method BeginCandidate(id: string) returns (error: Option<Error>)
      requires Valid()
      modifies this
      ensures Valid() && nodes == Apply(old(nodes), EdgesOf(outgoing), Begin(id))
      ensures error == CallError(old(nodes), Begin(id))
    {
      if id !in nodes { return Some(UnknownNode); }
      var n := nodes[id];
      match n.state {
        case Unknown | Stale | Invalidated | Rejected =>
          n := n.(state := Candidate, verification := None);
          nodes := nodes[id := n];
          error := None;
        case Candidate => error := None;
        case _ => error := Some(InvalidTransition);
      }
    }

    /** The only path to VERIFIED: a candidate, an exact fingerprint and a proof. */
    method VerifySubject(id: string, fingerprint: string, proof: Proof) returns (error: Option<Error>)
      requires Valid()
      modifies this
      ensures Valid() && nodes == Apply(old(nodes), EdgesOf(outgoing), Verify(id, fingerprint, proof))
      ensures error == CallError(old(nodes), Verify(id, fingerprint, proof))
    {
      if id !in nodes { return Some(UnknownNode); }
      var n := nodes[id];
      if n.state != Candidate { return Some(InvalidTransition); }
      if fingerprint == "" || !ValidVerification(Some(proof)) { return Some(InvalidVerification); }
      n := n.(state := Verified);
      n := n.(fingerprint := fingerprint);
      n := n.(verification := Some(proof));
      nodes := nodes[id := n];
      error := None;
    }

    method RejectSubject(id: string) returns (error: Option<Error>)
      requires Valid()
      modifies this
      ensures Valid() && nodes == Apply(old(nodes), EdgesOf(outgoing), Reject(id))
      ensures error == CallError(old(nodes), Reject(id))
    {
      if id !in nodes { return Some(UnknownNode); }
      if nodes[id].state != Candidate { return Some(InvalidTransition); }
      nodes := nodes[id := nodes[id].(state := Rejected)];
      error := None;
    }

    method CanCanonicalize(ids: seq<string>) returns (error: Option<Error>)
      ensures error.None? <==> ids != [] && forall id :: id in ids ==> id in nodes && Canonical(nodes[id])
      ensures ids == [] ==> error == Some(NotCanonical)
      ensures error.Some? && ids != [] ==>
        exists i: nat :: FirstUnfit(nodes, ids, i, Canonical) && error.value == if ids[i] in nodes then NotCanonical else UnknownNode
    {
      if ids == [] { return Some(NotCanonical); }
      for i := 0 to |ids|
        invariant forall k :: 0 <= k < i ==> ids[k] in nodes && Canonical(nodes[ids[k]])
      {
        if ids[i] !in nodes || !Canonical(nodes[ids[i]]) {
          assert FirstUnfit(nodes, ids, i, Canonical);
          return Some(if ids[i] in nodes then NotCanonical else UnknownNode);
        }
      }
      error := None;
    }

    /** `Graph.Snapshot` over explicit ids, or over the whole graph when none are given. */
    method Snapshot(ids: seq<string>) returns (r: Result<Snapshot>)
      ensures var wanted := if ids == [] then nodes.Keys else Elements(ids);
              && (r.Ok? <==> forall id :: id in wanted ==> id in nodes && nodes[id].fingerprint != "")
              && (r.Ok? ==> r.value.Keys == wanted && forall id :: id in wanted ==> r.value[id] == nodes[id].fingerprint)
      ensures r.Err? && ids == [] ==> r.error == InvalidSnapshot
      ensures r.Err? && ids != [] ==>
        exists i: nat :: FirstUnfit(nodes, ids, i, Fingerprinted) && r.error == if ids[i] in nodes then InvalidSnapshot else UnknownNode
    {
      var list := ids;
      if ids == [] { list := SortIds(nodes.Keys); }
      var out: Snapshot := map[];
      for i := 0 to |list|
        invariant out.Keys == Elements(list[..i])
        invariant forall k :: 0 <= k < i ==> list[k] in nodes && Fingerprinted(nodes[list[k]])
        invariant forall id :: id in out ==> id in nodes && nodes[id].fingerprint != "" && out[id] == nodes[id].fingerprint
      {
        var id := list[i];
        assert list[..i + 1] == list[..i] + [id];
        assert id in Elements(list);
        if id !in nodes || nodes[id].fingerprint == "" {
          assert FirstUnfit(nodes, list, i, Fingerprinted);
          return Err(if id in nodes then InvalidSnapshot else UnknownNode);
        }
        out := out[id := nodes[id].fingerprint];
      }
      assert list[..|list|] == list;
      r := Ok(out);
    }

    method ValidateSnapshot(s: Snapshot) returns (error: Option<Error>)
      ensures error.None? <==> SnapshotOk(nodes, s)
      ensures error.Some? ==> BadEntry(nodes, s, error.value)
    {
      var rest := s.Keys;
      while rest != {}
        invariant rest <= s.Keys
        invariant forall id :: id in s && id !in rest ==> id != "" && s[id] != "" && id in nodes
        decreases rest
      {
        var id :| id in rest;
        if id == "" || s[id] == "" { return Some(InvalidSnapshot); }
        if id !in nodes { return Some(UnknownNode); }
        rest := rest - {id};
      }
      error := None;
    }

    /** Compares a checkpoint with a fresh observation and demotes everything the drift reaches. */
    method ReconcileSnapshots(checkpoint: Option<Snapshot>, current: Option<Snapshot>) returns (r: Result<Report>)
      requires Valid()
      modifies this
      ensures Valid()
      ensures nodes == Apply(old(nodes), EdgesOf(outgoing), Reconcile(checkpoint, current))
      ensures r.Ok? <==> ReconcileOk(old(nodes), Reconcile(checkpoint, current))
      ensures r.Ok? ==> Reports(r.value, checkpoint.value, current.value, EdgesOf(outgoing))
      ensures r.Err? ==> ReconcileRefused(old(nodes), checkpoint, current, r.error)
    {
      if checkpoint.None? || current.None? { return Err(InvalidSnapshot); }
      var before, after := checkpoint.value, current.value;
      var error := ValidateSnapshot(before);
      if error.Some? { return Err(error.value); }
      error := ValidateSnapshot(after);
      if error.Some? { return Err(error.value); }

      var changed := SortIds(set id | id in before && id in after && before[id] != after[id]);
      var missing := SortIds(before.Keys - after.Keys);
      var added := SortIds(after.Keys - before.Keys);
      ghost var drift := Drifted(before, after);
      DriftListed(before, after, changed, missing);
      var impacted;
      nodes, impacted := DemoteReached(nodes, outgoing, changed + missing);
      DemoteWellFormed(old(nodes), EdgesOf(outgoing), drift);
      r := Ok(Report(changed, missing, added, impacted));
    }
  }

  /** The second half of `Reconcile`: the worklist, then the marking. */
  method DemoteReached(nodes: Nodes, outgoing: Outgoing, roots: seq<string>) returns (marked: Nodes, impacted: seq<Impacted>)
    requires WellFormed(nodes, EdgesOf(outgoing)) && FiledBySource(outgoing) && Elements(roots) <= nodes.Keys
    ensures marked == Demote(nodes, EdgesOf(outgoing), Elements(roots))
    ensures ListsImpact(impacted, EdgesOf(outgoing), Elements(roots))
  {
    var severity, enqueued, popped := Propagate(outgoing, roots);
    ReachedAreNodes(nodes, EdgesOf(outgoing), Elements(roots));
    var ids := SortIds(severity.Keys);
    assert forall id :: id in ids <==> id in Elements(ids);
    marked, impacted := MarkNodes(nodes, severity, ids);
    MarkedIsDemoted(nodes, marked, EdgesOf(outgoing), Elements(roots), severity);
    ImpactedReported(EdgesOf(outgoing), Elements(roots), severity, ids, impacted);
  }

  /** The final loop of `Reconcile`: write each severity into its node and the report. */
  method MarkNodes(before: Nodes, severity: map<string, nat>, ids: seq<string>)
    returns (nodes: Nodes, impacted: seq<Impacted>)
    requires severity.Keys <= before.Keys && forall id :: id in ids <==> id in severity
    requires forall id :: id in severity ==> 1 <= severity[id] <= 2
    ensures nodes.Keys == before.Keys && |impacted| == |ids|
    ensures forall id :: id in before ==> nodes[id] == Demoted(before[id], Level(severity, id))
    ensures forall i :: 0 <= i < |ids| ==>
      impacted[i] == Impacted(ids[i], if severity[ids[i]] == 2 then Invalidated else Stale)
  {
    nodes, impacted := before, [];
    for i := 0 to |ids|
      invariant MarkedSoFar(before, severity, ids[..i], nodes) && |impacted| == i
      invariant forall k :: 0 <= k < i ==>
        impacted[k] == Impacted(ids[k], if severity[ids[k]] == 2 then Invalidated else Stale)
    {
      var id := ids[i];
      var state := if severity[id] == 2 then Invalidated else Stale;
      MarkOne(before, severity, ids, i, nodes, nodes[id := nodes[id].(state := state)]);
      nodes := nodes[id := nodes[id].(state := state)];
      impacted := impacted + [Impacted(id, state)];
    }
    assert ids[..|ids|] == ids;
  }

  ghost predicate MarkedSoFar(before: Nodes, severity: map<string, nat>, done: seq<string>, nodes: Nodes) {
    && nodes.Keys == before.Keys
    && forall id :: id in before ==> nodes[id] == if id in done then Demoted(before[id], Level(severity, id)) else before[id]
  }

  lemma MarkOne(before: Nodes, severity: map<string, nat>, ids: seq<string>, i: nat, nodes: Nodes, after: Nodes)
    requires i < |ids| && MarkedSoFar(before, severity, ids[..i], nodes) && ids[i] in before && ids[i] in severity
    requires 1 <= severity[ids[i]] <= 2
    requires after == nodes[ids[i] := nodes[ids[i]].(state := if severity[ids[i]] == 2 then Invalidated else Stale)]
    ensures MarkedSoFar(before, severity, ids[..i + 1], after)
  {
    assert ids[..i + 1] == ids[..i] + [ids[i]];
  }

  lemma DriftListed(before: Snapshot, after: Snapshot, changed: seq<string>, missing: seq<string>)
    requires Elements(changed) == (set id | id in before && id in after && before[id] != after[id])
    requires Elements(missing) == before.Keys - after.Keys
    ensures Elements(changed + missing) == Drifted(before, after)
  {
    assert forall x :: x in changed + missing <==> x in Elements(changed) || x in Elements(missing);
  }

  lemma ImpactedReported(edges: set<Edge>, drift: set<string>, severity: map<string, nat>, ids: seq<string>,
                         impacted: seq<Impacted>)
    requires IsSeverityMap(edges, drift, severity) && Elements(ids) == severity.Keys && |impacted| == |ids|
    requires forall i :: 0 <= i < |ids| ==>
      ids[i] in severity && impacted[i] == Impacted(ids[i], if severity[ids[i]] == 2 then Invalidated else Stale)
    ensures ImpactedIds(impacted) == ids
    ensures forall id :: id in ids <==> Reached(edges, drift, id)
    ensures forall i :: 0 <= i < |impacted| ==>
      impacted[i].state == if HardReached(edges, drift, impacted[i].nodeId) then Invalidated else Stale
  {
    assert forall id :: id in ids <==> id in Elements(ids);
  }

  lemma DemoteWellFormed(nodes: Nodes, edges: set<Edge>, drift: set<string>)
    requires WellFormed(nodes, edges)
    ensures WellFormed(Demote(nodes, edges, drift), edges)
  {
    assert Demote(nodes, edges, drift).Keys == nodes.Keys;
  }

  lemma MarkedIsDemoted(before: Nodes, after: Nodes, edges: set<Edge>, drift: set<string>,
                        severity: map<string, nat>)
    requires IsSeverityMap(edges, drift, severity)
    requires after.Keys == before.Keys
    requires forall id :: id in before ==> after[id] == Demoted(before[id], Level(severity, id))
    ensures after == Demote(before, edges, drift)
  {
    forall id | id in after ensures after[id] == Demoted(before[id], Severity(edges, drift, id)) {
      HardIsReached(edges, drift, id);
    }
  }

  /** `NewGraph`. */
  method NewGraph(nodes: seq<Node>, edges: seq<Edge>) returns (r: Result<Graph>)
    ensures r.Ok? <==> NodesAccepted(nodes) && EdgesAccepted(Ids(nodes), edges)
    ensures r.Ok? ==> fresh(r.value) && r.value.Valid() && Files(r.value.nodes, nodes)
    ensures r.Ok? ==> EdgesOf(r.value.outgoing) == Elements(edges)
    ensures r.Err? ==> NodesRefused(nodes, r.error) || (NodesAccepted(nodes) && EdgesRefused(Ids(nodes), edges, r.error))
  {
    var filed := FileNodes(nodes);
    if filed.Err? { return Err(filed.error); }
    assert filed.value.Keys == Ids(nodes);
    var out := FileEdges(filed.value.Keys, edges);
    if out.Err? { return Err(out.error); }
    forall e | e in EdgesOf(out.value) ensures EdgeError(filed.value.Keys, e).None? {
      var i :| 0 <= i < |edges| && edges[i] == e;
    }
    var g := new Graph(filed.value, out.value);
    r := Ok(g);
  }

  lemma {:induction false} PathStaysInGraph(nodes: Nodes, edges: set<Edge>, from: string, path: seq<Edge>, to: string)
    requires WellFormed(nodes, edges) && from in nodes && IsPath(edges, from, path, to)
    ensures to in nodes
    decreases path
  {
    if path != [] {
      assert EdgeError(nodes.Keys, path[0]).None?;
      PathStaysInGraph(nodes, edges, path[0].to, path[1..], to);
    }
  }

  lemma ReachedAreNodes(nodes: Nodes, edges: set<Edge>, drift: set<string>)
    requires WellFormed(nodes, edges) && drift <= nodes.Keys
    ensures forall id :: Reached(edges, drift, id) ==> id in nodes
  {
    forall id | Reached(edges, drift, id) ensures id in nodes {
      var root, path :| root in drift && IsPath(edges, root, path, id);
      PathStaysInGraph(nodes, edges, root, path, id);
    }
  }
}
