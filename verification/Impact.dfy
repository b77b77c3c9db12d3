/** Typed dependency impact: the declarative path semantics of a drift, and the worklist that
    computes it (packages/verifiedstate/verifiedstate.go). */
module Impact {
  import opened Text

  /** Known edge types; `Other` is any string `validEdgeType` refuses. */
  datatype EdgeType =
    | Data | Effect | Resource | Authority | Temporal | Verification | Join | Event
    | Other(name: string)

  datatype Edge = Edge(from: string, to: string, kind: EdgeType)

  predicate Hard(kind: EdgeType) { kind.Effect? || kind.Authority? || kind.Verification? }

  type Outgoing = map<string, seq<Edge>>

  ghost function EdgesOf(outgoing: Outgoing): set<Edge> {
    set id, e | id in outgoing && e in outgoing[id] :: e
  }

  /** Adjacency lists are filed under their source. */
  ghost predicate FiledBySource(outgoing: Outgoing) {
    forall id, e :: id in outgoing && e in outgoing[id] ==> e.from == id
  }

  // ---------------------------------------------------------------- declarative meaning

  ghost predicate IsPath(edges: set<Edge>, from: string, path: seq<Edge>, to: string)
    decreases path
  {
    if path == [] then from == to
    else path[0] in edges && path[0].from == from && IsPath(edges, path[0].to, path[1..], to)
  }

  ghost predicate HasHard(path: seq<Edge>) { exists i :: 0 <= i < |path| && Hard(path[i].kind) }

  /** Some root reaches `id`; a root reaches itself by the empty path. */
  ghost predicate Reached(edges: set<Edge>, roots: set<string>, id: string) {
    exists root, path :: root in roots && IsPath(edges, root, path, id)
  }

  /** Some root reaches `id` across at least one hard edge. */
  ghost predicate HardReached(edges: set<Edge>, roots: set<string>, id: string) {
    exists root, path :: root in roots && IsPath(edges, root, path, id) && HasHard(path)
  }

  /** 0 = untouched, 1 = STALE, 2 = INVALIDATED. */
  ghost function Severity(edges: set<Edge>, roots: set<string>, id: string): nat {
    if HardReached(edges, roots, id) then 2 else if Reached(edges, roots, id) then 1 else 0
  }

  lemma {:induction false} PathSnoc(edges: set<Edge>, from: string, path: seq<Edge>, e: Edge)
    requires IsPath(edges, from, path, e.from) && e in edges
    ensures IsPath(edges, from, path + [e], e.to)
    decreases path
  {
    if path == [] {
      assert [e][1..] == [];
    } else {
      PathSnoc(edges, path[0].to, path[1..], e);
      assert (path + [e])[1..] == path[1..] + [e];
    }
  }

  lemma ReachStep(edges: set<Edge>, roots: set<string>, e: Edge)
    requires e in edges && Reached(edges, roots, e.from)
    ensures Reached(edges, roots, e.to)
    ensures Hard(e.kind) || HardReached(edges, roots, e.from) ==> HardReached(edges, roots, e.to)
  {
    var root, path :| root in roots && IsPath(edges, root, path, e.from);
    PathSnoc(edges, root, path, e);
    if Hard(e.kind) {
      assert (path + [e])[|path|] == e;
    } else if HardReached(edges, roots, e.from) {
      var root': string, path': seq<Edge> :| root' in roots && IsPath(edges, root', path', e.from) && HasHard(path');
      PathSnoc(edges, root', path', e);
      var i :| 0 <= i < |path'| && Hard(path'[i].kind);
      assert (path' + [e])[i] == path'[i];
    }
  }

  lemma RootReached(edges: set<Edge>, roots: set<string>, id: string)
    requires id in roots
    ensures Reached(edges, roots, id)
  {
    assert IsPath(edges, id, [], id);
  }

  // ---------------------------------------------------------------- the fixed point

  function Next(base: nat, kind: EdgeType): nat { if Hard(kind) || base == 2 then 2 else 1 }

  ghost predicate Sound(edges: set<Edge>, roots: set<string>, severity: map<string, nat>) {
    forall id :: id in severity ==>
      && 1 <= severity[id] <= 2
      && Reached(edges, roots, id)
      && (severity[id] == 2 ==> HardReached(edges, roots, id))
  }

  ghost predicate Settled(e: Edge, severity: map<string, nat>) {
    e.from in severity ==> e.to in severity && severity[e.to] >= Next(severity[e.from], e.kind)
  }

  lemma SoundRaise(edges: set<Edge>, roots: set<string>, severity: map<string, nat>,
                   e: Edge, base: nat)
    requires Sound(edges, roots, severity) && e in edges
    requires e.from in severity && 1 <= base <= severity[e.from]
    ensures Sound(edges, roots, severity[e.to := Next(base, e.kind)])
  {
    ReachStep(edges, roots, e);
  }

  /** Once every edge is settled, severity flows along every path. */
  lemma {:induction false} SettledPath(edges: set<Edge>, severity: map<string, nat>,
                                       from: string, path: seq<Edge>, to: string)
    requires forall e :: e in edges ==> Settled(e, severity)
    requires forall id :: id in severity ==> 1 <= severity[id] <= 2
    requires from in severity && IsPath(edges, from, path, to)
    ensures to in severity
    ensures severity[from] == 2 || HasHard(path) ==> severity[to] == 2
    decreases path
  {
    if path != [] {
      assert Settled(path[0], severity);
      SettledPath(edges, severity, path[0].to, path[1..], to);
      if HasHard(path) && !Hard(path[0].kind) {
        var i :| 0 <= i < |path| && Hard(path[i].kind);
        assert path[1..][i - 1] == path[i];
      }
    }
  }

  ghost predicate IsSeverityMap(edges: set<Edge>, roots: set<string>, severity: map<string, nat>) {
    && (forall id :: id in severity <==> Reached(edges, roots, id))
    && (forall id :: id in severity ==> severity[id] == Severity(edges, roots, id))
  }

  lemma FixedPoint(edges: set<Edge>, roots: set<string>, severity: map<string, nat>)
    requires Sound(edges, roots, severity)
    requires roots <= severity.Keys
    requires forall e :: e in edges ==> Settled(e, severity)
    ensures IsSeverityMap(edges, roots, severity)
  {
    forall id | Reached(edges, roots, id) ensures id in severity {
      var root, path :| root in roots && IsPath(edges, root, path, id);
      SettledPath(edges, severity, root, path, id);
    }
    forall id | HardReached(edges, roots, id) ensures id in severity && severity[id] == 2 {
      var root, path :| root in roots && IsPath(edges, root, path, id) && HasHard(path);
      SettledPath(edges, severity, root, path, id);
    }
  }

  // ---------------------------------------------------------------- the worklist

  function Level(severity: map<string, nat>, id: string): nat {
    if id in severity then severity[id] else 0
  }

  function Twos(severity: map<string, nat>): set<string> { set id | id in severity && severity[id] == 2 }

  /** Everything that can ever be marked: the bound that makes the loop stop. */
  ghost function Markable(edges: set<Edge>, roots: set<string>): set<string> {
    roots + set e | e in edges :: e.to
  }

  /** Bookkeeping of the queue. `enqueued` counts every append so far: at least one per marked
      subject, at most its level. */
  ghost predicate QueueInv(markable: set<string>, severity: map<string, nat>, queue: seq<string>,
                           enqueued: multiset<string>)
  {
    && severity.Keys <= markable
    && (forall id :: id in severity ==> 1 <= severity[id] <= 2)
    && (forall id :: id in queue ==> id in severity)
    && (forall id :: id in severity ==> 1 <= enqueued[id])
    && (forall id :: enqueued[id] <= Level(severity, id))
  }

  /** The queue grew at its end, and `enqueued` counts exactly what was appended. */
  ghost predicate Appends(queue0: seq<string>, enqueued0: multiset<string>, queue: seq<string>, enqueued: multiset<string>) {
    queue0 <= queue && enqueued == enqueued0 + multiset(queue[|queue0|..])
  }

  lemma AppendsTransitive(p: seq<string>, a: multiset<string>, q: seq<string>, b: multiset<string>,
                          r: seq<string>, c: multiset<string>)
    requires Appends(p, a, q, b) && Appends(q, b, r, c)
    ensures Appends(p, a, r, c)
  {
    assert r[|p|..] == q[|p|..] + r[|q|..];
  }

  /** Appended and not yet popped is what waits in the queue. */
  lemma PoppedOrWaiting(popped: seq<string>, queue: seq<string>, a: multiset<string>, next: seq<string>, b: multiset<string>)
    requires queue != [] && a == multiset(popped) + multiset(queue) && Appends(queue[1..], a, next, b)
    ensures b == multiset(popped + [queue[0]]) + multiset(next)
  {
    assert queue == [queue[0]] + queue[1..];
    assert next == queue[1..] + next[|queue| - 1..];
  }

  method Seed(ghost edges: set<Edge>, roots: seq<string>)
    returns (severity: map<string, nat>, queue: seq<string>, ghost enqueued: multiset<string>)
    ensures QueueInv(Markable(edges, Elements(roots)), severity, queue, enqueued)
    ensures Sound(edges, Elements(roots), severity) && severity.Keys == Elements(roots)
    ensures forall id :: id in severity ==> id in queue
    ensures enqueued == multiset(queue)
  {
    severity, queue, enqueued := map[], [], multiset{};
    for i := 0 to |roots|
      invariant severity.Keys == Elements(roots[..i]) == Elements(queue)
      invariant forall id :: id in severity ==> severity[id] == 1
      invariant forall id :: enqueued[id] == Level(severity, id)
      invariant enqueued == multiset(queue)
    {
      var id := roots[i];
      assert roots[..i + 1] == roots[..i] + [id];
      if Level(severity, id) < 1 {
        severity := severity[id := 1];
        queue := queue + [id];
        enqueued := enqueued + multiset{id};
      }
    }
    assert roots[..|roots|] == roots;
    forall id | id in severity ensures Reached(edges, Elements(roots), id) {
      RootReached(edges, Elements(roots), id);
    }
  }

  /** Lexicographic progress of the severities: more subjects marked, or as many and more at 2. */
  ghost predicate Grew(before: map<string, nat>, after: map<string, nat>) {
    before.Keys < after.Keys || (before.Keys == after.Keys && Twos(before) < Twos(after))
  }

  lemma RaiseGrows(severity: map<string, nat>, id: string, next: nat)
    requires 1 <= next <= 2 && Level(severity, id) < next
    requires forall x :: x in severity ==> 1 <= severity[x] <= 2
    ensures Grew(severity, severity[id := next])
  {
    var after := severity[id := next];
    assert after.Keys == severity.Keys + {id};
    if id in severity {
      assert after.Keys == severity.Keys;
      assert id in Twos(after) && id !in Twos(severity);
    } else {
      assert id in after.Keys;
    }
  }

  lemma GrewTransitive(a: map<string, nat>, b: map<string, nat>, c: map<string, nat>)
    requires Grew(a, b) && Grew(b, c)
    ensures Grew(a, c)
  {
  }

  lemma GrewShrinks(markable: set<string>, before: map<string, nat>, after: map<string, nat>)
    requires Grew(before, after) && after.Keys <= markable
    ensures markable - after.Keys < markable - before.Keys
         || (markable - after.Keys == markable - before.Keys && markable - Twos(after) < markable - Twos(before))
  {
    if before.Keys < after.Keys {
      var id :| id in after.Keys && id !in before.Keys;
      assert id in markable - before.Keys && id !in markable - after.Keys;
    } else {
      var id :| id in Twos(after) && id !in Twos(before);
      assert id in markable - Twos(before) && id !in markable - Twos(after);
    }
  }

  /** Some severity rose, or nothing happened. */
  ghost predicate Progressed(a: map<string, nat>, p: seq<string>, b: map<string, nat>, q: seq<string>) {
    Grew(a, b) || (a == b && p == q)
  }

  lemma ProgressedTransitive(a: map<string, nat>, p: seq<string>, b: map<string, nat>, q: seq<string>,
                             c: map<string, nat>, r: seq<string>)
    requires Progressed(a, p, b, q) && Progressed(b, q, c, r)
    ensures Progressed(a, p, c, r)
  {
    if a != b && b != c { GrewTransitive(a, b, c); }
  }

  ghost predicate Covers(done: set<Edge>, others: set<Edge>, visited: seq<Edge>) {
    forall e :: e in others || e in visited ==> e in done
  }

  lemma CoversMore(done: set<Edge>, others: set<Edge>, out: seq<Edge>, i: nat)
    requires i < |out| && Covers(done, others, out[..i])
    ensures Covers(done + {out[i]}, others, out[..i + 1])
  {
    assert out[..i + 1] == out[..i] + [out[i]];
  }

  /** Every edge of `edges` is settled or has its source waiting in the queue. */
  ghost predicate Pending(edges: set<Edge>, severity: map<string, nat>, queue: seq<string>) {
    forall e :: e in edges ==> e.from in queue || Settled(e, severity)
  }

  lemma PendingWithin(big: set<Edge>, small: set<Edge>, severity: map<string, nat>, queue: seq<string>)
    requires Pending(big, severity, queue) && forall e :: e in small ==> e in big
    ensures Pending(small, severity, queue)
  {
  }

  lemma PendingRaise(edges: set<Edge>, severity: map<string, nat>, queue: seq<string>, id: string, next: nat)
    requires Pending(edges, severity, queue) && Level(severity, id) < next
    ensures Pending(edges, severity[id := next], queue + [id])
  {
    forall e | e in edges ensures e.from in queue + [id] || Settled(e, severity[id := next]) {
      if e.from != id && e.from !in queue { assert Settled(e, severity); }
    }
  }

  lemma QueueInvRaise(markable: set<string>, severity: map<string, nat>, queue: seq<string>,
                      enqueued: multiset<string>, id: string, next: nat)
    requires QueueInv(markable, severity, queue, enqueued)
    requires id in markable && 1 <= next <= 2 && Level(severity, id) < next
    ensures QueueInv(markable, severity[id := next], queue + [id], enqueued + multiset{id})
  {
  }

  /** One relaxation `severity[edge.To] >= next` test of the inner loop. */
  method Relax(edge: Edge, base: nat, severity0: map<string, nat>, queue0: seq<string>,
               ghost edges: set<Edge>, ghost roots: set<string>, ghost enqueued0: multiset<string>, ghost done: set<Edge>)
    returns (severity: map<string, nat>, queue: seq<string>, ghost enqueued: multiset<string>)
    requires QueueInv(Markable(edges, roots), severity0, queue0, enqueued0)
    requires Sound(edges, roots, severity0)
    requires edge in edges && edge.from in severity0
    requires edge.from in queue0 || base == severity0[edge.from]
    requires 1 <= base <= severity0[edge.from]
    requires Pending(done, severity0, queue0)
    ensures QueueInv(Markable(edges, roots), severity, queue, enqueued)
    ensures Sound(edges, roots, severity)
    ensures severity0.Keys <= severity.Keys && base <= severity[edge.from]
    ensures edge.from in queue || base == severity[edge.from]
    ensures Pending(done + {edge}, severity, queue)
    ensures Progressed(severity0, queue0, severity, queue)
    ensures Appends(queue0, enqueued0, queue, enqueued)
  {
    severity, queue, enqueued := severity0, queue0, enqueued0;
    var next := Next(base, edge.kind);
    if Level(severity, edge.to) < next {
      SoundRaise(edges, roots, severity, edge, base);
      RaiseGrows(severity, edge.to, next);
      QueueInvRaise(Markable(edges, roots), severity, queue, enqueued, edge.to, next);
      PendingRaise(done, severity, queue, edge.to, next);
      severity := severity[edge.to := next];
      assert (queue + [edge.to])[|queue0|..] == [edge.to];
      queue := queue + [edge.to];
      enqueued := enqueued + multiset{edge.to};
    }
  }

  /** One pop: relax every edge out of `from`. */
  method Visit(from: string, base: nat, edgesOut: seq<Edge>, severity0: map<string, nat>, queue0: seq<string>,
               ghost edges: set<Edge>, ghost others: set<Edge>, ghost roots: set<string>,
               ghost enqueued0: multiset<string>)
    returns (severity: map<string, nat>, queue: seq<string>, ghost enqueued: multiset<string>)
    requires QueueInv(Markable(edges, roots), severity0, queue0, enqueued0)
    requires Sound(edges, roots, severity0)
    requires from in severity0 && severity0[from] == base
    requires forall e :: e in edgesOut ==> e in edges && e.from == from
    requires forall e :: e in edges ==> e in edgesOut || e in others
    requires Pending(others, severity0, queue0)
    ensures QueueInv(Markable(edges, roots), severity, queue, enqueued)
    ensures Sound(edges, roots, severity) && severity0.Keys <= severity.Keys
    ensures Pending(edges, severity, queue)
    ensures Progressed(severity0, queue0, severity, queue)
    ensures Appends(queue0, enqueued0, queue, enqueued)
  {
    severity, queue, enqueued := severity0, queue0, enqueued0;
    ghost var done := others;
    for i := 0 to |edgesOut|
      invariant QueueInv(Markable(edges, roots), severity, queue, enqueued)
      invariant Sound(edges, roots, severity) && severity0.Keys <= severity.Keys
      invariant 1 <= base <= severity[from]
      invariant from in queue || severity[from] == base
      invariant Pending(done, severity, queue)
      invariant Covers(done, others, edgesOut[..i])
      invariant Progressed(severity0, queue0, severity, queue)
      invariant Appends(queue0, enqueued0, queue, enqueued)
    {
      assert edgesOut[i] in edgesOut;
      CoversMore(done, others, edgesOut, i);
      ghost var before, waiting, counted := severity, queue, enqueued;
      severity, queue, enqueued := Relax(edgesOut[i], base, severity, queue, edges, roots, enqueued, done);
      done := done + {edgesOut[i]};
      ProgressedTransitive(severity0, queue0, before, waiting, severity, queue);
      AppendsTransitive(queue0, enqueued0, waiting, counted, queue, enqueued);
    }
    assert edgesOut[..|edgesOut|] == edgesOut;
    PendingWithin(done, edges, severity, queue);
  }

  /** The queue loop of `Reconcile`. `popped` traces its iterations: every marked subject is
      visited, no other one is, and none more often than its final severity, so at most twice. */
  method Propagate(outgoing: Outgoing, roots: seq<string>)
    returns (severity: map<string, nat>, ghost enqueued: multiset<string>, ghost popped: seq<string>)
    requires FiledBySource(outgoing)
    ensures IsSeverityMap(EdgesOf(outgoing), Elements(roots), severity)
    ensures enqueued == multiset(popped)
    ensures forall id :: id in severity ==> 1 <= enqueued[id] <= severity[id] <= 2
    ensures forall id :: id in popped ==> id in severity
  {
    ghost var edges, rootSet := EdgesOf(outgoing), Elements(roots);
    ghost var markable := Markable(edges, rootSet);
    var queue;
    severity, queue, enqueued := Seed(edges, roots);
    popped := [];
    while queue != []
      invariant Working(edges, rootSet, severity, queue, enqueued, popped)
      decreases markable - severity.Keys, markable - Twos(severity), |queue|
    {
      ghost var before := severity;
      severity, queue, enqueued, popped := Pop(outgoing, severity, queue, rootSet, enqueued, popped);
      if before != severity { GrewShrinks(markable, before, severity); }
    }
    FixedPoint(edges, rootSet, severity);
    PoppedAreMarked(severity, enqueued, popped);
  }

  /** The state of the queue loop: `popped` and the queue together are everything appended. */
  ghost predicate Working(edges: set<Edge>, roots: set<string>, severity: map<string, nat>, queue: seq<string>,
                          enqueued: multiset<string>, popped: seq<string>)
  {
    && QueueInv(Markable(edges, roots), severity, queue, enqueued)
    && Sound(edges, roots, severity) && roots <= severity.Keys && Pending(edges, severity, queue)
    && enqueued == multiset(popped) + multiset(queue)
  }

  /** One iteration: take the first subject and visit it. */
  method Pop(outgoing: Outgoing, severity0: map<string, nat>, queue0: seq<string>, ghost roots: set<string>,
             ghost enqueued0: multiset<string>, ghost popped0: seq<string>)
    returns (severity: map<string, nat>, queue: seq<string>, ghost enqueued: multiset<string>, ghost popped: seq<string>)
    requires FiledBySource(outgoing) && queue0 != [] && Working(EdgesOf(outgoing), roots, severity0, queue0, enqueued0, popped0)
    ensures Working(EdgesOf(outgoing), roots, severity, queue, enqueued, popped) && popped == popped0 + [queue0[0]]
    ensures Grew(severity0, severity) || (severity == severity0 && |queue| < |queue0|)
  {
    var from := queue0[0];
    var edgesOut := if from in outgoing then outgoing[from] else [];
    PopLeavesOthersPending(outgoing, from, edgesOut, severity0, queue0);
    severity, queue, enqueued :=
      Visit(from, severity0[from], edgesOut, severity0, queue0[1..], EdgesOf(outgoing),
            (set e | e in EdgesOf(outgoing) && e.from != from), roots, enqueued0);
    PoppedOrWaiting(popped0, queue0, enqueued0, queue, enqueued);
    popped := popped0 + [from];
  }

  lemma PoppedAreMarked(severity: map<string, nat>, enqueued: multiset<string>, popped: seq<string>)
    requires enqueued == multiset(popped) && forall id :: enqueued[id] <= Level(severity, id)
    ensures forall id :: id in popped ==> id in severity
  {
    forall id | id in popped ensures id in severity { assert id in multiset(popped); }
  }

  lemma PopLeavesOthersPending(outgoing: Outgoing, from: string, edgesOut: seq<Edge>,
                               severity: map<string, nat>, queue: seq<string>)
    requires FiledBySource(outgoing) && Pending(EdgesOf(outgoing), severity, queue)
    requires queue != [] && queue[0] == from
    requires edgesOut == if from in outgoing then outgoing[from] else []
    ensures Pending((set e | e in EdgesOf(outgoing) && e.from != from), severity, queue[1..])
    ensures forall e :: e in edgesOut <==> e in EdgesOf(outgoing) && e.from == from
    ensures forall id :: id in queue[1..] ==> id in queue
  {
    assert forall id :: id in queue <==> id == from || id in queue[1..];
  }

  // ---------------------------------------------------------------- algebra of impact

  function Max(a: nat, b: nat): nat { if a < b then b else a }

  /** The impact of two drifts together is the pointwise maximum of their separate impacts. */
  lemma SeverityJoin(edges: set<Edge>, a: set<string>, b: set<string>, id: string)
    ensures Severity(edges, a + b, id) == Max(Severity(edges, a, id), Severity(edges, b, id))
  {
    assert Reached(edges, a + b, id) <==> Reached(edges, a, id) || Reached(edges, b, id);
    assert HardReached(edges, a + b, id) <==> HardReached(edges, a, id) || HardReached(edges, b, id);
    HardIsReached(edges, a, id);
    HardIsReached(edges, b, id);
  }

  lemma HardIsReached(edges: set<Edge>, roots: set<string>, id: string)
    ensures HardReached(edges, roots, id) ==> Reached(edges, roots, id)
  {
  }

  lemma {:induction false} PathMonotone(small: set<Edge>, big: set<Edge>, from: string, path: seq<Edge>, to: string)
    requires small <= big && IsPath(small, from, path, to)
    ensures IsPath(big, from, path, to)
    decreases path
  {
    if path != [] { PathMonotone(small, big, path[0].to, path[1..], to); }
  }

  /** Declaring more dependencies never weakens an impact. */
  lemma SeverityMonotone(small: set<Edge>, big: set<Edge>, roots: set<string>, id: string)
    requires small <= big
    ensures Severity(small, roots, id) <= Severity(big, roots, id)
  {
    forall root, path | root in roots && IsPath(small, root, path, id) ensures IsPath(big, root, path, id) {
      PathMonotone(small, big, root, path, id);
    }
  }

  lemma {:induction false} PathConcat(edges: set<Edge>, a: string, p: seq<Edge>, b: string, q: seq<Edge>, c: string)
    requires IsPath(edges, a, p, b) && IsPath(edges, b, q, c)
    ensures IsPath(edges, a, p + q, c)
    decreases p
  {
    if p == [] {
      assert p + q == q;
    } else {
      PathConcat(edges, p[0].to, p[1..], b, q, c);
      assert (p + q)[1..] == p[1..] + q;
    }
  }

  /** Impact is closed: treating everything already reached as drifted reaches nothing new. */
  lemma ReachedClosed(edges: set<Edge>, roots: set<string>, hit: set<string>, id: string)
    requires forall x :: x in hit ==> Reached(edges, roots, x)
    ensures Reached(edges, hit, id) ==> Reached(edges, roots, id)
  {
    if Reached(edges, hit, id) {
      var x, q :| x in hit && IsPath(edges, x, q, id);
      var root, p :| root in roots && IsPath(edges, root, p, x);
      PathConcat(edges, root, p, x, q, id);
    }
  }

  lemma {:induction false} PathEdges(edges: set<Edge>, from: string, path: seq<Edge>, to: string)
    requires IsPath(edges, from, path, to)
    ensures forall i :: 0 <= i < |path| ==> path[i] in edges
    decreases path
  {
    if path != [] {
      PathEdges(edges, path[0].to, path[1..], to);
      assert path == [path[0]] + path[1..];
    }
  }

  /** A graph of soft edges never invalidates. */
  lemma SoftNeverInvalidates(edges: set<Edge>, roots: set<string>, id: string)
    requires forall e :: e in edges ==> !Hard(e.kind)
    ensures Severity(edges, roots, id) <= 1
  {
    forall root, path | root in roots && IsPath(edges, root, path, id) ensures !HasHard(path) {
      PathEdges(edges, root, path, id);
    }
  }

  /** The kinds of dependency: a drift across an EFFECT, AUTHORITY or VERIFICATION edge invalidates,
      across any other it only makes stale. */
  lemma EdgeKindDecides(from: string, to: string, kind: EdgeType)
    requires from != to
    ensures Severity({Edge(from, to, kind)}, {from}, to) == if kind in {Effect, Authority, Verification} then 2 else 1
  {
    var e := Edge(from, to, kind);
    var edges := {e};
    RootReached(edges, {from}, from);
    ReachStep(edges, {from}, e);
    if kind !in {Effect, Authority, Verification} { SoftNeverInvalidates(edges, {from}, to); }
  }
}
