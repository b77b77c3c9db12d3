/** The Work DAG (packages/workgraph/workgraph.go): structural validation, ready nodes, and every
    run that starts attempts only on ready nodes. */
module WorkGraph {
  import opened Text

  datatype State =
    | Created | Planning | Queued | Running | Verifying | Succeeded | Blocked | Failed | Cancelled
    | WaitingHuman | Suspended | BudgetExhausted

  datatype Node = Node(run: string, needs: seq<string>)

  datatype Status = InProgress | Success | Failure | CancelledAttempt | TimedOut

  datatype Attempt = Attempt(nodeId: string, status: Status)

  type Nodes = map<string, Node>

  datatype Work = Work(id: string, objective: string, state: State, nodes: Nodes, attempts: seq<Attempt>)

  // ---------------------------------------------------------------- validation

  predicate NodeOk(nodes: Nodes, n: Node) { n.run != "" && forall dep :: dep in n.needs ==> dep in nodes }

  /** The structural invariants; cycles are not among them. */
  predicate Structured(w: Work) {
    && w.id != "" && w.objective != "" && w.nodes != map[]
    && forall id :: id in w.nodes ==> NodeOk(w.nodes, w.nodes[id])
  }

  method Validate(w: Work) returns (ok: bool)
    ensures ok <==> Structured(w)
  {
    if w.id == "" || w.objective == "" || w.nodes == map[] { return false; }
    var rest := w.nodes.Keys;
    while rest != {}
      invariant rest <= w.nodes.Keys
      invariant forall id :: id in w.nodes && id !in rest ==> NodeOk(w.nodes, w.nodes[id])
      decreases rest
    {
      var id :| id in rest;
      var n := w.nodes[id];
      if n.run == "" { return false; }
      for i := 0 to |n.needs|
        invariant forall k :: 0 <= k < i ==> n.needs[k] in w.nodes
      {
        if n.needs[i] !in w.nodes { return false; }
      }
      rest := rest - {id};
    }
    ok := true;
  }

  // ---------------------------------------------------------------- ready nodes

  function Having(attempts: seq<Attempt>, status: Status): set<string> {
    set a | a in attempts && a.status == status :: a.nodeId
  }

  predicate Schedulable(s: State) { s.Queued? || s.Running? }

  predicate IsReady(w: Work, leases: set<string>, id: string) {
    && Schedulable(w.state) && id in w.nodes
    && id !in Having(w.attempts, Success) && id !in Having(w.attempts, InProgress) && id !in leases
    && forall dep :: dep in w.nodes[id].needs ==> dep in Having(w.attempts, Success)
  }

  /** `Work.ReadyNodes`; the order of the answer is Go's map order, so only its members are fixed. */
  method ReadyNodes(w: Work, leases: set<string>) returns (ready: seq<string>)
    ensures forall id :: id in ready <==> IsReady(w, leases, id)
    ensures forall i, j :: 0 <= i < j < |ready| ==> ready[i] != ready[j]
  {
    ready := [];
    if !Schedulable(w.state) { return; }
    var succeeded := Collect(w.attempts, Success);
    var inFlight := Collect(w.attempts, InProgress);
    var rest := w.nodes.Keys;
    while rest != {}
      invariant rest <= w.nodes.Keys
      invariant forall id :: id in ready <==> id !in rest && IsReady(w, leases, id)
      invariant forall i, j :: 0 <= i < j < |ready| ==> ready[i] != ready[j]
      decreases rest
    {
      var id :| id in rest;
      assert id !in ready;
      rest := rest - {id};
      if id in succeeded || id in inFlight || id in leases { continue; }
      var depsOk := AllIn(w.nodes[id].needs, succeeded);
      if depsOk { ready := ready + [id]; }
    }
  }

  method Collect(attempts: seq<Attempt>, status: Status) returns (ids: set<string>)
    ensures ids == Having(attempts, status)
  {
    ids := {};
    for i := 0 to |attempts|
      invariant ids == Having(attempts[..i], status)
    {
      assert attempts[..i + 1] == attempts[..i] + [attempts[i]];
      if attempts[i].status == status { ids := ids + {attempts[i].nodeId}; }
    }
    assert attempts[..|attempts|] == attempts;
  }

  method AllIn(needs: seq<string>, done: set<string>) returns (ok: bool)
    ensures ok <==> forall dep :: dep in needs ==> dep in done
  {
    for i := 0 to |needs|
      invariant forall k :: 0 <= k < i ==> needs[k] in done
    {
      if needs[i] !in done { return false; }
    }
    ok := true;
  }

  // ---------------------------------------------------------------- state machine

  predicate Terminal(s: State) { s.Succeeded? || s.Failed? || s.Cancelled? }

  /** The transition table of `validTransitions`. */
  function Allowed(from: State): set<State> {
    match from
    case Created => {Planning, Queued, Cancelled, Failed, Blocked}
    case Planning => {Queued, Failed, Blocked, Cancelled}
    case Queued => {Running, Cancelled, Failed, Blocked}
    case Running => {Verifying, Failed, Cancelled, WaitingHuman, Suspended, BudgetExhausted}
    case Verifying => {Succeeded, Failed, Cancelled, WaitingHuman, Suspended}
    case WaitingHuman => {Running, Failed, Blocked, Cancelled}
    case Suspended => {Running, WaitingHuman, Failed, Blocked, Cancelled}
    case BudgetExhausted => {Suspended, Failed, Cancelled}
    case _ => {}
  }

  predicate CanTransition(from: State, to: State) { !Terminal(from) && (to.Cancelled? || to in Allowed(from)) }

  datatype Event =
    | Start(id: string, leases: set<string>)     // a worker takes a node ReadyNodes offered
    | Finish(at: nat, status: Status)            // the attempt at this position ends
    | Move(to: State)

  function Step(w: Work, e: Event): Work {
    match e
    case Start(id, leases) => if IsReady(w, leases, id) then w.(attempts := w.attempts + [Attempt(id, InProgress)]) else w
    case Finish(at, status) =>
      if at < |w.attempts| && w.attempts[at].status == InProgress && status != InProgress
      then w.(attempts := w.attempts[at := w.attempts[at].(status := status)]) else w
    case Move(to) => if CanTransition(w.state, to) then w.(state := to) else w
  }

  function Run(w: Work, events: seq<Event>): Work {
    if events == [] then w else Step(Run(w, events[..|events| - 1]), events[|events| - 1])
  }

  lemma {:induction false} RunConcat(w: Work, a: seq<Event>, b: seq<Event>)
    ensures Run(w, a + b) == Run(Run(w, a), b)
  {
    if b == [] {
      assert a + b == a;
    } else {
      RunConcat(w, a, b[..|b| - 1]);
      assert (a + b)[..|a + b| - 1] == a + b[..|b| - 1];
    }
  }

  // ---------------------------------------------------------------- leases and states over runs

  /** A work with its live leases; starts present exactly those. */
  datatype Leased = Leased(work: Work, leases: set<string>)

  datatype LeaseEvent = Grant(id: string) | Release(id: string) | Begin(id: string) | Else(e: Event)

  function LeaseStep(s: Leased, e: LeaseEvent): Leased {
    match e
    case Grant(id) => s.(leases := s.leases + {id})
    case Release(id) => s.(leases := s.leases - {id})
    case Begin(id) => s.(work := Step(s.work, Start(id, s.leases)))
    case Else(e) => if e.Start? then s else s.(work := Step(s.work, e))
  }

  function LeaseRun(s: Leased, events: seq<LeaseEvent>): Leased {
    if events == [] then s else LeaseStep(LeaseRun(s, events[..|events| - 1]), events[|events| - 1])
  }

  function AttemptsOf(attempts: seq<Attempt>, id: string): nat {
    if attempts == [] then 0
    else AttemptsOf(attempts[..|attempts| - 1], id) + if attempts[|attempts| - 1].nodeId == id then 1 else 0
  }

  lemma {:induction false} FinishKeepsCount(attempts: seq<Attempt>, at: nat, status: Status, id: string)
    requires at < |attempts|
    ensures AttemptsOf(attempts[at := attempts[at].(status := status)], id) == AttemptsOf(attempts, id)
  {
    var n := |attempts| - 1;
    var after := attempts[at := attempts[at].(status := status)];
    if at < n {
      FinishKeepsCount(attempts[..n], at, status, id);
      assert after[..n] == attempts[..n][at := attempts[at].(status := status)];
    } else {
      assert after[..n] == attempts[..n];
    }
  }

  lemma StepCounts(w: Work, e: Event, id: string)
    requires e.Start? && e.id == id ==> id in e.leases
    ensures AttemptsOf(Step(w, e).attempts, id) == AttemptsOf(w.attempts, id)
  {
    match e
    case Start(other, leases) =>
      assert (w.attempts + [Attempt(other, InProgress)])[..|w.attempts|] == w.attempts;
    case Finish(at, status) => if at < |w.attempts| { FinishKeepsCount(w.attempts, at, status, id); }
    case Move(_) =>
  }

  /** While a node is leased, no attempt of it is started, whatever else happens. */
  lemma {:induction false} LeasedIsNotStarted(s: Leased, events: seq<LeaseEvent>, id: string)
    requires id in s.leases && Release(id) !in events
    ensures id in LeaseRun(s, events).leases
    ensures AttemptsOf(LeaseRun(s, events).work.attempts, id) == AttemptsOf(s.work.attempts, id)
  {
    if events != [] {
      var before, e := LeaseRun(s, events[..|events| - 1]), events[|events| - 1];
      LeasedIsNotStarted(s, events[..|events| - 1], id);
      assert e in events;
      match e
      case Begin(other) => StepCounts(before.work, Start(other, before.leases), id);
      case Else(inner) => if !inner.Start? { StepCounts(before.work, inner, id); }
      case _ =>
    }
  }

  /** Nothing starts outside QUEUED and RUNNING, nor a node that is unknown, done, in flight, leased
      or waiting for a need. */
  lemma StartMeans(w: Work, id: string, leases: set<string>)
    ensures Step(w, Start(id, leases)) != w <==>
      && w.state in {Queued, Running} && id in w.nodes && id !in leases
      && (forall a :: a in w.attempts && a.nodeId == id ==> a.status != Success && a.status != InProgress)
      && (forall dep :: dep in w.nodes[id].needs ==> Attempt(dep, Success) in w.attempts)
  {
    assert |(w.attempts + [Attempt(id, InProgress)])| == |w.attempts| + 1;
    if forall a :: a in w.attempts && a.nodeId == id ==> a.status != Success && a.status != InProgress {
      assert id !in Having(w.attempts, Success) && id !in Having(w.attempts, InProgress);
    }
    forall dep ensures dep in Having(w.attempts, Success) <==> Attempt(dep, Success) in w.attempts {
      HavingMember(w.attempts, Success, dep);
    }
    HavingMember(w.attempts, Success, id);
    HavingMember(w.attempts, InProgress, id);
  }

  lemma HavingMember(attempts: seq<Attempt>, status: Status, id: string)
    ensures id in Having(attempts, status) <==> Attempt(id, status) in attempts
  {
  }

  /** SUCCEEDED, FAILED and CANCELLED are final in every run. */
  lemma {:induction false} TerminalIsFinal(w: Work, events: seq<Event>)
    requires w.state in {Succeeded, Failed, Cancelled}
    ensures Run(w, events).state == w.state
  {
    if events != [] { TerminalIsFinal(w, events[..|events| - 1]); }
  }

  /** Success comes only out of verification, which comes only out of running; anything that is not
      final can be cancelled; only CREATED and PLANNING are queued. */
  lemma TransitionsMean(from: State, to: State)
    ensures CanTransition(from, Succeeded) <==> from == Verifying
    ensures CanTransition(from, Verifying) <==> from == Running
    ensures CanTransition(from, Queued) <==> from in {Created, Planning}
    ensures CanTransition(from, Running) <==> from in {Queued, WaitingHuman, Suspended}
    ensures CanTransition(from, Cancelled) <==> from !in {Succeeded, Failed, Cancelled}
    ensures !CanTransition(from, Created)
    ensures CanTransition(from, BudgetExhausted) <==> from == Running
  {
  }

  // ---------------------------------------------------------------- safety

  /** The dependency succeeded in an attempt that was started before attempt i. */
  ghost predicate DoneBefore(attempts: seq<Attempt>, i: nat, dep: string)
    requires i < |attempts|
  {
    exists j :: 0 <= j < i && attempts[j] == Attempt(dep, Success)
  }

  /** Every attempt started after all its needs had succeeded; only a node whose earlier attempts
      all ended without success is ever started again. */
  ghost predicate Orderly(w: Work) {
    && (forall i :: 0 <= i < |w.attempts| ==> w.attempts[i].nodeId in w.nodes)
    && (forall i, dep {:trigger DoneBefore(w.attempts, i, dep)} ::
          0 <= i < |w.attempts| && dep in w.nodes[w.attempts[i].nodeId].needs ==> DoneBefore(w.attempts, i, dep))
    && (forall i, j :: 0 <= i < j < |w.attempts| && w.attempts[i].nodeId == w.attempts[j].nodeId ==>
          w.attempts[i].status != InProgress && w.attempts[i].status != Success)
  }

  lemma HavingIndex(attempts: seq<Attempt>, status: Status, id: string)
    ensures id in Having(attempts, status) <==> exists j :: 0 <= j < |attempts| && attempts[j] == Attempt(id, status)
  {
    if id in Having(attempts, status) {
      var a :| a in attempts && a.status == status && a.nodeId == id;
      assert a == Attempt(id, status);
    }
  }

  lemma StartKeeps(w: Work, id: string, leases: set<string>)
    requires Orderly(w) && IsReady(w, leases, id)
    ensures Orderly(w.(attempts := w.attempts + [Attempt(id, InProgress)]))
  {
    var t := w.(attempts := w.attempts + [Attempt(id, InProgress)]);
    forall i, dep | 0 <= i < |t.attempts| && dep in t.nodes[t.attempts[i].nodeId].needs ensures DoneBefore(t.attempts, i, dep) {
      if i < |w.attempts| {
        assert DoneBefore(w.attempts, i, dep);
        var j :| 0 <= j < i && w.attempts[j] == Attempt(dep, Success);
        assert t.attempts[j] == w.attempts[j];
      } else {
        HavingIndex(w.attempts, Success, dep);
        var j :| 0 <= j < |w.attempts| && w.attempts[j] == Attempt(dep, Success);
        assert t.attempts[j] == w.attempts[j];
      }
    }
    forall i | 0 <= i < |w.attempts| && w.attempts[i].nodeId == id
      ensures w.attempts[i].status != InProgress && w.attempts[i].status != Success
    {
      HavingIndex(w.attempts, Success, id);
      HavingIndex(w.attempts, InProgress, id);
      assert w.attempts[i] == Attempt(id, w.attempts[i].status);
    }
  }

  lemma FinishKeeps(w: Work, at: nat, status: Status)
    requires Orderly(w) && at < |w.attempts| && w.attempts[at].status == InProgress && status != InProgress
    ensures Orderly(w.(attempts := w.attempts[at := w.attempts[at].(status := status)]))
  {
    var t := w.(attempts := w.attempts[at := w.attempts[at].(status := status)]);
    forall i, dep | 0 <= i < |t.attempts| && dep in t.nodes[t.attempts[i].nodeId].needs ensures DoneBefore(t.attempts, i, dep) {
      assert t.attempts[i].nodeId == w.attempts[i].nodeId;
      assert DoneBefore(w.attempts, i, dep);
      var j :| 0 <= j < i && w.attempts[j] == Attempt(dep, Success);
      assert t.attempts[j] == w.attempts[j];
    }
  }

  /** In every run, no node starts before all its needs succeeded and no succeeded node re-runs. */
  lemma {:induction false} RunIsOrderly(w: Work, events: seq<Event>)
    requires Orderly(w)
    ensures Orderly(Run(w, events)) && Run(w, events).nodes == w.nodes
  {
    if events != [] {
      var before, e := Run(w, events[..|events| - 1]), events[|events| - 1];
      RunIsOrderly(w, events[..|events| - 1]);
      match e
      case Start(id, leases) => if IsReady(before, leases, id) { StartKeeps(before, id, leases); }
      case Finish(at, status) =>
        if at < |before.attempts| && before.attempts[at].status == InProgress && status != InProgress { FinishKeeps(before, at, status); }
      case Move(to) =>
    }
  }

  /** Every member needs some member: a cycle, or anything that waits on one. */
  ghost predicate Stuck(nodes: Nodes, c: set<string>) {
    c <= nodes.Keys && forall id {:trigger NeedsInside(nodes, id, c)} :: id in c ==> NeedsInside(nodes, id, c)
  }

  ghost predicate NeedsInside(nodes: Nodes, id: string, c: set<string>)
    requires id in nodes
  {
    exists dep :: dep in nodes[id].needs && dep in c
  }

  lemma {:induction false} StuckHasNoAttempt(w: Work, c: set<string>, i: nat)
    requires Orderly(w) && Stuck(w.nodes, c) && i < |w.attempts|
    ensures w.attempts[i].nodeId !in c
  {
    if w.attempts[i].nodeId in c {
      assert NeedsInside(w.nodes, w.attempts[i].nodeId, c);
      var dep :| dep in w.nodes[w.attempts[i].nodeId].needs && dep in c;
      assert DoneBefore(w.attempts, i, dep);
      var j :| 0 <= j < i && w.attempts[j] == Attempt(dep, Success);
      StuckHasNoAttempt(w, c, j);
    }
  }

  /** No node of a stuck set is ever started, in any run, and none ever becomes ready. */
  lemma StuckNeverRuns(w: Work, c: set<string>, events: seq<Event>, leases: set<string>, id: string)
    requires w.attempts == [] && Stuck(w.nodes, c) && id in c
    ensures var end := Run(w, events);
      (forall a :: a in end.attempts ==> a.nodeId !in c) && !IsReady(end, leases, id)
  {
    RunIsOrderly(w, events);
    var end := Run(w, events);
    forall a | a in end.attempts ensures a.nodeId !in c {
      var i :| 0 <= i < |end.attempts| && end.attempts[i] == a;
      StuckHasNoAttempt(end, c, i);
    }
    assert NeedsInside(w.nodes, id, c);
    var dep :| dep in w.nodes[id].needs && dep in c;
    HavingIndex(end.attempts, Success, dep);
  }

  // ---------------------------------------------------------------- progress

  ghost predicate NeedsPath(nodes: Nodes, p: seq<string>) {
    && p != [] && (forall i :: 0 <= i < |p| ==> p[i] in nodes)
    && forall i :: 0 <= i < |p| - 1 ==> p[i + 1] in nodes[p[i]].needs
  }

  ghost predicate Cycle(nodes: Nodes, p: seq<string>) { NeedsPath(nodes, p) && |p| >= 2 && p[0] == p[|p| - 1] }

  ghost predicate Acyclic(nodes: Nodes) { forall p :: !Cycle(nodes, p) }

  lemma CycleIsStuck(nodes: Nodes, p: seq<string>)
    requires Cycle(nodes, p)
    ensures Stuck(nodes, Elements(p))
  {
    forall id | id in Elements(p) ensures id in nodes && NeedsInside(nodes, id, Elements(p)) {
      var i :| 0 <= i < |p| && p[i] == id;
      var k := if i == |p| - 1 then 0 else i;
      assert p[k] == id && p[k + 1] in nodes[p[k]].needs && p[k + 1] in Elements(p);
    }
  }

  /** Inside a stuck set one can follow needs for ever. */
  lemma {:induction false} StuckWalk(nodes: Nodes, c: set<string>, start: string, n: nat) returns (p: seq<string>)
    requires Stuck(nodes, c) && start in c
    ensures |p| == n + 1 && NeedsPath(nodes, p) && forall i :: 0 <= i < |p| ==> p[i] in c
  {
    if n == 0 {
      p := [start];
    } else {
      var q := StuckWalk(nodes, c, start, n - 1);
      var last := q[|q| - 1];
      assert NeedsInside(nodes, last, c);
      var dep :| dep in nodes[last].needs && dep in c;
      p := q + [dep];
      forall i | 0 <= i < |p| - 1 ensures p[i + 1] in nodes[p[i]].needs { assert p[i] == q[i]; }
    }
  }

  lemma {:induction false} Pigeonhole(p: seq<string>, c: set<string>) returns (i: nat, j: nat)
    requires |p| > |c| && forall k :: 0 <= k < |p| ==> p[k] in c
    ensures i < j < |p| && p[i] == p[j]
    decreases |p|
  {
    var last := p[|p| - 1];
    if k :| 0 <= k < |p| - 1 && p[k] == last {
      i, j := k, |p| - 1;
    } else {
      assert |c - {last}| == |c| - 1;
      i, j := Pigeonhole(p[..|p| - 1], c - {last});
    }
  }

  lemma StuckHasCycle(nodes: Nodes, c: set<string>, start: string)
    requires Stuck(nodes, c) && start in c
    ensures !Acyclic(nodes)
  {
    var p := StuckWalk(nodes, c, start, |c|);
    var i, j := Pigeonhole(p, c);
    var q := p[i..j + 1];
    forall k | 0 <= k < |q| - 1 ensures q[k + 1] in nodes[q[k]].needs { assert q[k] == p[i + k] && q[k + 1] == p[i + k + 1]; }
    assert Cycle(nodes, q);
  }

  ghost predicate Quiet(w: Work, leases: set<string>) {
    Schedulable(w.state) && Having(w.attempts, InProgress) == {} && leases !! w.nodes.Keys
  }

  /** On a valid acyclic graph with nothing in flight or leased, work remains only if some node is ready. */
  lemma Progress(w: Work, leases: set<string>, unfinished: string) returns (id: string)
    requires Structured(w) && Acyclic(w.nodes) && Quiet(w, leases)
    requires unfinished in w.nodes && unfinished !in Having(w.attempts, Success)
    ensures IsReady(w, leases, id)
  {
    var open := w.nodes.Keys - Having(w.attempts, Success);
    if x :| x in open && IsReady(w, leases, x) {
      id := x;
    } else {
      forall x | x in open ensures NeedsInside(w.nodes, x, open) {
        assert !IsReady(w, leases, x);
        var dep :| dep in w.nodes[x].needs && dep !in Having(w.attempts, Success);
        assert NodeOk(w.nodes, w.nodes[x]);
        assert dep in open;
      }
      StuckHasCycle(w.nodes, open, unfinished);
      id := "";
    }
  }

  ghost predicate Finished(w: Work) { w.nodes.Keys <= Having(w.attempts, Success) }

  lemma RunOneNode(w: Work, id: string) returns (events: seq<Event>)
    requires IsReady(w, {}, id)
    ensures var t := Run(w, events);
      && t.nodes == w.nodes && t.state == w.state && t.id == w.id && t.objective == w.objective
      && Having(t.attempts, Success) == Having(w.attempts, Success) + {id}
      && Having(t.attempts, InProgress) == Having(w.attempts, InProgress)
  {
    var a, b := Start(id, {}), Finish(|w.attempts|, Success);
    events := [a, b];
    assert [a, b][..1] == [a] && [a][..0] == [] && Run(w, []) == w;
    assert Run(w, [a]) == Step(w, a);
    var t := Run(w, events);
    assert t.attempts == w.attempts + [Attempt(id, Success)];
    assert forall x :: x in t.attempts <==> x in w.attempts || x == Attempt(id, Success);
  }

  /** Starting ready nodes and succeeding drives any valid acyclic work to the end. */
  lemma {:induction false} Drive(w: Work) returns (events: seq<Event>)
    requires Structured(w) && Acyclic(w.nodes) && Quiet(w, {})
    ensures Finished(Run(w, events))
    decreases w.nodes.Keys - Having(w.attempts, Success)
  {
    if Finished(w) {
      events := [];
    } else {
      var unfinished :| unfinished in w.nodes && unfinished !in Having(w.attempts, Success);
      var id := Progress(w, {}, unfinished);
      var first := RunOneNode(w, id);
      var t := Run(w, first);
      assert id in w.nodes.Keys - Having(w.attempts, Success) && id !in t.nodes.Keys - Having(t.attempts, Success);
      var rest := Drive(t);
      events := first + rest;
      RunConcat(w, first, rest);
    }
  }

  ghost predicate Completable(w: Work) { exists events :: Finished(Run(w, events)) }

  /** A freshly queued, structurally valid Work can be completed by some run if and only if its
      graph is acyclic, which `Validate` does not check. */
  lemma CompletableIffAcyclic(w: Work)
    requires Structured(w) && w.attempts == [] && Schedulable(w.state)
    ensures Completable(w) <==> Acyclic(w.nodes)
  {
    if Acyclic(w.nodes) {
      assert Quiet(w, {});
      var events := Drive(w);
      assert Finished(Run(w, events));
    }
    if Completable(w) {
      var events :| Finished(Run(w, events));
      forall p ensures !Cycle(w.nodes, p) {
        if Cycle(w.nodes, p) { CycleBlocks(w, p, events); }
      }
    }
  }

  lemma CycleBlocks(w: Work, p: seq<string>, events: seq<Event>)
    requires w.attempts == [] && Cycle(w.nodes, p)
    ensures !Finished(Run(w, events))
  {
    CycleIsStuck(w.nodes, p);
    assert p[0] in Elements(p);
    StuckNeverRuns(w, Elements(p), events, {}, p[0]);
    RunIsOrderly(w, events);
    HavingIndex(Run(w, events).attempts, Success, p[0]);
  }

  /** A valid Work that can never finish: two nodes that need each other. */
  lemma ValidCyclicWork() returns (w: Work)
    ensures Structured(w) && w.attempts == [] && Schedulable(w.state) && !Completable(w)
  {
    w := Work("w", "build", Queued, map["a" := Node("x", ["b"]), "b" := Node("x", ["a"])], []);
    assert Cycle(w.nodes, ["a", "b", "a"]);
    CompletableIffAcyclic(w);
  }
}
