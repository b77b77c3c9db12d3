/** At-most-once effects over interleavings: exactly from which states no further application can
    ever succeed. */
module DispatchEffects {
  import opened Text
  import opened Dispatching
  import opened DispatchRuns
  import opened DispatchLaws
  import opened DispatchFreeze

  /** A record no application is accepted on. */
  predicate Closed(a: Acceptance) { a.revoked || a.effectApplied }

  predicate KnownApplication(op: Op) { op.ApplyEffect? && op.known }

  /** Whatever this flight may yet commit, it applies nothing and leaves the record closed. */
  ghost predicate Inert(db: Db, id: string, f: Flight) {
    f.Loaded? && f.id == id ==>
      forall b :: PossibleBinding(db, id, b) && Decide(f.snapshot, b, f.op).Ok? ==>
        !KnownApplication(f.op) && Closed(Decide(f.snapshot, b, f.op).value)
  }

  /** The record is closed and no call in flight could apply or reopen it. */
  ghost predicate Sealed(s: Sys, id: string)
    requires id in s.db.rows
  {
    Closed(s.db.rows[id]) && forall c :: c in s.flights ==> Inert(s.db, id, s.flights[c])
  }

  ghost predicate NeverAppliedAgain(s: Sys, id: string) {
    forall events :: Applied(Run(s, events).log, id) == Applied(s.log, id)
  }

  ghost predicate AtMostOnceForever(s: Sys, id: string) {
    forall events :: Applied(Run(s, events).log, id) <= 1
  }

  // ---------------------------------------------------------------- sealed states stay sealed

  lemma ClosedDecides(a: Acceptance, b: Option<Binding>, op: Op)
    requires Closed(a) && Decide(a, b, op).Ok?
    ensures !KnownApplication(op) && Closed(Decide(a, b, op).value)
  {
  }

  /** How a step may have come by its flights and subjects. */
  ghost predicate Follows(s: Sys, t: Sys, id: string, ch: Change) {
    && Extends(s.db, t.db) && Moves(s, t, id, ch)
    && (id in t.db.subjects && id !in s.db.subjects ==>
          t.db.subjects[id].executionId == id && BindSubject(s.db, t.db.subjects[id]).1.None?)
  }

  lemma StepFollows(s: Sys, e: Event, id: string)
    requires Inv(s)
    ensures Follows(s, Step(s, e), id, ChangeOf(s, e, id))
  {
    StepKeeps(s, e);
    StepMoves(s, e, id);
    if id in Step(s, e).db.subjects && id !in s.db.subjects { NewSubject(s, e, id); }
  }

  /** A flight after a step is inert if it loaded the closed record just now, or was inert before. */
  lemma StillInert(s: Sys, t: Sys, id: string, ch: Change, c: nat)
    requires id in s.db.rows && Closed(s.db.rows[id]) && Follows(s, t, id, ch) && c in t.flights
    requires c in s.flights && s.flights[c] == t.flights[c] ==> Inert(s.db, id, s.flights[c])
    ensures Inert(t.db, id, t.flights[c])
  {
    var f := t.flights[c];
    if f.Loaded? && f.id == id {
      forall b | PossibleBinding(t.db, id, b) && Decide(f.snapshot, b, f.op).Ok?
        ensures !KnownApplication(f.op) && Closed(Decide(f.snapshot, b, f.op).value)
      {
        if c in s.flights && s.flights[c] == f {
          BindingsOnlySettle(s.db, t.db, id, b);
        } else {
          ClosedDecides(f.snapshot, b, f.op);
        }
      }
    }
  }

  /** A sealed record stays closed through one change, and nothing is applied. */
  lemma SealedMove(s: Sys, t: Sys, id: string, ch: Change)
    requires id in s.db.rows && Closed(s.db.rows[id]) && Moves(s, t, id, ch)
    requires ch.Committed? ==> !KnownApplication(ch.op) && Closed(ch.record)
    ensures id in t.db.rows && Closed(t.db.rows[id]) && Applied(t.log, id) == Applied(s.log, id)
  {
    if |t.log| > |s.log| {
      assert t.log == s.log + [t.log[|s.log|]];
      AppliedSnoc(s.log, t.log[|s.log|], id);
    } else {
      assert t.log == s.log;
    }
  }

  lemma SealedRow(s: Sys, e: Event, id: string)
    requires Inv(s) && id in s.db.rows && Sealed(s, id)
    ensures id in Step(s, e).db.rows && Closed(Step(s, e).db.rows[id])
    ensures Applied(Step(s, e).log, id) == Applied(s.log, id)
  {
    StepMoves(s, e, id);
    if Commits(s, e, id) {
      assert Inert(s.db, id, s.flights[e.c]);
      assert PossibleBinding(s.db, id, BindingOf(s.db, id));
    }
    SealedMove(s, Step(s, e), id, ChangeOf(s, e, id));
  }

  lemma SealedStep(s: Sys, e: Event, id: string)
    requires Inv(s) && id in s.db.rows && Sealed(s, id)
    ensures id in Step(s, e).db.rows && Sealed(Step(s, e), id) && Applied(Step(s, e).log, id) == Applied(s.log, id)
  {
    SealedRow(s, e, id);
    StepFollows(s, e, id);
    forall c | c in Step(s, e).flights ensures Inert(Step(s, e).db, id, Step(s, e).flights[c]) {
      StillInert(s, Step(s, e), id, ChangeOf(s, e, id), c);
    }
  }

  lemma {:induction false} SealedRun(s: Sys, events: seq<Event>, id: string)
    requires Inv(s) && id in s.db.rows && Sealed(s, id)
    ensures id in Run(s, events).db.rows && Sealed(Run(s, events), id)
    ensures Applied(Run(s, events).log, id) == Applied(s.log, id)
  {
    if events != [] {
      SealedRun(s, events[..|events| - 1], id);
      RunFromKeeps(s, events[..|events| - 1]);
      SealedStep(Run(s, events[..|events| - 1]), events[|events| - 1], id);
    }
  }

  // ---------------------------------------------------------------- any other state can apply again

  lemma {:induction false} FreeFlight(used: set<nat>) returns (c: nat)
    ensures forall x :: x in used ==> x < c
  {
    if used == {} {
      c := 0;
    } else {
      var x :| x in used;
      var rest := used - {x};
      c := FreeFlight(rest);
      assert forall y :: y in used ==> y == x || y in rest;
      if c <= x { c := x + 1; }
    }
  }

  /** An open record accepts a fresh application. */
  lemma OpenApplies(s: Sys, id: string) returns (events: seq<Event>)
    requires Inv(s) && id in s.db.rows && !Closed(s.db.rows[id])
    ensures Applied(Run(s, events).log, id) == Applied(s.log, id) + 1
  {
    var c := FreeFlight(s.flights.Keys);
    var row := s.db.rows[id];
    var op := ApplyEffect(row.dispatch.effectId, true);
    LoadStep(s, c, id, op);
    var t := Step(s, OpLoad(c, id, op));
    SaveStep(t, c, id, row.(effectApplied := true));
    events := [OpLoad(c, id, op), OpSave(c)];
    RunTwo(s, OpLoad(c, id, op), OpSave(c));
    AppliedSnoc(s.log, Done(id, op), id);
  }

  lemma CommitCounts(log: seq<Reply>, after: seq<Reply>, id: string, op: Op)
    requires after == log + [Done(id, op)] || after == log + [SubjectBound(id)] + [Done(id, op)]
    ensures Applied(after, id) == Applied(log, id) + if KnownApplication(op) then 1 else 0
  {
    AppliedSnoc(log, SubjectBound(id), id);
    AppliedSnoc(log, Done(id, op), id);
    AppliedSnoc(log + [SubjectBound(id)], Done(id, op), id);
  }

  /** A flight that is not inert applies when it commits, or reopens the record for an application. */
  lemma LooseFlightApplies(s: Sys, id: string, c: nat) returns (events: seq<Event>)
    requires Inv(s) && id in s.db.rows && c in s.flights && !Inert(s.db, id, s.flights[c])
    ensures Applied(Run(s, events).log, id) == Applied(s.log, id) + 1
  {
    var f := s.flights[c];
    var b :| PossibleBinding(s.db, id, b) && Decide(f.snapshot, b, f.op).Ok?
      && !(!KnownApplication(f.op) && Closed(Decide(f.snapshot, b, f.op).value));
    events := FlightCommits(s, id, c, b);
    var t := Run(s, events);
    CommitCounts(s.log, t.log, id, f.op);
    if !KnownApplication(f.op) {
      var more := OpenApplies(t, id);
      RunConcat(s, events, more);
      events := events + more;
    }
  }

  /** No continuation, however interleaved, applies the effect again, if and only if the record is
      applied or revoked and no call in flight could still apply it or write back an open record. */
  lemma NeverAgainIff(s: Sys, id: string)
    requires Inv(s) && id in s.db.rows
    ensures NeverAppliedAgain(s, id) <==> Sealed(s, id)
  {
    if Sealed(s, id) {
      forall events ensures Applied(Run(s, events).log, id) == Applied(s.log, id) { SealedRun(s, events, id); }
    } else if !Closed(s.db.rows[id]) {
      var events := OpenApplies(s, id);
    } else {
      var c :| c in s.flights && !Inert(s.db, id, s.flights[c]);
      var events := LooseFlightApplies(s, id, c);
    }
  }

  // ---------------------------------------------------------------- at most once, exactly

  /** The record is closed and at most one call in flight is loose: an application that loaded
      the record while it was open. */
  ghost predicate Guarded(s: Sys, id: string)
    requires id in s.db.rows
  {
    && Closed(s.db.rows[id])
    && (forall c :: c in s.flights && !Inert(s.db, id, s.flights[c]) ==> KnownApplication(s.flights[c].op))
    && (forall c, d :: c in s.flights && d in s.flights && !Inert(s.db, id, s.flights[c]) && !Inert(s.db, id, s.flights[d]) ==> c == d)
  }

  /** Nothing can ever be applied a second time. */
  ghost predicate Safe(s: Sys, id: string)
    requires id in s.db.rows
  {
    if Applied(s.log, id) == 0 then Guarded(s, id) else Applied(s.log, id) == 1 && Sealed(s, id)
  }

  /** The loose application lands: one application, and the state is sealed. */
  lemma LooseLands(s: Sys, e: Event, id: string)
    requires Inv(s) && id in s.db.rows && Guarded(s, id) && Commits(s, e, id) && !Inert(s.db, id, s.flights[e.c])
    ensures id in Step(s, e).db.rows && Sealed(Step(s, e), id) && Applied(Step(s, e).log, id) == Applied(s.log, id) + 1
  {
    var t := Step(s, e);
    StepFollows(s, e, id);
    AppliedSnoc(s.log, Done(id, s.flights[e.c].op), id);
    forall c | c in t.flights ensures Inert(t.db, id, t.flights[c]) { StillInert(s, t, id, ChangeOf(s, e, id), c); }
  }

  lemma GuardedStep(s: Sys, e: Event, id: string)
    requires Inv(s) && id in s.db.rows && Guarded(s, id)
    requires Commits(s, e, id) ==> Inert(s.db, id, s.flights[e.c])
    ensures id in Step(s, e).db.rows && Guarded(Step(s, e), id) && Applied(Step(s, e).log, id) == Applied(s.log, id)
  {
    var t := Step(s, e);
    StepFollows(s, e, id);
    assert PossibleBinding(s.db, id, BindingOf(s.db, id));
    SealedMove(s, t, id, ChangeOf(s, e, id));
    StillGuarded(s, t, id, ChangeOf(s, e, id));
  }

  lemma StillGuarded(s: Sys, t: Sys, id: string, ch: Change)
    requires id in s.db.rows && Guarded(s, id) && Follows(s, t, id, ch) && id in t.db.rows && Closed(t.db.rows[id])
    ensures Guarded(t, id)
  {
    forall c | c in t.flights && !Inert(t.db, id, t.flights[c])
      ensures c in s.flights && s.flights[c] == t.flights[c] && !Inert(s.db, id, s.flights[c])
    {
      if !(c in s.flights && s.flights[c] == t.flights[c] && !Inert(s.db, id, s.flights[c])) {
        StillInert(s, t, id, ch, c);
      }
    }
  }

  lemma {:induction false} SafeRun(s: Sys, events: seq<Event>, id: string)
    requires Inv(s) && id in s.db.rows && Safe(s, id)
    ensures id in Run(s, events).db.rows && Safe(Run(s, events), id)
  {
    if events != [] {
      var before, e := Run(s, events[..|events| - 1]), events[|events| - 1];
      SafeRun(s, events[..|events| - 1], id);
      RunFromKeeps(s, events[..|events| - 1]);
      if Applied(before.log, id) == 1 {
        SealedStep(before, e, id);
      } else if Commits(before, e, id) && !Inert(before.db, id, before.flights[e.c]) {
        LooseLands(before, e, id);
      } else {
        GuardedStep(before, e, id);
      }
    }
  }

  lemma AppliesNow(s: Sys, id: string, c: nat)
    requires Inv(s) && Ready(s, id, c)
    ensures var t := Step(s, OpSave(c)); Inv(t) && t.flights == s.flights - {c} && Applied(t.log, id) == Applied(s.log, id) + 1
  {
    SaveStep(s, c, id, s.flights[c].snapshot.(effectApplied := true));
    AppliedSnoc(s.log, Done(id, s.flights[c].op), id);
  }

  /** A flight about to apply. */
  ghost predicate Ready(s: Sys, id: string, c: nat) {
    && c in s.flights && s.flights[c].Loaded? && s.flights[c].id == id && KnownApplication(s.flights[c].op)
    && !Closed(s.flights[c].snapshot) && s.flights[c].op.effectId == s.flights[c].snapshot.dispatch.effectId
  }

  lemma BothSave(s: Sys, id: string, c: nat, d: nat) returns (events: seq<Event>)
    requires Inv(s) && Ready(s, id, c) && Ready(s, id, d) && c != d
    ensures Applied(Run(s, events).log, id) == Applied(s.log, id) + 2
  {
    AppliesNow(s, id, c);
    AppliesNow(Step(s, OpSave(c)), id, d);
    events := [OpSave(c), OpSave(d)];
    RunTwo(s, OpSave(c), OpSave(d));
  }

  lemma BothLoad(s: Sys, id: string) returns (events: seq<Event>, c: nat)
    requires Inv(s) && id in s.db.rows && !Closed(s.db.rows[id])
    ensures var t := Run(s, events); Inv(t) && t.log == s.log && Ready(t, id, c) && Ready(t, id, c + 1)
  {
    c := FreeFlight(s.flights.Keys);
    var op := ApplyEffect(s.db.rows[id].dispatch.effectId, true);
    LoadStep(s, c, id, op);
    var s1 := Step(s, OpLoad(c, id, op));
    LoadStep(s1, c + 1, id, op);
    events := [OpLoad(c, id, op), OpLoad(c + 1, id, op)];
    RunTwo(s, OpLoad(c, id, op), OpLoad(c + 1, id, op));
  }

  /** Two applications that load an open record before either saves both succeed. */
  lemma OpenAppliesTwice(s: Sys, id: string) returns (events: seq<Event>)
    requires Inv(s) && id in s.db.rows && !Closed(s.db.rows[id])
    ensures Applied(Run(s, events).log, id) == Applied(s.log, id) + 2
  {
    var loads, c := BothLoad(s, id);
    var saves := BothSave(Run(s, loads), id, c, c + 1);
    RunConcat(s, loads, saves);
    events := loads + saves;
  }

  /** A loose flight that is no application reopens the record; two loose applications both land. */
  lemma ReopenAppliesTwice(s: Sys, id: string, c: nat) returns (events: seq<Event>)
    requires Inv(s) && id in s.db.rows && c in s.flights && !Inert(s.db, id, s.flights[c]) && !KnownApplication(s.flights[c].op)
    ensures Applied(Run(s, events).log, id) == Applied(s.log, id) + 2
  {
    var f := s.flights[c];
    var b :| PossibleBinding(s.db, id, b) && Decide(f.snapshot, b, f.op).Ok? && !Closed(Decide(f.snapshot, b, f.op).value);
    var first := FlightCommits(s, id, c, b);
    CommitCounts(s.log, Run(s, first).log, id, f.op);
    var more := OpenAppliesTwice(Run(s, first), id);
    RunConcat(s, first, more);
    events := first + more;
  }

  lemma LooseApplication(db: Db, id: string, f: Flight)
    requires !Inert(db, id, f) && KnownApplication(f.op)
    ensures f.Loaded? && f.id == id && !Closed(f.snapshot) && f.op.effectId == f.snapshot.dispatch.effectId
  {
  }

  lemma BothApply(s: Sys, id: string, c: nat, d: nat) returns (events: seq<Event>)
    requires Inv(s) && id in s.db.rows && c in s.flights && d in s.flights && c != d
    requires !Inert(s.db, id, s.flights[c]) && KnownApplication(s.flights[c].op)
    requires !Inert(s.db, id, s.flights[d]) && KnownApplication(s.flights[d].op)
    ensures Applied(Run(s, events).log, id) == Applied(s.log, id) + 2
  {
    LooseApplication(s.db, id, s.flights[c]);
    LooseApplication(s.db, id, s.flights[d]);
    events := BothSave(s, id, c, d);
  }

  /** Any state without an application that is not guarded can still apply twice. */
  lemma UnguardedAppliesTwice(s: Sys, id: string) returns (events: seq<Event>)
    requires Inv(s) && id in s.db.rows && !Guarded(s, id)
    ensures Applied(Run(s, events).log, id) == Applied(s.log, id) + 2
  {
    if !Closed(s.db.rows[id]) {
      events := OpenAppliesTwice(s, id);
    } else if c :| c in s.flights && !Inert(s.db, id, s.flights[c]) && !KnownApplication(s.flights[c].op) {
      events := ReopenAppliesTwice(s, id, c);
    } else {
      var c, d :| c in s.flights && d in s.flights && !Inert(s.db, id, s.flights[c]) && !Inert(s.db, id, s.flights[d]) && c != d;
      events := BothApply(s, id, c, d);
    }
  }

  /** At most once, exactly, from any reachable state: every continuation keeps the number of
      successful applications at or below one if and only if either the effect was applied once
      and the state is sealed, or it was not applied and the record is closed with at most one
      loose application in flight. An open record is never safe. */
  lemma AtMostOnceIff(s: Sys, id: string)
    requires Inv(s) && id in s.db.rows
    ensures AtMostOnceForever(s, id) <==> Safe(s, id)
  {
    if Safe(s, id) {
      forall events ensures Applied(Run(s, events).log, id) <= 1 { SafeRun(s, events, id); }
    } else if Applied(s.log, id) > 1 {
      assert Run(s, []) == s;
    } else if Applied(s.log, id) == 1 {
      NeverAgainIff(s, id);
      UnsealedApplies(s, id);
    } else {
      var events := UnguardedAppliesTwice(s, id);
    }
  }

  lemma UnsealedApplies(s: Sys, id: string)
    requires Inv(s) && !NeverAppliedAgain(s, id)
    ensures exists events :: Applied(Run(s, events).log, id) > Applied(s.log, id)
  {
    var events :| Applied(Run(s, events).log, id) != Applied(s.log, id);
    RunFromKeeps(s, events);
    AppliedGrows(Run(s, events).log, |s.log|, id);
    assert Run(s, events).log[..|s.log|] == s.log;
  }
}
