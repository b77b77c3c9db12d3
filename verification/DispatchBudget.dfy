/** The spending ceiling over interleavings. A record's counter never passes its ceiling, but the
    sum of the spends that were reported successful can: exactly when it cannot. */
module DispatchBudget {
  import opened Text
  import opened Dispatching
  import opened DispatchRuns
  import opened DispatchLaws
  import opened DispatchFreeze
  import opened DispatchEffects

  /** A record no further spend is accepted on. */
  predicate NoRoom(a: Acceptance) { a.revoked || a.budgetSpent >= a.dispatch.budgetCeiling }

  function Room(a: Acceptance): int { a.dispatch.budgetCeiling - a.budgetSpent }

  /** Whatever this flight may yet commit, it leaves no room. */
  ghost predicate LeavesNoRoom(db: Db, id: string, f: Flight) {
    f.Loaded? && f.id == id ==>
      forall b :: PossibleBinding(db, id, b) && Decide(f.snapshot, b, f.op).Ok? ==> NoRoom(Decide(f.snapshot, b, f.op).value)
  }

  /** The record is revoked or fully spent, and no call in flight could write back one with room. */
  ghost predicate Tight(s: Sys, id: string)
    requires id in s.db.rows
  {
    NoRoom(s.db.rows[id]) && forall c :: c in s.flights ==> LeavesNoRoom(s.db, id, s.flights[c])
  }

  /** What the successful spends may add up to; a negative ceiling admits none. */
  function Limit(a: Acceptance): int { if a.dispatch.budgetCeiling < 0 then 0 else a.dispatch.budgetCeiling }

  ghost predicate NeverSpentAgain(s: Sys, id: string) {
    forall events :: Total(Run(s, events).log, id) == Total(s.log, id)
  }

  ghost predicate WithinForever(s: Sys, id: string, limit: int) {
    forall events :: Total(Run(s, events).log, id) <= limit
  }

  // ---------------------------------------------------------------- tight states stay tight

  lemma NoRoomDecides(a: Acceptance, b: Option<Binding>, op: Op)
    requires NoRoom(a) && Decide(a, b, op).Ok?
    ensures NoRoom(Decide(a, b, op).value)
  {
    DecideFields(a, b, op);
    if a.revoked { RevokedDecides(a, b, op); }
  }

  lemma StillNoRoom(s: Sys, t: Sys, id: string, ch: Change, c: nat)
    requires id in s.db.rows && Tight(s, id) && Follows(s, t, id, ch) && c in t.flights
    ensures LeavesNoRoom(t.db, id, t.flights[c])
  {
    var f := t.flights[c];
    if f.Loaded? && f.id == id {
      forall b | PossibleBinding(t.db, id, b) && Decide(f.snapshot, b, f.op).Ok? ensures NoRoom(Decide(f.snapshot, b, f.op).value) {
        if c in s.flights && s.flights[c] == f {
          assert LeavesNoRoom(s.db, id, f);
          BindingsOnlySettle(s.db, t.db, id, b);
        } else {
          NoRoomDecides(f.snapshot, b, f.op);
        }
      }
    }
  }

  lemma TightMove(s: Sys, t: Sys, id: string, ch: Change)
    requires id in s.db.rows && NoRoom(s.db.rows[id]) && Moves(s, t, id, ch) && !ch.Charged?
    requires ch.Committed? ==> NoRoom(ch.record)
    ensures id in t.db.rows && NoRoom(t.db.rows[id]) && Total(t.log, id) == Total(s.log, id)
  {
    if |t.log| > |s.log| {
      assert t.log == s.log + [t.log[|s.log|]];
      TotalSnoc(s.log, t.log[|s.log|], id);
    } else {
      assert t.log == s.log;
    }
  }

  lemma TightStep(s: Sys, e: Event, id: string)
    requires Inv(s) && id in s.db.rows && Tight(s, id)
    ensures id in Step(s, e).db.rows && Tight(Step(s, e), id) && Total(Step(s, e).log, id) == Total(s.log, id)
  {
    StepFollows(s, e, id);
    if Commits(s, e, id) {
      assert LeavesNoRoom(s.db, id, s.flights[e.c]);
      assert PossibleBinding(s.db, id, BindingOf(s.db, id));
    }
    TightMove(s, Step(s, e), id, ChangeOf(s, e, id));
    forall c | c in Step(s, e).flights ensures LeavesNoRoom(Step(s, e).db, id, Step(s, e).flights[c]) {
      StillNoRoom(s, Step(s, e), id, ChangeOf(s, e, id), c);
    }
  }

  lemma {:induction false} TightRun(s: Sys, events: seq<Event>, id: string)
    requires Inv(s) && id in s.db.rows && Tight(s, id)
    ensures id in Run(s, events).db.rows && Tight(Run(s, events), id) && Total(Run(s, events).log, id) == Total(s.log, id)
  {
    if events != [] {
      TightRun(s, events[..|events| - 1], id);
      RunFromKeeps(s, events[..|events| - 1]);
      TightStep(Run(s, events[..|events| - 1]), events[|events| - 1], id);
    }
  }

  // ---------------------------------------------------------------- any other state can overspend

  /** A lawful state whose record can still be charged exactly `room`. */
  ghost predicate HasRoom(s: Sys, id: string, d: Dispatch, room: int) {
    && Inv(s) && id in s.db.rows && s.db.rows[id].dispatch == d && !s.db.rows[id].revoked
    && room > 0 && s.db.rows[id].budgetSpent == d.budgetCeiling - room
  }

  /** One round: load a completion, spend all the room, save the completion over the spend. */
  lemma Round(s: Sys, id: string, d: Dispatch, room: int) returns (events: seq<Event>, t: Sys)
    requires HasRoom(s, id, d, room)
    ensures t == Run(s, events) && HasRoom(t, id, d, room) && Total(t.log, id) == Total(s.log, id) + room
  {
    var row, op := s.db.rows[id], Complete(Succeeded);
    var c := FreeFlight(s.flights.Keys);
    LoadStep(s, c, id, op);
    var s1 := Step(s, OpLoad(c, id, op));
    SpendStep(s1, id, room);
    var s2 := Step(s1, SpendNow(id, room));
    SaveStep(s2, c, id, row.(outcome := Succeeded));
    t := Step(s2, OpSave(c));
    TotalSnoc(s.log, Spent(id, room), id);
    TotalSnoc(s2.log, Done(id, op), id);
    events := RunThree(s, OpLoad(c, id, op), SpendNow(id, room), OpSave(c));
  }

  lemma RunThree(s: Sys, a: Event, b: Event, c: Event) returns (events: seq<Event>)
    ensures Run(s, events) == Step(Step(Step(s, a), b), c)
  {
    events := [a, b] + [c];
    RunTwo(s, a, b);
    RunConcat(s, [a, b], [c]);
    RunOne(Step(Step(s, a), b), c);
  }

  /** From x some run gains `room` and is back in a state of the same kind. */
  ghost predicate Advances(kind: Sys -> bool, total: Sys -> int, room: int, x: Sys) {
    exists events :: kind(Run(x, events)) && total(Run(x, events)) == total(x) + room
  }

  /** What can be gained once and again can be gained any number of times. */
  lemma {:induction false} Repeat(kind: Sys -> bool, total: Sys -> int, room: int, s: Sys, n: nat) returns (events: seq<Event>)
    requires kind(s) && forall x :: kind(x) ==> Advances(kind, total, room, x)
    ensures kind(Run(s, events)) && total(Run(s, events)) == total(s) + Times(n, room)
  {
    if n == 0 {
      events := [];
      assert Run(s, []) == s;
    } else {
      var first := Repeat(kind, total, room, s, n - 1);
      var mid := Run(s, first);
      assert Advances(kind, total, room, mid);
      var last :| kind(Run(mid, last)) && total(Run(mid, last)) == total(mid) + room;
      RunConcat(s, first, last);
      events := first + last;
    }
  }

  /** Any number of rounds spends the same room that often. */
  lemma Rounds(s: Sys, id: string, d: Dispatch, room: int, n: nat) returns (events: seq<Event>)
    requires HasRoom(s, id, d, room)
    ensures HasRoom(Run(s, events), id, d, room) && Total(Run(s, events).log, id) == Total(s.log, id) + Times(n, room)
  {
    var kind, total := (x: Sys) => HasRoom(x, id, d, room), (x: Sys) => Total(x.log, id);
    forall x | kind(x) ensures Advances(kind, total, room, x) {
      var round, t := Round(x, id, d, room);
      assert kind(Run(x, round)) && total(Run(x, round)) == total(x) + room;
    }
    events := Repeat(kind, total, room, s, n);
    assert kind(Run(s, events)) && total(Run(s, events)) == total(s) + Times(n, room);
  }

  function Times(n: nat, room: int): int { if n == 0 then 0 else Times(n - 1, room) + room }

  lemma {:induction false} TimesIsProduct(n: nat, room: int)
    ensures Times(n, room) == n * room && (room >= 1 ==> Times(n, room) >= n)
  {
    if n > 0 { TimesIsProduct(n - 1, room); }
  }

  /** From a record with room the sum of successful spends passes any bound. */
  lemma RoomOverspends(s: Sys, id: string, bound: int) returns (events: seq<Event>)
    requires Inv(s) && id in s.db.rows && !NoRoom(s.db.rows[id])
    ensures Total(Run(s, events).log, id) > bound
  {
    var gap := bound - Total(s.log, id);
    var n: nat := if gap < 0 then 0 else gap + 1;
    events := Rounds(s, id, s.db.rows[id].dispatch, Room(s.db.rows[id]), n);
    TimesIsProduct(n, Room(s.db.rows[id]));
  }

  /** A flight that could write back a record with room opens the way to the same. */
  lemma LooseOverspends(s: Sys, id: string, c: nat, bound: int) returns (events: seq<Event>)
    requires Inv(s) && id in s.db.rows && c in s.flights && !LeavesNoRoom(s.db, id, s.flights[c])
    ensures Total(Run(s, events).log, id) > bound
  {
    var f := s.flights[c];
    var b :| PossibleBinding(s.db, id, b) && Decide(f.snapshot, b, f.op).Ok? && !NoRoom(Decide(f.snapshot, b, f.op).value);
    var first := FlightCommits(s, id, c, b);
    var more := RoomOverspends(Run(s, first), id, bound);
    RunConcat(s, first, more);
    events := first + more;
  }

  lemma UntightOverspends(s: Sys, id: string, bound: int) returns (events: seq<Event>)
    requires Inv(s) && id in s.db.rows && !Tight(s, id)
    ensures Total(Run(s, events).log, id) > bound
  {
    if !NoRoom(s.db.rows[id]) {
      events := RoomOverspends(s, id, bound);
    } else {
      var c :| c in s.flights && !LeavesNoRoom(s.db, id, s.flights[c]);
      events := LooseOverspends(s, id, c, bound);
    }
  }

  /** No continuation spends again, if and only if the state is tight. */
  lemma NoMoreSpendsIff(s: Sys, id: string)
    requires Inv(s) && id in s.db.rows
    ensures NeverSpentAgain(s, id) <==> Tight(s, id)
  {
    if Tight(s, id) {
      forall events ensures Total(Run(s, events).log, id) == Total(s.log, id) { TightRun(s, events, id); }
    } else {
      var events := UntightOverspends(s, id, Total(s.log, id));
    }
  }

  /** Every continuation keeps the sum of successful spends within the ceiling, if and only if it is
      within now and the state is tight: a record that still has room is never safe. */
  lemma WithinCeilingIff(s: Sys, id: string)
    requires Inv(s) && id in s.db.rows
    ensures WithinForever(s, id, Limit(s.db.rows[id])) <==> Total(s.log, id) <= Limit(s.db.rows[id]) && Tight(s, id)
  {
    if Tight(s, id) {
      forall events ensures Total(Run(s, events).log, id) == Total(s.log, id) { TightRun(s, events, id); }
      assert Run(s, []) == s;
    } else {
      var events := UntightOverspends(s, id, Limit(s.db.rows[id]));
    }
  }

  lemma {:induction false} ReachesRun(s: Sys, events: seq<Event>)
    requires Reachable(s)
    ensures Reachable(Run(s, events))
  {
    if events != [] {
      ReachesRun(s, events[..|events| - 1]);
      ReachesStep(Run(s, events[..|events| - 1]), events[|events| - 1]);
    }
  }

  /** For any dispatch with a positive ceiling and any n: a reachable state in which the ceiling was
      successfully spent n times over. */
  lemma CeilingCanBePassed(d: Dispatch, n: nat) returns (s: Sys, id: string)
    requires Bound(d) && d.causalId != "" && d.budgetCeiling > 0
    ensures Reachable(s) && id in s.db.rows && s.db.rows[id].dispatch == d && Total(s.log, id) == n * d.budgetCeiling
  {
    var s0, x := SampleAccepted(d);
    id := x;
    var events := Rounds(s0, id, d, d.budgetCeiling, n);
    TimesIsProduct(n, d.budgetCeiling);
    s := Run(s0, events);
    ReachesRun(s0, events);
  }
}
