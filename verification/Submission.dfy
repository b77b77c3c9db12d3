/** Submitting a Work across lost requests and lost answers: the two retrying clients
    (cmd/works/submission.go, cmd/works-ci/auth.go) and the idempotent server step
    (services/api/api.go, services/work/store/store.go). */
module WorkServer {
  import opened Text

  datatype Stage = Created | Planning | Queued | Later

  /** A stored Work with the creation metadata an idempotent replay is compared against. */
  datatype Row = Row(id: string, key: string, intent: string, queue: bool, stage: Stage)

  type Rows = map<string, Row>

  datatype Request = Request(id: string, key: string, intent: string, queue: bool, valid: bool)

  /** What the handler answers: a status, and the Work it names on success. */
  datatype Response = Response(code: int, work: Option<string>)

  /** id is the primary key and idempotency_key is UNIQUE where present. */
  ghost predicate KeysUnique(rows: Rows) {
    && (forall id :: id in rows ==> rows[id].id == id)
    && (forall a, b :: a in rows && b in rows && rows[a].key == rows[b].key != "" ==> a == b)
  }

  ghost function FindKey(rows: Rows, key: string): Option<Row> {
    if id :| id in rows && rows[id].key == key then Some(rows[id]) else None
  }

  predicate HasKey(rows: Rows, key: string) { exists id :: id in rows && rows[id].key == key }

  /** Anything other clients may do to the table meanwhile; no transition leads back to CREATED. */
  datatype Other = Insert(row: Row) | Advance(id: string, to: Stage)

  function ApplyOther(rows: Rows, o: Other): Rows {
    match o
    case Insert(row) =>
      if row.id in rows || (row.key != "" && HasKey(rows, row.key)) then rows else rows[row.id := row]
    case Advance(id, to) => if id in rows && !to.Created? then rows[id := rows[id].(stage := to)] else rows
  }

  function ApplyOthers(rows: Rows, others: seq<Other>): Rows {
    if others == [] then rows else ApplyOther(ApplyOthers(rows, others[..|others| - 1]), others[|others| - 1])
  }

  predicate Matches(row: Row, req: Request) { row.intent == req.intent && row.queue == req.queue }

  /** `UpdateState` to QUEUED: its own transaction, which only CREATED and PLANNING allow. */
  function QueueNow(rows: Rows, id: string): Rows {
    if id in rows && (rows[id].stage.Created? || rows[id].stage.Planning?) then rows[id := rows[id].(stage := Queued)] else rows
  }

  predicate NeedsRepair(row: Row) { row.queue && row.stage.Created? }

  /** A replay of a key already bound, read as `row` before the table became `rows`: the canonical
      Work, with a missing queue transition completed, or a conflict. `queueFails` says that the
      store fails on the transition; that is told only if the Work is still CREATED. */
  ghost function Replay(rows: Rows, row: Row, req: Request, queueFails: bool): (Rows, Response) {
    if !Matches(row, req) then (rows, Response(409, None))
    else if !NeedsRepair(row) then (rows, Response(200, Some(row.id)))
    else if !queueFails then (QueueNow(rows, row.id), Response(200, Some(row.id)))
    else if row.id in rows && rows[row.id].stage.Created? then (rows, Response(500, None))
    else (rows, Response(200, Some(row.id)))
  }

  /** What other clients do between the handler's statements: before the insert transaction,
      before the canonical re-read, and before the queue transition. */
  datatype Gaps = Gaps(insert: seq<Other>, reread: seq<Other>, queue: seq<Other>)

  /** After the insert transaction of a request with a key: re-read the canonical Work and answer
      for it; 201 when it carries the id this request asked for. */
  ghost function Reread(rows: Rows, req: Request, id: string, gaps: Gaps, queueFails: bool): (Rows, Response) {
    var seen := ApplyOthers(rows, gaps.reread);
    var row := FindKey(seen, req.key);
    if row.None? then (seen, Response(500, None))
    else
      var (after, answer) := Replay(ApplyOthers(seen, gaps.queue), row.value, req, queueFails);
      (after, if answer.code == 200 && row.value.id == id then answer.(code := 201) else answer)
  }

  /** `createWork`. The last component says whether this request inserted a row. */
  ghost function Handle(rows: Rows, req: Request, gaps: Gaps, freshId: string, queueFails: bool): (Rows, Response, bool) {
    var known := FindKey(rows, req.key);
    if req.key != "" && known.Some? then
      var (after, answer) := Replay(ApplyOthers(rows, gaps.queue), known.value, req, queueFails);
      (after, answer, false)
    else if !req.valid then (rows, Response(400, None), false)
    else
      var id := if req.id != "" then req.id else freshId;
      var now := ApplyOthers(rows, gaps.insert);
      var made := now[id := Row(id, req.key, req.intent, req.queue, Created)];
      if req.key != "" && FindKey(now, req.key).Some? then
        var (after, answer) := Reread(now, req, id, gaps, queueFails);
        (after, answer, false)
      else if id in now then (now, Response(500, None), false)
      else if req.key != "" then
        var (after, answer) := Reread(made, req, id, gaps, queueFails);
        (after, answer, true)
      else
        var later := ApplyOthers(made, gaps.queue);
        (if req.queue && !queueFails then QueueNow(later, id) else later, Response(201, Some(id)), true)
  }

  // ---------------------------------------------------------------- what every step keeps

  /** Rows are never removed, keep their id, key and intent, and never return to CREATED. */
  ghost predicate Extends(a: Rows, b: Rows) {
    forall id :: id in a ==>
      id in b && b[id].(stage := a[id].stage) == a[id] && (b[id].stage.Created? ==> a[id].stage.Created?)
  }

  lemma ExtendsTransitive(a: Rows, b: Rows, c: Rows)
    requires Extends(a, b) && Extends(b, c)
    ensures Extends(a, c)
  {
  }

  lemma OtherKeeps(rows: Rows, o: Other)
    requires KeysUnique(rows)
    ensures KeysUnique(ApplyOther(rows, o)) && Extends(rows, ApplyOther(rows, o))
  {
  }

  lemma {:induction false} OthersKeep(rows: Rows, others: seq<Other>)
    requires KeysUnique(rows)
    ensures KeysUnique(ApplyOthers(rows, others)) && Extends(rows, ApplyOthers(rows, others))
  {
    if others != [] {
      var before := ApplyOthers(rows, others[..|others| - 1]);
      OthersKeep(rows, others[..|others| - 1]);
      OtherKeeps(before, others[|others| - 1]);
      ExtendsTransitive(rows, before, ApplyOthers(rows, others));
    }
  }

  lemma QueueKeeps(rows: Rows, id: string)
    requires KeysUnique(rows)
    ensures KeysUnique(QueueNow(rows, id)) && Extends(rows, QueueNow(rows, id))
  {
  }

  lemma InsertKeeps(rows: Rows, row: Row)
    requires KeysUnique(rows) && row.id !in rows && (row.key != "" ==> FindKey(rows, row.key).None?)
    ensures KeysUnique(rows[row.id := row]) && Extends(rows, rows[row.id := row])
  {
  }

  lemma ReplayKeeps(seen: Rows, row: Row, rows: Rows, req: Request, queueFails: bool)
    requires row.id in seen && seen[row.id] == row && row.key == req.key && Extends(seen, rows) && KeysUnique(rows)
    ensures var (after, answer) := Replay(rows, row, req, queueFails);
      KeysUnique(after) && Extends(rows, after) && Names(after, req, answer)
  {
    QueueKeeps(rows, row.id);
  }

  /** A success names a stored Work of that key, of the same intent when there is a key, and
      actually queued when a keyed request asked for it. */
  ghost predicate Names(rows: Rows, req: Request, r: Response) {
    r.work.Some? ==>
      && r.work.value in rows && rows[r.work.value].key == req.key && Matches(rows[r.work.value], req)
      && (req.key != "" && req.queue ==> !rows[r.work.value].stage.Created?)
  }

  lemma FoundIsRow(rows: Rows, key: string)
    requires KeysUnique(rows) && FindKey(rows, key).Some?
    ensures var row := FindKey(rows, key).value; row.id in rows && rows[row.id] == row && row.key == key
  {
  }

  /** The re-read finds the key, since rows are never removed, and answers for its Work. */
  lemma RereadKeeps(rows: Rows, req: Request, id: string, gaps: Gaps, queueFails: bool)
    requires KeysUnique(rows) && req.key != "" && HasKey(rows, req.key)
    ensures var (after, answer) := Reread(rows, req, id, gaps, queueFails);
      && KeysUnique(after) && Extends(rows, after) && Names(after, req, answer)
      && answer.code != 401 && HasKey(after, req.key)
  {
    var seen := ApplyOthers(rows, gaps.reread);
    var later := ApplyOthers(seen, gaps.queue);
    OthersKeep(rows, gaps.reread);
    OthersKeep(seen, gaps.queue);
    KeyStays(rows, seen, req.key);
    FoundIsRow(seen, req.key);
    var row := FindKey(seen, req.key).value;
    ReplayKeeps(seen, row, later, req, queueFails);
    var after := Replay(later, row, req, queueFails).0;
    ExtendsTransitive(rows, seen, later);
    ExtendsTransitive(rows, later, after);
    KeyStays(rows, after, req.key);
  }

  lemma KeyStays(a: Rows, b: Rows, key: string)
    requires Extends(a, b) && HasKey(a, key)
    ensures HasKey(b, key)
  {
    var id :| id in a && a[id].key == key;
    assert b[id].key == key;
  }

  lemma KeylessKeeps(made: Rows, req: Request, id: string, gaps: Gaps, queueFails: bool)
    requires KeysUnique(made) && id in made && made[id].key == req.key == "" && Matches(made[id], req)
    ensures var later := ApplyOthers(made, gaps.queue);
      var after := if req.queue && !queueFails then QueueNow(later, id) else later;
      KeysUnique(after) && Extends(made, after) && Names(after, req, Response(201, Some(id))) && HasKey(after, req.key)
  {
    var later := ApplyOthers(made, gaps.queue);
    OthersKeep(made, gaps.queue);
    QueueKeeps(later, id);
    if req.queue && !queueFails { ExtendsTransitive(made, later, QueueNow(later, id)); }
    assert later[id].key == "";
    KeyStays(made, if req.queue && !queueFails then QueueNow(later, id) else later, req.key);
  }

  /** Every request keeps keys unique, removes nothing, never answers 401, names in its successes a
      stored Work of its key and intent, and leaves its key bound when it inserted a row; whatever
      other clients do between any two of its statements. */
  lemma HandleKeeps(rows: Rows, req: Request, gaps: Gaps, freshId: string, queueFails: bool)
    requires KeysUnique(rows)
    ensures var (after, answer, created) := Handle(rows, req, gaps, freshId, queueFails);
      && KeysUnique(after) && Extends(rows, after) && Names(after, req, answer)
      && answer.code != 401 && (created ==> HasKey(after, req.key))
  {
    var known := FindKey(rows, req.key);
    if req.key != "" && known.Some? {
      FoundIsRow(rows, req.key);
      OthersKeep(rows, gaps.queue);
      var later := ApplyOthers(rows, gaps.queue);
      ReplayKeeps(rows, known.value, later, req, queueFails);
      ExtendsTransitive(rows, later, Replay(later, known.value, req, queueFails).0);
    } else if req.valid {
      OthersKeep(rows, gaps.insert);
      AfterInsert(rows, ApplyOthers(rows, gaps.insert), req, gaps, if req.id != "" then req.id else freshId, queueFails);
    }
  }

  lemma AfterInsert(rows: Rows, now: Rows, req: Request, gaps: Gaps, id: string, queueFails: bool)
    requires KeysUnique(now) && Extends(rows, now)
    ensures req.key != "" && FindKey(now, req.key).Some? ==>
      var (after, answer) := Reread(now, req, id, gaps, queueFails);
      KeysUnique(after) && Extends(rows, after) && Names(after, req, answer) && answer.code != 401
    ensures !(req.key != "" && FindKey(now, req.key).Some?) && id !in now ==>
      var made := now[id := Row(id, req.key, req.intent, req.queue, Created)];
      var later := ApplyOthers(made, gaps.queue);
      var (after, answer) := if req.key != "" then Reread(made, req, id, gaps, queueFails)
        else (if req.queue && !queueFails then QueueNow(later, id) else later, Response(201, Some(id)));
      && KeysUnique(after) && Extends(rows, after) && Names(after, req, answer)
      && answer.code != 401 && HasKey(after, req.key)
  {
    if req.key != "" && FindKey(now, req.key).Some? {
      FoundIsRow(now, req.key);
      assert HasKey(now, req.key);
      RereadKeeps(now, req, id, gaps, queueFails);
      ExtendsTransitive(rows, now, Reread(now, req, id, gaps, queueFails).0);
    } else if id !in now {
      var row := Row(id, req.key, req.intent, req.queue, Created);
      var made := now[id := row];
      InsertKeeps(now, row);
      ExtendsTransitive(rows, now, made);
      assert made[id].key == req.key;
      if req.key != "" {
        RereadKeeps(made, req, id, gaps, queueFails);
        ExtendsTransitive(rows, made, Reread(made, req, id, gaps, queueFails).0);
      } else {
        KeylessKeeps(made, req, id, gaps, queueFails);
        var later := ApplyOthers(made, gaps.queue);
        ExtendsTransitive(rows, made, if req.queue && !queueFails then QueueNow(later, id) else later);
      }
    }
  }

  // ---------------------------------------------------------------- the imperative form

  lemma FoundIsUnique(rows: Rows, key: string, id: string)
    requires KeysUnique(rows) && key != "" && id in rows && rows[id].key == key
    ensures FindKey(rows, key) == Some(rows[id])
  {
  }

  // ---------------------------------------------------------------- what is answered

  /** Under a key already bound, the answer is a conflict exactly when the intent or the queue
      decision differs, and otherwise the canonical Work, unless its pending queueing fails. */
  lemma BoundKeyAnswers(rows: Rows, req: Request, gaps: Gaps, freshId: string, queueFails: bool, id: string)
    requires KeysUnique(rows) && req.key != "" && id in rows && rows[id].key == req.key
    ensures var (after, answer, made) := Handle(rows, req, gaps, freshId, queueFails);
      && !made
      && (answer == Response(409, None) <==> rows[id].intent != req.intent || rows[id].queue != req.queue)
      && (answer.code != 409 ==> answer in {Response(200, Some(id)), Response(500, None)})
      && (answer.code == 500 ==> queueFails && req.queue)
  {
    FoundIsUnique(rows, req.key, id);
  }

  const QUIET := Gaps([], [], [])

  /** Alone with the table, a request under an unbound key is refused when invalid or when its id
      is taken, and otherwise inserts exactly its own row, queued if asked. */
  lemma FreshKeyAnswers(rows: Rows, req: Request, freshId: string, queueFails: bool)
    requires KeysUnique(rows) && (req.key != "" ==> !HasKey(rows, req.key))
    ensures var (after, answer, made) := Handle(rows, req, QUIET, freshId, queueFails);
      var id := if req.id == "" then freshId else req.id;
      && (answer == Response(400, None) <==> !req.valid)
      && (made <==> req.valid && id !in rows)
      && (!made ==> after == rows && answer.work.None?)
      && (made ==> after == rows[id := Row(id, req.key, req.intent, req.queue, if req.queue && !queueFails then Queued else Created)])
      && (made ==> answer == if req.key != "" && req.queue && queueFails then Response(500, None) else Response(201, Some(id)))
  {
    var id := if req.id == "" then freshId else req.id;
    if req.valid && id !in rows && req.key != "" {
      OwnRow(rows, req, id, queueFails, rows[id := Row(id, req.key, req.intent, req.queue, Created)]);
    }
  }

  /** Alone, the re-read after an insert finds the row just inserted. */
  lemma OwnRow(rows: Rows, req: Request, id: string, queueFails: bool, made: Rows)
    requires KeysUnique(rows) && req.key != "" && !HasKey(rows, req.key) && id !in rows
    requires made == rows[id := Row(id, req.key, req.intent, req.queue, Created)]
    ensures Reread(made, req, id, QUIET, queueFails) ==
      (rows[id := Row(id, req.key, req.intent, req.queue, if req.queue && !queueFails then Queued else Created)],
       if req.queue && queueFails then Response(500, None) else Response(201, Some(id)))
  {
    InsertKeeps(rows, made[id]);
    FoundIsUnique(made, req.key, id);
    assert QueueNow(made, id) == rows[id := made[id].(stage := Queued)];
  }

  class Server {
    var rows: Rows

    constructor ()
      ensures rows == map[] && KeysUnique(rows)
    {
      rows := map[];
    }

    method Lookup(key: string) returns (row: Option<Row>)
      requires KeysUnique(rows) && key != ""
      ensures row == FindKey(rows, key)
    {
      var rest := rows.Keys;
      while rest != {}
        invariant rest <= rows.Keys
        invariant forall id :: id in rows && id !in rest ==> rows[id].key != key
        decreases rest
      {
        var id :| id in rest;
        if rows[id].key == key {
          FoundIsUnique(rows, key, id);
          return Some(rows[id]);
        }
        rest := rest - {id};
      }
      row := None;
    }

    /** Other requests taking effect between two statements of the handler. */
    method Interleave(others: seq<Other>)
      requires KeysUnique(rows)
      modifies this
      ensures rows == ApplyOthers(old(rows), others) && KeysUnique(rows)
    {
      OthersKeep(rows, others);
      rows := ApplyOthers(rows, others);
    }

    /** The comparison with the stored intent, then `reconcileReplayQueue`. `row` was read earlier. */
    method AnswerReplay(row: Row, req: Request, others: seq<Other>, queueFails: bool) returns (answer: Response)
      requires KeysUnique(rows)
      modifies this
      ensures (rows, answer) == Replay(ApplyOthers(old(rows), others), row, req, queueFails) && KeysUnique(rows)
    {
      Interleave(others);
      QueueKeeps(rows, row.id);
      if row.intent != req.intent || row.queue != req.queue { return Response(409, None); }
      if row.queue && row.stage.Created? {
        if !queueFails {
          rows := QueueNow(rows, row.id);
        } else if row.id in rows && rows[row.id].stage.Created? {
          return Response(500, None);
        }
      }
      answer := Response(200, Some(row.id));
    }

    method AnswerCanonical(req: Request, id: string, gaps: Gaps, queueFails: bool) returns (answer: Response)
      requires KeysUnique(rows) && req.key != ""
      modifies this
      ensures (rows, answer) == Reread(old(rows), req, id, gaps, queueFails) && KeysUnique(rows)
    {
      Interleave(gaps.reread);
      var canonical := Lookup(req.key);
      if canonical.None? { return Response(500, None); }
      answer := AnswerReplay(canonical.value, req, gaps.queue, queueFails);
      if answer.code == 200 && canonical.value.id == id { answer := answer.(code := 201); }
    }

    method CreateWork(req: Request, gaps: Gaps, freshId: string, queueFails: bool)
      returns (answer: Response, created: bool)
      requires KeysUnique(rows)
      modifies this
      ensures KeysUnique(rows) && (rows, answer, created) == Handle(old(rows), req, gaps, freshId, queueFails)
    {
      HandleKeeps(rows, req, gaps, freshId, queueFails);
      created := false;
      if req.key != "" {
        var existing := Lookup(req.key);
        if existing.Some? {
          answer := AnswerReplay(existing.value, req, gaps.queue, queueFails);
          return;
        }
      }
      if !req.valid { return Response(400, None), false; }
      var id := if req.id == "" then freshId else req.id;
      Interleave(gaps.insert);
      if req.key != "" {
        var winner := Lookup(req.key);
        if winner.Some? {
          answer := AnswerCanonical(req, id, gaps, queueFails);
          return;
        }
      }
      if id in rows { return Response(500, None), false; }
      created := true;
      var row := Row(id, req.key, req.intent, req.queue, Created);
      InsertKeeps(rows, row);
      rows := rows[id := row];
      if req.key != "" {
        answer := AnswerCanonical(req, id, gaps, queueFails);
        return;
      }
      Interleave(gaps.queue);
      if req.queue && !queueFails { rows := QueueNow(rows, id); }
      answer := Response(201, Some(id));
    }
  }
}

module Clients {
  import opened Text
  import opened WorkServer

  // ---------------------------------------------------------------- the network

  /** What becomes of one HTTP request. */
  datatype Reach =
    | Dropped                                                        // never arrives
    | Unauthorized                                                   // 401 before the handler
    | Handled(before: seq<Other>, gaps: Gaps, freshId: string, queueFails: bool)

  /** What becomes of its answer; a gateway may substitute a transient status. */
  datatype Return = Delivered(readable: bool) | Lost | Truncated | Substituted(code: int)

  datatype Fate = Fate(reach: Reach, back: Return)

  predicate Retryable(code: int) { code == 429 || code >= 500 }

  predicate Plausible(f: Fate) {
    && (f.back.Substituted? ==> Retryable(f.back.code))
    && (f.reach.Dropped? ==> !f.back.Delivered? && !f.back.Truncated?)
  }

  /** What the client sees. */
  datatype Outcome = TransportError | ReadError | Status(code: int, work: Option<string>, readable: bool)

  datatype World = World(rows: Rows, created: nat)

  function Seen(back: Return, r: Response): Outcome {
    match back
    case Delivered(readable) => Status(r.code, r.work, readable)
    case Lost => TransportError
    case Truncated => ReadError
    case Substituted(code) => Status(code, None, false)
  }

  /** One request against the world. */
  ghost function Send(w: World, req: Request, f: Fate): (World, Outcome) {
    match f.reach
    case Dropped => (w, Seen(f.back, Response(503, None)))
    case Unauthorized => (w, Seen(f.back, Response(401, None)))
    case Handled(before, gaps, freshId, queueFails) =>
      var (rows, answer, made) := Handle(ApplyOthers(w.rows, before), req, gaps, freshId, queueFails);
      (World(rows, w.created + if made then 1 else 0), Seen(f.back, answer))
  }

  /** The world after the first n requests. */
  ghost function Play(w: World, req: Request, fates: nat -> Fate, n: nat): World {
    if n == 0 then w else Send(Play(w, req, fates, n - 1), req, fates(n - 1)).0
  }

  ghost function Answer(w: World, req: Request, fates: nat -> Fate, i: nat): Outcome {
    Send(Play(w, req, fates, i), req, fates(i)).1
  }

  // ---------------------------------------------------------------- the retry law

  /** keyed: an idempotency key is present; renewable: enrolment allows renewal; renews: renewing works. */
  datatype Config = Config(keyed: bool, renewable: bool, renews: bool) {
    function Max(): nat { if keyed then 3 else 1 }
  }

  datatype Progress = Stop | Go(spent: nat, renewed: bool)

  /** What follows an answer, when `spent` submissions (this one included) count against the budget. */
  function Next(c: Config, spent: nat, renewed: bool, o: Outcome): Progress
    requires spent > 0
  {
    if o.TransportError? || o.ReadError? then
      if c.keyed && spent < c.Max() then Go(spent, renewed) else Stop
    else if o.code == 401 && c.renewable && !renewed then
      if c.renews then Go(spent - 1, true) else Stop
    else if c.keyed && Retryable(o.code) && spent < c.Max() then Go(spent, renewed)
    else Stop
  }

  /** Where the law stands after these answers. */
  function After(c: Config, answers: seq<Outcome>): Progress {
    if answers == [] then Go(0, false)
    else match After(c, answers[..|answers| - 1])
      case Stop => Stop
      case Go(spent, renewed) => Next(c, spent + 1, renewed, answers[|answers| - 1])
  }

  /** A complete exchange: the law asked for every request but not for another one. */
  predicate Transcript(c: Config, answers: seq<Outcome>) {
    answers != [] && After(c, answers[..|answers| - 1]).Go? && After(c, answers).Stop?
  }

  function Count401(answers: seq<Outcome>): nat {
    if answers == [] then 0
    else Count401(answers[..|answers| - 1]) + if answers[|answers| - 1].Status? && answers[|answers| - 1].code == 401 then 1 else 0
  }

  /** While the exchange goes on, the budget counts exactly the answers that were not the one renewed 401. */
  lemma {:induction false} OngoingShape(c: Config, answers: seq<Outcome>)
    requires After(c, answers).Go?
    ensures var p := After(c, answers);
      && |answers| == p.spent + (if p.renewed then 1 else 0) && Count401(answers) == (if p.renewed then 1 else 0)
      && p.spent < c.Max() && (p.renewed ==> c.renewable && c.renews) && (!c.keyed ==> p.spent == 0)
  {
    if answers != [] { OngoingShape(c, answers[..|answers| - 1]); }
  }

  /** At most 3 requests that were not answered 401 with a key, at most 1 without, and at most one
      more request than that in all. */
  lemma TranscriptBound(c: Config, answers: seq<Outcome>)
    requires Transcript(c, answers)
    ensures |answers| - Count401(answers) <= c.Max() && |answers| <= c.Max() + (if c.renewable then 1 else 0)
  {
    OngoingShape(c, answers[..|answers| - 1]);
  }

  /** An exchange under way when another would already be over. */
  lemma {:induction false} NotShorter(c: Config, a: seq<Outcome>, b: seq<Outcome>)
    requires Transcript(c, a) && Transcript(c, b)
    requires forall i :: 0 <= i < |a| && i < |b| ==> a[i] == b[i]
    ensures |a| >= |b|
  {
    var under := b[..|b| - 1];
    if |a| <= |under| { StopSticks(c, a, under); }
  }

  /** Two clients under the same law and the same answers exchange exactly the same requests. */
  lemma {:induction false} TranscriptDetermined(c: Config, a: seq<Outcome>, b: seq<Outcome>)
    requires Transcript(c, a) && Transcript(c, b)
    requires forall i :: 0 <= i < |a| && i < |b| ==> a[i] == b[i]
    ensures a == b
  {
    NotShorter(c, a, b);
    NotShorter(c, b, a);
  }

  lemma {:induction false} StopSticks(c: Config, a: seq<Outcome>, b: seq<Outcome>)
    requires After(c, a).Stop? && |a| <= |b| && forall i :: 0 <= i < |a| ==> a[i] == b[i]
    ensures After(c, b).Stop?
    decreases |b|
  {
    if |a| < |b| { StopSticks(c, a, b[..|b| - 1]); } else { assert a == b; }
  }

  // ---------------------------------------------------------------- the law retries

  /** An answer that leaves open whether the submission took effect, or that is worth repeating. */
  predicate Transient(o: Outcome) { o.TransportError? || o.ReadError? || o.code == 429 || o.code >= 500 }

  /** An answer that ends any exchange: a status that is neither transient nor 401. */
  predicate Settling(o: Outcome) { o.Status? && o.code != 429 && o.code < 500 && o.code != 401 }

  /** The first n answers of a schedule. */
  function Taken(answers: nat -> Outcome, n: nat): seq<Outcome> { seq(n, i requires 0 <= i < n => answers(i)) }

  lemma {:induction false} TransientGoesOn(c: Config, answers: nat -> Outcome, n: nat)
    requires c.keyed && n <= 2 && forall i :: 0 <= i < n ==> Transient(answers(i))
    ensures After(c, Taken(answers, n)) == Go(n, false)
  {
    if n > 0 {
      TransientGoesOn(c, answers, n - 1);
      assert Taken(answers, n)[..n - 1] == Taken(answers, n - 1);
    }
  }

  /** A keyed client that meets transient answers goes on until the first settling one, within its
      three requests, and ends with that answer. */
  lemma EndsAtFirstSettled(c: Config, answers: nat -> Outcome, sent: seq<Outcome>, k: nat)
    requires c.keyed && k < 3 && Settling(answers(k)) && forall i :: 0 <= i < k ==> Transient(answers(i))
    requires Transcript(c, sent) && AnsweredBy(answers, sent)
    ensures |sent| == k + 1 && sent[k] == answers(k)
  {
    TransientGoesOn(c, answers, k);
    var whole := Taken(answers, k + 1);
    assert whole[..k] == Taken(answers, k);
    TranscriptDetermined(c, sent, whole);
  }

  /** And it sends all three when none of them settles. */
  lemma GivesUpAfterThree(c: Config, answers: nat -> Outcome, sent: seq<Outcome>)
    requires c.keyed && forall i :: 0 <= i < 3 ==> Transient(answers(i))
    requires Transcript(c, sent) && AnsweredBy(answers, sent)
    ensures |sent| == 3
  {
    TransientGoesOn(c, answers, 2);
    var whole := Taken(answers, 3);
    assert whole[..2] == Taken(answers, 2);
    TranscriptDetermined(c, sent, whole);
  }

  /** Without a key nothing but the one renewed 401 is ever repeated. */
  lemma KeylessSendsOnce(c: Config, answers: nat -> Outcome, sent: seq<Outcome>)
    requires !c.keyed && Transcript(c, sent) && AnsweredBy(answers, sent)
    requires !(answers(0).Status? && answers(0).code == 401)
    ensures |sent| == 1
  {
    assert Taken(answers, 1)[..0] == [];
    TranscriptDetermined(c, sent, Taken(answers, 1));
  }

  /** A 401 is renewed once, if renewal works, and costs nothing: the exchange starts over. */
  lemma RenewalIsFree(c: Config, answers: nat -> Outcome)
    requires c.renewable && c.renews && answers(0).Status? && answers(0).code == 401
    ensures After(c, Taken(answers, 1)) == Go(0, true)
  {
    assert Taken(answers, 1)[..0] == [];
  }

  /** Not being able to renew and failing to renew end an exchange at the same answer. */
  lemma {:induction false} SameLaw(a: Config, b: Config, answers: seq<Outcome>)
    requires a.keyed == b.keyed && (a.renewable && a.renews <==> b.renewable && b.renews)
    ensures After(a, answers) == After(b, answers)
  {
    if answers != [] { SameLaw(a, b, answers[..|answers| - 1]); }
  }

  // ---------------------------------------------------------------- the two clients

  datatype Cause = AmbiguousTransport | AmbiguousRead | AuthRenewal | TransientStatus | Given(name: string)

  function CauseOf(o: Outcome): Cause {
    match o
    case TransportError => AmbiguousTransport
    case ReadError => AmbiguousRead
    case Status(code, _, _) => if code == 401 then AuthRenewal else TransientStatus
  }

  datatype Submitted = Answered(o: Outcome) | NotRetried(o: Outcome) | GaveUp(o: Outcome) | RenewFailed(o: Outcome)
    | Rejected(o: Outcome) | Undecodable(o: Outcome) | KeyRequired | Exhausted

  /** How a client treats a final status: as it is, or with anything but 200 and 201, and a wanted
      body that does not decode, as errors. */
  datatype Manner = Lenient | Strict(wantsBody: bool)

  function Final(manner: Manner, o: Outcome): Submitted
    requires o.Status?
  {
    if manner.Lenient? then Answered(o)
    else if o.code != 200 && o.code != 201 then Rejected(o)
    else if manner.wantsBody && !o.readable then Undecodable(o)
    else Answered(o)
  }

  /** What the caller is told about the last answer; never the trailing "exhausted" error. */
  ghost predicate Reported(c: Config, manner: Manner, sent: seq<Outcome>, r: Submitted)
    requires Transcript(c, sent)
  {
    var o := sent[|sent| - 1];
    r == Told(c, manner, After(c, sent[..|sent| - 1]).renewed, o)
  }

  function Told(c: Config, manner: Manner, renewed: bool, o: Outcome): Submitted {
    if !o.Status? then (if c.keyed then GaveUp(o) else NotRetried(o))
    else if o.code == 401 && c.renewable && !renewed then RenewFailed(o)
    else Final(manner, o)
  }

  /** The cause the request after these answers carries: the first recovery cause sticks. */
  function Carried(initial: Option<Cause>, answers: seq<Outcome>): Option<Cause> {
    if answers == [] || initial.Some? then initial else Some(CauseOf(answers[0]))
  }

  ghost predicate CausesStick(initial: Option<Cause>, answers: seq<Outcome>, causes: seq<Option<Cause>>) {
    |causes| == |answers| && forall i :: 0 <= i < |causes| ==> causes[i] == Carried(initial, answers[..i])
  }

  ghost predicate AnsweredBy(answers: nat -> Outcome, sent: seq<Outcome>) {
    forall i :: 0 <= i < |sent| ==> sent[i] == answers(i)
  }

  lemma CarriedOn(initial: Option<Cause>, sent: seq<Outcome>, causes: seq<Option<Cause>>, o: Outcome,
                  more: seq<Outcome>, moreCauses: seq<Option<Cause>>)
    requires CausesStick(initial, sent, causes) && more == sent + [o] && moreCauses == causes + [Carried(initial, sent)]
    ensures CausesStick(initial, more, moreCauses)
    ensures Carried(initial, more) == if Carried(initial, sent).None? then Some(CauseOf(o)) else Carried(initial, sent)
  {
    forall i | 0 <= i < |moreCauses| ensures moreCauses[i] == Carried(initial, more[..i]) {
      assert more[..i] == if i < |sent| then sent[..i] else sent;
    }
  }

  /** One more answer: where the law stands, and that going on leaves a request in the HTTP bound. */
  lemma Advanced(c: Config, sent: seq<Outcome>, o: Outcome, more: seq<Outcome>)
    requires After(c, sent).Go? && more == sent + [o]
    ensures After(c, more) == Next(c, After(c, sent).spent + 1, After(c, sent).renewed, o)
    ensures After(c, more).Stop? ==> Transcript(c, more)
    ensures After(c, more).Go? ==> |more| < c.Max() + if c.renewable then 1 else 0
  {
    assert more[..|more| - 1] == sent;
    if After(c, more).Go? { OngoingShape(c, more); }
  }

  /** The variables of either client's loop, between two requests. */
  ghost predicate Exchanging(c: Config, initial: Option<Cause>, answers: nat -> Outcome, sent: seq<Outcome>,
                             causes: seq<Option<Cause>>, spent: nat, renewed: bool, cause: Option<Cause>)
  {
    && |sent| < c.Max() + (if c.renewable then 1 else 0) && AnsweredBy(answers, sent) && After(c, sent) == Go(spent, renewed)
    && cause == Carried(initial, sent) && CausesStick(initial, sent, causes)
  }

  /** An exchange that is over, and what its client reports. */
  ghost predicate Exchanged(c: Config, initial: Option<Cause>, manner: Manner, answers: nat -> Outcome, sent: seq<Outcome>,
                            causes: seq<Option<Cause>>, r: Submitted)
  {
    Transcript(c, sent) && AnsweredBy(answers, sent) && CausesStick(initial, sent, causes) && Reported(c, manner, sent, r)
  }

  /** One iteration of either loop: the law says whether to go on, with which budget, or what to report. */
  lemma OneRequest(c: Config, initial: Option<Cause>, manner: Manner, answers: nat -> Outcome, sent: seq<Outcome>,
                   causes: seq<Option<Cause>>, spent: nat, renewed: bool, cause: Option<Cause>,
                   more: seq<Outcome>, moreCauses: seq<Option<Cause>>)
    requires Exchanging(c, initial, answers, sent, causes, spent, renewed, cause)
    requires more == sent + [answers(|sent|)] && moreCauses == causes + [cause]
    ensures var o := answers(|sent|);
      var next := Next(c, spent + 1, renewed, o);
      && (next.Go? ==> Exchanging(c, initial, answers, more, moreCauses, next.spent, next.renewed, if cause.None? then Some(CauseOf(o)) else cause))
      && (next.Stop? ==> Exchanged(c, initial, manner, answers, more, moreCauses, Told(c, manner, renewed, o)))
  {
    var o := answers(|sent|);
    Advanced(c, sent, o, more);
    CarriedOn(initial, sent, causes, o, more, moreCauses);
    StillAnswered(answers, sent, more);
    if Next(c, spent + 1, renewed, o).Stop? { ReportStands(c, manner, sent, renewed, o, more); }
  }

  lemma StillAnswered(answers: nat -> Outcome, sent: seq<Outcome>, more: seq<Outcome>)
    requires AnsweredBy(answers, sent) && more == sent + [answers(|sent|)]
    ensures AnsweredBy(answers, more)
  {
  }

  lemma ReportStands(c: Config, manner: Manner, sent: seq<Outcome>, renewed: bool, o: Outcome, more: seq<Outcome>)
    requires After(c, sent).Go? && After(c, sent).renewed == renewed && more == sent + [o] && Transcript(c, more)
    ensures Reported(c, manner, more, Told(c, manner, renewed, o))
  {
    assert more[..|more| - 1] == sent;
  }

  /** What the loop body of `submitWorkWithReconcileCause` makes of an answer to its `submissions`-th
      counted request: stop and report r, or go on. */
  method JudgeCli(c: Config, submissions: nat, renewed: bool, o: Outcome) returns (next: Progress, r: Submitted)
    requires submissions > 0
    ensures next == Next(c, submissions, renewed, o) && (next.Stop? ==> r == Told(c, Lenient, renewed, o))
  {
    var maxSubmissions := if c.keyed then 3 else 1;
    r := Exhausted;
    if o.TransportError? || o.ReadError? {
      if c.keyed && submissions < maxSubmissions { return Go(submissions, renewed), r; }
      if !c.keyed { return Stop, NotRetried(o); }
      return Stop, GaveUp(o);
    }
    if o.code == 401 && c.renewable && !renewed {
      if !c.renews { return Stop, RenewFailed(o); }
      return Go(submissions - 1, true), r;
    }
    if c.keyed && Retryable(o.code) && submissions < maxSubmissions { return Go(submissions, renewed), r; }
    return Stop, Answered(o);
  }

  /** `submitWorkWithReconcileCause`: `answers(i)` is what the i-th request is answered. */
  method SubmitCli(c: Config, initial: Option<Cause>, answers: nat -> Outcome)
    returns (r: Submitted, sent: seq<Outcome>, causes: seq<Option<Cause>>)
    ensures Exchanged(c, initial, Lenient, answers, sent, causes, r)
  {
    var maxSubmissions := if c.keyed then 3 else 1;
    var maxHttp := if c.renewable then maxSubmissions + 1 else maxSubmissions;
    var renewed, submissions, cause := false, 0, initial;
    sent, causes := [], [];
    for attempt := 0 to maxHttp
      invariant attempt == |sent| && Exchanging(c, initial, answers, sent, causes, submissions, renewed, cause)
    {
      var o := answers(attempt);
      OneRequest(c, initial, Lenient, answers, sent, causes, submissions, renewed, cause, sent + [o], causes + [cause]);
      var next;
      next, r := JudgeCli(c, submissions + 1, renewed, o);
      sent, causes := sent + [o], causes + [cause];
      if cause.None? { cause := Some(CauseOf(o)); }
      if next.Stop? { return; }
      submissions, renewed := next.spent, next.renewed;
    }
    r := Exhausted;
  }

  /** The loop body of `postWorkResilient`. */
  method JudgeCi(renews: bool, wantsBody: bool, submissions: nat, renewed: bool, o: Outcome) returns (next: Progress, r: Submitted)
    requires submissions > 0
    ensures var c := Config(true, true, renews);
      next == Next(c, submissions, renewed, o) && (next.Stop? ==> r == Told(c, Strict(wantsBody), renewed, o))
  {
    r := Exhausted;
    if o.TransportError? || o.ReadError? {
      if submissions < 3 { return Go(submissions, renewed), r; }
      return Stop, GaveUp(o);
    }
    if o.code == 401 && !renewed {
      if !renews { return Stop, RenewFailed(o); }
      return Go(submissions - 1, true), r;
    }
    if Retryable(o.code) && submissions < 3 { return Go(submissions, renewed), r; }
    if o.code != 200 && o.code != 201 { return Stop, Rejected(o); }
    if wantsBody && !o.readable { return Stop, Undecodable(o); }
    return Stop, Answered(o);
  }

  /** `postWorkResilient`: a key is mandatory and renewal is always tried once. */
  method SubmitCi(keyed: bool, renews: bool, wantsBody: bool, answers: nat -> Outcome)
    returns (r: Submitted, sent: seq<Outcome>, causes: seq<Option<Cause>>)
    ensures !keyed ==> r == KeyRequired && sent == [] && causes == []
    ensures keyed ==> Exchanged(Config(true, true, renews), None, Strict(wantsBody), answers, sent, causes, r)
  {
    sent, causes := [], [];
    if !keyed { return KeyRequired, sent, causes; }
    ghost var c := Config(true, true, renews);
    var renewed, submissions, cause := false, 0, None;
    for attempt := 0 to 4
      invariant attempt == |sent| && Exchanging(c, None, answers, sent, causes, submissions, renewed, cause)
    {
      var o := answers(attempt);
      OneRequest(c, None, Strict(wantsBody), answers, sent, causes, submissions, renewed, cause, sent + [o], causes + [cause]);
      var next;
      next, r := JudgeCi(renews, wantsBody, submissions + 1, renewed, o);
      sent, causes := sent + [o], causes + [cause];
      if cause.None? { cause := Some(CauseOf(o)); }
      if next.Stop? { return; }
      submissions, renewed := next.spent, next.renewed;
    }
    r := Exhausted;
  }

  /** What a finished exchange reports, by its last answer: a settling one is handed back; a keyed
      client that ran out of requests on an ambiguous one says so, an unkeyed one says it did not
      retry; a 401 whose renewal failed is reported as that. */
  lemma ReportMeans(c: Config, initial: Option<Cause>, answers: nat -> Outcome, sent: seq<Outcome>, causes: seq<Option<Cause>>, r: Submitted)
    requires Exchanged(c, initial, Lenient, answers, sent, causes, r)
    ensures var o := sent[|sent| - 1];
      && (Settling(o) ==> r == Answered(o))
      && (!o.Status? && c.keyed ==> r == GaveUp(o))
      && (!o.Status? && !c.keyed ==> r == NotRetried(o))
      && (o.Status? && Transient(o) ==> r == Answered(o))
      && (o.Status? && o.code == 401 ==> r in {Answered(o), RenewFailed(o)})
      && (r == RenewFailed(o) ==> c.renewable && !c.renews)
  {
  }

  /** The request after a first failure, and every later one, names that failure as its cause unless
      the caller gave one. */
  lemma CauseMeans(initial: Option<Cause>, answers: seq<Outcome>, causes: seq<Option<Cause>>, i: nat)
    requires CausesStick(initial, answers, causes) && i < |causes|
    ensures i == 0 || initial.Some? ==> causes[i] == initial
    ensures i > 0 && initial.None? ==>
      causes[i] == Some(if answers[0].TransportError? then AmbiguousTransport
                        else if answers[0].ReadError? then AmbiguousRead
                        else if answers[0].code == 401 then AuthRenewal else TransientStatus)
  {
    assert causes[i] == Carried(initial, answers[..i]);
  }

  /** With a key and renewal, the two implementations make the same exchange: the same requests,
      answers and recovery causes, for every schedule. Their reports differ only where the second
      client turns a final status or an undecodable body into an error. */
  method ClientsAgree(renews: bool, wantsBody: bool, answers: nat -> Outcome)
    returns (cli: Submitted, cliSent: seq<Outcome>, cliCauses: seq<Option<Cause>>,
             ci: Submitted, ciSent: seq<Outcome>, ciCauses: seq<Option<Cause>>)
    ensures cliSent == ciSent && cliCauses == ciCauses
    ensures Transcript(Config(true, true, renews), cliSent) && AnsweredBy(answers, cliSent)
    ensures cli == if ci.Rejected? || ci.Undecodable? then Answered(ci.o) else ci
  {
    cli, cliSent, cliCauses := SubmitCli(Config(true, true, renews), None, answers);
    ci, ciSent, ciCauses := SubmitCi(true, renews, wantsBody, answers);
    TranscriptDetermined(Config(true, true, renews), cliSent, ciSent);
  }

  // ---------------------------------------------------------------- the whole protocol

  lemma SendKeeps(w: World, req: Request, f: Fate)
    requires KeysUnique(w.rows)
    ensures Sent(w, req, f, Send(w, req, f).0, Send(w, req, f).1)
  {
    if f.reach.Handled? { HandledKeeps(w, req, f, Send(w, req, f).0, Send(w, req, f).1); }
  }

  /** What one request may do to the world, and what its answer may say. */
  ghost predicate Sent(w: World, req: Request, f: Fate, after: World, o: Outcome) {
    && KeysUnique(after.rows) && Extends(w.rows, after.rows)
    && (o.Status? ==> Names(after.rows, req, Response(o.code, o.work)))
    && w.created <= after.created <= w.created + 1
    && (Plausible(f) && after.created > w.created ==> !(o.Status? && o.code == 401))
  }

  lemma HandledKeeps(w: World, req: Request, f: Fate, after: World, o: Outcome)
    requires KeysUnique(w.rows) && f.reach.Handled? && (after, o) == Send(w, req, f)
    ensures Sent(w, req, f, after, o)
  {
    var now := ApplyOthers(w.rows, f.reach.before);
    OthersKeep(w.rows, f.reach.before);
    HandleKeeps(now, req, f.reach.gaps, f.reach.freshId, f.reach.queueFails);
    ExtendsTransitive(w.rows, now, after.rows);
  }

  lemma {:induction false} PlayKeeps(w: World, req: Request, fates: nat -> Fate, i: nat, n: nat)
    requires KeysUnique(w.rows) && i <= n
    ensures KeysUnique(Play(w, req, fates, n).rows) && Extends(Play(w, req, fates, i).rows, Play(w, req, fates, n).rows)
    decreases n
  {
    if n > 0 {
      if i < n {
        PlayKeeps(w, req, fates, i, n - 1);
        SendKeeps(Play(w, req, fates, n - 1), req, fates(n - 1));
        ExtendsTransitive(Play(w, req, fates, i).rows, Play(w, req, fates, n - 1).rows, Play(w, req, fates, n).rows);
      } else {
        PlayKeeps(w, req, fates, n - 1, n - 1);
        SendKeeps(Play(w, req, fates, n - 1), req, fates(n - 1));
      }
    }
  }

  /** The answers a client sees along a schedule. */
  ghost predicate Along(w: World, req: Request, fates: nat -> Fate, answers: seq<Outcome>) {
    forall i :: 0 <= i < |answers| ==> Plausible(fates(i)) && answers[i] == Answer(w, req, fates, i)
  }

  /** A request that inserted a Work was not answered 401. */
  lemma {:induction false} CreatedBound(w: World, req: Request, fates: nat -> Fate, answers: seq<Outcome>)
    requires KeysUnique(w.rows) && Along(w, req, fates, answers)
    ensures Play(w, req, fates, |answers|).created - w.created <= |answers| - Count401(answers)
  {
    if answers != [] {
      var n := |answers| - 1;
      CreatedBound(w, req, fates, answers[..n]);
      PlayKeeps(w, req, fates, n, n);
      SendKeeps(Play(w, req, fates, n), req, fates(n));
    }
  }

  /** While the key is unbound this submission has inserted nothing; once bound it stays bound. */
  lemma SendKeyed(w: World, req: Request, f: Fate)
    requires KeysUnique(w.rows) && req.key != ""
    ensures var after := Send(w, req, f).0;
      && (after.created > w.created ==> !HasKey(w.rows, req.key) && HasKey(after.rows, req.key))
      && (HasKey(w.rows, req.key) ==> HasKey(after.rows, req.key))
  {
    SendKeeps(w, req, f);
    var after := Send(w, req, f).0;
    if HasKey(w.rows, req.key) {
      var id :| id in w.rows && w.rows[id].key == req.key;
      assert id in after.rows && after.rows[id].key == req.key;
      if f.reach.Handled? {
        OthersKeep(w.rows, f.reach.before);
        assert id in ApplyOthers(w.rows, f.reach.before);
      }
    } else if after.created > w.created {
      var now := ApplyOthers(w.rows, f.reach.before);
      OthersKeep(w.rows, f.reach.before);
      HandleKeeps(now, req, f.reach.gaps, f.reach.freshId, f.reach.queueFails);
    }
  }

  /** With a key the whole submission inserts at most one Work, and none when the key was bound before. */
  lemma {:induction false} KeyedInsertsOnce(w: World, req: Request, fates: nat -> Fate, n: nat)
    requires KeysUnique(w.rows) && req.key != ""
    ensures var end := Play(w, req, fates, n);
      && end.created <= w.created + 1
      && (end.created > w.created ==> !HasKey(w.rows, req.key) && HasKey(end.rows, req.key))
      && (HasKey(w.rows, req.key) ==> HasKey(end.rows, req.key))
  {
    if n > 0 {
      KeyedInsertsOnce(w, req, fates, n - 1);
      PlayKeeps(w, req, fates, n - 1, n - 1);
      SendKeyed(Play(w, req, fates, n - 1), req, fates(n - 1));
      SendKeeps(Play(w, req, fates, n - 1), req, fates(n - 1));
    }
  }

  /** A Work shown to the client is still there at the end: its key, its intent, and queued when
      that was asked for under a key. */
  lemma ShownIsStored(w: World, req: Request, fates: nat -> Fate, answers: seq<Outcome>, i: nat)
    requires KeysUnique(w.rows) && Along(w, req, fates, answers) && i < |answers| && answers[i].Status?
    ensures Names(Play(w, req, fates, |answers|).rows, req, Response(answers[i].code, answers[i].work))
  {
    AnswerNames(w, req, fates, i);
    PlayKeeps(w, req, fates, i + 1, |answers|);
    StaysNamed(Play(w, req, fates, i + 1).rows, Play(w, req, fates, |answers|).rows, req, Response(answers[i].code, answers[i].work));
  }

  lemma AnswerNames(w: World, req: Request, fates: nat -> Fate, i: nat)
    requires KeysUnique(w.rows) && Answer(w, req, fates, i).Status?
    ensures var o := Answer(w, req, fates, i); Names(Play(w, req, fates, i + 1).rows, req, Response(o.code, o.work))
  {
    PlayKeeps(w, req, fates, i, i);
    SendKeeps(Play(w, req, fates, i), req, fates(i));
  }

  lemma StaysNamed(seen: Rows, end: Rows, req: Request, shown: Response)
    requires Names(seen, req, shown) && Extends(seen, end)
    ensures Names(end, req, shown)
  {
  }

  /** For every schedule of lost requests and answers and every behaviour of other clients, a
      submission inserts at most one Work, with a key or without. */
  lemma AtMostOneWork(c: Config, w: World, req: Request, fates: nat -> Fate, answers: seq<Outcome>)
    requires KeysUnique(w.rows) && c.keyed == (req.key != "") && Transcript(c, answers) && Along(w, req, fates, answers)
    ensures Play(w, req, fates, |answers|).created <= w.created + 1
  {
    if req.key == "" {
      TranscriptBound(c, answers);
      CreatedBound(w, req, fates, answers);
    } else {
      KeyedInsertsOnce(w, req, fates, |answers|);
    }
  }

  /** With a key, every success the client was ever shown names the one Work that carries the key;
      that Work has the submitted intent, and is queued if the submission asked for it, even when
      the handler that inserted it failed between insert and queueing. */
  lemma ShownWorksAgree(w: World, req: Request, fates: nat -> Fate, answers: seq<Outcome>, i: nat, id: string)
    requires KeysUnique(w.rows) && req.key != "" && Along(w, req, fates, answers) && i < |answers|
    requires answers[i].Status? && answers[i].work.Some?
    ensures var end := Play(w, req, fates, |answers|).rows;
      && (answers[i].work.value == id <==> id in end && end[id].key == req.key)
      && (answers[i].work.value == id ==> Matches(end[id], req) && (req.queue ==> !end[id].stage.Created?))
  {
    ShownIsStored(w, req, fates, answers, i);
    PlayKeeps(w, req, fates, 0, |answers|);
  }
}
