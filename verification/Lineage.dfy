/** Append-only revision lineages of the Brain namespace (packages/brain/brain.go), for any kind of
    content and any content hash. */
module Lineage {
  import opened Text
  import opened Namespace

  datatype Class = Immutable | Mutable | Ephemeral | OtherClass(name: string)

  datatype Promotion = NoPromotion | HumanStamped | OtherPromotion(name: string)

  /** One revision. Instants are integers, 0 is Go's zero time. */
  datatype Object<C> = Object(path: string, cls: Class, revision: int, content: C, contentHash: string, authoritative: bool,
                              promotion: Promotion, humanStamp: string, tombstone: bool, evidenceRef: string,
                              createdAt: int, updatedAt: int, expiresAt: Option<int>)

  datatype Error =
    | NoEvidence | ImmutableObject | Expired | Tombstoned | BadPath | BadClass | BadPromotion | BadRevision | BadContent
    | HashMismatch | NoHumanStamp | EphemeralAuthority | ExpiryNotEphemeral | BadTimes | AlreadyAuthoritative | OnlyMutable

  datatype Result<+T> = Ok(value: T) | Err(error: Error)

  /** A hash function with its refusals: None for a nil map, a nil value inside it, or content
      that does not encode. */
  type Hash<!C> = C -> Option<string>

  function Validate<C>(h: Hash<C>, o: Object<C>): Option<Error> {
    if !WellFormedPath(o.path) then Some(BadPath)
    else if o.cls.OtherClass? then Some(BadClass)
    else if o.promotion.OtherPromotion? then Some(BadPromotion)
    else if o.revision < 1 then Some(BadRevision)
    else if o.evidenceRef == "" then Some(NoEvidence)
    else if h(o.content).None? then Some(BadContent)
    else if o.contentHash == "" || o.contentHash != h(o.content).value then Some(HashMismatch)
    else if o.authoritative && !o.promotion.HumanStamped? then Some(NoHumanStamp)
    else if o.promotion.HumanStamped? && o.humanStamp == "" then Some(NoHumanStamp)
    else if o.authoritative && o.cls.Ephemeral? then Some(EphemeralAuthority)
    else if o.tombstone && o.authoritative then Some(Tombstoned)
    else if o.expiresAt.Some? && !o.cls.Ephemeral? then Some(ExpiryNotEphemeral)
    else if o.createdAt == 0 || o.updatedAt == 0 || o.updatedAt < o.createdAt then Some(BadTimes)
    else None
  }

  predicate Valid<C>(h: Hash<C>, o: Object<C>) { Validate(h, o).None? }

  function Checked<C>(h: Hash<C>, o: Object<C>): Result<Object<C>> {
    match Validate(h, o) case None => Ok(o) case Some(e) => Err(e)
  }

  function NewObject<C>(h: Hash<C>, path: string, cls: Class, content: C, evidenceRef: string, now: int): Result<Object<C>> {
    if evidenceRef == "" then Err(NoEvidence)
    else if h(content).None? then Err(BadContent)
    else Checked(h, Object(path, cls, 1, content, h(content).value, false, NoPromotion, "", false, evidenceRef, now, now, None))
  }

  function NextRevision<C>(h: Hash<C>, prev: Object<C>, content: C, evidenceRef: string, now: int): Result<Object<C>> {
    if Validate(h, prev).Some? then Err(Validate(h, prev).value)
    else if evidenceRef == "" then Err(NoEvidence)
    else if prev.cls.Immutable? then Err(ImmutableObject)
    else if prev.cls.Ephemeral? && (prev.expiresAt.None? || now >= prev.expiresAt.value) then Err(Expired)
    else if prev.cls.Mutable? && prev.tombstone then Err(Tombstoned)
    else if h(content).None? then Err(BadContent)
    else Checked(h, Object(prev.path, prev.cls, prev.revision + 1, content, h(content).value, false, NoPromotion, "", false,
                           evidenceRef, prev.createdAt, now, prev.expiresAt))
  }

  function Promote<C>(h: Hash<C>, o: Object<C>, humanId: string, note: string, now: int): Result<Object<C>> {
    if Validate(h, o).Some? then Err(Validate(h, o).value)
    else if o.cls.Ephemeral? then Err(EphemeralAuthority)
    else if humanId == "" || note == "" then Err(NoHumanStamp)
    else if o.tombstone then Err(Tombstoned)
    else if o.cls.Immutable? then
      if o.authoritative then Err(AlreadyAuthoritative)
      else Checked(h, o.(authoritative := true, promotion := HumanStamped, humanStamp := humanId, updatedAt := now))
    else match NextRevision(h, o, o.content, o.evidenceRef, now)
      case Err(e) => Err(e)
      case Ok(next) => Checked(h, next.(authoritative := true, promotion := HumanStamped, humanStamp := humanId))
  }

  function Bury<C>(h: Hash<C>, o: Object<C>, evidenceRef: string, now: int): Result<Object<C>> {
    if Validate(h, o).Some? then Err(Validate(h, o).value)
    else if o.cls.Immutable? then Err(ImmutableObject)
    else if o.cls.Ephemeral? then Err(OnlyMutable)
    else if o.tombstone then Err(Tombstoned)
    else match NextRevision(h, o, o.content, evidenceRef, now)
      case Err(e) => Err(e)
      case Ok(next) => Checked(h, next.(tombstone := true, authoritative := false, promotion := NoPromotion, humanStamp := ""))
  }

  // ---------------------------------------------------------------- lineages

  datatype Op<C> =
    | Revise(content: C, evidenceRef: string, now: int)
    | Stamp(humanId: string, note: string, now: int)
    | Kill(evidenceRef: string, now: int)

  function Evolve<C>(h: Hash<C>, o: Object<C>, op: Op<C>): Result<Object<C>> {
    match op
    case Revise(content, evidenceRef, now) => NextRevision(h, o, content, evidenceRef, now)
    case Stamp(humanId, note, now) => Promote(h, o, humanId, note, now)
    case Kill(evidenceRef, now) => Bury(h, o, evidenceRef, now)
  }

  datatype Entry<C> = Entry(o: Object<C>, via: Option<Op<C>>)

  function Grow<C>(h: Hash<C>, past: seq<Entry<C>>, op: Op<C>): (grown: seq<Entry<C>>)
    requires past != []
    ensures grown != []
  {
    match Evolve(h, past[|past| - 1].o, op)
    case Ok(o) => past + [Entry(o, Some(op))]
    case Err(_) => past
  }

  /** Everything a sequence of calls on the latest revision leaves behind; refused calls leave
      nothing. */
  function History<C>(h: Hash<C>, birth: Object<C>, ops: seq<Op<C>>): (history: seq<Entry<C>>)
    ensures history != []
  {
    if ops == [] then [Entry(birth, None)]
    else Grow(h, History(h, birth, ops[..|ops| - 1]), ops[|ops| - 1])
  }

  /** A first revision, with the expiry the writing service sets on an ephemeral one. */
  predicate Birth<C>(h: Hash<C>, o: Object<C>) {
    && Valid(h, o) && o.revision == 1 && !o.authoritative && o.promotion.NoPromotion? && !o.tombstone
    && o.createdAt == o.updatedAt
  }

  lemma NewObjectIsBirth<C>(h: Hash<C>, path: string, cls: Class, content: C, evidenceRef: string, now: int, expiry: Option<int>)
    requires NewObject(h, path, cls, content, evidenceRef, now).Ok? && (expiry.Some? ==> cls.Ephemeral?)
    ensures Birth(h, NewObject(h, path, cls, content, evidenceRef, now).value.(expiresAt := expiry))
    ensures var o := NewObject(h, path, cls, content, evidenceRef, now).value;
      && o.path == path && o.cls == cls && o.content == content && h(content) == Some(o.contentHash)
      && o.evidenceRef == evidenceRef && o.createdAt == o.updatedAt == now && o.humanStamp == ""
  {
  }

  /** What one successful call may do to the latest revision: its frame and what it carries. */
  ghost predicate Follows<C>(h: Hash<C>, a: Object<C>, op: Op<C>, b: Object<C>) {
    Valid(h, a) && Valid(h, b) && Framed(a, op, b) && Brings(h, a, op, b)
  }

  ghost predicate Framed<C>(a: Object<C>, op: Op<C>, b: Object<C>) {
    && b.path == a.path && b.cls == a.cls && b.createdAt == a.createdAt && b.expiresAt == a.expiresAt
    && !a.tombstone && b.updatedAt == op.now
    && (b.authoritative <==> op.Stamp?) && (b.tombstone <==> op.Kill?)
    && (b.cls.Immutable? ==> op.Stamp? && !a.authoritative && b.revision == a.revision)
    && (!b.cls.Immutable? ==> b.revision == a.revision + 1)
    && (b.cls.Ephemeral? ==> op.Revise? && b.expiresAt.Some? && op.now < b.expiresAt.value)
    && (op.Kill? ==> b.cls.Mutable?)
  }

  /** A revision brings its content and evidence, a tombstone its evidence, a stamp its human. */
  ghost predicate Brings<C>(h: Hash<C>, a: Object<C>, op: Op<C>, b: Object<C>) {
    && (op.Revise? ==> b.content == op.content && h(op.content) == Some(b.contentHash) && b.evidenceRef == op.evidenceRef)
    && (op.Kill? ==> b.content == a.content && b.contentHash == a.contentHash && b.evidenceRef == op.evidenceRef)
    && (op.Stamp? ==> b.content == a.content && b.contentHash == a.contentHash && b.evidenceRef == a.evidenceRef)
    && (op.Stamp? ==> b.humanStamp == op.humanId != "" && op.note != "" && !b.cls.Ephemeral?)
    && (!op.Stamp? ==> b.humanStamp == "" && b.promotion == NoPromotion)
  }

  lemma ReviseFollows<C>(h: Hash<C>, a: Object<C>, content: C, evidenceRef: string, now: int)
    requires NextRevision(h, a, content, evidenceRef, now).Ok? && (a.tombstone ==> a.cls.Mutable?)
    ensures Follows(h, a, Revise(content, evidenceRef, now), NextRevision(h, a, content, evidenceRef, now).value)
  {
    CheckedIsValid(h, NextRevision(h, a, content, evidenceRef, now).value);
  }

  lemma CheckedIsValid<C>(h: Hash<C>, o: Object<C>)
    ensures Checked(h, o).Ok? <==> Valid(h, o)
    ensures Checked(h, o).Ok? ==> Checked(h, o).value == o
  {
  }

  lemma StampFollows<C>(h: Hash<C>, a: Object<C>, humanId: string, note: string, now: int)
    requires Promote(h, a, humanId, note, now).Ok? && (a.tombstone ==> a.cls.Mutable?)
    ensures Follows(h, a, Stamp(humanId, note, now), Promote(h, a, humanId, note, now).value)
  {
    if !a.cls.Immutable? { ReviseFollows(h, a, a.content, a.evidenceRef, now); }
  }

  lemma KillFollows<C>(h: Hash<C>, a: Object<C>, evidenceRef: string, now: int)
    requires Bury(h, a, evidenceRef, now).Ok? && (a.tombstone ==> a.cls.Mutable?)
    ensures Follows(h, a, Kill(evidenceRef, now), Bury(h, a, evidenceRef, now).value)
  {
    ReviseFollows(h, a, a.content, evidenceRef, now);
  }

  /** Every successful call moves the lineage lawfully. */
  lemma EvolveFollows<C>(h: Hash<C>, a: Object<C>, op: Op<C>)
    requires Evolve(h, a, op).Ok? && (a.tombstone ==> a.cls.Mutable?)
    ensures Follows(h, a, op, Evolve(h, a, op).value)
  {
    match op
    case Revise(content, evidenceRef, now) => ReviseFollows(h, a, content, evidenceRef, now);
    case Stamp(humanId, note, now) => StampFollows(h, a, humanId, note, now);
    case Kill(evidenceRef, now) => KillFollows(h, a, evidenceRef, now);
  }

  ghost predicate IsLineage<C(!new)>(h: Hash<C>, history: seq<Entry<C>>) {
    && history != [] && Birth(h, history[0].o) && history[0].via.None?
    && forall i :: 0 < i < |history| ==>
         history[i].via.Some? && Follows(h, history[i - 1].o, history[i].via.value, history[i].o)
  }

  lemma LineageGrows<C(!new)>(h: Hash<C>, history: seq<Entry<C>>, op: Op<C>, o: Object<C>)
    requires IsLineage(h, history) && Follows(h, history[|history| - 1].o, op, o)
    ensures IsLineage(h, history + [Entry(o, Some(op))])
  {
    var next := history + [Entry(o, Some(op))];
    forall i | 0 < i < |next| ensures next[i].via.Some? && Follows(h, next[i - 1].o, next[i].via.value, next[i].o) {
      if i < |history| { assert next[i] == history[i] && next[i - 1] == history[i - 1]; }
    }
  }

  lemma OnlyMutableDies<C(!new)>(h: Hash<C>, history: seq<Entry<C>>)
    requires IsLineage(h, history)
    ensures history[|history| - 1].o.tombstone ==> history[|history| - 1].o.cls.Mutable?
  {
    var n := |history| - 1;
    if n > 0 { assert Follows(h, history[n - 1].o, history[n].via.value, history[n].o); }
  }

  /** Every history is a lineage: each revision follows from the one before. */
  lemma {:induction false} HistoryIsLineage<C(!new)>(h: Hash<C>, birth: Object<C>, ops: seq<Op<C>>)
    requires Birth(h, birth)
    ensures IsLineage(h, History(h, birth, ops))
  {
    if ops != [] {
      var before, op := History(h, birth, ops[..|ops| - 1]), ops[|ops| - 1];
      HistoryIsLineage(h, birth, ops[..|ops| - 1]);
      var last := before[|before| - 1].o;
      if Evolve(h, last, op).Ok? {
        OnlyMutableDies(h, before);
        EvolveFollows(h, last, op);
        LineageGrows(h, before, op, Evolve(h, last, op).value);
      }
    }
  }

  /** Along a lineage: everything validates; path, class, birth and expiry never move; revisions
      count the positions, except that an immutable object has at most its one in-place stamp. */
  lemma {:induction false} LineageShape<C(!new)>(h: Hash<C>, history: seq<Entry<C>>, i: nat)
    requires IsLineage(h, history) && i < |history|
    ensures var o, birth := history[i].o, history[0].o;
      && Valid(h, o) && o.path == birth.path && o.cls == birth.cls && o.createdAt == birth.createdAt && o.expiresAt == birth.expiresAt
      && (!birth.cls.Immutable? ==> o.revision == i + 1)
      && (birth.cls.Immutable? ==> o.revision == 1 && i <= 1)
  {
    if i > 0 {
      LineageShape(h, history, i - 1);
      assert Follows(h, history[i - 1].o, history[i].via.value, history[i].o);
      if i > 1 { assert Follows(h, history[i - 2].o, history[i - 1].via.value, history[i - 1].o); }
    }
  }

  /** Authority exists exactly at the revisions a human stamp produced, a tombstone is only ever
      the last revision, and no ephemeral is revised at or after its original expiry. */
  lemma LineageLaws<C(!new)>(h: Hash<C>, history: seq<Entry<C>>, i: nat)
    requires IsLineage(h, history) && i < |history|
    ensures var e := history[i];
      && (e.o.authoritative <==> e.via.Some? && e.via.value.Stamp?)
      && (e.o.authoritative ==> e.o.humanStamp == e.via.value.humanId != "")
      && (e.o.tombstone ==> i == |history| - 1)
      && (e.o.cls.Ephemeral? && i > 0 ==>
            history[0].o.expiresAt.Some? && e.o.updatedAt < history[0].o.expiresAt.value)
  {
    if i > 0 { assert Follows(h, history[i - 1].o, history[i].via.value, history[i].o); }
    if i < |history| - 1 { assert Follows(h, history[i].o, history[i + 1].via.value, history[i + 1].o); }
    LineageShape(h, history, i);
  }

  /** The content a history has reached: that of the last revision that brought one, else the birth's. */
  function LastContent<C>(history: seq<Entry<C>>): C
    requires history != []
  {
    var last := history[|history| - 1];
    if |history| == 1 then last.o.content
    else if last.via.Some? && last.via.value.Revise? then last.via.value.content
    else LastContent(history[..|history| - 1])
  }

  /** Stamps and tombstones carry the content on; only a revision replaces it, by what it was given. */
  lemma {:induction false} ContentIsLastRevised<C(!new)>(h: Hash<C>, history: seq<Entry<C>>)
    requires IsLineage(h, history)
    ensures var o := history[|history| - 1].o; o.content == LastContent(history) && h(o.content) == Some(o.contentHash)
  {
    var n := |history| - 1;
    if n > 0 {
      var before := history[..n];
      assert IsLineage(h, before);
      ContentIsLastRevised(h, before);
      assert Follows(h, history[n - 1].o, history[n].via.value, history[n].o);
    }
  }

  // ---------------------------------------------------------------- exactly when a call succeeds

  /** What any valid object satisfies, in direct terms. */
  lemma ValidMeans<C>(h: Hash<C>, o: Object<C>)
    ensures Valid(h, o) <==>
      && WellFormedPath(o.path) && o.cls in {Immutable, Mutable, Ephemeral} && o.promotion in {NoPromotion, HumanStamped}
      && o.revision >= 1 && o.evidenceRef != "" && h(o.content) == Some(o.contentHash) && o.contentHash != ""
      && (o.authoritative ==> o.promotion == HumanStamped && o.cls != Ephemeral && !o.tombstone)
      && (o.promotion == HumanStamped ==> o.humanStamp != "")
      && (o.expiresAt.Some? ==> o.cls == Ephemeral)
      && o.createdAt != 0 && o.updatedAt != 0 && o.createdAt <= o.updatedAt
  {
  }

  /** A revision succeeds exactly for evidenced, encodable content on a valid, living object that
      may change: mutable, or ephemeral before its expiry. */
  lemma ReviseSucceedsIff<C>(h: Hash<C>, a: Object<C>, content: C, evidenceRef: string, now: int)
    ensures NextRevision(h, a, content, evidenceRef, now).Ok? <==>
      && Valid(h, a) && evidenceRef != "" && h(content).Some? && h(content).value != ""
      && (a.cls == Mutable ==> !a.tombstone) && a.cls != Immutable
      && (a.cls == Ephemeral ==> a.expiresAt.Some? && now < a.expiresAt.value)
      && now != 0 && a.createdAt <= now
  {
  }

  /** A promotion succeeds exactly for a named human with a note, on a valid, living object that is
      not ephemeral, and only once on an immutable one. */
  lemma StampSucceedsIff<C>(h: Hash<C>, a: Object<C>, humanId: string, note: string, now: int)
    ensures Promote(h, a, humanId, note, now).Ok? <==>
      && Valid(h, a) && humanId != "" && note != "" && !a.tombstone && a.cls != Ephemeral
      && (a.cls == Immutable ==> !a.authoritative) && now != 0 && a.createdAt <= now
  {
    if Valid(h, a) && !a.cls.Immutable? { ReviseSucceedsIff(h, a, a.content, a.evidenceRef, now); }
  }

  /** A tombstone succeeds exactly with evidence on a valid, living, mutable object. */
  lemma KillSucceedsIff<C>(h: Hash<C>, a: Object<C>, evidenceRef: string, now: int)
    ensures Bury(h, a, evidenceRef, now).Ok? <==>
      Valid(h, a) && a.cls == Mutable && !a.tombstone && evidenceRef != "" && now != 0 && a.createdAt <= now
  {
    if Valid(h, a) { ReviseSucceedsIff(h, a, a.content, evidenceRef, now); }
  }

  lemma TombstoneRefuses<C>(h: Hash<C>, a: Object<C>, op: Op<C>)
    requires a.tombstone && a.cls.Mutable?
    ensures Evolve(h, a, op).Err?
  {
  }

  ghost predicate Ended<C>(past: seq<Entry<C>>) { past != [] && past[|past| - 1].o.tombstone }

  lemma EndedStays<C(!new)>(h: Hash<C>, past: seq<Entry<C>>, op: Op<C>)
    requires IsLineage(h, past) && Ended(past)
    ensures Grow(h, past, op) == past
  {
    OnlyMutableDies(h, past);
    TombstoneRefuses(h, past[|past| - 1].o, op);
  }

  lemma {:induction false} HistoryGrows<C>(h: Hash<C>, birth: Object<C>, ops: seq<Op<C>>, op: Op<C>)
    ensures History(h, birth, ops + [op]) == Grow(h, History(h, birth, ops), op)
  {
    assert (ops + [op])[..|ops + [op]| - 1] == ops;
  }

  lemma EndedStep<C(!new)>(h: Hash<C>, birth: Object<C>, ops: seq<Op<C>>, op: Op<C>)
    requires Birth(h, birth) && Ended(History(h, birth, ops))
    ensures History(h, birth, ops + [op]) == History(h, birth, ops)
  {
    HistoryGrows(h, birth, ops, op);
    HistoryIsLineage(h, birth, ops);
    EndedStays(h, History(h, birth, ops), op);
  }

  /** Nothing succeeds on a tombstone: whatever is tried, the history has ended. */
  lemma {:induction false} TombstoneEnds<C(!new)>(h: Hash<C>, birth: Object<C>, ops: seq<Op<C>>, more: seq<Op<C>>)
    requires Birth(h, birth) && Ended(History(h, birth, ops))
    ensures History(h, birth, ops + more) == History(h, birth, ops)
    decreases |more|
  {
    if more == [] {
      assert ops + more == ops;
    } else {
      var fewer, op := more[..|more| - 1], more[|more| - 1];
      TombstoneEnds(h, birth, ops, fewer);
      SplitLast(ops, more);
      EndedStep(h, birth, ops + fewer, op);
    }
  }
}
