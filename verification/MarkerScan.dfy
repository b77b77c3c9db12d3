/** The Brain's admission seam (packages/brain/governance.go): a depth-first search for claim keys
    over a possibly cyclic value graph that remembers only the references it is currently inside. */
module MarkerScan {
  import opened Text

  /** `visit`: the identity under which a pointer, map or slice is recognised again. */
  datatype Visit = Visit(typ: string, ptr: nat, n: int)

  /** A reflected value. Arrays and structs are stored inline; pointers, maps and slices refer
      into the heap, and a reference without content is nil. */
  datatype Value =
    | Scalar
    | Interface(elem: Value)
    | Array(elems: seq<Value>)
    | Struct(fields: seq<Field>)
    | Ref(key: Visit)

  datatype Field = Field(name: string, exported: bool, value: Value)

  /** What a reference leads to. String-keyed maps are unordered; other maps list their entries in
      whatever order they are iterated in, each under the printed form of its key. */
  datatype Content =
    | Pointee(value: Value)
    | StringMap(entries: map<string, Value>)
    | OtherMap(iterated: seq<(string, Value)>)
    | Slice(elems: seq<Value>)

  type Heap = map<Visit, Content>

  datatype Segment = Key(name: string) | Bracket(name: string) | Index(i: nat)

  /** One thing a loop of `scanValue` looks at: a name that may claim, the path segment it adds,
      and the value to descend into (unexported fields are named but not entered). */
  datatype Item = Item(claim: Option<string>, segs: seq<Segment>, child: Option<Value>)

  datatype Hit = Hit(path: seq<Segment>, key: string)

  function FieldItem(f: Field): Item {
    Item(Some(f.name), [Key(f.name)], if f.exported then Some(f.value) else None)
  }

  /** The items of an inline value. */
  function InlineItems(v: Value): seq<Item> {
    match v
    case Interface(e) => [Item(None, [], Some(e))]
    case Array(elems) => seq(|elems|, i requires 0 <= i < |elems| => Item(None, [Index(i)], Some(elems[i])))
    case Struct(fields) => seq(|fields|, i requires 0 <= i < |fields| => FieldItem(fields[i]))
    case _ => []
  }

  // ---------------------------------------------------------------- the order of map keys

  /** `sortedReflectKeys`: by lower-cased form, ties broken by the key itself. */
  predicate Before(lower: string -> string, a: string, b: string) {
    Less(lower(a), lower(b)) || (lower(a) == lower(b) && Less(a, b))
  }

  lemma BeforeTotal(lower: string -> string, a: string, b: string)
    ensures Before(lower, a, b) || a == b || Before(lower, b, a)
  {
    LessTotal(lower(a), lower(b));
    LessTotal(a, b);
  }

  lemma BeforeStrict(lower: string -> string, a: string, b: string)
    requires Before(lower, a, b)
    ensures a != b && !Before(lower, b, a)
  {
    if Less(lower(a), lower(b)) { LessAsymmetric(lower(a), lower(b)); } else { LessAsymmetric(a, b); }
  }

  lemma BeforeTransitive(lower: string -> string, a: string, b: string, c: string)
    requires Before(lower, a, b) && Before(lower, b, c)
    ensures Before(lower, a, c)
  {
    if Less(lower(a), lower(b)) && Less(lower(b), lower(c)) { LessTransitive(lower(a), lower(b), lower(c)); }
    if Less(a, b) && Less(b, c) { LessTransitive(a, b, c); }
  }

  ghost predicate KeyOrdered(lower: string -> string, keys: seq<string>) {
    forall i, j :: 0 <= i < j < |keys| ==> Before(lower, keys[i], keys[j])
  }

  function InsertKey(lower: string -> string, keys: seq<string>, k: string): seq<string> {
    if keys == [] then [k]
    else if Before(lower, k, keys[0]) then [k] + keys
    else [keys[0]] + InsertKey(lower, keys[1..], k)
  }

  lemma {:induction false} InsertKeyMembers(lower: string -> string, keys: seq<string>, k: string)
    ensures forall x :: x in InsertKey(lower, keys, k) <==> x in keys || x == k
  {
    if keys != [] && !Before(lower, k, keys[0]) {
      InsertKeyMembers(lower, keys[1..], k);
      assert keys == [keys[0]] + keys[1..];
    }
  }

  lemma OrderedCons(lower: string -> string, head: string, keys: seq<string>)
    requires KeyOrdered(lower, keys) && forall x :: x in keys ==> Before(lower, head, x)
    ensures KeyOrdered(lower, [head] + keys)
  {
  }

  lemma {:induction false} InsertKeyOrdered(lower: string -> string, keys: seq<string>, k: string)
    requires KeyOrdered(lower, keys) && k !in keys
    ensures KeyOrdered(lower, InsertKey(lower, keys, k))
  {
    if keys != [] {
      if Before(lower, k, keys[0]) {
        forall x | x in keys ensures Before(lower, k, x) {
          if x != keys[0] { BeforeTransitive(lower, k, keys[0], x); }
        }
        OrderedCons(lower, k, keys);
      } else {
        InsertKeyOrdered(lower, keys[1..], k);
        InsertKeyMembers(lower, keys[1..], k);
        BeforeTotal(lower, k, keys[0]);
        OrderedCons(lower, keys[0], InsertKey(lower, keys[1..], k));
      }
    }
  }

  /** The keys in that order. */
  ghost function SortedKeys(lower: string -> string, keys: set<string>): (sorted: seq<string>)
    ensures KeyOrdered(lower, sorted) && forall x :: x in sorted <==> x in keys
  {
    if keys == {} then []
    else
      var k :| k in keys;
      var rest := SortedKeys(lower, keys - {k});
      InsertKeyOrdered(lower, rest, k);
      InsertKeyMembers(lower, rest, k);
      InsertKey(lower, rest, k)
  }

  /** Only one sequence orders a set of keys. */
  lemma {:induction false} KeyOrderUnique(lower: string -> string, a: seq<string>, b: seq<string>)
    requires KeyOrdered(lower, a) && KeyOrdered(lower, b) && forall x :: x in a <==> x in b
    ensures a == b
  {
    assert a == [] <==> b == [] by {
      if a != [] { assert a[0] in b; }
      if b != [] { assert b[0] in a; }
    }
    if a != [] {
      FirstIsLeast(lower, a, b[0]);
      FirstIsLeast(lower, b, a[0]);
      if a[0] != b[0] { BeforeStrict(lower, a[0], b[0]); }
      TailMembers(lower, a);
      TailMembers(lower, b);
      KeyOrderUnique(lower, a[1..], b[1..]);
    }
  }

  lemma FirstIsLeast(lower: string -> string, keys: seq<string>, k: string)
    requires KeyOrdered(lower, keys) && k in keys
    ensures k == keys[0] || Before(lower, keys[0], k)
  {
  }

  lemma TailMembers(lower: string -> string, keys: seq<string>)
    requires KeyOrdered(lower, keys) && keys != []
    ensures forall x :: x in keys[1..] <==> x in keys && x != keys[0]
  {
    forall x | x in keys[1..] ensures x != keys[0] { BeforeStrict(lower, keys[0], x); }
    assert keys == [keys[0]] + keys[1..];
  }

  method SortKeys(lower: string -> string, keys: set<string>) returns (sorted: seq<string>)
    ensures sorted == SortedKeys(lower, keys)
  {
    sorted := [];
    var rest := keys;
    while rest != {}
      invariant rest <= keys && KeyOrdered(lower, sorted)
      invariant forall x :: x in sorted <==> x in keys && x !in rest
      decreases rest
    {
      var k :| k in rest;
      InsertKeyOrdered(lower, sorted, k);
      InsertKeyMembers(lower, sorted, k);
      sorted := InsertKey(lower, sorted, k);
      rest := rest - {k};
    }
    KeyOrderUnique(lower, sorted, SortedKeys(lower, keys));
  }

  function EntryItems(keys: seq<string>, entries: map<string, Value>): seq<Item>
    requires forall k :: k in keys ==> k in entries
  {
    seq(|keys|, i requires 0 <= i < |keys| => Item(Some(keys[i]), [Key(keys[i])], Some(entries[keys[i]])))
  }

  /** The items behind a reference; string keys in sorted order. */
  ghost function ContentItems(lower: string -> string, c: Content): seq<Item> {
    match c
    case Pointee(v) => [Item(None, [], Some(v))]
    case StringMap(entries) => EntryItems(SortedKeys(lower, entries.Keys), entries)
    case OtherMap(es) => seq(|es|, i requires 0 <= i < |es| => Item(None, [Bracket(es[i].0)], Some(es[i].1)))
    case Slice(vs) => seq(|vs|, i requires 0 <= i < |vs| => Item(None, [Index(i)], Some(vs[i])))
  }

  // ---------------------------------------------------------------- sizes, for termination

  function Size(v: Value): nat
    decreases v, 1
  {
    match v
    case Interface(e) => 2 + Size(e)
    case Array(elems) => 1 + ElemsSize(elems)
    case Struct(fields) => 1 + FieldsSize(fields)
    case _ => 1
  }

  function ElemsSize(elems: seq<Value>): nat
    decreases elems, 0
  {
    if elems == [] then 0 else 1 + Size(elems[0]) + ElemsSize(elems[1..])
  }

  function FieldsSize(fields: seq<Field>): nat
    decreases fields, 0
  {
    if fields == [] then 0 else 1 + Size(fields[0].value) + FieldsSize(fields[1..])
  }

  function ChildSize(item: Item): nat { if item.child.Some? then Size(item.child.value) else 0 }

  function Weight(items: seq<Item>): nat {
    if items == [] then 0 else 1 + ChildSize(items[0]) + Weight(items[1..])
  }

  lemma {:induction false} ElemsWeight(elems: seq<Value>, items: seq<Item>)
    requires |items| == |elems| && forall i :: 0 <= i < |elems| ==> items[i].child == Some(elems[i])
    ensures Weight(items) == ElemsSize(elems)
  {
    if elems != [] { ElemsWeight(elems[1..], items[1..]); }
  }

  lemma {:induction false} FieldsWeight(fields: seq<Field>, items: seq<Item>)
    requires |items| == |fields| && forall i :: 0 <= i < |fields| ==> items[i] == FieldItem(fields[i])
    ensures Weight(items) <= FieldsSize(fields)
  {
    if fields != [] { FieldsWeight(fields[1..], items[1..]); }
  }

  lemma InlineWeight(v: Value)
    ensures Weight(InlineItems(v)) < Size(v)
  {
    match v
    case Array(elems) => ElemsWeight(elems, InlineItems(v));
    case Struct(fields) => FieldsWeight(fields, InlineItems(v));
    case _ =>
  }

  // ---------------------------------------------------------------- the search

  /** One step inward, and what it adds to the path. */
  datatype Hop = Hop(segs: seq<Segment>, to: Value)

  /** The parameters of one scan: the heap, the marker set and the lower-casing function. */
  datatype Scan = Scan(heap: Heap, markers: set<string>, lower: string -> string) {

    ghost function ItemsOf(v: Value): seq<Item> {
      if v.Ref? then (if v.key in heap then ContentItems(lower, heap[v.key]) else []) else InlineItems(v)
    }

    predicate Marked(claim: Option<string>) { claim.Some? && lower(claim.value) in markers }

    /** `scanValue`: `seen` is the chain of references the search is inside. */
    ghost function Search(v: Value, path: seq<Segment>, seen: set<Visit>): Option<Hit>
      decreases heap.Keys - seen, Size(v)
    {
      if v.Ref? then
        if v.key !in heap || v.key in seen then None
        else
          assert v.key in heap.Keys - seen && v.key !in heap.Keys - (seen + {v.key});
          SearchItems(ContentItems(lower, heap[v.key]), path, seen + {v.key})
      else
        InlineWeight(v);
        SearchItems(InlineItems(v), path, seen)
    }

    /** One of its loops: the first item that claims, or under which something claims. */
    ghost function SearchItems(items: seq<Item>, path: seq<Segment>, seen: set<Visit>): Option<Hit>
      decreases heap.Keys - seen, Weight(items)
    {
      if items == [] then None
      else if Marked(items[0].claim) then Some(Hit(path + items[0].segs, items[0].claim.value))
      else
        var below := if items[0].child.Some? then Search(items[0].child.value, path + items[0].segs, seen) else None;
        if below.Some? then below else SearchItems(items[1..], path, seen)
    }

    // -------------------------------------------------------------- meaning

    /** A chain of items leading from `v` down the value graph. */
    ghost predicate Chain(v: Value, steps: seq<Item>)
      decreases |steps|
    {
      && steps != []
      && steps[0] in ItemsOf(v)
      && (|steps| > 1 ==> steps[0].child.Some? && Chain(steps[0].child.value, steps[1..]))
    }

    /** Some chain of items from `v` ends at a marked claim. */
    ghost predicate Chained(v: Value) {
      exists steps: seq<Item> :: Chain(v, steps) && Marked(steps[|steps| - 1].claim)
    }

    /** `v` itself carries this name: a field of the struct, exported or not, or a string key. */
    ghost predicate Named(v: Value, name: string) {
      match v
      case Struct(fields) => exists f :: f in fields && f.name == name
      case Ref(key) => key in heap && heap[key].StringMap? && name in heap[key].entries
      case _ => false
    }

    /** `w` lies directly inside `v`, where the path gains `segs`. */
    ghost predicate Inside(v: Value, segs: seq<Segment>, w: Value) {
      match v
      case Scalar => false
      case Interface(e) => segs == [] && w == e
      case Array(elems) => exists i :: 0 <= i < |elems| && segs == [Index(i)] && w == elems[i]
      case Struct(fields) => exists f :: f in fields && f.exported && segs == [Key(f.name)] && w == f.value
      case Ref(key) => key in heap && Held(heap[key], segs, w)
    }

    static ghost predicate Held(c: Content, segs: seq<Segment>, w: Value) {
      match c
      case Pointee(x) => segs == [] && w == x
      case StringMap(entries) => exists k :: k in entries && segs == [Key(k)] && w == entries[k]
      case OtherMap(es) => exists e :: e in es && segs == [Bracket(e.0)] && w == e.1
      case Slice(elems) => exists i :: 0 <= i < |elems| && segs == [Index(i)] && w == elems[i]
    }

    /** From `v`, hop by hop inward, to a value that carries this name. */
    ghost predicate Leads(v: Value, hops: seq<Hop>, name: string)
      decreases |hops|
    {
      if hops == [] then Named(v, name)
      else Inside(v, hops[0].segs, hops[0].to) && Leads(hops[0].to, hops[1..], name)
    }

    static ghost function PathOf(hops: seq<Hop>, name: string): seq<Segment> {
      if hops == [] then [Key(name)] else hops[0].segs + PathOf(hops[1..], name)
    }

    /** A marker name is reachable from `v`. */
    ghost predicate Claimed(v: Value) {
      exists hops: seq<Hop>, name: string :: Leads(v, hops, name) && lower(name) in markers
    }

    static ghost function Segments(steps: seq<Item>): seq<Segment> {
      if steps == [] then [] else steps[0].segs + Segments(steps[1..])
    }

    static lemma SegmentsCons(path: seq<Segment>, head: Item, rest: seq<Item>)
      ensures ([head] + rest)[1..] == rest
      ensures path + Segments([head] + rest) == (path + head.segs) + Segments(rest)
    {
      assert ([head] + rest)[1..] == rest;
    }

    // -------------------------------------------------------------- soundness

    /** A reported hit is a marker at the end of a real chain, and its path spells that chain. */
    lemma {:induction false} SearchSound(v: Value, path: seq<Segment>, seen: set<Visit>) returns (steps: seq<Item>)
      requires Search(v, path, seen).Some?
      ensures Chain(v, steps) && Marked(steps[|steps| - 1].claim)
      ensures Search(v, path, seen).value == Hit(path + Segments(steps), steps[|steps| - 1].claim.value)
      decreases heap.Keys - seen, Size(v)
    {
      var i;
      if v.Ref? {
        assert v.key in heap.Keys - seen && v.key !in heap.Keys - (seen + {v.key});
        i, steps := ItemsSound(ContentItems(lower, heap[v.key]), path, seen + {v.key});
      } else {
        InlineWeight(v);
        i, steps := ItemsSound(InlineItems(v), path, seen);
      }
    }

    lemma {:induction false} ItemsSound(items: seq<Item>, path: seq<Segment>, seen: set<Visit>)
      returns (i: nat, steps: seq<Item>)
      requires SearchItems(items, path, seen).Some?
      ensures i < |items| && steps != [] && steps[0] == items[i]
      ensures |steps| > 1 ==> steps[0].child.Some? && Chain(steps[0].child.value, steps[1..])
      ensures Marked(steps[|steps| - 1].claim)
      ensures SearchItems(items, path, seen).value == Hit(path + Segments(steps), steps[|steps| - 1].claim.value)
      decreases heap.Keys - seen, Weight(items)
    {
      var head := items[0];
      var below := if head.child.Some? then Search(head.child.value, path + head.segs, seen) else None;
      if Marked(head.claim) {
        i, steps := 0, [head] + [];
        SegmentsCons(path, head, []);
      } else if below.Some? {
        var rest := SearchSound(head.child.value, path + head.segs, seen);
        i, steps := 0, [head] + rest;
        SegmentsCons(path, head, rest);
      } else {
        i, steps := ItemsSound(items[1..], path, seen);
        i := i + 1;
      }
    }

    // -------------------------------------------------------------- completeness

    /** The chain re-enters no reference of `seen`. */
    ghost predicate Avoids(steps: seq<Item>, seen: set<Visit>) {
      forall i :: 0 <= i < |steps| - 1 && steps[i].child.Some? && steps[i].child.value.Ref? ==>
        steps[i].child.value.key !in seen
    }

    lemma {:induction false} ChainSuffix(v: Value, steps: seq<Item>, i: nat, rest: seq<Item>)
      requires Chain(v, steps) && i < |steps| - 1 && rest == steps[i + 1..]
      ensures steps[i].child.Some? && Chain(steps[i].child.value, rest)
      decreases i
    {
      if i > 0 { ChainSuffix(steps[0].child.value, steps[1..], i - 1, rest); }
    }

    /** A chain that comes back to its start can be cut to one that does not: the simple path. */
    lemma {:induction false} CutLoops(v: Value, steps: seq<Item>, seen: set<Visit>) returns (cut: seq<Item>)
      requires v.Ref? && Chain(v, steps) && Avoids(steps, seen)
      ensures Chain(v, cut) && Avoids(cut, seen + {v.key}) && cut[|cut| - 1] == steps[|steps| - 1]
      decreases |steps|
    {
      if i: nat :| Returns(v, steps, i) {
        var rest := steps[i + 1..];
        LoopBack(v, steps, seen, i, rest);
        cut := CutLoops(v, rest, seen);
      } else {
        cut := steps;
        AvoidsStart(v, steps, seen);
      }
    }

    ghost predicate Returns(v: Value, steps: seq<Item>, i: nat) { i < |steps| - 1 && steps[i].child == Some(v) }

    lemma LoopBack(v: Value, steps: seq<Item>, seen: set<Visit>, i: nat, rest: seq<Item>)
      requires Chain(v, steps) && Avoids(steps, seen) && Returns(v, steps, i) && rest == steps[i + 1..]
      ensures Chain(v, rest) && Avoids(rest, seen) && |rest| < |steps| && rest[|rest| - 1] == steps[|steps| - 1]
    {
      ChainSuffix(v, steps, i, rest);
      AvoidsSuffix(steps, seen, i + 1);
    }

    lemma AvoidsStart(v: Value, steps: seq<Item>, seen: set<Visit>)
      requires v.Ref? && Avoids(steps, seen) && forall i: nat :: !Returns(v, steps, i)
      ensures Avoids(steps, seen + {v.key})
    {
      forall i: nat | i < |steps| - 1 ensures steps[i].child != Some(v) { assert !Returns(v, steps, i); }
    }

    lemma AvoidsSuffix(steps: seq<Item>, seen: set<Visit>, i: nat)
      requires i < |steps| && Avoids(steps, seen)
      ensures Avoids(steps[i..], seen)
    {
      forall k | 0 <= k < |steps[i..]| - 1 ensures steps[i..][k] == steps[i + k] {}
    }

    /** One marked claim, or one hit under a child, is enough for the loop to hit. */
    lemma {:induction false} ItemsHit(items: seq<Item>, path: seq<Segment>, seen: set<Visit>, i: nat)
      requires i < |items|
      requires Marked(items[i].claim) ||
        (items[i].child.Some? && Search(items[i].child.value, path + items[i].segs, seen).Some?)
      ensures SearchItems(items, path, seen).Some?
    {
      if i > 0 { ItemsHit(items[1..], path, seen, i - 1); }
    }

    lemma {:induction false} ChildLighter(items: seq<Item>, i: nat)
      requires i < |items|
      ensures ChildSize(items[i]) < Weight(items)
    {
      if i > 0 { ChildLighter(items[1..], i - 1); }
    }

    /** Every marker at the end of a chain outside `seen` makes the search hit. */
    lemma {:induction false} SearchComplete(v: Value, path: seq<Segment>, seen: set<Visit>, steps: seq<Item>)
      requires v.Ref? ==> v.key !in seen
      requires Chain(v, steps) && Avoids(steps, seen) && Marked(steps[|steps| - 1].claim)
      ensures Search(v, path, seen).Some?
      decreases heap.Keys - seen, Size(v)
    {
      if v.Ref? {
        assert v.key in heap.Keys - seen && v.key !in heap.Keys - (seen + {v.key});
        var cut := CutLoops(v, steps, seen);
        ItemsComplete(v, ContentItems(lower, heap[v.key]), path, seen + {v.key}, cut);
      } else {
        InlineWeight(v);
        ItemsComplete(v, InlineItems(v), path, seen, steps);
      }
    }

    lemma {:induction false} ItemsComplete(v: Value, items: seq<Item>, path: seq<Segment>, seen: set<Visit>, steps: seq<Item>)
      requires items == ItemsOf(v)
      requires Chain(v, steps) && Avoids(steps, seen) && Marked(steps[|steps| - 1].claim)
      ensures SearchItems(items, path, seen).Some?
      decreases heap.Keys - seen, Weight(items)
    {
      var i :| 0 <= i < |items| && items[i] == steps[0];
      if |steps| > 1 {
        ChildLighter(items, i);
        AvoidsSuffix(steps, seen, 1);
        SearchComplete(steps[0].child.value, path + items[i].segs, seen, steps[1..]);
      }
      ItemsHit(items, path, seen, i);
    }

    // -------------------------------------------------------------- which hit is reported

    /** What the search finds at one item: its own claim, or something under its child. */
    ghost function At(item: Item, path: seq<Segment>, seen: set<Visit>): Option<Hit> {
      if Marked(item.claim) then Some(Hit(path + item.segs, item.claim.value))
      else if item.child.Some? then Search(item.child.value, path + item.segs, seen)
      else None
    }

    /** A loop reports what it finds at the first item where there is anything to find. */
    lemma {:induction false} FirstItemWins(items: seq<Item>, path: seq<Segment>, seen: set<Visit>) returns (i: nat)
      requires SearchItems(items, path, seen).Some?
      ensures i < |items| && SearchItems(items, path, seen) == At(items[i], path, seen)
      ensures forall k :: 0 <= k < i ==> At(items[k], path, seen).None?
    {
      if At(items[0], path, seen).Some? {
        i := 0;
      } else {
        var rest := FirstItemWins(items[1..], path, seen);
        i := rest + 1;
        forall k | 0 <= k < i ensures At(items[k], path, seen).None? {
          if k > 0 { assert items[k] == items[1..][k - 1]; }
        }
      }
    }

    /** Sibling keys: of all keys of a string-keyed map under which anything is found, the least in
        sorted order is reported, whatever order the map is iterated in. */
    lemma LeastKeyWins(v: Value, path: seq<Segment>, seen: set<Visit>) returns (k: string)
      requires v.Ref? && v.key in heap && heap[v.key].StringMap? && Search(v, path, seen).Some?
      ensures var entries := heap[v.key].entries;
        && k in entries
        && Search(v, path, seen) == At(Item(Some(k), [Key(k)], Some(entries[k])), path, seen + {v.key})
        && forall j :: j in entries && Before(lower, j, k) ==>
             At(Item(Some(j), [Key(j)], Some(entries[j])), path, seen + {v.key}).None?
    {
      var entries := heap[v.key].entries;
      var keys := SortedKeys(lower, entries.Keys);
      var i := FirstItemWins(EntryItems(keys, entries), path, seen + {v.key});
      k := keys[i];
      forall j | j in entries && Before(lower, j, k)
        ensures At(Item(Some(j), [Key(j)], Some(entries[j])), path, seen + {v.key}).None?
      {
        var at :| 0 <= at < |keys| && keys[at] == j;
        EarlierKey(keys, at, i);
        assert EntryItems(keys, entries)[at] == Item(Some(j), [Key(j)], Some(entries[j]));
      }
    }

    lemma EarlierKey(keys: seq<string>, a: nat, b: nat)
      requires KeyOrdered(lower, keys) && a < |keys| && b < |keys| && Before(lower, keys[a], keys[b])
      ensures a < b
    {
      BeforeStrict(lower, keys[a], keys[b]);
    }

    // -------------------------------------------------------------- items and what they stand for

    lemma ClaimMeans(v: Value, item: Item)
      requires item in ItemsOf(v) && item.claim.Some?
      ensures Named(v, item.claim.value) && item.segs == [Key(item.claim.value)]
    {
    }

    lemma ChildMeans(v: Value, item: Item)
      requires item in ItemsOf(v) && item.child.Some?
      ensures Inside(v, item.segs, item.child.value)
    {
      if v.Ref? && heap[v.key].OtherMap? {
        var i :| 0 <= i < |heap[v.key].iterated| && item == ContentItems(lower, heap[v.key])[i];
        assert heap[v.key].iterated[i] in heap[v.key].iterated;
      }
    }

    lemma NameHasItem(v: Value, name: string) returns (item: Item)
      requires Named(v, name)
      ensures item in ItemsOf(v) && item.claim == Some(name)
    {
      if v.Struct? {
        var i :| 0 <= i < |v.fields| && v.fields[i].name == name;
        item := InlineItems(v)[i];
      } else {
        item := EntryItem(heap[v.key].entries, name);
      }
    }

    lemma EntryItem(entries: map<string, Value>, k: string) returns (item: Item)
      requires k in entries
      ensures item in ContentItems(lower, StringMap(entries)) && item == Item(Some(k), [Key(k)], Some(entries[k]))
    {
      var keys := SortedKeys(lower, entries.Keys);
      var i :| 0 <= i < |keys| && keys[i] == k;
      item := EntryItems(keys, entries)[i];
    }

    lemma InsideHasItem(v: Value, segs: seq<Segment>, w: Value) returns (item: Item)
      requires Inside(v, segs, w)
      ensures item in ItemsOf(v) && item.child == Some(w)
    {
      match v
      case Interface(e) => item := InlineItems(v)[0];
      case Array(elems) =>
        var i :| 0 <= i < |elems| && segs == [Index(i)] && w == elems[i];
        item := InlineItems(v)[i];
      case Struct(fields) =>
        var i :| 0 <= i < |fields| && fields[i].exported && w == fields[i].value;
        item := InlineItems(v)[i];
      case Ref(key) => item := HeldHasItem(heap[key], segs, w);
    }

    lemma HeldHasItem(c: Content, segs: seq<Segment>, w: Value) returns (item: Item)
      requires Held(c, segs, w)
      ensures item in ContentItems(lower, c) && item.child == Some(w)
    {
      match c
      case Pointee(x) => item := ContentItems(lower, c)[0];
      case StringMap(entries) =>
        var k :| k in entries && segs == [Key(k)] && w == entries[k];
        item := EntryItem(entries, k);
      case OtherMap(es) =>
        var i :| 0 <= i < |es| && w == es[i].1;
        item := ContentItems(lower, c)[i];
      case Slice(elems) =>
        var i :| 0 <= i < |elems| && w == elems[i];
        item := ContentItems(lower, c)[i];
    }

    /** A chain of items is a way inward to a name, and they spell the same path. */
    lemma {:induction false} ChainLeads(v: Value, steps: seq<Item>) returns (hops: seq<Hop>)
      requires Chain(v, steps) && steps[|steps| - 1].claim.Some?
      ensures Leads(v, hops, steps[|steps| - 1].claim.value) && PathOf(hops, steps[|steps| - 1].claim.value) == Segments(steps)
      decreases |steps|
    {
      if |steps| == 1 {
        ClaimMeans(v, steps[0]);
        hops := [];
        assert Segments(steps[1..]) == [];
      } else {
        var rest := ChainLeads(steps[0].child.value, steps[1..]);
        ChildMeans(v, steps[0]);
        hops := [Hop(steps[0].segs, steps[0].child.value)] + rest;
        assert hops[1..] == rest;
      }
    }

    lemma {:induction false} LeadsChain(v: Value, hops: seq<Hop>, name: string) returns (steps: seq<Item>)
      requires Leads(v, hops, name)
      ensures Chain(v, steps) && steps[|steps| - 1].claim == Some(name)
      decreases |hops|
    {
      if hops == [] {
        var item := NameHasItem(v, name);
        steps := [item];
      } else {
        var rest := LeadsChain(hops[0].to, hops[1..], name);
        var item := InsideHasItem(v, hops[0].segs, hops[0].to);
        steps := [item] + rest;
        assert steps[1..] == rest;
      }
    }

    lemma ScanIffChained(v: Value)
      ensures Search(v, [], {}).Some? <==> Chained(v)
    {
      if Search(v, [], {}).Some? { var steps := SearchSound(v, [], {}); }
      if steps: seq<Item> :| Chain(v, steps) && Marked(steps[|steps| - 1].claim) { SearchComplete(v, [], {}, steps); }
    }

    /** `scanMarkers` reports a hit exactly when a marker name is reachable, cycles or not. */
    lemma ScanIffClaimed(v: Value)
      ensures Search(v, [], {}).Some? <==> Claimed(v)
    {
      ScanIffChained(v);
      if steps: seq<Item> :| Chain(v, steps) && Marked(steps[|steps| - 1].claim) { var hops := ChainLeads(v, steps); }
      if hops: seq<Hop>, name: string :| Leads(v, hops, name) && lower(name) in markers { var steps := LeadsChain(v, hops, name); }
    }

    // -------------------------------------------------------------- the equations of a claim

    /** A value claims exactly when it carries a marker name itself or something inside it claims. */
    lemma ClaimedIff(v: Value)
      ensures Claimed(v) <==>
        (exists name :: Named(v, name) && lower(name) in markers) || (exists segs, w :: Inside(v, segs, w) && Claimed(w))
    {
      if hops: seq<Hop>, name: string :| Leads(v, hops, name) && lower(name) in markers {
        if hops != [] {
          assert Leads(hops[0].to, hops[1..], name);
          assert Inside(v, hops[0].segs, hops[0].to) && Claimed(hops[0].to);
        }
      }
      if name :| Named(v, name) && lower(name) in markers { assert Leads(v, [], name); }
      if segs, w :| Inside(v, segs, w) && Claimed(w) {
        var hops: seq<Hop>, name: string :| Leads(w, hops, name) && lower(name) in markers;
        assert ([Hop(segs, w)] + hops)[1..] == hops;
        assert Leads(v, [Hop(segs, w)] + hops, name);
      }
    }

    lemma ClaimedScalar()
      ensures !Claimed(Scalar)
    {
      ClaimedIff(Scalar);
    }

    lemma ClaimedInterface(e: Value)
      ensures Claimed(Interface(e)) <==> Claimed(e)
    {
      ClaimedIff(Interface(e));
      assert Inside(Interface(e), [], e);
    }

    lemma ClaimedArray(elems: seq<Value>)
      ensures Claimed(Array(elems)) <==> exists e :: e in elems && Claimed(e)
    {
      ClaimedIff(Array(elems));
      if e :| e in elems && Claimed(e) {
        var i :| 0 <= i < |elems| && elems[i] == e;
        assert Inside(Array(elems), [Index(i)], e);
      }
    }

    lemma ClaimedStruct(fields: seq<Field>)
      ensures Claimed(Struct(fields)) <==>
        exists f :: f in fields && (lower(f.name) in markers || (f.exported && Claimed(f.value)))
    {
      ClaimedIff(Struct(fields));
      if f :| f in fields && (lower(f.name) in markers || (f.exported && Claimed(f.value))) {
        if lower(f.name) in markers {
          assert Named(Struct(fields), f.name);
        } else {
          assert Inside(Struct(fields), [Key(f.name)], f.value);
        }
      }
    }

    /** What a reference claims is what its content claims; nil claims nothing. */
    lemma ClaimedRef(key: Visit)
      ensures Claimed(Ref(key)) <==> key in heap && ContentClaims(heap[key])
    {
      ClaimedIff(Ref(key));
      if key in heap && ContentClaims(heap[key]) { ContentInside(key); }
    }

    ghost predicate ContentClaims(c: Content) {
      match c
      case Pointee(x) => Claimed(x)
      case StringMap(entries) => exists k :: k in entries && (lower(k) in markers || Claimed(entries[k]))
      case OtherMap(es) => exists e :: e in es && Claimed(e.1)
      case Slice(elems) => exists e :: e in elems && Claimed(e)
    }

    lemma ContentInside(key: Visit)
      requires key in heap && ContentClaims(heap[key])
      ensures (exists name :: Named(Ref(key), name) && lower(name) in markers)
           || (exists segs, w :: Inside(Ref(key), segs, w) && Claimed(w))
    {
      var v := Ref(key);
      match heap[key]
      case Pointee(x) => assert Inside(v, [], x);
      case StringMap(entries) =>
        var k :| k in entries && (lower(k) in markers || Claimed(entries[k]));
        assert Named(v, k);
        assert Inside(v, [Key(k)], entries[k]);
      case OtherMap(es) =>
        var e :| e in es && Claimed(e.1);
        assert Inside(v, [Bracket(e.0)], e.1);
      case Slice(elems) =>
        var i :| 0 <= i < |elems| && Claimed(elems[i]);
        assert Inside(v, [Index(i)], elems[i]);
    }
  }

  /** Two heaps that differ only in the order in which their containers list their items. */
  ghost predicate SameItems(lower: string -> string, a: Heap, b: Heap) {
    a.Keys == b.Keys &&
    forall k, item :: k in a ==> (item in ContentItems(lower, a[k]) <==> item in ContentItems(lower, b[k]))
  }

  lemma {:induction false} ChainReordered(s: Scan, heap: Heap, v: Value, steps: seq<Item>)
    requires SameItems(s.lower, s.heap, heap) && s.Chain(v, steps)
    ensures s.(heap := heap).Chain(v, steps)
    decreases |steps|
  {
    if |steps| > 1 { ChainReordered(s, heap, steps[0].child.value, steps[1..]); }
  }

  /** Whether anything is found does not depend on map iteration order. */
  lemma VerdictOrderIrrelevant(s: Scan, heap: Heap, v: Value)
    requires SameItems(s.lower, s.heap, heap)
    ensures s.Search(v, [], {}).Some? <==> s.(heap := heap).Search(v, [], {}).Some?
  {
    var t := s.(heap := heap);
    s.ScanIffChained(v);
    t.ScanIffChained(v);
    if steps: seq<Item> :| s.Chain(v, steps) && s.Marked(steps[|steps| - 1].claim) { ChainReordered(s, heap, v, steps); }
    if steps: seq<Item> :| t.Chain(v, steps) && t.Marked(steps[|steps| - 1].claim) { ChainReordered(t, s.heap, v, steps); }
  }

  // ---------------------------------------------------------------- determinism of the reported hit

  /** No map with keys that are not strings: the only container iterated in no fixed order. */
  ghost predicate Fixed(heap: Heap) { forall k :: k in heap ==> !heap[k].OtherMap? }

  /** Containers that offer the same items and are iterated in a fixed order offer them in the same order. */
  lemma ItemsDetermined(lower: string -> string, a: Content, b: Content)
    requires !a.OtherMap? && !b.OtherMap? && forall item :: item in ContentItems(lower, a) <==> item in ContentItems(lower, b)
    ensures ContentItems(lower, a) == ContentItems(lower, b)
  {
    var p, q := ContentItems(lower, a), ContentItems(lower, b);
    if a.Slice? && b.Slice? {
      SliceLonger(lower, a, b);
      SliceLonger(lower, b, a);
    } else if a.StringMap? && b.StringMap? {
      EntriesWithin(lower, a, b);
      EntriesWithin(lower, b, a);
      assert a.entries == b.entries;
    } else if a.Pointee? && b.Pointee? {
      assert p[0] in q;
    } else {
      ShapeShown(lower, a);
      ShapeShown(lower, b);
      NoItems(p);
      NoItems(q);
    }
  }

  /** The kind of container an item comes from. */
  function Shape(segs: seq<Segment>): nat {
    if segs == [] then 0 else match segs[0] case Key(_) => 1 case Bracket(_) => 2 case Index(_) => 3
  }

  function ShapeOf(c: Content): nat { match c case Pointee(_) => 0 case StringMap(_) => 1 case OtherMap(_) => 2 case Slice(_) => 3 }

  lemma ShapeShown(lower: string -> string, c: Content)
    ensures forall item :: item in ContentItems(lower, c) ==> Shape(item.segs) == ShapeOf(c)
  {
  }

  lemma NoItems(items: seq<Item>)
    requires forall item :: item !in items
    ensures items == []
  {
    ElementsEmpty(items);
  }

  lemma SliceLonger(lower: string -> string, a: Content, b: Content)
    requires a.Slice? && b.Slice? && forall item :: item in ContentItems(lower, a) ==> item in ContentItems(lower, b)
    ensures |a.elems| <= |b.elems| && forall i :: 0 <= i < |a.elems| ==> a.elems[i] == b.elems[i]
  {
    forall i | 0 <= i < |a.elems| ensures i < |b.elems| && a.elems[i] == b.elems[i] {
      assert ContentItems(lower, a)[i] in ContentItems(lower, b);
      var j :| 0 <= j < |b.elems| && ContentItems(lower, b)[j] == ContentItems(lower, a)[i];
    }
    if |a.elems| > 0 { var last := a.elems[|a.elems| - 1]; }
  }

  lemma EntriesWithin(lower: string -> string, a: Content, b: Content)
    requires a.StringMap? && b.StringMap? && forall item :: item in ContentItems(lower, a) ==> item in ContentItems(lower, b)
    ensures forall k :: k in a.entries ==> k in b.entries && a.entries[k] == b.entries[k]
  {
    forall k | k in a.entries ensures k in b.entries && a.entries[k] == b.entries[k] {
      var keys := SortedKeys(lower, a.entries.Keys);
      var i :| 0 <= i < |keys| && keys[i] == k;
      assert ContentItems(lower, a)[i] in ContentItems(lower, b);
    }
  }

  /** Two heaps whose containers offer the same items in the same order. */
  ghost predicate SameListing(lower: string -> string, a: Heap, b: Heap) {
    a.Keys == b.Keys && forall k :: k in a ==> ContentItems(lower, a[k]) == ContentItems(lower, b[k])
  }

  lemma {:induction false} SameSearch(s: Scan, heap: Heap, v: Value, path: seq<Segment>, seen: set<Visit>)
    requires SameListing(s.lower, s.heap, heap)
    ensures s.Search(v, path, seen) == s.(heap := heap).Search(v, path, seen)
    decreases s.heap.Keys - seen, Size(v)
  {
    if v.Ref? {
      if v.key in s.heap && v.key !in seen {
        assert v.key in s.heap.Keys - seen && v.key !in s.heap.Keys - (seen + {v.key});
        SameLoop(s, heap, ContentItems(s.lower, s.heap[v.key]), path, seen + {v.key});
      }
    } else {
      InlineWeight(v);
      SameLoop(s, heap, InlineItems(v), path, seen);
    }
  }

  lemma {:induction false} SameLoop(s: Scan, heap: Heap, items: seq<Item>, path: seq<Segment>, seen: set<Visit>)
    requires SameListing(s.lower, s.heap, heap)
    ensures s.SearchItems(items, path, seen) == s.(heap := heap).SearchItems(items, path, seen)
    decreases s.heap.Keys - seen, Weight(items)
  {
    if items != [] {
      if items[0].child.Some? { SameSearch(s, heap, items[0].child.value, path + items[0].segs, seen); }
      SameLoop(s, heap, items[1..], path, seen);
    }
  }

  /** Without such maps the reported hit, path and key included, is determined by what the
      containers hold. */
  lemma HitIsDetermined(s: Scan, heap: Heap, v: Value)
    requires SameItems(s.lower, s.heap, heap) && Fixed(s.heap) && Fixed(heap)
    ensures s.Search(v, [], {}) == s.(heap := heap).Search(v, [], {})
  {
    forall k | k in s.heap ensures ContentItems(s.lower, s.heap[k]) == ContentItems(s.lower, heap[k]) {
      ItemsDetermined(s.lower, s.heap[k], heap[k]);
    }
    SameSearch(s, heap, v, [], {});
  }

  function TwoEntries(first: string, second: string): Content {
    OtherMap([(first, Struct([Field(first, true, Scalar)])), (second, Struct([Field(second, true, Scalar)]))])
  }

  /** With one it is not: for any two marker names, a map with keys that are not strings whose two
      iteration orders report different hits. */
  lemma HitDependsOnIteration(markers: set<string>, lower: string -> string, a: string, b: string) returns (s: Scan, heap: Heap, v: Value)
    requires lower(a) in markers && lower(b) in markers && a != b
    ensures SameItems(s.lower, s.heap, heap) && s.markers == markers && s.lower == lower
    ensures s.Search(v, [], {}) != s.(heap := heap).Search(v, [], {})
  {
    var key := Visit("map[int]any", 0, -1);
    v := Ref(key);
    s := Scan(map[key := TwoEntries(a, b)], markers, lower);
    heap := map[key := TwoEntries(b, a)];
    FirstEntryHit(s, key, a, b);
    FirstEntryHit(s.(heap := heap), key, b, a);
    TwoOrders(lower, a, b);
  }

  lemma TwoOrders(lower: string -> string, a: string, b: string)
    ensures forall item :: item in ContentItems(lower, TwoEntries(a, b)) <==> item in ContentItems(lower, TwoEntries(b, a))
  {
    var p, q := ContentItems(lower, TwoEntries(a, b)), ContentItems(lower, TwoEntries(b, a));
    assert p[0] == q[1] && p[1] == q[0];
  }

  lemma FirstEntryHit(s: Scan, key: Visit, a: string, b: string)
    requires s.heap == map[key := TwoEntries(a, b)] && s.lower(a) in s.markers
    ensures s.Search(Ref(key), [], {}) == Some(Hit([Bracket(a), Key(a)], a))
  {
    var items := ContentItems(s.lower, s.heap[key]);
    var inner := Struct([Field(a, true, Scalar)]);
    assert items[0] == Item(None, [Bracket(a)], Some(inner));
    assert InlineItems(inner)[0] == Item(Some(a), [Key(a)], Some(Scalar));
    var path: seq<Segment> := [] + [Bracket(a)];
    assert path + [Key(a)] == [Bracket(a), Key(a)];
    assert s.SearchItems(InlineItems(inner), path, {key}) == Some(Hit(path + [Key(a)], a));
    assert s.Search(inner, path, {key}) == Some(Hit(path + [Key(a)], a));
    assert {} + {key} == {key};
  }

  // ---------------------------------------------------------------- the imperative form

  /** The shared `seen` map, inserted into on descent and deleted from on return. */
  class Walker {
    const scan: Scan
    var seen: set<Visit>

    constructor (scan: Scan)
      ensures this.scan == scan && seen == {}
    {
      this.scan := scan;
      seen := {};
    }

    method ScanValue(v: Value, path: seq<Segment>) returns (hit: Option<Hit>)
      modifies this
      ensures seen == old(seen) && hit == scan.Search(v, path, old(seen))
      decreases scan.heap.Keys - seen, Size(v)
    {
      if v.Ref? {
        if v.key !in scan.heap || v.key in seen { return None; }
        ghost var before := seen;
        assert v.key in scan.heap.Keys - seen && v.key !in scan.heap.Keys - (seen + {v.key});
        seen := seen + {v.key};
        var items := ListItems(scan.heap[v.key]);
        hit := ScanLoop(items, path);
        seen := seen - {v.key};
        assert seen == before;
      } else {
        InlineWeight(v);
        hit := ScanLoop(InlineItems(v), path);
      }
    }

    /** The items a container offers, string keys sorted first. */
    method ListItems(c: Content) returns (items: seq<Item>)
      ensures items == ContentItems(scan.lower, c)
    {
      match c {
        case Pointee(v) => items := [Item(None, [], Some(v))];
        case StringMap(entries) =>
          var keys := SortKeys(scan.lower, entries.Keys);
          items := EntryItems(keys, entries);
        case OtherMap(es) => items := seq(|es|, i requires 0 <= i < |es| => Item(None, [Bracket(es[i].0)], Some(es[i].1)));
        case Slice(vs) => items := seq(|vs|, i requires 0 <= i < |vs| => Item(None, [Index(i)], Some(vs[i])));
      }
    }

    method ScanLoop(items: seq<Item>, path: seq<Segment>) returns (hit: Option<Hit>)
      modifies this
      ensures seen == old(seen) && hit == scan.SearchItems(items, path, old(seen))
      decreases scan.heap.Keys - seen, Weight(items)
    {
      for i := 0 to |items|
        invariant seen == old(seen)
        invariant scan.SearchItems(items, path, seen) == scan.SearchItems(items[i..], path, seen)
      {
        var item := items[i];
        assert items[i..][1..] == items[i + 1..];
        if scan.Marked(item.claim) { return Some(Hit(path + item.segs, item.claim.value)); }
        if item.child.Some? {
          scan.ChildLighter(items, i);
          hit := ScanValue(item.child.value, path + item.segs);
          if hit.Some? { return; }
        }
      }
      hit := None;
    }
  }
}

/** `Admit`: the one gate every write to the Brain passes. */
module Admission {
  import opened Text
  import opened MarkerScan

  const PERSONAL := {"live_personal_context", "personal_context", "live_context", "session_context"}

  const AUTHORITY := {
    "authority", "grant", "grants", "mission_authority", "mission_envelope", "delegation", "permission",
    "permissions", "consent", "approval"
  }

  const SCHEME := "evidence:"
  const QUITTANCE := "quittance"

  datatype Admission = Admission(kind: string, content: Option<Value>, evidenceRef: string)

  datatype Refusal =
    | NoContent | IneligibleKind | NoEvidence | EvidenceShape | QuittanceForgery
    | PersonalContext(hit: Hit) | AuthoritySubstitution(hit: Hit)

  /** `parseEvidenceRef`: the layer and id of evidence:<layer>/<id>. */
  function ParseEvidenceRef(ref: string): Option<(string, string)> {
    if !HasPrefix(ref, SCHEME) then None
    else
      var (layer, id, found) := Cut(ref[|SCHEME|..], '/');
      if !found || layer == "" || id == "" then None else Some((layer, id))
  }

  lemma Regroup(scheme: string, layer: string, id: string)
    ensures scheme + (layer + ['/'] + id) == scheme + layer + "/" + id
  {
  }

  /** A reference parses to (layer, id) exactly when it is their canonical rendering. */
  lemma ParseIffRendered(ref: string, layer: string, id: string)
    ensures ParseEvidenceRef(ref) == Some((layer, id)) <==>
      layer != "" && id != "" && '/' !in layer && ref == SCHEME + layer + "/" + id
  {
    if layer != "" && id != "" && '/' !in layer && ref == SCHEME + layer + "/" + id {
      assert ref[|SCHEME|..] == layer + ['/'] + id;
      CutJoin(layer, '/', id);
    }
    if ParseEvidenceRef(ref) == Some((layer, id)) {
      var rest := ref[|SCHEME|..];
      var i := IndexOf(rest, '/');
      assert ref[..|SCHEME|] == SCHEME;
      assert rest == rest[..i] + ['/'] + rest[i + 1..];
      Regroup(SCHEME, layer, id);
    }
  }

  predicate EligibleKind(kind: string) { kind in {"settled_evidence", QUITTANCE, "promoted_know_how"} }

  /** First violated law wins; None admits. */
  method Admit(a: Admission, heap: Heap, lower: string -> string) returns (refusal: Option<Refusal>)
    ensures var layer := ParseEvidenceRef(a.evidenceRef);
      refusal.None? <==>
        && a.content.Some? && EligibleKind(a.kind) && layer.Some?
        && (a.kind == QUITTANCE ==> layer.value.0 == QUITTANCE)
        && !Scan(heap, PERSONAL, lower).Claimed(a.content.value)
        && !Scan(heap, AUTHORITY, lower).Claimed(a.content.value)
    ensures refusal == Some(NoContent) <==> a.content.None?
    ensures refusal == Some(IneligibleKind) <==> a.content.Some? && !EligibleKind(a.kind)
    ensures refusal == Some(NoEvidence) <==> a.content.Some? && EligibleKind(a.kind) && a.evidenceRef == ""
    ensures refusal == Some(EvidenceShape) <==>
      a.content.Some? && EligibleKind(a.kind) && a.evidenceRef != "" && ParseEvidenceRef(a.evidenceRef).None?
    ensures refusal == Some(QuittanceForgery) <==>
      a.content.Some? && a.kind == QUITTANCE && ParseEvidenceRef(a.evidenceRef).Some? && ParseEvidenceRef(a.evidenceRef).value.0 != QUITTANCE
    ensures refusal.Some? && refusal.value.PersonalContext? ==>
      && a.content.Some? && lower(refusal.value.hit.key) in PERSONAL
      && Scan(heap, PERSONAL, lower).Search(a.content.value, [], {}) == Some(refusal.value.hit)
    ensures refusal.Some? && refusal.value.AuthoritySubstitution? ==>
      && a.content.Some? && lower(refusal.value.hit.key) in AUTHORITY && !Scan(heap, PERSONAL, lower).Claimed(a.content.value)
      && Scan(heap, AUTHORITY, lower).Search(a.content.value, [], {}) == Some(refusal.value.hit)
  {
    if a.content.None? { return Some(NoContent); }
    if !EligibleKind(a.kind) { return Some(IneligibleKind); }
    if a.evidenceRef == "" { return Some(NoEvidence); }
    var layer := ParseEvidenceRef(a.evidenceRef);
    if layer.None? { return Some(EvidenceShape); }
    if a.kind == QUITTANCE && layer.value.0 != QUITTANCE { return Some(QuittanceForgery); }
    var hit := ScanMarkers(Scan(heap, PERSONAL, lower), a.content.value);
    if hit.Some? { return Some(PersonalContext(hit.value)); }
    hit := ScanMarkers(Scan(heap, AUTHORITY, lower), a.content.value);
    if hit.Some? { return Some(AuthoritySubstitution(hit.value)); }
    refusal := None;
  }

  /** The hit's path leads from `v` to the name it reports. */
  ghost predicate Spells(scan: Scan, v: Value, hit: Hit) {
    exists hops: seq<Hop> :: scan.Leads(v, hops, hit.key) && hit.path == Scan.PathOf(hops, hit.key)
  }

  lemma HitMeans(scan: Scan, v: Value)
    requires scan.Search(v, [], {}).Some?
    ensures var hit := scan.Search(v, [], {}).value; scan.lower(hit.key) in scan.markers && Spells(scan, v, hit)
  {
    var steps := scan.SearchSound(v, [], {});
    assert [] + Scan.Segments(steps) == Scan.Segments(steps);
    var hops := scan.ChainLeads(v, steps);
  }

  /** `scanMarkers`. */
  method ScanMarkers(scan: Scan, v: Value) returns (hit: Option<Hit>)
    ensures hit == scan.Search(v, [], {}) && (hit.Some? <==> scan.Claimed(v))
    ensures hit.Some? ==> scan.lower(hit.value.key) in scan.markers && Spells(scan, v, hit.value)
  {
    var walker := new Walker(scan);
    hit := walker.ScanValue(v, []);
    scan.ScanIffClaimed(v);
    if hit.Some? { HitMeans(scan, v); }
  }
}
