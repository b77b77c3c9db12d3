/** Strings as the rest of the model needs them: the byte-wise order behind Go's `<` and
    `sort.Strings`, `strings.Cut`, `strings.Split` on one separator, and ASCII lower-casing. */
module Text {

  datatype Option<+T> = None | Some(value: T)

  // ---------------------------------------------------------------- order

  /** Go's `a < b` on strings. */
  predicate Less(a: string, b: string) {
    b != [] && (a == [] || a[0] < b[0] || (a[0] == b[0] && Less(a[1..], b[1..])))
  }

  lemma {:induction false} LessTotal(a: string, b: string)
    ensures Less(a, b) || a == b || Less(b, a)
  {
    if a != [] && b != [] && a[0] == b[0] {
      LessTotal(a[1..], b[1..]);
      assert a == [a[0]] + a[1..] && b == [b[0]] + b[1..];
    }
  }

  lemma {:induction false} LessAsymmetric(a: string, b: string)
    requires Less(a, b)
    ensures a != b && !Less(b, a)
  {
    if a != [] && a[0] == b[0] { LessAsymmetric(a[1..], b[1..]); }
  }

  lemma {:induction false} LessTransitive(a: string, b: string, c: string)
    requires Less(a, b) && Less(b, c)
    ensures Less(a, c)
  {
    if a != [] && a[0] == b[0] == c[0] { LessTransitive(a[1..], b[1..], c[1..]); }
  }

  /** The output shape of `sort.Strings` on a list without repetitions. */
  ghost predicate StrictlySorted(ids: seq<string>) {
    forall i, j :: 0 <= i < j < |ids| ==> Less(ids[i], ids[j])
  }

  function Elements<T>(s: seq<T>): set<T> { set x | x in s }

  /** `e` is the first of these laws that does not hold. */
  ghost predicate FirstBroken<E(!new)>(laws: seq<E>, holds: E -> bool, e: E) {
    exists i :: 0 <= i < |laws| && laws[i] == e && !holds(e) && forall j :: 0 <= j < i ==> holds(laws[j])
  }

  ghost predicate AllHold<E(!new)>(laws: seq<E>, holds: E -> bool) { forall i :: 0 <= i < |laws| ==> holds(laws[i]) }

  /** The answer is exactly the first broken law, or none when all hold. */
  ghost predicate Ruled<E(!new)>(laws: seq<E>, holds: E -> bool, answer: Option<E>) {
    && (answer.None? <==> AllHold(laws, holds))
    && (forall e :: answer == Some(e) <==> FirstBroken(laws, holds, e))
  }

  lemma RuledNone<E(!new)>(laws: seq<E>, holds: E -> bool)
    requires AllHold(laws, holds)
    ensures Ruled(laws, holds, None)
  {
  }

  lemma RuledSome<E(!new)>(laws: seq<E>, holds: E -> bool, i: nat)
    requires i < |laws| && !holds(laws[i]) && forall j :: 0 <= j < i ==> holds(laws[j])
    ensures Ruled(laws, holds, Some(laws[i]))
  {
    forall e | FirstBroken(laws, holds, e) ensures e == laws[i] {
      var k :| 0 <= k < |laws| && laws[k] == e && !holds(e) && forall j :: 0 <= j < k ==> holds(laws[j]);
    }
  }

  lemma SplitLast<T>(a: seq<T>, b: seq<T>)
    requires b != []
    ensures a + b == a + b[..|b| - 1] + [b[|b| - 1]]
  {
  }

  lemma ElementsEmpty<T>(s: seq<T>)
    ensures Elements(s) == {} <==> s == []
  {
    if s != [] { assert s[0] in Elements(s); }
  }

  // ---------------------------------------------------------------- permutations

  /** Two occurrences counted by the multiset sit at two different positions. */
  lemma {:induction false} PairIn<T>(s: seq<T>, x: T, y: T) returns (a: nat, b: nat)
    requires multiset{x, y} <= multiset(s)
    ensures a < |s| && b < |s| && a != b && s[a] == x && s[b] == y
  {
    var init, last := s[..|s| - 1], s[|s| - 1];
    assert s == init + [last];
    if last == x {
      assert y in multiset(init);
      b :| 0 <= b < |init| && init[b] == y;
      a := |s| - 1;
    } else if last == y {
      assert x in multiset(init);
      a :| 0 <= a < |init| && init[a] == x;
      b := |s| - 1;
    } else {
      a, b := PairIn(init, x, y);
    }
  }

  ghost predicate DistinctBy<T(!new), K(!new)>(s: seq<T>, key: T -> K) {
    forall i, j :: 0 <= i < j < |s| ==> key(s[i]) != key(s[j])
  }

  lemma DistinctSnoc<T(!new), K(!new)>(s: seq<T>, x: T, key: T -> K)
    ensures DistinctBy(s + [x], key) <==> DistinctBy(s, key) && forall y :: y in s ==> key(y) != key(x)
  {
    var t := s + [x];
    if DistinctBy(t, key) {
      forall i, j | 0 <= i < j < |s| ensures key(s[i]) != key(s[j]) { assert t[i] == s[i] && t[j] == s[j]; }
      forall y | y in s ensures key(y) != key(x) {
        var i :| 0 <= i < |s| && s[i] == y;
        assert t[i] == y && t[|s|] == x;
      }
    }
  }

  lemma SamePlaces<T>(s: seq<T>, t: seq<T>, i: nat, j: nat) returns (a: nat, b: nat)
    requires multiset(s) == multiset(t) && i < j < |t|
    ensures a < |s| && b < |s| && a != b && s[a] == t[i] && s[b] == t[j]
  {
    assert t == t[..i] + [t[i]] + t[i + 1..j] + [t[j]] + t[j + 1..];
    a, b := PairIn(s, t[i], t[j]);
  }

  /** Having pairwise different keys does not depend on the order of a list. */
  lemma DistinctPermuted<T(!new), K(!new)>(s: seq<T>, t: seq<T>, key: T -> K)
    requires multiset(s) == multiset(t) && DistinctBy(s, key)
    ensures DistinctBy(t, key)
  {
    forall i, j | 0 <= i < j < |t| ensures key(t[i]) != key(t[j]) {
      var a, b := SamePlaces(s, t, i, j);
      if a < b { assert key(s[a]) != key(s[b]); } else { assert key(s[b]) != key(s[a]); }
    }
  }

  lemma SameMembers<T>(s: seq<T>, t: seq<T>)
    requires multiset(s) == multiset(t)
    ensures forall x :: x in s <==> x in t
  {
    assert forall x :: x in s <==> x in multiset(s);
  }

  /** Sorted output is a function of the set of ids alone: map iteration order cannot show. */
  lemma {:induction false} SortedUnique(a: seq<string>, b: seq<string>)
    requires StrictlySorted(a) && StrictlySorted(b) && Elements(a) == Elements(b)
    ensures a == b
  {
    assert a == [] <==> b == [] by { ElementsEmpty(a); ElementsEmpty(b); }
    if a != [] {
      if a[0] != b[0] {
        assert a[0] in Elements(b) && b[0] in Elements(a);
        var i :| 0 <= i < |b| && b[i] == a[0];
        var j :| 0 <= j < |a| && a[j] == b[0];
        LessAsymmetric(a[0], b[0]);
      }
      assert Elements(a[1..]) == Elements(a) - {a[0]} by { SortedHeadFresh(a); }
      assert Elements(b[1..]) == Elements(b) - {b[0]} by { SortedHeadFresh(b); }
      SortedUnique(a[1..], b[1..]);
      assert a == [a[0]] + a[1..] && b == [b[0]] + b[1..];
    }
  }

  lemma SortedHeadFresh(a: seq<string>)
    requires a != [] && StrictlySorted(a)
    ensures Elements(a[1..]) == Elements(a) - {a[0]}
  {
    forall i | 1 <= i < |a| ensures a[i] != a[0] { LessAsymmetric(a[0], a[i]); }
    assert a == [a[0]] + a[1..];
    forall i | 0 <= i < |a[1..]| ensures a[1..][i] != a[0] { assert a[1..][i] == a[i + 1]; }
  }

  /** `sort.Strings` applied to the keys of a map: insertion of each key in turn. */
  method SortIds(ids: set<string>) returns (sorted: seq<string>)
    ensures StrictlySorted(sorted) && Elements(sorted) == ids
  {
    sorted := [];
    var rest := ids;
    while rest != {}
      invariant rest <= ids
      invariant StrictlySorted(sorted) && Elements(sorted) == ids - rest
      decreases rest
    {
      var id :| id in rest;
      sorted := InsertSorted(sorted, id);
      rest := rest - {id};
    }
  }

  method InsertSorted(sorted: seq<string>, id: string) returns (out: seq<string>)
    requires StrictlySorted(sorted) && id !in sorted
    ensures StrictlySorted(out) && Elements(out) == Elements(sorted) + {id}
  {
    var i := 0;
    while i < |sorted| && Less(sorted[i], id)
      invariant 0 <= i <= |sorted|
      invariant forall k :: 0 <= k < i ==> Less(sorted[k], id)
    {
      i := i + 1;
    }
    out := sorted[..i] + [id] + sorted[i..];
    InsertedAfter(sorted, id, i);
    InsertedOrder(sorted[..i], id, sorted[i..]);
    InsertedMembers(sorted, id, i);
  }

  /** Past the point of insertion everything is larger. */
  lemma InsertedAfter(sorted: seq<string>, id: string, i: nat)
    requires StrictlySorted(sorted) && id !in sorted && i <= |sorted| && (i < |sorted| ==> !Less(sorted[i], id))
    ensures forall k :: i <= k < |sorted| ==> Less(id, sorted[k])
  {
    forall k | i <= k < |sorted| ensures Less(id, sorted[k]) {
      LessTotal(sorted[i], id);
      if k > i { LessTransitive(id, sorted[i], sorted[k]); }
    }
  }

  lemma InsertedOrder(a: seq<string>, id: string, b: seq<string>)
    requires StrictlySorted(a) && StrictlySorted(b)
    requires (forall k :: 0 <= k < |a| ==> Less(a[k], id)) && (forall k :: 0 <= k < |b| ==> Less(id, b[k]))
    ensures StrictlySorted(a + [id] + b)
  {
    forall i, j | 0 <= i < |a| && 0 <= j < |b| ensures Less(a[i], b[j]) { LessTransitive(a[i], id, b[j]); }
  }

  lemma InsertedMembers(sorted: seq<string>, id: string, i: nat)
    requires i <= |sorted|
    ensures Elements(sorted[..i] + [id] + sorted[i..]) == Elements(sorted) + {id}
  {
    assert sorted == sorted[..i] + sorted[i..];
    assert forall x :: x in sorted <==> x in sorted[..i] || x in sorted[i..];
  }

  // ---------------------------------------------------------------- cutting

  function IndexOf(s: string, c: char): (i: nat)
    ensures i <= |s|
    ensures i < |s| ==> s[i] == c
    ensures forall k :: 0 <= k < i ==> s[k] != c
  {
    if s == [] || s[0] == c then 0 else IndexOf(s[1..], c) + 1
  }

  /** `strings.Cut(s, "c")`: (before, after, found). */
  function Cut(s: string, c: char): (string, string, bool) {
    var i := IndexOf(s, c);
    if i < |s| then (s[..i], s[i + 1..], true) else (s, "", false)
  }

  lemma IndexOfUnique(a: string, c: char, b: string)
    requires c !in a
    ensures IndexOf(a + [c] + b, c) == |a|
  {
    var s := a + [c] + b;
    assert s[|a|] == c;
    forall k | 0 <= k < |a| ensures s[k] != c { assert s[k] == a[k]; }
  }

  /** Cutting at a separator undoes gluing with it. */
  lemma CutJoin(a: string, c: char, b: string)
    requires c !in a
    ensures Cut(a + [c] + b, c) == (a, b, true)
  {
    IndexOfUnique(a, c, b);
    var s := a + [c] + b;
    assert s[..|a|] == a && s[|a| + 1..] == b;
  }

  predicate HasPrefix(s: string, p: string) { |p| <= |s| && s[..|p|] == p }

  predicate All(s: string, p: char -> bool) { forall i :: 0 <= i < |s| ==> p(s[i]) }

  function LowerChar(c: char): char {
    if 'A' <= c <= 'Z' then ((c as int) + 32) as char else c
  }

  function Lower(s: string): (r: string)
    ensures |r| == |s| && forall i :: 0 <= i < |s| ==> r[i] == LowerChar(s[i])
  {
    if s == [] then [] else [LowerChar(s[0])] + Lower(s[1..])
  }

  predicate HexLower(c: char) { '0' <= c <= '9' || 'a' <= c <= 'f' }

  // ---------------------------------------------------------------- splitting

  /** `strings.Split(s, "c")`. */
  function Split(s: string, c: char): (parts: seq<string>)
    ensures |parts| >= 1
  {
    if s == [] then [[]]
    else
      var rest := Split(s[1..], c);
      if s[0] == c then [[]] + rest else [[s[0]] + rest[0]] + rest[1..]
  }

  function Join(parts: seq<string>, c: char): string
    requires parts != []
  {
    if |parts| == 1 then parts[0] else parts[0] + [c] + Join(parts[1..], c)
  }

  lemma JoinCons(h: string, rest: seq<string>, c: char)
    requires rest != []
    ensures Join([h] + rest, c) == h + [c] + Join(rest, c)
  {
    assert ([h] + rest)[1..] == rest;
  }

  lemma JoinGrow(x: char, parts: seq<string>, c: char)
    requires parts != []
    ensures Join([[x] + parts[0]] + parts[1..], c) == [x] + Join(parts, c)
  {
    if |parts| > 1 {
      JoinCons([x] + parts[0], parts[1..], c);
    }
  }

  lemma {:induction false} JoinSplit(s: string, c: char)
    ensures Join(Split(s, c), c) == s
  {
    if s != [] {
      JoinSplit(s[1..], c);
      if s[0] == c { JoinCons([], Split(s[1..], c), c); } else { JoinGrow(s[0], Split(s[1..], c), c); }
      assert s == [s[0]] + s[1..];
    }
  }

  lemma {:induction false} SplitConcat(a: string, c: char, b: string)
    ensures Split(a + [c] + b, c) == Split(a, c) + Split(b, c)
  {
    var s := a + [c] + b;
    if a == [] {
      assert s[1..] == b;
    } else {
      assert s[1..] == a[1..] + [c] + b;
      SplitConcat(a[1..], c, b);
    }
  }

  lemma {:induction false} SplitAtom(a: string, c: char)
    requires c !in a
    ensures Split(a, c) == [a]
  {
    if a != [] {
      SplitAtom(a[1..], c);
      assert a[0] in a && a == [a[0]] + a[1..];
    }
  }

  lemma {:induction false} JoinConcat(p: seq<string>, q: seq<string>, c: char)
    requires p != [] && q != []
    ensures Join(p + q, c) == Join(p, c) + [c] + Join(q, c)
  {
    if |p| == 1 {
      JoinCons(p[0], q, c);
    } else {
      JoinConcat(p[1..], q, c);
      JoinCons(p[0], p[1..] + q, c);
      assert p + q == [p[0]] + (p[1..] + q) && p == [p[0]] + p[1..];
    }
  }
}
