/** Mount scoping in the Brain namespace (packages/brain/brain.go): a string-prefix test that must
    mean "whole path segments". */
module Namespace {
  import opened Text

  const COLLECTIONS := {"missions", "decisions", "capabilities", "evidence", "notes"}

  predicate OrgChar(c: char) { '0' <= c <= '9' || 'a' <= c <= 'f' || c == '-' }

  predicate TailChar(c: char) {
    'A' <= c <= 'Z' || 'a' <= c <= 'z' || '0' <= c <= '9' || c == '_' || c == '/' || c == '-'
  }

  predicate OrgSegment(s: string) { s != "" && All(s, OrgChar) }

  /** Everything behind "/org/". */
  function AfterOrg(s: string): string
    requires HasPrefix(s, "/org/")
  {
    s[5..]
  }

  /** `pathPattern`: /org/<id>/<collection>/<tail>. */
  predicate PathShape(s: string) {
    && HasPrefix(s, "/org/")
    && var (org, rest, slash) := Cut(AfterOrg(s), '/');
    && slash && OrgSegment(org)
    && var (collection, tail, more) := Cut(rest, '/');
    && more && collection in COLLECTIONS && tail != "" && All(tail, TailChar)
  }

  /** `mountPrefixPattern`: /org/<id>/<collection>[/<tail>]. */
  predicate MountShape(s: string) {
    && HasPrefix(s, "/org/")
    && var (org, rest, slash) := Cut(AfterOrg(s), '/');
    && slash && OrgSegment(org)
    && var (collection, tail, more) := Cut(rest, '/');
    && collection in COLLECTIONS && All(tail, TailChar)
  }

  /** The org segment both `orgSegmentPattern` and `mountPrefixPattern` capture. */
  function OrgOf(s: string): string
    requires HasPrefix(s, "/org/")
  {
    Cut(AfterOrg(s), '/').0
  }

  predicate Adjacent(s: string, a: char, b: char) { exists i :: 0 <= i < |s| - 1 && s[i] == a && s[i + 1] == b }

  predicate CleanSegments(p: string) {
    p != "" && p[|p| - 1] != '/' && !Adjacent(p, '/', '/') && !Adjacent(p, '.', '.')
  }

  predicate WellFormedPath(s: string) { PathShape(s) && CleanSegments(s) }

  predicate WellFormedMount(s: string) { MountShape(s) && CleanSegments(s) }

  /** `MatchMount`: does the mount at `mount` see the object at `path`? */
  predicate MatchMount(path: string, mount: string) {
    && WellFormedMount(mount) && WellFormedPath(path)
    && OrgOf(path) == OrgOf(mount)
    && (path == mount || HasPrefix(path, mount + "/"))
  }

  function Segments(s: string): seq<string> { Split(s, '/') }

  // ---------------------------------------------------------------- the patterns read as expressions

  predicate PathReading(s: string, org: string, collection: string, tail: string) {
    && s == "/org/" + org + "/" + collection + "/" + tail
    && OrgSegment(org) && collection in COLLECTIONS && tail != "" && All(tail, TailChar)
  }

  lemma NoSlash(s: string)
    requires OrgSegment(s) || s in COLLECTIONS
    ensures '/' !in s
  {
  }

  lemma PatternIsRecognised(s: string, org: string, collection: string, tail: string)
    requires PathReading(s, org, collection, tail)
    ensures PathShape(s)
  {
    NoSlash(org);
    NoSlash(collection);
    var rest := collection + ['/'] + tail;
    Glue(org, collection, tail);
    assert s[..5] == "/org/" && s[5..] == org + ['/'] + rest;
    CutJoin(org, '/', rest);
    CutJoin(collection, '/', tail);
  }

  lemma RecognisedIsPattern(s: string) returns (org: string, collection: string, tail: string)
    requires PathShape(s)
    ensures PathReading(s, org, collection, tail)
  {
    var cut := Cut(AfterOrg(s), '/');
    org := cut.0;
    var cut' := Cut(cut.1, '/');
    collection, tail := cut'.0, cut'.1;
    CutGlue(AfterOrg(s));
    CutGlue(cut.1);
    assert s == s[..5] + AfterOrg(s);
    Glue(org, collection, tail);
  }

  lemma Glue(org: string, collection: string, tail: string)
    ensures "/org/" + (org + ['/'] + (collection + ['/'] + tail)) == "/org/" + org + "/" + collection + "/" + tail
  {
  }

  /** The recogniser accepts exactly the strings of the frozen path expression. */
  lemma PathShapeIsPattern(s: string)
    ensures PathShape(s) <==> exists org, collection, tail :: PathReading(s, org, collection, tail)
  {
    if PathShape(s) { var org, collection, tail := RecognisedIsPattern(s); }
    if org, collection, tail :| PathReading(s, org, collection, tail) { PatternIsRecognised(s, org, collection, tail); }
  }

  /** A mount: a collection, or something below it. */
  predicate MountReading(s: string, org: string, collection: string, below: Option<string>) {
    && s == "/org/" + org + "/" + collection + (if below.Some? then "/" + below.value else "")
    && OrgSegment(org) && collection in COLLECTIONS && (below.Some? ==> All(below.value, TailChar))
  }

  /** The recogniser of mounts accepts exactly the strings of the mount expression. */
  lemma MountShapeIsPattern(s: string)
    ensures MountShape(s) <==> exists org, collection, below :: MountReading(s, org, collection, below)
  {
    if MountShape(s) { var org, collection, below := RecognisedMount(s); }
    if org, collection, below :| MountReading(s, org, collection, below) { MountIsRecognised(s, org, collection, below); }
  }

  lemma RecognisedMount(s: string) returns (org: string, collection: string, below: Option<string>)
    requires MountShape(s)
    ensures MountReading(s, org, collection, below)
  {
    var cut := Cut(AfterOrg(s), '/');
    var cut' := Cut(cut.1, '/');
    org, collection, below := cut.0, cut'.0, if cut'.2 then Some(cut'.1) else None;
    CutGlue(AfterOrg(s));
    CutGlue(cut.1);
    MountSpelled(s, org, cut.1, collection, below);
  }

  lemma MountSpelled(s: string, org: string, rest: string, collection: string, below: Option<string>)
    requires HasPrefix(s, "/org/") && s[5..] == org + ['/'] + rest
    requires rest == if below.Some? then collection + ['/'] + below.value else collection
    ensures s == "/org/" + org + "/" + collection + (if below.Some? then "/" + below.value else "")
  {
    assert s == s[..5] + s[5..];
    if below.Some? { GlueBelow(org, collection, below.value); } else { GlueShort(org, collection); }
  }

  lemma GlueBelow(org: string, collection: string, tail: string)
    ensures "/org/" + (org + ['/'] + (collection + ['/'] + tail)) == "/org/" + org + "/" + collection + ("/" + tail)
  {
  }

  lemma GlueShort(org: string, collection: string)
    ensures "/org/" + (org + ['/'] + collection) == "/org/" + org + "/" + collection + ""
  {
  }

  lemma MountIsRecognised(s: string, org: string, collection: string, below: Option<string>)
    requires MountReading(s, org, collection, below)
    ensures MountShape(s)
  {
    NoSlash(org);
    NoSlash(collection);
    var rest := if below.Some? then collection + ['/'] + below.value else collection;
    if below.Some? { GlueBelow(org, collection, below.value); } else { GlueShort(org, collection); }
    BehindOrg(s, org + ['/'] + rest);
    CutJoin(org, '/', rest);
    if below.Some? { CutJoin(collection, '/', below.value); } else { CutNone(collection); }
  }

  lemma BehindOrg(s: string, rest: string)
    requires s == "/org/" + rest
    ensures HasPrefix(s, "/org/") && s[5..] == rest
  {
    assert s[..5] == "/org/";
  }

  lemma CutNone(s: string)
    requires '/' !in s
    ensures Cut(s, '/') == (s, "", false)
  {
  }

  lemma CutGlue(s: string)
    ensures var (a, b, found) := Cut(s, '/'); '/' !in a && s == if found then a + ['/'] + b else a
  {
  }

  // ---------------------------------------------------------------- segments

  /** Being equal or extended past a slash is exactly being a prefix segment by segment. */
  lemma PrefixIffSegments(path: string, mount: string)
    ensures (path == mount || HasPrefix(path, mount + "/")) <==> Segments(mount) <= Segments(path)
  {
    if HasPrefix(path, mount + "/") {
      var rest := path[|mount| + 1..];
      assert path == mount + ['/'] + rest;
      SplitConcat(mount, '/', rest);
    }
    if Segments(mount) <= Segments(path) { SegmentsPrefix(path, mount); }
  }

  lemma SegmentsPrefix(path: string, mount: string)
    requires Segments(mount) <= Segments(path)
    ensures path == mount || HasPrefix(path, mount + "/")
  {
    var p, q := Segments(mount), Segments(path)[|Segments(mount)|..];
    JoinSplit(path, '/');
    JoinSplit(mount, '/');
    assert Segments(path) == p + q;
    if q == [] {
      assert p + q == p;
    } else {
      JoinConcat(p, q, '/');
      assert path[..|mount| + 1] == mount + "/";
    }
  }

  /** A namespace string splits as "", "org", its org, and the rest. */
  lemma OrgIsThirdSegment(s: string)
    requires HasPrefix(s, "/org/") && Cut(AfterOrg(s), '/').2
    ensures |Segments(s)| >= 4 && Segments(s)[2] == OrgOf(s)
  {
    var (org, rest, slash) := Cut(AfterOrg(s), '/');
    CutGlue(AfterOrg(s));
    assert s == "/org" + ['/'] + AfterOrg(s);
    SplitConcat("/org", '/', AfterOrg(s));
    assert "/org" == "" + ['/'] + "org";
    SplitConcat("", '/', "org");
    SplitAtom("", '/');
    SplitAtom("org", '/');
    SplitConcat(org, '/', rest);
    SplitAtom(org, '/');
  }

  /** The whole meaning of a mount: both strings are well-formed and the mount's segments are a
      prefix of the path's. The organisation check is implied. */
  lemma MatchMountIffSegments(path: string, mount: string)
    ensures MatchMount(path, mount) <==>
      WellFormedPath(path) && WellFormedMount(mount) && Segments(mount) <= Segments(path)
  {
    PrefixIffSegments(path, mount);
    if WellFormedPath(path) && WellFormedMount(mount) && Segments(mount) <= Segments(path) {
      OrgIsThirdSegment(path);
      OrgIsThirdSegment(mount);
      assert Segments(mount)[2] == Segments(path)[2];
    }
  }

  /** Mounts compose: what a mount below another sees, the upper one sees too. */
  lemma MountsCompose(path: string, inner: string, outer: string)
    requires MatchMount(path, inner) && MatchMount(inner, outer)
    ensures MatchMount(path, outer)
  {
    MatchMountIffSegments(path, inner);
    MatchMountIffSegments(inner, outer);
    MatchMountIffSegments(path, outer);
  }

  /** Two mounts that see one path are nested. */
  lemma MountsNested(path: string, a: string, b: string)
    requires MatchMount(path, a) && MatchMount(path, b)
    ensures Segments(a) <= Segments(b) || Segments(b) <= Segments(a)
  {
    MatchMountIffSegments(path, a);
    MatchMountIffSegments(path, b);
  }

  /** Siblings that merely share leading characters are separate. */
  lemma SiblingsAreSeparate(parent: string, name: string, suffix: string, tail: string)
    requires '/' !in name && '/' !in suffix && suffix != ""
    ensures !MatchMount(parent + "/" + (name + suffix) + "/" + tail, parent + "/" + name)
  {
    var path, mount := parent + "/" + (name + suffix) + "/" + tail, parent + "/" + name;
    MatchMountIffSegments(path, mount);
    SplitConcat(parent, '/', name);
    SplitAtom(name, '/');
    SplitConcat(parent + "/" + (name + suffix), '/', tail);
    SplitConcat(parent, '/', name + suffix);
    SplitAtom(name + suffix, '/');
    var k := |Segments(parent)|;
    assert Segments(mount)[k] == name && Segments(path)[k] == name + suffix;
  }
}
