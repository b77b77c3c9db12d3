/** The length-prefixed framing behind an event's integrity digest
    (packages/obslaw/platform_event_ref.go), up to but not including the hash. */
module Framing {

  newtype byte = x: int | 0 <= x < 256

  type Bytes = seq<byte>

  const NUL: byte := 0

  /** The frozen events/1.0 envelope; Go strings are byte strings, of any bytes. */
  datatype WorkEvent = WorkEvent(source: Bytes, num: int, kind: Bytes, subject: Bytes, payloadRef: Bytes,
                                 timestamp: Bytes, version: Bytes)

  function Digit(d: int): byte
    requires 0 <= d < 10
  {
    (48 + d) as byte
  }

  /** `%d` of a length. */
  function Dec(n: nat): Bytes {
    if n < 10 then [Digit(n)] else Dec(n / 10) + [Digit(n % 10)]
  }

  /** `%d` of an int64. */
  function FormatInt(n: int): Bytes { if n < 0 then [45] + Dec(-n) else Dec(n) }

  /** `%d\x00%s`. */
  function Frame(field: Bytes): Bytes { Dec(|field|) + [NUL] + field }

  function Material(fields: seq<Bytes>): Bytes {
    if fields == [] then [] else Frame(fields[0]) + Material(fields[1..])
  }

  function Fields(e: WorkEvent): seq<Bytes> {
    [e.source, FormatInt(e.num), e.kind, e.subject, e.payloadRef, e.timestamp, e.version]
  }

  /** The builder loop of `nativeEventDigest`. */
  method NativeMaterial(e: WorkEvent) returns (material: Bytes)
    ensures material == Material(Fields(e))
  {
    material := [];
    var fields := Fields(e);
    for i := 0 to |fields|
      invariant Material(fields) == material + Material(fields[i..])
    {
      assert fields[i..][1..] == fields[i + 1..];
      material := material + Frame(fields[i]);
    }
    assert fields[|fields|..] == [];
  }

  /** The seven fields in their frozen order, each behind its own length. */
  lemma MaterialSpelled(e: WorkEvent)
    ensures Material(Fields(e)) ==
      Frame(e.source) + Frame(FormatInt(e.num)) + Frame(e.kind) + Frame(e.subject) + Frame(e.payloadRef) + Frame(e.timestamp) + Frame(e.version)
  {
    var f := Fields(e);
    Peeled(f[5..], e.timestamp, [e.version]);
    Peeled(f[6..], e.version, []);
    Peeled(f[4..], e.payloadRef, f[5..]);
    Peeled(f[3..], e.subject, f[4..]);
    Peeled(f[2..], e.kind, f[3..]);
    Peeled(f[1..], FormatInt(e.num), f[2..]);
    Peeled(f, e.source, f[1..]);
    Regrouped(Frame(e.source), Frame(FormatInt(e.num)), Frame(e.kind), Frame(e.subject), Frame(e.payloadRef), Frame(e.timestamp), Frame(e.version));
  }

  lemma Peeled(fields: seq<Bytes>, first: Bytes, rest: seq<Bytes>)
    requires fields == [first] + rest
    ensures Material(fields) == Frame(first) + Material(rest)
  {
    assert fields[1..] == rest;
  }

  lemma Regrouped(a: Bytes, b: Bytes, c: Bytes, d: Bytes, e: Bytes, f: Bytes, g: Bytes)
    ensures a + (b + (c + (d + (e + (f + (g + [])))))) == a + b + c + d + e + f + g
  {
  }

  // ---------------------------------------------------------------- a decoder

  datatype Read = Bad | Got(value: nat, rest: Bytes)

  predicate IsDigit(b: byte) { 48 <= b <= 57 }

  /** Digits up to the NUL. */
  function ReadLength(m: Bytes, acc: nat): (r: Read)
    ensures r.Got? ==> |r.rest| < |m|
  {
    if m == [] then Bad
    else if m[0] == NUL then Got(acc, m[1..])
    else if IsDigit(m[0]) then ReadLength(m[1..], 10 * acc + (m[0] as int - 48))
    else Bad
  }

  datatype Decoded = Malformed | Fieldwise(fields: seq<Bytes>)

  function Decode(m: Bytes): Decoded
    decreases |m|
  {
    if m == [] then Fieldwise([])
    else match ReadLength(m, 0)
      case Bad => Malformed
      case Got(n, rest) =>
        if n > |rest| then Malformed
        else match Decode(rest[n..])
          case Malformed => Malformed
          case Fieldwise(fields) => Fieldwise([rest[..n]] + fields)
  }

  lemma {:induction false} ReadDec(n: nat, rest: Bytes)
    ensures ReadLength(Dec(n) + rest, 0) == ReadLength(rest, n)
  {
    if n < 10 {
      assert (Dec(n) + rest)[1..] == rest;
    } else {
      var tail := [Digit(n % 10)] + rest;
      assert Dec(n) + rest == Dec(n / 10) + tail;
      ReadDec(n / 10, tail);
      assert tail[1..] == rest;
    }
  }

  lemma ReadFrame(field: Bytes, rest: Bytes)
    ensures ReadLength(Frame(field) + rest, 0) == Got(|field|, field + rest)
  {
    var tail := [NUL] + (field + rest);
    assert Frame(field) + rest == Dec(|field|) + tail;
    ReadDec(|field|, tail);
    assert tail[1..] == field + rest;
  }

  lemma DecNonEmpty(n: nat)
    ensures Dec(n) != []
  {
  }

  /** Decoding undoes framing, for any fields at all, NULs and digits included. */
  lemma {:induction false} DecodeMaterial(fields: seq<Bytes>)
    ensures Decode(Material(fields)) == Fieldwise(fields)
  {
    if fields != [] {
      var f, rest := fields[0], Material(fields[1..]);
      ReadFrame(f, rest);
      DecNonEmpty(|f|);
      assert (f + rest)[..|f|] == f && (f + rest)[|f|..] == rest;
      DecodeMaterial(fields[1..]);
      assert fields == [f] + fields[1..];
    }
  }

  /** So the material determines the list of fields. */
  lemma MaterialInjective(a: seq<Bytes>, b: seq<Bytes>)
    requires Material(a) == Material(b)
    ensures a == b
  {
    DecodeMaterial(a);
    DecodeMaterial(b);
  }

  lemma DecInjective(a: nat, b: nat)
    requires Dec(a) == Dec(b)
    ensures a == b
  {
    ReadDec(a, [NUL]);
    ReadDec(b, [NUL]);
  }

  lemma {:induction false} DecStartsWithDigit(n: nat)
    ensures Dec(n) != [] && IsDigit(Dec(n)[0])
  {
    if n >= 10 { DecStartsWithDigit(n / 10); }
  }

  lemma FormatIntInjective(a: int, b: int)
    requires FormatInt(a) == FormatInt(b)
    ensures a == b
  {
    DecStartsWithDigit(if a < 0 then -a else a);
    DecStartsWithDigit(if b < 0 then -b else b);
    if a < 0 && b < 0 {
      assert FormatInt(a)[1..] == Dec(-a) && FormatInt(b)[1..] == Dec(-b);
      DecInjective(-a, -b);
    } else if a >= 0 && b >= 0 {
      DecInjective(a, b);
    }
  }

  /** Distinct events never share their material. */
  lemma EventMaterialInjective(a: WorkEvent, b: WorkEvent)
    requires Material(Fields(a)) == Material(Fields(b))
    ensures a == b
  {
    MaterialInjective(Fields(a), Fields(b));
    assert Fields(a)[0] == Fields(b)[0] && Fields(a)[1] == Fields(b)[1] && Fields(a)[2] == Fields(b)[2];
    assert Fields(a)[3] == Fields(b)[3] && Fields(a)[4] == Fields(b)[4] && Fields(a)[5] == Fields(b)[5];
    assert Fields(a)[6] == Fields(b)[6];
    FormatIntInjective(a.num, b.num);
  }

  /** The bare NUL join the framing replaces: two field lists, one string. */
  lemma NulJoinCollides() returns (a: seq<Bytes>, b: seq<Bytes>)
    ensures |a| == |b| == 2 && a != b && a[0] + [NUL] + a[1] == b[0] + [NUL] + b[1]
  {
    a, b := [[97, NUL, 98], [99]], [[97], [98, NUL, 99]];
  }
}
