/**
 The one JSON rendering every hash commits to: keys sorted, no spaces, everything
 outside printable ASCII escaped as UTF-16 units (section 7 of RFC 8259).

 Python text is a sequence of code points that may include lone surrogates. A dict is
 modelled as its items in insertion order.
 */
module Canonical {
  import opened Wrappers
  import opened Digits

  type CodePoint = c: int | 0 <= c <= 0x10FFFF
  type PyString = seq<CodePoint>
  type Unit16 = u: int | 0 <= u <= 0xFFFF

  datatype Json =
    | Null
    | Bool(b: bool)
    | Int(n: int)
    | Str(s: PyString)
    | Arr(items: seq<Json>)
    | Obj(fields: seq<Field>)
  datatype Field = Field(key: PyString, value: Json)

  /** ASCII text as Python text. */
  function Text(s: string): (p: PyString)
    ensures |p| == |s|
    ensures forall i :: 0 <= i < |s| ==> p[i] == s[i] as int
  {
    seq(|s|, i requires 0 <= i < |s| => s[i] as int)
  }

  // ----- UTF-16 ---------------------------------------------------------------

  predicate High(u: int) {
    0xD800 <= u <= 0xDBFF
  }

  predicate Low(u: int) {
    0xDC00 <= u <= 0xDFFF
  }

  function UnitsOf(c: CodePoint): (us: seq<Unit16>)
    ensures |us| > 0
  {
    if c < 0x10000 then [c]
    else [0xD800 + (c - 0x10000) / 0x400, 0xDC00 + (c - 0x10000) % 0x400]
  }

  function Units(s: PyString): seq<Unit16> {
    if s == [] then [] else UnitsOf(s[0]) + Units(s[1..])
  }

  /** What any JSON reader makes of the escaped units: adjacent surrogates pair up. */
  function Decode(us: seq<Unit16>): PyString {
    if us == [] then []
    else if |us| >= 2 && High(us[0]) && Low(us[1]) then
      [0x10000 + (us[0] - 0xD800) * 0x400 + (us[1] - 0xDC00)] + Decode(us[2..])
    else [us[0]] + Decode(us[1..])
  }

  /** No high surrogate code point stands immediately before a low one. */
  predicate PairFree(s: PyString) {
    forall i :: 0 <= i < |s| - 1 ==> !(High(s[i]) && Low(s[i + 1]))
  }

  lemma DecodeAstral(c: CodePoint, rest: seq<Unit16>)
    requires c >= 0x10000
    ensures Decode(UnitsOf(c) + rest) == [c] + Decode(rest)
  {
    var us := UnitsOf(c) + rest;
    assert us[2..] == rest;
  }

  /** Decoding never yields more code points than were encoded. */
  lemma {:induction false} DecodeNoLonger(s: PyString)
    ensures |Decode(Units(s))| <= |s|
    ensures !PairFree(s) ==> |Decode(Units(s))| < |s|
  {
    if s != [] {
      var rest := s[1..];
      DecodeNoLonger(rest);
      var us := Units(s);
      if s[0] >= 0x10000 {
        DecodeAstral(s[0], Units(rest));
        PairFreeTail(s);
      } else {
        assert us[1..] == Units(rest);
        if |s| >= 2 && High(s[0]) && Low(s[1]) {
          assert Units(rest) == [s[1]] + Units(rest[1..]);
          assert us[2..] == Units(rest[1..]);
          assert us[0] == s[0] && us[1] == s[1];
          DecodeNoLonger(rest[1..]);
        } else {
          UnitsHead(rest);
          PairFreeTail(s);
        }
      }
    }
  }

  lemma PairFreeTail(s: PyString)
    requires s != []
    ensures PairFree(s) <==> PairFree(s[1..]) && (|s| >= 2 ==> !(High(s[0]) && Low(s[1])))
  {
    var t := s[1..];
    if PairFree(t) && (|s| >= 2 ==> !(High(s[0]) && Low(s[1]))) {
      forall i | 0 <= i < |s| - 1 ensures !(High(s[i]) && Low(s[i + 1])) {
        if i > 0 {
          assert t[i - 1] == s[i] && t[i] == s[i + 1];
        }
      }
    }
    if PairFree(s) {
      forall i | 0 <= i < |t| - 1 ensures !(High(t[i]) && Low(t[i + 1])) {
        assert t[i] == s[i + 1] && t[i + 1] == s[i + 2];
      }
    }
  }

  /** A low surrogate can only start an encoding whose first code point is that surrogate. */
  lemma UnitsHead(s: PyString)
    ensures s == [] ==> Units(s) == []
    ensures s != [] ==> Units(s) != [] && (Low(Units(s)[0]) ==> s[0] == Units(s)[0])
  {
  }

  /** Text survives encoding exactly when it holds no adjacent surrogate pair. */
  lemma {:induction false} TextSurvivesIff(s: PyString)
    ensures Decode(Units(s)) == s <==> PairFree(s)
  {
    if !PairFree(s) {
      DecodeNoLonger(s);
    } else if s != [] {
      PairFreeTail(s);
      TextSurvivesIff(s[1..]);
      if s[0] >= 0x10000 {
        DecodeAstral(s[0], Units(s[1..]));
      } else {
        UnitsHead(s[1..]);
        assert Units(s)[1..] == Units(s[1..]);
      }
      assert s == [s[0]] + s[1..];
    }
  }

  /** The escape of U+1F600 and of its two surrogates, taken as code points, coincide. */
  lemma SurrogateCollision()
    ensures [0x1F600] != [0xD83D, 0xDE00]
    ensures CanonicalJson(Str([0x1F600])) == CanonicalJson(Str([0xD83D, 0xDE00]))
  {
    var a: PyString := [0xD83D, 0xDE00];
    assert a[1..] == [0xDE00];
    assert Units(a) == [0xD83D, 0xDE00];
    assert Units([0x1F600]) == [0xD83D, 0xDE00];
  }

  // ----- Sorted keys ----------------------------------------------------------

  /** Python's str order: code point by code point. */
  predicate Less(a: PyString, b: PyString) {
    if b == [] then false
    else if a == [] then true
    else if a[0] != b[0] then a[0] < b[0]
    else Less(a[1..], b[1..])
  }

  function Insert(f: Field, fs: seq<Field>): (r: seq<Field>)
    ensures multiset(r) == multiset([f]) + multiset(fs)
  {
    if fs == [] || !Less(fs[0].key, f.key) then [f] + fs
    else
      assert fs == [fs[0]] + fs[1..];
      [fs[0]] + Insert(f, fs[1..])
  }

  function SortFields(fs: seq<Field>): (r: seq<Field>)
    ensures multiset(r) == multiset(fs)
  {
    if fs == [] then []
    else
      assert fs == [fs[0]] + fs[1..];
      Insert(fs[0], SortFields(fs[1..]))
  }

  /** The value with every dict's items in key order. */
  function Sorted(v: Json): Json
    decreases v, 1
  {
    match v
    case Arr(items) => Arr(SortedItems(items))
    case Obj(fields) => Obj(SortFields(SortedFields(fields)))
    case _ => v
  }

  function SortedItems(items: seq<Json>): (r: seq<Json>)
    ensures |r| == |items|
    decreases items, 0
  {
    if items == [] then [] else [Sorted(items[0])] + SortedItems(items[1..])
  }

  function SortedFields(fields: seq<Field>): (r: seq<Field>)
    ensures |r| == |fields|
    ensures forall i :: 0 <= i < |r| ==> r[i].key == fields[i].key
    decreases fields, 0
  {
    if fields == [] then []
    else [Field(fields[0].key, Sorted(fields[0].value))] + SortedFields(fields[1..])
  }

  // ----- Writing --------------------------------------------------------------

  function HexChar(d: nat): char
    requires d < 16
  {
    if d < 10 then DigitChar(d) else (d - 10 + 'a' as int) as char
  }

  function Hex4(u: Unit16): string {
    [HexChar(u / 0x1000), HexChar(u / 0x100 % 0x10), HexChar(u / 0x10 % 0x10), HexChar(u % 0x10)]
  }

  function EscapeUnit(u: Unit16): string {
    if u == 0x22 then "\\\""
    else if u == 0x5C then "\\\\"
    else if u == 0x0A then "\\n"
    else if u == 0x0D then "\\r"
    else if u == 0x09 then "\\t"
    else if u == 0x0C then "\\f"
    else if u == 0x08 then "\\b"
    else if 0x20 <= u <= 0x7E then [u as char]
    else "\\u" + Hex4(u)
  }

  function WriteUnits(us: seq<Unit16>): string {
    if us == [] then "\"" else EscapeUnit(us[0]) + WriteUnits(us[1..])
  }

  function WriteText(s: PyString): string {
    "\"" + WriteUnits(Units(s))
  }

  function WriteInt(n: int): string {
    if n < 0 then "-" + Decimal(-n) else Decimal(n)
  }

  function Write(v: Json): string
    decreases v, 1
  {
    match v
    case Null => "null"
    case Bool(b) => if b then "true" else "false"
    case Int(n) => WriteInt(n)
    case Str(s) => WriteText(s)
    case Arr(items) => "[" + (if items == [] then "]" else WriteItems(items))
    case Obj(fields) => "{" + (if fields == [] then "}" else WriteFields(fields))
  }

  function WriteItems(items: seq<Json>): string
    requires items != []
    decreases items, 0
  {
    Write(items[0]) + (if |items| == 1 then "]" else "," + WriteItems(items[1..]))
  }

  function WriteFields(fields: seq<Field>): string
    requires fields != []
    decreases fields, 0
  {
    WriteText(fields[0].key) + ":" + Write(fields[0].value) +
    (if |fields| == 1 then "}" else "," + WriteFields(fields[1..]))
  }

  /** json.dumps(payload, sort_keys=True, separators=(",", ":"), ensure_ascii=True) */
  function CanonicalJson(v: Json): string {
    Write(Sorted(v))
  }
}
