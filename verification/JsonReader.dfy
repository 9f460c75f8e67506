/**
 An independent reader for the canonical rendering, and the round trip that makes the
 rendering injective: whatever follows it, a rendering is read back as the value it was
 written from, with keys sorted and surrogate pairs joined.
 */
module JsonReader {
  import opened Wrappers
  import opened Digits
  import opened Canonical

  // ----- Reading --------------------------------------------------------------

  function HexValue(c: char): (d: Option<nat>)
    ensures d.Some? ==> d.value < 16
  {
    if IsDigit(c) then Some(c as int - '0' as int)
    else if 'a' <= c <= 'f' then Some(c as int - 'a' as int + 10)
    else None
  }

  function ReadHex4(t: string): Option<Unit16>
    requires |t| >= 4
  {
    match (HexValue(t[0]), HexValue(t[1]), HexValue(t[2]), HexValue(t[3]))
    case (Some(a), Some(b), Some(c), Some(d)) => Some(a * 0x1000 + b * 0x100 + c * 0x10 + d)
    case _ => None
  }

  function ReadUnit(t: string): (r: Option<(Unit16, string)>)
    requires t != []
    ensures r.Some? ==> |r.value.1| < |t|
  {
    if t[0] != '\\' then
      if ' ' <= t[0] <= '~' then Some((t[0] as int, t[1..])) else None
    else if |t| < 2 then None
    else if t[1] == 'u' then
      if |t| < 6 then None
      else match ReadHex4(t[2..6]) case Some(u) => Some((u, t[6..])) case None => None
    else
      match t[1]
      case '"' => Some((0x22, t[2..]))
      case '\\' => Some((0x5C, t[2..]))
      case 'n' => Some((0x0A, t[2..]))
      case 'r' => Some((0x0D, t[2..]))
      case 't' => Some((0x09, t[2..]))
      case 'f' => Some((0x0C, t[2..]))
      case 'b' => Some((0x08, t[2..]))
      case _ => None
  }

  /** Reads up to and including the closing quote. */
  function ReadUnits(t: string): (r: Option<(seq<Unit16>, string)>)
    ensures r.Some? ==> |r.value.1| < |t|
  {
    if t == [] then None
    else if t[0] == '"' then Some(([], t[1..]))
    else
      match ReadUnit(t)
      case None => None
      case Some((u, rest)) =>
        match ReadUnits(rest)
        case None => None
        case Some((us, rest')) => Some(([u] + us, rest'))
  }

  function ReadNat(t: string): (r: Option<(nat, string)>)
    ensures r.Some? ==> |r.value.1| < |t|
  {
    var k := DigitRun(t);
    if k == 0 then None else Some((ValueOf(t[..k]), t[k..]))
  }

  function ReadInt(t: string): (r: Option<(Json, string)>)
    requires t != []
    ensures r.Some? ==> |r.value.1| < |t|
  {
    if t[0] == '-' then
      match ReadNat(t[1..]) case Some((n, rest)) => Some((Int(0 - n), rest)) case None => None
    else
      match ReadNat(t) case Some((n, rest)) => Some((Int(n), rest)) case None => None
  }

  function Read(t: string): (r: Option<(Json, string)>)
    ensures r.Some? ==> |r.value.1| < |t|
    decreases |t|, 0
  {
    if t == [] then None
    else if "null" <= t then Some((Null, t[4..]))
    else if "true" <= t then Some((Bool(true), t[4..]))
    else if "false" <= t then Some((Bool(false), t[5..]))
    else if t[0] == '"' then
      match ReadUnits(t[1..])
      case Some((us, rest)) => Some((Str(Decode(us)), rest))
      case None => None
    else if "[]" <= t then Some((Arr([]), t[2..]))
    else if t[0] == '[' then
      match ReadItems(t[1..])
      case Some((items, rest)) => Some((Arr(items), rest))
      case None => None
    else if "{}" <= t then Some((Obj([]), t[2..]))
    else if t[0] == '{' then
      match ReadFields(t[1..])
      case Some((fields, rest)) => Some((Obj(fields), rest))
      case None => None
    else ReadInt(t)
  }

  function ReadItems(t: string): (r: Option<(seq<Json>, string)>)
    ensures r.Some? ==> |r.value.1| < |t|
    decreases |t|, 1
  {
    match Read(t)
    case None => None
    case Some((v, rest)) =>
      if rest == [] then None
      else if rest[0] == ']' then Some(([v], rest[1..]))
      else if rest[0] != ',' then None
      else
        match ReadItems(rest[1..])
        case Some((items, rest')) => Some(([v] + items, rest'))
        case None => None
  }

  function ReadField(t: string): (r: Option<(Field, string)>)
    ensures r.Some? ==> |r.value.1| < |t|
    decreases |t|, 1
  {
    if t == [] || t[0] != '"' then None
    else
      match ReadUnits(t[1..])
      case None => None
      case Some((us, rest)) =>
        if rest == [] || rest[0] != ':' then None
        else
          match Read(rest[1..])
          case Some((v, rest')) => Some((Field(Decode(us), v), rest'))
          case None => None
  }

  function ReadFields(t: string): (r: Option<(seq<Field>, string)>)
    ensures r.Some? ==> |r.value.1| < |t|
    decreases |t|, 2
  {
    match ReadField(t)
    case None => None
    case Some((f, rest)) =>
      if rest == [] then None
      else if rest[0] == '}' then Some(([f], rest[1..]))
      else if rest[0] != ',' then None
      else
        match ReadFields(rest[1..])
        case Some((fields, rest')) => Some(([f] + fields, rest'))
        case None => None
  }

  // ----- What a reader sees of a value ------------------------------------------

  /** The value with every text as its UTF-16 units read back. */
  function Seen(v: Json): Json
    decreases v, 1
  {
    match v
    case Str(s) => Str(Decode(Units(s)))
    case Arr(items) => Arr(SeenItems(items))
    case Obj(fields) => Obj(SeenFields(fields))
    case _ => v
  }

  function SeenItems(items: seq<Json>): (r: seq<Json>)
    ensures |r| == |items|
    decreases items, 0
  {
    if items == [] then [] else [Seen(items[0])] + SeenItems(items[1..])
  }

  function SeenFields(fields: seq<Field>): (r: seq<Field>)
    ensures |r| == |fields|
    decreases fields, 0
  {
    if fields == [] then []
    else [Field(Decode(Units(fields[0].key)), Seen(fields[0].value))] + SeenFields(fields[1..])
  }

  // ----- The shortest text ------------------------------------------------------

  lemma HexCharOf(c: char)
    requires HexValue(c).Some?
    ensures HexChar(HexValue(c).value) == c
  {
  }

  lemma HexOf(a: nat, b: nat, c: nat, d: nat)
    requires a < 16 && b < 16 && c < 16 && d < 16
    ensures Hex4(a * 0x1000 + b * 0x100 + c * 0x10 + d) == [HexChar(a), HexChar(b), HexChar(c), HexChar(d)]
  {
    var u := a * 0x1000 + b * 0x100 + c * 0x10 + d;
    assert u / 0x1000 == a && u / 0x100 == a * 0x10 + b && u / 0x10 == a * 0x100 + b * 0x10 + c;
  }

  lemma HexIsUnique(t: string)
    requires |t| == 4 && ReadHex4(t).Some?
    ensures Hex4(ReadHex4(t).value) == t
  {
    HexCharOf(t[0]);
    HexCharOf(t[1]);
    HexCharOf(t[2]);
    HexCharOf(t[3]);
    HexOf(HexValue(t[0]).value, HexValue(t[1]).value, HexValue(t[2]).value, HexValue(t[3]).value);
  }

  /** Of all the texts a reader takes for one unit inside a string, the escape written is the shortest. */
  lemma EscapeIsShortest(u: Unit16, t: string, rest: string)
    requires t != "" && t[0] != '"' && ReadUnit(t + rest) == Some((u, rest))
    ensures |EscapeUnit(u)| <= |t| && (|EscapeUnit(u)| == |t| ==> EscapeUnit(u) == t)
  {
    var all := t + rest;
    assert |all| - |rest| == |t| && all[..|t|] == t;
    if t[0] == '\\' && all[1] == 'u' {
      assert |all[6..]| == |rest|;
      HexIsUnique(all[2..6]);
      assert t == "\\u" + all[2..6];
    } else if t[0] == '\\' {
      assert |all[2..]| == |rest|;
      assert t == [all[0], all[1]];
    } else {
      assert |all[1..]| == |rest|;
      assert t == [all[0]];
    }
  }

  // ----- Round trip -------------------------------------------------------------

  lemma ReadHexChar(d: nat)
    requires d < 16
    ensures HexValue(HexChar(d)) == Some(d)
  {
  }

  lemma LastHexDigit(n: nat)
    ensures n == n / 0x10 * 0x10 + n % 0x10
  {
  }

  lemma DropTwoDigits(n: nat)
    ensures n / 0x100 == n / 0x10 / 0x10
  {
  }

  lemma DropThreeDigits(n: nat)
    ensures n / 0x1000 == n / 0x100 / 0x10
  {
  }

  lemma HexDigits(u: Unit16)
    ensures u == u / 0x1000 * 0x1000 + u / 0x100 % 0x10 * 0x100 + u / 0x10 % 0x10 * 0x10 + u % 0x10
  {
    var n: nat := u;
    var x, y := n / 0x10, n / 0x100;
    LastHexDigit(n);
    LastHexDigit(x);
    LastHexDigit(y);
    DropTwoDigits(n);
    DropThreeDigits(n);
    SumOfDigits(n, x, y, n / 0x1000, n % 0x10, x % 0x10, y % 0x10);
  }

  lemma SumOfDigits(n: nat, x: nat, y: nat, z: nat, d: nat, c: nat, b: nat)
    requires n == x * 0x10 + d && x == y * 0x10 + c && y == z * 0x10 + b
    ensures n == z * 0x1000 + b * 0x100 + c * 0x10 + d
  {
  }

  lemma ReadHex(u: Unit16)
    ensures ReadHex4(Hex4(u)) == Some(u)
  {
    var a, b, c, d := u / 0x1000, u / 0x100 % 0x10, u / 0x10 % 0x10, u % 0x10;
    HexDigits(u);
    ReadHexChar(a);
    ReadHexChar(b);
    ReadHexChar(c);
    ReadHexChar(d);
    var t := Hex4(u);
    assert t == [HexChar(a), HexChar(b), HexChar(c), HexChar(d)];
  }

  lemma ReadEscape(u: Unit16, rest: string)
    ensures EscapeUnit(u) != [] && EscapeUnit(u)[0] != '"'
    ensures ReadUnit(EscapeUnit(u) + rest) == Some((u, rest))
  {
    var e := EscapeUnit(u);
    var t := e + rest;
    if e == "\\u" + Hex4(u) {
      assert t[2..6] == Hex4(u);
      assert t[6..] == rest;
      ReadHex(u);
    } else if |e| == 2 {
      assert t[0] == e[0] && t[1] == e[1] && t[2..] == rest;
    } else {
      assert e == [u as char];
      assert t[1..] == rest;
    }
  }

  lemma {:induction false} ReadWrittenUnits(us: seq<Unit16>, rest: string)
    ensures ReadUnits(WriteUnits(us) + rest) == Some((us, rest))
  {
    if us == [] {
      assert (WriteUnits(us) + rest)[1..] == rest;
    } else {
      var e, tail := EscapeUnit(us[0]), WriteUnits(us[1..]);
      ReadEscape(us[0], tail + rest);
      assert WriteUnits(us) + rest == e + (tail + rest);
      ReadWrittenUnits(us[1..], rest);
      assert us == [us[0]] + us[1..];
    }
  }

  lemma ReadWrittenNat(n: nat, rest: string)
    requires rest != [] ==> !IsDigit(rest[0])
    ensures ReadNat(Decimal(n) + rest) == Some((n, rest))
  {
    var s := Decimal(n);
    DigitRunOfConcat(s, rest);
    ValueOfDecimal(n);
    assert (s + rest)[..|s|] == s;
    assert (s + rest)[|s|..] == rest;
  }

  lemma ReadOfNumeral(t: string)
    requires t != [] && (t[0] == '-' || IsDigit(t[0]))
    ensures Read(t) == ReadInt(t)
  {
  }

  lemma ReadNegative(s: string, m: nat, rest: string)
    requires ReadNat(s + rest) == Some((m, rest))
    ensures ReadInt("-" + s + rest) == Some((Int(0 - m), rest))
  {
    assert ("-" + s + rest)[1..] == s + rest;
  }

  lemma ReadNonNegative(s: string, m: nat, rest: string)
    requires s != [] && s[0] != '-'
    requires ReadNat(s + rest) == Some((m, rest))
    ensures ReadInt(s + rest) == Some((Int(m), rest))
  {
  }

  lemma ReadIntOfWritten(n: int, rest: string)
    requires rest != [] ==> !IsDigit(rest[0])
    ensures ReadInt(WriteInt(n) + rest) == Some((Int(n), rest))
  {
    if n < 0 {
      ReadWrittenNat(-n, rest);
      ReadNegative(Decimal(-n), -n, rest);
    } else {
      ReadWrittenNat(n, rest);
      assert IsDigit(Decimal(n)[0]);
      ReadNonNegative(Decimal(n), n, rest);
    }
  }

  lemma ReadWrittenInt(n: int, rest: string)
    requires rest != [] ==> !IsDigit(rest[0])
    ensures Read(WriteInt(n) + rest) == Some((Int(n), rest))
  {
    var t := WriteInt(n) + rest;
    assert t[0] == '-' || IsDigit(t[0]);
    ReadOfNumeral(t);
    ReadIntOfWritten(n, rest);
  }

  /** No rendering starts with a character that would end an array or object. */
  lemma WriteStarts(v: Json)
    ensures Write(v) != [] && Write(v)[0] != ']'
  {
  }

  lemma ReadWrittenBool(b: bool, rest: string)
    ensures Read(Write(Bool(b)) + rest) == Some((Bool(b), rest))
  {
    var t := Write(Bool(b)) + rest;
    if b {
      assert t[4..] == rest && "true" <= t && t[0] == 't';
    } else {
      assert t[5..] == rest && "false" <= t && t[0] == 'f';
    }
  }

  lemma ReadOfNonempty(t: string, body: string)
    requires body != []
    ensures t == "[" + body && body[0] != ']' ==>
      Read(t) == match ReadItems(body) case Some((items, rest)) => Some((Arr(items), rest)) case None => None
    ensures t == "{" + body && body[0] != '}' ==>
      Read(t) == match ReadFields(body) case Some((fields, rest)) => Some((Obj(fields), rest)) case None => None
  {
    if t == "[" + body {
      assert t[0] == '[' && t[1] == body[0] && t[1..] == body;
    }
    if t == "{" + body {
      assert t[0] == '{' && t[1] == body[0] && t[1..] == body;
    }
  }

  lemma ReadOfText(us: seq<Unit16>, rest: string)
    ensures Read("\"" + WriteUnits(us) + rest) == Some((Str(Decode(us)), rest))
  {
    var t := "\"" + WriteUnits(us) + rest;
    assert t[0] == '"' && t[1..] == WriteUnits(us) + rest;
    ReadWrittenUnits(us, rest);
  }

  lemma ReadOfEmpty(rest: string)
    ensures Read("null" + rest) == Some((Null, rest))
    ensures Read("[]" + rest) == Some((Arr([]), rest))
    ensures Read("{}" + rest) == Some((Obj([]), rest))
  {
    assert ("null" + rest)[4..] == rest && ("null" + rest)[0] == 'n';
    assert ("[]" + rest)[2..] == rest && ("[]" + rest)[0] == '[';
    assert ("{}" + rest)[2..] == rest && ("{}" + rest)[0] == '{';
  }

  lemma {:induction false} ReadWritten(v: Json, rest: string)
    requires v.Int? && rest != [] ==> !IsDigit(rest[0])
    ensures Read(Write(v) + rest) == Some((Seen(v), rest))
    decreases v, 1
  {
    match v {
      case Null => ReadOfEmpty(rest);
      case Bool(b) => ReadWrittenBool(b, rest);
      case Int(n) => ReadWrittenInt(n, rest);
      case Str(s) => ReadOfText(Units(s), rest);
      case Arr(items) =>
        if items == [] {
          assert Write(v) + rest == "[]" + rest;
          ReadOfEmpty(rest);
        } else {
          var body := WriteItems(items) + rest;
          WriteStarts(items[0]);
          assert body[0] == Write(items[0])[0];
          assert Write(v) + rest == "[" + body;
          ReadOfNonempty(Write(v) + rest, body);
          ReadWrittenItems(items, rest);
        }
      case Obj(fields) =>
        if fields == [] {
          assert Write(v) + rest == "{}" + rest;
          ReadOfEmpty(rest);
        } else {
          var body := WriteFields(fields) + rest;
          assert body[0] == WriteText(fields[0].key)[0] == '"';
          assert Write(v) + rest == "{" + body;
          ReadOfNonempty(Write(v) + rest, body);
          ReadWrittenFields(fields, rest);
        }
    }
  }

  lemma {:induction false} ReadWrittenItems(items: seq<Json>, rest: string)
    requires items != []
    ensures ReadItems(WriteItems(items) + rest) == Some((SeenItems(items), rest))
    decreases items, 0
  {
    var w := Write(items[0]);
    if |items| == 1 {
      ReadWritten(items[0], "]" + rest);
      assert WriteItems(items) + rest == w + ("]" + rest);
      assert SeenItems(items) == [Seen(items[0])];
    } else {
      var tail := WriteItems(items[1..]);
      ReadWritten(items[0], "," + (tail + rest));
      assert WriteItems(items) + rest == w + ("," + (tail + rest));
      ReadWrittenItems(items[1..], rest);
    }
  }

  lemma ReadFieldStep(t: string, us: seq<Unit16>, afterKey: string, v: Json, rest: string)
    requires t != [] && t[0] == '"' && ReadUnits(t[1..]) == Some((us, afterKey))
    requires afterKey != [] && afterKey[0] == ':' && Read(afterKey[1..]) == Some((v, rest))
    ensures ReadField(t) == Some((Field(Decode(us), v), rest))
  {
  }

  lemma FieldSlices(k: string, value: string)
    ensures var t := "\"" + k + ":" + value;
      t != [] && t[0] == '"' && t[1..] == k + (":" + value) && (":" + value)[1..] == value
  {
  }

  lemma ReadFieldOfParts(k: string, us: seq<Unit16>, value: string, v: Json, rest: string)
    requires ReadUnits(k + (":" + value)) == Some((us, ":" + value))
    requires Read(value) == Some((v, rest))
    ensures ReadField("\"" + k + ":" + value) == Some((Field(Decode(us), v), rest))
  {
    FieldSlices(k, value);
    ReadFieldStep("\"" + k + ":" + value, us, ":" + value, v, rest);
  }

  lemma ReadWrittenField(key: PyString, w: string, v: Json, rest: string)
    requires Read(w + rest) == Some((v, rest))
    ensures ReadField(WriteText(key) + ":" + w + rest) == Some((Field(Decode(Units(key)), v), rest))
  {
    ReadWrittenUnits(Units(key), ":" + (w + rest));
    ReadFieldOfParts(WriteUnits(Units(key)), Units(key), w + rest, v, rest);
    assert WriteText(key) + ":" + w + rest == "\"" + WriteUnits(Units(key)) + ":" + (w + rest);
  }

  lemma ReadFieldsStep(t: string, f: Field, rest: string)
    requires rest != [] && ReadField(t) == Some((f, rest))
    ensures rest[0] == '}' ==> ReadFields(t) == Some(([f], rest[1..]))
    ensures rest[0] == ',' && ReadFields(rest[1..]).Some? ==>
      ReadFields(t) == Some(([f] + ReadFields(rest[1..]).value.0, ReadFields(rest[1..]).value.1))
  {
  }

  function MoreFields(fields: seq<Field>, rest: string): string
    requires fields != []
  {
    if |fields| == 1 then "}" + rest else "," + (WriteFields(fields[1..]) + rest)
  }

  lemma Regroup(head: string, tail: string, rest: string)
    ensures (head + tail) + rest == head + (tail + rest)
    ensures |head| == 1 ==> (head + rest)[1..] == rest
  {
  }

  lemma WriteFieldsSplits(fields: seq<Field>, rest: string)
    requires fields != []
    ensures WriteFields(fields) + rest
         == WriteText(fields[0].key) + ":" + Write(fields[0].value) + MoreFields(fields, rest)
    ensures |fields| == 1 ==> MoreFields(fields, rest)[1..] == rest
    ensures |fields| > 1 ==> MoreFields(fields, rest)[1..] == WriteFields(fields[1..]) + rest
  {
    var head := WriteText(fields[0].key) + ":" + Write(fields[0].value);
    if |fields| == 1 {
      Regroup(head, "}", rest);
      Regroup("}", "", rest);
    } else {
      var tail := WriteFields(fields[1..]);
      Regroup(head, "," + tail, rest);
      Regroup(",", tail, rest);
      Regroup(",", "", tail + rest);
    }
  }

  lemma {:induction false} ReadWrittenFields(fields: seq<Field>, rest: string)
    requires fields != []
    ensures ReadFields(WriteFields(fields) + rest) == Some((SeenFields(fields), rest))
    decreases fields, 0
  {
    var f := fields[0];
    var seen := Field(Decode(Units(f.key)), Seen(f.value));
    var more := MoreFields(fields, rest);
    ReadWritten(f.value, more);
    ReadWrittenField(f.key, Write(f.value), Seen(f.value), more);
    WriteFieldsSplits(fields, rest);
    ReadFieldsStep(WriteFields(fields) + rest, seen, more);
    if |fields| == 1 {
      assert SeenFields(fields) == [seen];
    } else {
      ReadWrittenFields(fields[1..], rest);
    }
  }

  /** The canonical rendering, followed by anything, is read back as the sorted value. */
  lemma RenderingReadsBack(v: Json, rest: string)
    requires v.Int? && rest != [] ==> !IsDigit(rest[0])
    ensures Read(CanonicalJson(v) + rest) == Some((Seen(Sorted(v)), rest))
  {
    ReadWritten(Sorted(v), rest);
  }

  // ----- Equal bytes, equal values ------------------------------------------------

  lemma {:induction false} UnitsOfDecode(us: seq<Unit16>)
    ensures Units(Decode(us)) == us
  {
    if us != [] {
      if |us| >= 2 && High(us[0]) && Low(us[1]) {
        UnitsOfDecode(us[2..]);
        var c: CodePoint := 0x10000 + (us[0] - 0xD800) as int * 0x400 + (us[1] - 0xDC00) as int;
        assert UnitsOf(c) == us[..2];
        assert Decode(us) == [c] + Decode(us[2..]);
        assert Decode(us)[1..] == Decode(us[2..]);
      } else {
        UnitsOfDecode(us[1..]);
        assert Decode(us)[1..] == Decode(us[1..]);
      }
    }
  }

  lemma {:induction false} WriteSeen(v: Json)
    ensures Write(Seen(v)) == Write(v)
    decreases v, 1
  {
    match v {
      case Str(s) => UnitsOfDecode(Units(s));
      case Arr(items) => if items != [] { WriteSeenItems(items); }
      case Obj(fields) => if fields != [] { WriteSeenFields(fields); }
      case _ =>
    }
  }

  lemma {:induction false} WriteSeenItems(items: seq<Json>)
    requires items != []
    ensures WriteItems(SeenItems(items)) == WriteItems(items)
    decreases items, 0
  {
    WriteSeen(items[0]);
    var seen := SeenItems(items);
    if |items| > 1 {
      WriteSeenItems(items[1..]);
      assert seen[1..] == SeenItems(items[1..]);
    }
  }

  lemma {:induction false} WriteSeenFields(fields: seq<Field>)
    requires fields != []
    ensures WriteFields(SeenFields(fields)) == WriteFields(fields)
    decreases fields, 0
  {
    var f := fields[0];
    UnitsOfDecode(Units(f.key));
    WriteSeen(f.value);
    var seen := SeenFields(fields);
    assert seen[0] == Field(Decode(Units(f.key)), Seen(f.value));
    if |fields| > 1 {
      WriteSeenFields(fields[1..]);
      assert seen[1..] == SeenFields(fields[1..]);
    }
  }

  /** Two values render to the same bytes exactly when a reader sees the same sorted value. */
  lemma RenderingEqualIff(a: Json, b: Json)
    ensures CanonicalJson(a) == CanonicalJson(b) <==> Seen(Sorted(a)) == Seen(Sorted(b))
  {
    RenderingReadsBack(a, "");
    RenderingReadsBack(b, "");
    assert CanonicalJson(a) + "" == CanonicalJson(a);
    assert CanonicalJson(b) + "" == CanonicalJson(b);
    WriteSeen(Sorted(a));
    WriteSeen(Sorted(b));
  }
}
