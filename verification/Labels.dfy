/**
 Hole and sample labels: reading, writing, and the canonical form. Text is ASCII here; the
 ASCII parts of strip, upper and \d are modelled.
 */
module Labels {
  import opened Wrappers
  import opened Digits

  function StripLeft(s: string): string {
    if s != [] && IsSpace(s[0]) then StripLeft(s[1..]) else s
  }

  function StripRight(s: string): string {
    if s != [] && IsSpace(s[|s| - 1]) then StripRight(s[..|s| - 1]) else s
  }

  function UpperChar(c: char): char {
    if 'a' <= c <= 'z' then (c as int - 32) as char else c
  }

  function Upper(s: string): string {
    seq(|s|, i requires 0 <= i < |s| => UpperChar(s[i]))
  }

  /** text.strip().upper() */
  function Normalise(s: string): string {
    Upper(StripRight(StripLeft(s)))
  }

  /** Whitespace at either end is dropped and letters are capitals; nothing else changes. */
  lemma NormaliseIs(before: string, text: string, after: string)
    requires (forall i :: 0 <= i < |before| ==> IsSpace(before[i]))
    requires (forall i :: 0 <= i < |after| ==> IsSpace(after[i]))
    requires text != "" ==> !IsSpace(text[0]) && !IsSpace(text[|text| - 1])
    ensures var n := Normalise(before + text + after);
      |n| == |text| && forall i :: 0 <= i < |text| ==>
        n[i] == if 'a' <= text[i] <= 'z' then (text[i] as int - 'a' as int + 'A' as int) as char else text[i]
  {
    assert before + text + after == before + (text + after);
    StripLeftIs(before, text + after, text);
    StripRightIs(if text == "" then "" else text, after);
  }

  lemma {:induction false} StripLeftIs(before: string, rest: string, text: string)
    requires forall i :: 0 <= i < |before| ==> IsSpace(before[i])
    requires text <= rest && (forall i :: |text| <= i < |rest| ==> IsSpace(rest[i]))
    requires text != "" ==> !IsSpace(text[0])
    ensures StripLeft(before + rest) == if text == "" then "" else rest
    decreases |before| + |rest|
  {
    if before != "" {
      assert (before + rest)[1..] == before[1..] + rest;
      StripLeftIs(before[1..], rest, text);
    } else {
      assert before + rest == rest;
      if text == "" && rest != "" {
        StripLeftIs("", rest[1..], "");
        assert "" + rest[1..] == rest[1..];
      }
    }
  }

  lemma {:induction false} StripRightIs(text: string, after: string)
    requires forall i :: 0 <= i < |after| ==> IsSpace(after[i])
    requires text != "" ==> !IsSpace(text[|text| - 1])
    ensures StripRight(text + after) == text
    decreases |after|
  {
    if after != "" {
      var n := |after| - 1;
      assert (text + after)[..|text + after| - 1] == text + after[..n];
      StripRightIs(text, after[..n]);
    } else {
      assert text + after == text;
    }
  }

  predicate IsLetter(c: char) {
    'A' <= c <= 'Z'
  }

  function LetterRun(s: string): (k: nat)
    ensures k <= |s|
    ensures forall i :: 0 <= i < k ==> IsLetter(s[i])
    ensures k < |s| ==> !IsLetter(s[k])
  {
    if s == [] || !IsLetter(s[0]) then 0 else 1 + LetterRun(s[1..])
  }

  datatype Hole = Hole(code: string, year: int, number: int)

  /** A property code and a two-digit year, each followed by a hyphen. */
  function Stem(tag: string): (r: Option<(string, int, string)>)
    ensures r.Some? ==>
      ValidCode(r.value.0) && 0 <= r.value.1 <= 99 && |tag| == |r.value.0| + 4 + |r.value.2| &&
      tag[|tag| - |r.value.2|..] == r.value.2
  {
    var k := LetterRun(tag);
    if 2 <= k <= 5 && |tag| >= k + 4 && tag[k] == '-' && AllDigits(tag[k + 1..k + 3]) && tag[k + 3] == '-' then
      YearRange(tag[k + 1..k + 3]);
      Some((tag[..k], ValueOf(tag[k + 1..k + 3]), tag[k + 4..]))
    else None
  }

  lemma YearRange(s: string)
    requires AllDigits(s) && |s| == 2
    ensures ValueOf(s) <= 99
  {
    assert ValueOf(s) == 10 * ValueOf(s[..1]) + (s[1] as int - '0' as int);
    assert s[..1][..0] == [];
  }

  predicate ValidCode(code: string) {
    2 <= |code| <= 5 && forall i :: 0 <= i < |code| ==> IsLetter(code[i])
  }

  /** The hole form: three or four digits after the stem. */
  function MatchHole(tag: string): Option<Hole> {
    match Stem(tag)
    case None => None
    case Some((code, year, rest)) =>
      if AllDigits(rest) && 3 <= |rest| <= 4 then Some(Hole(code, year, ValueOf(rest))) else None
  }

  function ParseHoleId(text: string): Option<Hole> {
    MatchHole(Normalise(text))
  }

  /** f"{n:0{width}d}", sign included */
  function PaddedInt(n: int, width: nat): string {
    if n >= 0 then Padded(n, width) else "-" + Padded(-n, if width == 0 then 0 else width - 1)
  }

  function FormatHoleId(h: Hole): string {
    h.code + "-" + PaddedInt(h.year, 2) + "-" + PaddedInt(h.number, 3)
  }

  function CanonicalHoleId(text: string): Option<string> {
    match ParseHoleId(text) case Some(h) => Some(FormatHoleId(h)) case None => None
  }

  // ----- Writing then reading ----------------------------------------------------------

  lemma PaddedWidth(n: nat)
    ensures n < 100 ==> |Padded(n, 2)| == 2
    ensures n < 1000 ==> |Padded(n, 3)| == 3
    ensures 1000 <= n < 10000 ==> |Padded(n, 3)| == 4
  {
    DecimalWidth(n);
  }

  lemma {:induction false} ValueBound(s: string)
    requires AllDigits(s) && |s| <= 4
    ensures ValueOf(s) <= 9999
    ensures |s| <= 3 ==> ValueOf(s) <= 999
    ensures |s| <= 2 ==> ValueOf(s) <= 99
    ensures |s| <= 1 ==> ValueOf(s) <= 9
  {
    if s != [] {
      ValueBound(s[..|s| - 1]);
    }
  }

  lemma {:induction false} LetterRunOf(code: string, rest: string)
    requires forall i :: 0 <= i < |code| ==> IsLetter(code[i])
    requires rest != [] && !IsLetter(rest[0])
    ensures LetterRun(code + rest) == |code|
  {
    if code != [] {
      LetterRunOf(code[1..], rest);
      assert (code + rest)[1..] == code[1..] + rest;
    } else {
      assert code + rest == rest;
    }
  }

  lemma TagSlices(code: string, y: string, rest: string)
    requires |y| == 2
    ensures var tag := code + "-" + y + "-" + rest;
      && |tag| == |code| + 4 + |rest| && tag == code + ("-" + y + "-" + rest)
      && tag[..|code|] == code && tag[|code|] == '-' && tag[|code| + 1..|code| + 3] == y
      && tag[|code| + 3] == '-' && tag[|code| + 4..] == rest
  {
  }

  lemma StemOfParts(code: string, y: string, rest: string)
    requires ValidCode(code) && |y| == 2 && AllDigits(y)
    ensures Stem(code + "-" + y + "-" + rest) == Some((code, ValueOf(y), rest))
  {
    TagSlices(code, y, rest);
    TagLetters(code, y, rest);
    StemAt(code + "-" + y + "-" + rest, |code|);
  }

  lemma TagLetters(code: string, y: string, rest: string)
    requires |y| == 2 && forall i :: 0 <= i < |code| ==> IsLetter(code[i])
    ensures LetterRun(code + "-" + y + "-" + rest) == |code|
  {
    var after := "-" + y + "-" + rest;
    TagSlices(code, y, rest);
    assert after[0] == '-';
    LetterRunOf(code, after);
  }

  lemma StemAt(tag: string, k: nat)
    requires k == LetterRun(tag) && 2 <= k <= 5 && |tag| >= k + 4
    requires tag[k] == '-' && AllDigits(tag[k + 1..k + 3]) && tag[k + 3] == '-'
    ensures Stem(tag) == Some((tag[..k], ValueOf(tag[k + 1..k + 3]), tag[k + 4..]))
  {
  }

  lemma StemOf(code: string, year: int, rest: string)
    requires ValidCode(code) && 0 <= year <= 99
    ensures Stem(code + "-" + PaddedInt(year, 2) + "-" + rest) == Some((code, year, rest))
  {
    PaddedWidth(year);
    ValueOfPadded(year, 2);
    StemOfParts(code, Padded(year, 2), rest);
  }

  predicate Normal(s: string) {
    forall i :: 0 <= i < |s| ==> !IsSpace(s[i]) && UpperChar(s[i]) == s[i]
  }

  lemma NormalUnchanged(s: string)
    requires Normal(s)
    ensures Normalise(s) == s
  {
  }

  predicate ValidHole(h: Hole) {
    ValidCode(h.code) && 0 <= h.year <= 99 && 0 <= h.number <= 9999
  }

  lemma ParsedIsValid(tag: string)
    ensures MatchHole(tag).Some? ==> ValidHole(MatchHole(tag).value)
  {
    match Stem(tag)
    case None =>
    case Some((code, year, rest)) =>
      if AllDigits(rest) && 3 <= |rest| <= 4 {
        ValueBound(rest);
      }
  }

  lemma FormattedIsNormal(h: Hole)
    requires ValidHole(h)
    ensures Normal(FormatHoleId(h))
  {
  }

  lemma FormattedMatches(h: Hole)
    requires ValidHole(h)
    ensures MatchHole(FormatHoleId(h)) == Some(h)
  {
    StemOf(h.code, h.year, PaddedInt(h.number, 3));
    PaddedWidth(h.number);
    ValueOfPadded(h.number, 3);
  }

  /** A formatted triple reads back as itself exactly when it is a valid hole. */
  lemma FormatParsesIff(h: Hole)
    ensures ParseHoleId(FormatHoleId(h)) == Some(h) <==> ValidHole(h)
  {
    if ValidHole(h) {
      FormattedMatches(h);
      FormattedIsNormal(h);
      NormalUnchanged(FormatHoleId(h));
    }
    ParsedIsValid(Normalise(FormatHoleId(h)));
  }

  /** The canonical form is a fixed point, and it names the same hole. */
  lemma CanonicalIdempotent(text: string)
    requires CanonicalHoleId(text).Some?
    ensures var c := CanonicalHoleId(text).value;
      CanonicalHoleId(c) == Some(c) && ParseHoleId(c) == ParseHoleId(text)
  {
    ParsedIsValid(Normalise(text));
    FormatParsesIff(ParseHoleId(text).value);
  }

  /** Two labels share a canonical form exactly when they read as the same hole. */
  lemma CanonicalEqualIff(s: string, t: string)
    requires CanonicalHoleId(s).Some? && CanonicalHoleId(t).Some?
    ensures CanonicalHoleId(s) == CanonicalHoleId(t) <==> ParseHoleId(s) == ParseHoleId(t)
  {
    CanonicalIdempotent(s);
    CanonicalIdempotent(t);
  }

  // ----- Sample labels ----------------------------------------------------------------------

  datatype Identity =
    | Drill(raw: string, hole: Hole, fromText: string, toText: string)
    | Surface(raw: string, code: string, year: int, medium: string, serial: int)

  /** \d+(\.\d+)? and the text after it */
  function NumberRun(s: string): (k: nat)
    ensures k <= |s|
  {
    var whole := DigitRun(s);
    if whole == 0 then 0
    else if whole + 1 < |s| && s[whole] == '.' && IsDigit(s[whole + 1]) then whole + 1 + DigitRun(s[whole + 1..])
    else whole
  }

  /** The whole text is \d+(\.\d+)? */
  predicate IsNumber(s: string) {
    s != [] && NumberRun(s) == |s|
  }

  /** The two depths, with an underscore between them. */
  function MatchDepths(t: string): Option<(string, string)> {
    var f := NumberRun(t);
    if 0 < f < |t| && t[f] == '_' && IsNumber(t[f + 1..]) then Some((t[..f], t[f + 1..])) else None
  }

  function MatchDrill(tag: string): Option<Identity> {
    match Stem(tag)
    case None => None
    case Some((code, year, rest)) =>
      var m := DigitRun(rest);
      if 3 <= m <= 4 && m < |rest| && rest[m] == '-' then
        match MatchDepths(rest[m + 1..])
        case Some((fromText, toText)) => Some(Drill(tag, Hole(code, year, ValueOf(rest[..m])), fromText, toText))
        case None => None
      else None
  }

  function MatchSurface(tag: string): Option<Identity> {
    match Stem(tag)
    case None => None
    case Some((code, year, rest)) =>
      if |rest| >= 3 && IsLetter(rest[0]) && IsLetter(rest[1]) && rest[2] == '-' &&
        AllDigits(rest[3..]) && 4 <= |rest[3..]| <= 6
      then Some(Surface(tag, code, year, rest[..2], ValueOf(rest[3..])))
      else None
  }

  /** Drill form first, then surface form. */
  function ParseLabel(text: string): Option<Identity> {
    var tag := Normalise(text);
    match MatchDrill(tag)
    case Some(identity) => Some(identity)
    case None => MatchSurface(tag)
  }

  // ----- Which texts are labels, and what is read from each part ---------------------------------

  /** Two to five capital letters, then two digits. */
  predicate IsStem(code: string, y: string) {
    && 2 <= |code| <= 5 && (forall i :: 0 <= i < |code| ==> 'A' <= code[i] <= 'Z')
    && |y| == 2 && AllDigits(y)
  }

  /** Digits, or digits, a point and digits. */
  predicate IsDepth(whole: string, point: string, fraction: string) {
    && whole != "" && AllDigits(whole)
    && ((point == "" && fraction == "") || (point == "." && fraction != "" && AllDigits(fraction)))
  }

  lemma NumberRunOf(whole: string, point: string, fraction: string, rest: string)
    requires IsDepth(whole, point, fraction) && (rest != "" ==> rest[0] == '_')
    ensures NumberRun(whole + point + fraction + rest) == |whole + point + fraction|
  {
    var t := whole + point + fraction + rest;
    if point == "" {
      DigitRunOfConcat(whole, rest);
      assert t == whole + rest;
    } else {
      PointSlices(whole, fraction, rest);
      DigitRunOfConcat(whole, "." + fraction + rest);
      DigitRunOfConcat(fraction, rest);
    }
  }

  lemma PointSlices(whole: string, fraction: string, rest: string)
    requires fraction != ""
    ensures var t := whole + "." + fraction + rest;
      && t == whole + ("." + fraction + rest) && t[|whole| + 1..] == fraction + rest
      && t[|whole|] == '.' && t[|whole| + 1] == fraction[0] && ("." + fraction + rest)[0] == '.'
  {
  }

  lemma NumberRunParts(s: string) returns (whole: string, point: string, fraction: string)
    requires NumberRun(s) > 0
    ensures IsDepth(whole, point, fraction) && s[..NumberRun(s)] == whole + point + fraction
  {
    var k, n := DigitRun(s), NumberRun(s);
    whole := s[..k];
    if n == k {
      point, fraction := "", "";
    } else {
      point, fraction := ".", s[k + 1..n];
      assert fraction == s[k + 1..][..DigitRun(s[k + 1..])];
      assert s[..n] == s[..k] + [s[k]] + s[k + 1..n];
    }
  }

  /** A depth as it is written: the predicate over its parts, for some parts. */
  predicate DepthText(s: string) {
    exists k, n :: 0 <= k <= n <= |s| && IsDepth(s[..k], s[k..n], s[n..])
  }

  lemma DepthOfParts(whole: string, point: string, fraction: string)
    requires IsDepth(whole, point, fraction)
    ensures DepthText(whole + point + fraction)
  {
    var s, k, n := whole + point + fraction, |whole|, |whole| + |point|;
    assert s[..k] == whole && s[k..n] == point && s[n..] == fraction;
  }

  lemma RunOfDepth(s: string, rest: string)
    requires DepthText(s) && (rest != "" ==> rest[0] == '_')
    ensures NumberRun(s + rest) == |s| && s != ""
  {
    var k, n :| 0 <= k <= n <= |s| && IsDepth(s[..k], s[k..n], s[n..]);
    assert s == s[..k] + s[k..n] + s[n..];
    NumberRunOf(s[..k], s[k..n], s[n..], rest);
  }

  lemma RunIsDepth(s: string)
    requires NumberRun(s) > 0
    ensures DepthText(s[..NumberRun(s)])
  {
    var w, p, f := NumberRunParts(s);
    DepthOfParts(w, p, f);
  }

  lemma DepthsRead(fromText: string, toText: string)
    requires DepthText(fromText) && DepthText(toText)
    ensures MatchDepths(fromText + "_" + toText) == Some((fromText, toText))
  {
    var depths := fromText + "_" + toText;
    RunOfDepth(fromText, "_" + toText);
    assert fromText + ("_" + toText) == depths;
    RunOfDepth(toText, "");
    assert toText + "" == toText;
    assert depths[..|fromText|] == fromText && depths[|fromText| + 1..] == toText;
  }

  lemma NumberIsDepth(s: string)
    requires IsNumber(s)
    ensures DepthText(s)
  {
    RunIsDepth(s);
    assert s[..|s|] == s;
  }

  lemma DepthsAreRead(t: string)
    requires MatchDepths(t).Some?
    ensures var (fromText, toText) := MatchDepths(t).value;
      DepthText(fromText) && DepthText(toText) && t == fromText + "_" + toText
  {
    var f := NumberRun(t);
    RunIsDepth(t);
    NumberIsDepth(t[f + 1..]);
    assert t == t[..f] + "_" + t[f + 1..];
  }

  lemma HoleSlices(hole: string, depths: string)
    requires AllDigits(hole)
    ensures var rest := hole + "-" + depths;
      DigitRun(rest) == |hole| && rest[|hole|] == '-' && rest[..|hole|] == hole && rest[|hole| + 1..] == depths
  {
    DigitRunOfConcat(hole, "-" + depths);
    assert hole + ("-" + depths) == hole + "-" + depths;
  }

  /** What the drill form makes of its parts. */
  lemma DrillStep(tag: string, code: string, year: int, rest: string, hole: string, depths: string)
    requires Stem(tag) == Some((code, year, rest)) && rest == hole + "-" + depths && AllDigits(hole)
    ensures MatchDrill(tag) ==
      if 3 <= |hole| <= 4 && MatchDepths(depths).Some?
      then Some(Drill(tag, Hole(code, year, ValueOf(hole)), MatchDepths(depths).value.0, MatchDepths(depths).value.1))
      else None
  {
    HoleSlices(hole, depths);
  }

  lemma DrillRest(tag: string) returns (hole: string, depths: string)
    requires MatchDrill(tag).Some?
    ensures Stem(tag).Some? && Stem(tag).value.2 == hole + "-" + depths && AllDigits(hole)
  {
    DrillHasHyphen(tag);
    var rest := Stem(tag).value.2;
    CutAtHyphen(rest, DigitRun(rest));
    hole, depths := rest[..DigitRun(rest)], rest[DigitRun(rest) + 1..];
  }

  lemma DrillHasHyphen(tag: string)
    requires MatchDrill(tag).Some?
    ensures Stem(tag).Some?
    ensures var rest := Stem(tag).value.2; DigitRun(rest) < |rest| && rest[DigitRun(rest)] == '-'
  {
  }

  lemma CutAtHyphen(s: string, m: nat)
    requires m < |s| && s[m] == '-'
    ensures s == s[..m] + "-" + s[m + 1..]
  {
  }

  /**
   A drill label: code, year, three or four digits of hole number, and the two depths, the
   first before the underscore. What is read is each part in its own place.
   */
  lemma DrillReads(code: string, y: string, hole: string, fromText: string, toText: string)
    requires IsStem(code, y) && 3 <= |hole| <= 4 && AllDigits(hole) && DepthText(fromText) && DepthText(toText)
    ensures var tag := code + "-" + y + "-" + (hole + "-" + (fromText + "_" + toText));
      MatchDrill(tag) == Some(Drill(tag, Hole(code, ValueOf(y), ValueOf(hole)), fromText, toText))
  {
    var depths := fromText + "_" + toText;
    var rest := hole + "-" + depths;
    StemOfParts(code, y, rest);
    DepthsRead(fromText, toText);
    DrillStep(code + "-" + y + "-" + rest, code, ValueOf(y), rest, hole, depths);
  }

  lemma StemParts(tag: string) returns (y: string)
    requires Stem(tag).Some?
    ensures var (code, year, rest) := Stem(tag).value;
      IsStem(code, y) && year == ValueOf(y) && tag == code + "-" + y + "-" + rest
  {
    var k := LetterRun(tag);
    y := tag[k + 1..k + 3];
    assert tag == tag[..k] + [tag[k]] + tag[k + 1..k + 3] + [tag[k + 3]] + tag[k + 4..];
  }

  /** And nothing else is one: a text read as a drill label is such a concatenation. */
  lemma DrillIsRead(tag: string) returns (y: string, hole: string)
    requires MatchDrill(tag).Some?
    ensures var d := MatchDrill(tag).value;
      && d.Drill? && d.raw == tag && IsStem(d.hole.code, y) && d.hole.year == ValueOf(y)
      && 3 <= |hole| <= 4 && AllDigits(hole) && d.hole.number == ValueOf(hole)
      && DepthText(d.fromText) && DepthText(d.toText)
      && tag == d.hole.code + "-" + y + "-" + (hole + "-" + (d.fromText + "_" + d.toText))
  {
    var depths: string;
    hole, depths := DrillRest(tag);
    var (code, year, rest) := Stem(tag).value;
    DrillStep(tag, code, year, rest, hole, depths);
    y := StemParts(tag);
    DepthsAreRead(depths);
  }

  /** A surface label: code, year, two letters of medium, and four to six digits of serial. */
  lemma SurfaceReads(tag: string, code: string, y: string, medium: string, serial: string)
    requires tag == code + "-" + y + "-" + (medium + "-" + serial) && IsStem(code, y)
    requires |medium| == 2 && 'A' <= medium[0] <= 'Z' && 'A' <= medium[1] <= 'Z'
    requires 4 <= |serial| <= 6 && AllDigits(serial)
    ensures MatchSurface(tag) == Some(Surface(tag, code, ValueOf(y), medium, ValueOf(serial)))
  {
    var rest := medium + "-" + serial;
    StemOfParts(code, y, rest);
    assert rest[..2] == medium && rest[2] == '-' && rest[3..] == serial;
  }

  lemma SurfaceIsRead(tag: string) returns (y: string, serial: string)
    requires MatchSurface(tag).Some?
    ensures var s := MatchSurface(tag).value;
      && s.Surface? && s.raw == tag && IsStem(s.code, y) && s.year == ValueOf(y)
      && |s.medium| == 2 && 'A' <= s.medium[0] <= 'Z' && 'A' <= s.medium[1] <= 'Z'
      && 4 <= |serial| <= 6 && AllDigits(serial) && s.serial == ValueOf(serial)
      && tag == s.code + "-" + y + "-" + (s.medium + "-" + serial)
  {
    var (code, year, rest) := Stem(tag).value;
    y := StemParts(tag);
    serial := rest[3..];
    assert rest == rest[..2] + "-" + rest[3..];
  }

  /** No label fits both forms, so the order they are tried in does not matter. */
  lemma FormsDisjoint(tag: string)
    ensures !(MatchDrill(tag).Some? && MatchSurface(tag).Some?)
  {
  }

  /** A label read in the surface form first would come out the same. */
  lemma FormOrderIsFree(text: string)
    ensures var tag := Normalise(text);
      ParseLabel(text) == if MatchSurface(tag).Some? then MatchSurface(tag) else MatchDrill(tag)
  {
    FormsDisjoint(Normalise(text));
  }

  /** The part of a drill label that names its hole. */
  function HolePart(tag: string): string
    requires Stem(tag).Some?
  {
    var rest := Stem(tag).value.2;
    tag[..|tag| - |rest| + DigitRun(rest)]
  }

  lemma {:induction false} LetterRunPrefix(s: string, n: nat)
    requires LetterRun(s) <= n <= |s|
    ensures LetterRun(s[..n]) == LetterRun(s)
  {
  }

  lemma StemPrefix(tag: string, n: nat)
    requires Stem(tag).Some? && |tag| - |Stem(tag).value.2| <= n <= |tag|
    ensures Stem(tag[..n]) == Some((Stem(tag).value.0, Stem(tag).value.1, tag[|tag| - |Stem(tag).value.2|..n]))
  {
    var k := LetterRun(tag);
    LetterRunPrefix(tag, n);
    assert tag[..n][k + 1..k + 3] == tag[k + 1..k + 3];
    assert tag[..n][..k] == tag[..k];
    assert tag[..n][k + 4..] == tag[k + 4..n];
  }

  lemma MatchHoleOfStem(tag: string, code: string, year: int, number: string)
    requires Stem(tag) == Some((code, year, number)) && AllDigits(number) && 3 <= |number| <= 4
    ensures MatchHole(tag) == Some(Hole(code, year, ValueOf(number)))
  {
  }

  lemma DrillParts(tag: string) returns (code: string, year: int, rest: string, m: nat)
    requires MatchDrill(tag).Some?
    ensures Stem(tag) == Some((code, year, rest)) && 3 <= m <= 4 && m <= |rest| && m == DigitRun(rest)
    ensures MatchDrill(tag).value.hole == Hole(code, year, ValueOf(rest[..m]))
  {
    code, year, rest := Stem(tag).value.0, Stem(tag).value.1, Stem(tag).value.2;
    m := DigitRun(rest);
  }

  lemma StemOfPart(tag: string, code: string, year: int, rest: string, m: nat)
    requires Stem(tag) == Some((code, year, rest)) && m <= |rest|
    ensures |rest| <= |tag| && Stem(tag[..|tag| - |rest| + m]) == Some((code, year, rest[..m]))
  {
    var n := |tag| - |rest| + m;
    StemPrefix(tag, n);
    assert tag[|tag| - |rest|..n] == tag[|tag| - |rest|..][..m];
  }

  lemma PartMatches(tag: string, code: string, year: int, rest: string)
    requires Stem(tag) == Some((code, year, rest)) && 3 <= DigitRun(rest) <= 4
    ensures MatchHole(HolePart(tag)) == Some(Hole(code, year, ValueOf(rest[..DigitRun(rest)])))
  {
    var m := DigitRun(rest);
    StemOfPart(tag, code, year, rest, m);
    MatchHoleOfStem(HolePart(tag), code, year, rest[..m]);
  }

  lemma HolePartMatches(tag: string)
    requires MatchDrill(tag).Some?
    ensures Stem(tag).Some? && MatchHole(HolePart(tag)) == Some(MatchDrill(tag).value.hole)
  {
    var code, year, rest, m := DrillParts(tag);
    PartMatches(tag, code, year, rest);
  }

  /** A drill sample's hole id is the canonical form of the hole part of its own label. */
  lemma DrillHoleIsCanonical(tag: string)
    requires Normal(tag) && MatchDrill(tag).Some?
    ensures Stem(tag).Some? && CanonicalHoleId(HolePart(tag)) == Some(FormatHoleId(MatchDrill(tag).value.hole))
  {
    HolePartMatches(tag);
    PartIsNormal(tag);
    CanonicalOfNormal(HolePart(tag), MatchDrill(tag).value.hole);
  }

  lemma PartIsNormal(tag: string)
    requires Normal(tag) && Stem(tag).Some?
    ensures Normal(HolePart(tag))
  {
    NormalPrefix(tag, |HolePart(tag)|);
  }

  lemma CanonicalOfNormal(s: string, h: Hole)
    requires Normal(s) && MatchHole(s) == Some(h)
    ensures CanonicalHoleId(s) == Some(FormatHoleId(h))
  {
    NormalUnchanged(s);
  }

  lemma NormalPrefix(tag: string, n: nat)
    requires Normal(tag) && n <= |tag|
    ensures Normal(tag[..n])
  {
  }
}
