/**
 Certificate text: greedy line wrapping. The width of a string is the sum of its
 characters' widths, as it is for the standard fonts.
 */
module TextLayout {

  /** Character widths in some fixed unit. */
  type Font = char -> nat

  function Width(font: Font, s: string): nat {
    if s == "" then 0 else font(s[0]) + Width(font, s[1..])
  }

  /** The words of one line, joined by single spaces. */
  function LineText(words: seq<string>): string {
    if words == [] then "" else if |words| == 1 then words[0] else words[0] + " " + LineText(words[1..])
  }

  function LineWidth(font: Font, words: seq<string>): nat {
    Width(font, LineText(words))
  }

  function Flatten(lines: seq<seq<string>>): seq<string> {
    if lines == [] then [] else lines[0] + Flatten(lines[1..])
  }

  function Texts(lines: seq<seq<string>>): seq<string> {
    if lines == [] then [] else [LineText(lines[0])] + Texts(lines[1..])
  }

  predicate Fits(font: Font, max: nat, words: seq<string>) {
    LineWidth(font, words) <= max
  }

  /** A line is one word, or several that fit. */
  predicate LineOk(font: Font, max: nat, words: seq<string>) {
    words != [] && (|words| == 1 || Fits(font, max, words))
  }

  predicate AllLinesOk(font: Font, max: nat, lines: seq<seq<string>>) {
    forall i :: 0 <= i < |lines| ==> LineOk(font, max, lines[i])
  }

  predicate IsSplit(font: Font, max: nat, words: seq<string>, lines: seq<seq<string>>) {
    Flatten(lines) == words && AllLinesOk(font, max, lines)
  }

  /** The lines the greedy loop still produces from a line being built and the words left. */
  function Wrap(font: Font, max: nat, current: seq<string>, rest: seq<string>): seq<seq<string>>
    decreases |rest|
  {
    if rest == [] then (if current == [] then [] else [current])
    else if current != [] && !Fits(font, max, current + [rest[0]]) then
      [current] + Wrap(font, max, [rest[0]], rest[1..])
    else Wrap(font, max, current + [rest[0]], rest[1..])
  }

  predicate NonEmptyWords(words: seq<string>) {
    forall i :: 0 <= i < |words| ==> words[i] != ""
  }

  // ----- Widths ------------------------------------------------------------------------

  lemma {:induction false} WidthConcat(font: Font, s: string, t: string)
    ensures Width(font, s + t) == Width(font, s) + Width(font, t)
  {
    if s == "" {
      assert s + t == t;
    } else {
      WidthConcat(font, s[1..], t);
      assert (s + t)[1..] == s[1..] + t;
    }
  }

  lemma {:induction false} LineTextConcat(a: seq<string>, b: seq<string>)
    requires a != [] && b != []
    ensures LineText(a + b) == LineText(a) + " " + LineText(b)
  {
    if |a| == 1 {
      assert (a + b)[1..] == b;
    } else {
      LineTextConcat(a[1..], b);
      assert (a + b)[1..] == a[1..] + b;
    }
  }

  /** A line is at least as wide as any part it starts or ends with. */
  lemma PartNotWider(font: Font, a: seq<string>, b: seq<string>)
    ensures LineWidth(font, a) <= LineWidth(font, a + b)
    ensures LineWidth(font, b) <= LineWidth(font, a + b)
  {
    if a == [] {
      assert a + b == b;
    } else if b == [] {
      assert a + b == a;
    } else {
      LineTextConcat(a, b);
      WidthConcat(font, LineText(a) + " ", LineText(b));
      WidthConcat(font, LineText(a), " ");
    }
  }

  lemma PrefixFits(font: Font, max: nat, line: seq<string>, n: nat)
    requires n <= |line|
    ensures Fits(font, max, line) ==> Fits(font, max, line[..n])
  {
    PartNotWider(font, line[..n], line[n..]);
    assert line == line[..n] + line[n..];
  }

  // ----- The greedy lines are a split ---------------------------------------------------

  /** Every word appears once, in order, and every line of two or more words fits. */
  lemma {:induction false} WrapIsSplit(font: Font, max: nat, current: seq<string>, rest: seq<string>)
    requires current == [] || LineOk(font, max, current)
    ensures IsSplit(font, max, current + rest, Wrap(font, max, current, rest))
    decreases |rest|
  {
    if rest == [] {
      assert current + rest == current;
      assert current != [] ==> Flatten([current]) == current + Flatten([]) == current;
    } else if current != [] && !Fits(font, max, current + [rest[0]]) {
      var tail := Wrap(font, max, [rest[0]], rest[1..]);
      WrapIsSplit(font, max, [rest[0]], rest[1..]);
      assert [rest[0]] + rest[1..] == rest;
      assert ([current] + tail)[1..] == tail;
    } else {
      WrapIsSplit(font, max, current + [rest[0]], rest[1..]);
      assert current + [rest[0]] + rest[1..] == current + rest;
    }
  }

  /** The split is greedy: the first word of a line never fits on the line before it. */
  lemma {:induction false} WrapIsGreedy(font: Font, max: nat, current: seq<string>, rest: seq<string>, i: nat)
    requires i + 1 < |Wrap(font, max, current, rest)|
    ensures var lines := Wrap(font, max, current, rest);
      lines[i + 1] != [] && !Fits(font, max, lines[i] + [lines[i + 1][0]])
    decreases |rest|
  {
    if rest != [] {
      if current != [] && !Fits(font, max, current + [rest[0]]) {
        var tail := Wrap(font, max, [rest[0]], rest[1..]);
        StartsWith(font, max, [rest[0]], rest[1..]);
        if i > 0 {
          WrapIsGreedy(font, max, [rest[0]], rest[1..], i - 1);
        }
        assert ([current] + tail)[i + 1] == tail[i];
      } else {
        WrapIsGreedy(font, max, current + [rest[0]], rest[1..], i);
      }
    }
  }

  lemma {:induction false} StartsWith(font: Font, max: nat, current: seq<string>, rest: seq<string>)
    requires current != []
    ensures var lines := Wrap(font, max, current, rest); lines != [] && current <= lines[0]
    decreases |rest|
  {
    if rest != [] && Fits(font, max, current + [rest[0]]) {
      StartsWith(font, max, current + [rest[0]], rest[1..]);
    }
  }

  // ----- No split uses fewer lines --------------------------------------------------------

  /** Dropping the first word of a split leaves a split of the rest with no more lines. */
  lemma DropFirstWord(font: Font, max: nat, words: seq<string>, lines: seq<seq<string>>)
    returns (shorter: seq<seq<string>>)
    requires words != [] && IsSplit(font, max, words, lines)
    ensures IsSplit(font, max, words[1..], shorter) && |shorter| <= |lines|
  {
    var first, others := lines[0], lines[1..];
    assert LineOk(font, max, first);
    assert words == first + Flatten(others);
    if |first| == 1 {
      shorter := others;
      assert words[1..] == Flatten(others);
    } else {
      var kept := first[1..];
      RestOfLineOk(font, max, first);
      SplitOfFirst(font, max, kept, others);
      shorter := [kept] + others;
      assert words[1..] == kept + Flatten(others);
    }
  }

  lemma RestOfLineOk(font: Font, max: nat, line: seq<string>)
    requires |line| > 1 && LineOk(font, max, line)
    ensures LineOk(font, max, line[1..])
  {
    PartNotWider(font, [line[0]], line[1..]);
    assert [line[0]] + line[1..] == line;
  }

  /** A line that is all right before lines that are. */
  lemma SplitOfFirst(font: Font, max: nat, first: seq<string>, others: seq<seq<string>>)
    requires LineOk(font, max, first) && AllLinesOk(font, max, others)
    ensures IsSplit(font, max, first + Flatten(others), [first] + others)
  {
    assert ([first] + others)[1..] == others;
  }

  lemma {:induction false} DropWords(font: Font, max: nat, words: seq<string>, lines: seq<seq<string>>, k: nat)
    returns (shorter: seq<seq<string>>)
    requires k <= |words| && IsSplit(font, max, words, lines)
    ensures IsSplit(font, max, words[k..], shorter) && |shorter| <= |lines|
    decreases k
  {
    if k == 0 {
      shorter := lines;
      assert words[0..] == words;
    } else {
      var one := DropFirstWord(font, max, words, lines);
      shorter := DropWords(font, max, words[1..], one, k - 1);
      assert words[1..][k - 1..] == words[k..];
    }
  }

  /** No split's first line reaches past a line that cannot take its next word. */
  lemma FirstLineStops(font: Font, max: nat, current: seq<string>, rest: seq<string>, lines: seq<seq<string>>)
    requires current != [] && rest != [] && !Fits(font, max, current + [rest[0]])
    requires IsSplit(font, max, current + rest, lines)
    ensures lines != [] && 1 <= |lines[0]| <= |current|
    ensures IsSplit(font, max, (current + rest)[|lines[0]|..], lines[1..])
  {
    var first, others := lines[0], lines[1..];
    assert LineOk(font, max, first);
    assert current + rest == first + Flatten(others);
    assert (current + rest)[|first|..] == Flatten(others);
    if |first| > |current| {
      assert first[..|current| + 1] == current + [rest[0]];
    }
    PrefixFits(font, max, first, if |first| > |current| then |current| + 1 else 0);
  }

  /** After a line that cannot take its next word, the rest needs at least one line less. */
  lemma RestIsShorter(font: Font, max: nat, current: seq<string>, rest: seq<string>, lines: seq<seq<string>>)
    returns (shorter: seq<seq<string>>)
    requires current != [] && rest != [] && !Fits(font, max, current + [rest[0]])
    requires IsSplit(font, max, current + rest, lines)
    ensures IsSplit(font, max, rest, shorter) && |shorter| < |lines|
  {
    FirstLineStops(font, max, current, rest, lines);
    var k := |lines[0]|;
    var words := (current + rest)[k..];
    shorter := DropWords(font, max, words, lines[1..], |current| - k);
    assert words[|current| - k..] == rest;
  }

  /** Greedy wrapping uses as few lines as any split of the same words. */
  lemma {:induction false} WrapIsShortest(
    font: Font, max: nat, current: seq<string>, rest: seq<string>, lines: seq<seq<string>>)
    requires IsSplit(font, max, current + rest, lines)
    ensures |Wrap(font, max, current, rest)| <= |lines|
    decreases |rest|
  {
    if rest == [] {
      assert current + rest == current;
    } else if current != [] && !Fits(font, max, current + [rest[0]]) {
      var shorter := RestIsShorter(font, max, current, rest, lines);
      assert [rest[0]] + rest[1..] == rest;
      WrapIsShortest(font, max, [rest[0]], rest[1..], shorter);
    } else {
      assert current + [rest[0]] + rest[1..] == current + rest;
      WrapIsShortest(font, max, current + [rest[0]], rest[1..], lines);
    }
  }

  // ----- The loop --------------------------------------------------------------------------

  lemma LineTextEmptyIff(words: seq<string>)
    requires NonEmptyWords(words)
    ensures LineText(words) == "" <==> words == []
  {
  }

  lemma {:induction false} TextsConcat(a: seq<seq<string>>, b: seq<seq<string>>)
    ensures Texts(a + b) == Texts(a) + Texts(b)
  {
    if a == [] {
      assert a + b == b;
    } else {
      TextsConcat(a[1..], b);
      assert (a + b)[1..] == a[1..] + b;
    }
  }

  lemma LineTextAppend(words: seq<string>, word: string)
    ensures words == [] ==> LineText(words + [word]) == word
    ensures words != [] ==> LineText(words + [word]) == LineText(words) + " " + word
  {
    if words != [] {
      LineTextConcat(words, [word]);
    } else {
      assert words + [word] == [word];
    }
  }

  /** One iteration: the test on the joined text is the test on the line's words. */
  lemma WrapStep(font: Font, max: nat, line: seq<string>, words: seq<string>, i: nat)
    requires i < |words| && NonEmptyWords(line) && NonEmptyWords(words)
    ensures (
      var current, word := LineText(line), words[i];
      var candidate := if current != "" then current + " " + word else word;
      && candidate == LineText(line + [word])
      && Wrap(font, max, line, words[i..])
        == (if current != "" && Width(font, candidate) > max
            then [line] + Wrap(font, max, [word], words[i + 1..])
            else Wrap(font, max, line + [word], words[i + 1..])))
  {
    LineTextEmptyIff(line);
    LineTextAppend(line, words[i]);
    assert words[i..][0] == words[i] && words[i..][1..] == words[i + 1..];
  }

  lemma DoneStep(font: Font, max: nat, done: seq<seq<string>>, line: seq<string>, word: string, rest: seq<string>)
    ensures Texts(done + [line]) == Texts(done) + [LineText(line)]
    ensures done + ([line] + Wrap(font, max, [word], rest)) == done + [line] + Wrap(font, max, [word], rest)
  {
    TextsConcat(done, [line]);
  }

  /** The same with the lines already done in front. */
  lemma LoopStep(font: Font, max: nat, done: seq<seq<string>>, line: seq<string>, words: seq<string>, i: nat)
    requires i < |words| && NonEmptyWords(line) && NonEmptyWords(words)
    ensures NonEmptyWords([words[i]]) && NonEmptyWords(line + [words[i]]) && LineText([words[i]]) == words[i]
    ensures var current, word := LineText(line), words[i];
      var candidate := if current != "" then current + " " + word else word;
      && candidate == LineText(line + [word])
      && (if current != "" && Width(font, candidate) > max
          then done + Wrap(font, max, line, words[i..]) == done + [line] + Wrap(font, max, [word], words[i + 1..])
               && Texts(done + [line]) == Texts(done) + [current]
          else done + Wrap(font, max, line, words[i..]) == done + Wrap(font, max, line + [word], words[i + 1..]))
  {
    WrapStep(font, max, line, words, i);
    DoneStep(font, max, done, line, words[i], words[i + 1..]);
  }

  lemma WrapEnd(font: Font, max: nat, done: seq<seq<string>>, line: seq<string>)
    ensures done + Wrap(font, max, line, []) == if line == [] then done else done + [line]
    ensures Texts([line]) == [LineText(line)]
  {
  }

  /** _wrap_lines on the words of the text. */
  method WrapLines(font: Font, max: nat, words: seq<string>) returns (lines: seq<string>)
    requires NonEmptyWords(words)
    ensures lines == Texts(Wrap(font, max, [], words))
  {
    lines := [];
    var current := "";
    ghost var line: seq<string> := [];
    ghost var done: seq<seq<string>> := [];
    ghost var all := Wrap(font, max, [], words);
    var i := 0;
    assert [] + all == all && words[0..] == words;
    while i < |words|
      invariant i <= |words|
      invariant NonEmptyWords(line) && current == LineText(line)
      invariant lines == Texts(done)
      invariant done + Wrap(font, max, line, words[i..]) == all
    {
      var word := words[i];
      LoopStep(font, max, done, line, words, i);
      var candidate := if current != "" then current + " " + word else word;
      if current != "" && Width(font, candidate) > max {
        lines := lines + [current];
        done := done + [line];
        current := word;
        line := [word];
      } else {
        current := candidate;
        line := line + [word];
      }
      i := i + 1;
    }
    LineTextEmptyIff(line);
    assert words[i..] == [];
    WrapEnd(font, max, done, line);
    if current != "" {
      TextsConcat(done, [line]);
      lines := lines + [current];
    }
  }
}
