/**
 The page positions of a certificate: a results table that breaks pages by row, the
 supersession statement above it and the notes below it. Lengths are hundredths of
 an inch, so the source's inch fractions are whole numbers.
 */
module PageLayout {

  const PAGE_HEIGHT := 1100
  const MARGIN := 75
  const TOP := PAGE_HEIGHT - MARGIN
  const LEADING := 14

  datatype Element = Element(name: string, grade: string)
  datatype Sample = Sample(id: string, technique: string, gold: string, digest: string, elements: seq<Element>)
  datatype Item =
    | Heading
    | SampleRow(id: string, technique: string, gold: string)
    | DigestRow(digest: string)
    | ElementRow(name: string, grade: string)
    | TextLine(text: string)
  datatype Draw = Draw(page: nat, y: int, item: Item)

  /** d is drawn on an earlier page than the position, or higher on the same page. */
  predicate Before(d: Draw, page: nat, y: int) {
    d.page < page || (d.page == page && d.y > y)
  }

  predicate AllBefore(draws: seq<Draw>, page: nat, y: int) {
    forall d :: d in draws ==> Before(d, page, y)
  }

  /** Reading order: every draw is below, or on a later page than, those made before it. */
  predicate InReadingOrder(draws: seq<Draw>) {
    forall i, j :: 0 <= i < j < |draws| ==> Before(draws[i], draws[j].page, draws[j].y)
  }

  /** Where the table may draw each kind of item. */
  predicate InsideTable(d: Draw, firstPage: nat, firstY: int) {
    match d.item
    case Heading => (d.page == firstPage && d.y == firstY) || (d.page > firstPage && d.y == TOP)
    case SampleRow(_, _, _) => d.y >= MARGIN + 50
    case DigestRow(_) => d.y >= MARGIN + 30
    case ElementRow(_, _) => d.y >= MARGIN + 30
    case TextLine(_) => false
  }

  predicate AllInsideTable(draws: seq<Draw>, firstPage: nat, firstY: int) {
    forall d :: d in draws ==> InsideTable(d, firstPage, firstY)
  }

  /** Each page from the first to the last has its heading. */
  predicate EveryPageHeaded(draws: seq<Draw>, firstPage: nat, lastPage: nat, firstY: int) {
    forall p: nat :: firstPage <= p <= lastPage ==> HeadingOn(p, firstPage, firstY) in draws
  }

  function HeadingOn(page: nat, firstPage: nat, firstY: int): Draw {
    Draw(page, if page == firstPage then firstY else TOP, Heading)
  }

  /** The drawn items in order, without the repeated headings. */
  function Rows(draws: seq<Draw>): seq<Item> {
    if draws == [] then []
    else
      var n := |draws| - 1;
      Rows(draws[..n]) + (if draws[n].item.Heading? then [] else [draws[n].item])
  }

  function ElementRows(elements: seq<Element>): seq<Item> {
    if elements == [] then []
    else
      var n := |elements| - 1;
      ElementRows(elements[..n]) + [ElementRow(elements[n].name, elements[n].grade)]
  }

  /** What one certified sample should show. */
  function SampleRows(s: Sample): seq<Item> {
    [SampleRow(s.id, s.technique, s.gold)] + BlockRows(s)
  }

  function BlockRows(s: Sample): seq<Item> {
    (if s.elements != [] && s.digest != "" then [DigestRow(s.digest)] else []) + ElementRows(s.elements)
  }

  function TableRows(samples: seq<Sample>): seq<Item> {
    if samples == [] then []
    else
      var n := |samples| - 1;
      TableRows(samples[..n]) + SampleRows(samples[n])
  }

  lemma {:induction false} ElementRowsAre(elements: seq<Element>, j: nat)
    requires j < |elements|
    ensures |ElementRows(elements)| == |elements|
    ensures ElementRows(elements)[j] == ElementRow(elements[j].name, elements[j].grade)
  {
    var n := |elements| - 1;
    if j < n {
      ElementRowsAre(elements[..n], j);
    } else if n > 0 {
      ElementRowsAre(elements[..n], 0);
    }
  }

  /** The table holds each sample's rows in one piece, after those of the samples before it. */
  lemma {:induction false} TableHolds(samples: seq<Sample>, i: nat)
    requires i < |samples|
    ensures TableRows(samples[..i]) + SampleRows(samples[i]) <= TableRows(samples)
    ensures i + 1 == |samples| ==> TableRows(samples[..i]) + SampleRows(samples[i]) == TableRows(samples)
  {
    var n := |samples| - 1;
    if i < n {
      TableHolds(samples[..n], i);
      assert samples[..n][..i] == samples[..i];
    }
  }

  /** Each sample shows its line, its digest if it has elements, and each of them. */
  lemma SampleShows(s: Sample)
    ensures var first := if s.elements != [] && s.digest != "" then 2 else 1;
      && |SampleRows(s)| == first + |s.elements|
      && SampleRows(s)[0] == SampleRow(s.id, s.technique, s.gold)
      && (s.elements != [] && s.digest != "" ==> SampleRows(s)[1] == DigestRow(s.digest))
      && (forall j :: 0 <= j < |s.elements| ==>
            SampleRows(s)[first + j] == ElementRow(s.elements[j].name, s.elements[j].grade))
  {
    if s.elements != [] {
      ElementRowsAre(s.elements, 0);
    }
    forall j | 0 <= j < |s.elements|
      ensures ElementRows(s.elements)[j] == ElementRow(s.elements[j].name, s.elements[j].grade)
    {
      ElementRowsAre(s.elements, j);
    }
  }

  // ----- How far apart things are drawn, and when a page is broken -----------------------

  /** What is left free below an item, up to the next. */
  function Drop(item: Item): int {
    match item
    case Heading => 25
    case SampleRow(_, _, _) => 20
    case DigestRow(_) => 16
    case ElementRow(_, _) => 14
    case TextLine(_) => 14
  }

  /** A little more where a sample follows a block of elements. */
  function Gap(d: Draw, next: Item): int {
    if d.item.ElementRow? && next.SampleRow? then 6 else 0
  }

  /** Where the next item goes if it stays on the page. */
  function NextY(d: Draw, next: Item): int {
    d.y - Drop(d.item) - Gap(d, next)
  }

  /** The room an item needs, or the page is broken before it. */
  function Guard(item: Item): int {
    match item
    case SampleRow(_, _, _) => 125
    case ElementRow(_, _) => 105
    case _ => 0
  }

  /** An item stands right below the one before it, or on a new page right below its heading. */
  predicate Follows(draws: seq<Draw>, i: nat)
    requires i + 1 < |draws|
  {
    var d, e := draws[i], draws[i + 1];
    if e.item.Heading? then
      && e.page == d.page + 1 && e.y == 1025
      && i + 2 < |draws| && NextY(d, draws[i + 2].item) < Guard(draws[i + 2].item)
    else e.page == d.page && e.y == NextY(d, e.item) && e.y >= Guard(e.item)
  }

  /** So a page is broken exactly when the next row would not have its room. */
  predicate Spaced(draws: seq<Draw>) {
    forall i :: 0 <= i < |draws| - 1 ==> Follows(draws, i)
  }

  /** Spaced so far, and the cursor stands where the next item of that kind would go. */
  predicate CursorAt(draws: seq<Draw>, page: nat, y: int, next: Item) {
    && draws != [] && Spaced(draws) && (draws[|draws| - 1].item.Heading? ==> |draws| == 1)
    && page == draws[|draws| - 1].page && y == NextY(draws[|draws| - 1], next)
  }

  lemma FollowsStays(draws: seq<Draw>, more: seq<Draw>, i: nat)
    requires i + 1 < |draws| && Follows(draws, i)
    ensures Follows(draws + more, i)
  {
  }

  /** A row with room for it goes to the cursor. */
  lemma PlaceRow(draws: seq<Draw>, page: nat, y: int, item: Item, next: Item)
    requires CursorAt(draws, page, y, item) && !item.Heading? && y >= Guard(item)
    ensures var d := Draw(page, y, item); CursorAt(draws + [d], page, NextY(d, next), next)
  {
    var all := draws + [Draw(page, y, item)];
    forall i | 0 <= i < |all| - 1 ensures Follows(all, i) {
      if i + 1 < |draws| {
        FollowsStays(draws, [Draw(page, y, item)], i);
      }
    }
  }

  /** A row without room goes below the heading of a new page. */
  lemma PlaceOnNewPage(draws: seq<Draw>, page: nat, y: int, item: Item, next: Item)
    requires CursorAt(draws, page, y, item) && !item.Heading? && y < Guard(item)
    ensures var d := Draw(page + 1, 1000, item);
      CursorAt(draws + [Draw(page + 1, 1025, Heading)] + [d], page + 1, NextY(d, next), next)
  {
    var more := [Draw(page + 1, 1025, Heading), Draw(page + 1, 1000, item)];
    assert draws + [Draw(page + 1, 1025, Heading)] + [Draw(page + 1, 1000, item)] == draws + more;
    forall i | 0 <= i < |draws + more| - 1 ensures Follows(draws + more, i) {
      if i + 1 < |draws| {
        FollowsStays(draws, more, i);
      }
    }
  }

  /** The kinds of row a cursor can wait for. */
  const SAMPLE_NEXT: Item := SampleRow("", "", "")
  const ELEMENT_NEXT: Item := ElementRow("", "")

  lemma RowsAppend(draws: seq<Draw>, d: Draw)
    ensures Rows(draws + [d]) == Rows(draws) + (if d.item.Heading? then [] else [d.item])
  {
  }

  lemma OrderAppend(draws: seq<Draw>, d: Draw)
    requires InReadingOrder(draws) && AllBefore(draws, d.page, d.y)
    ensures InReadingOrder(draws + [d])
  {
  }

  /** Everything the table loops maintain about what has been drawn so far. */
  predicate Drawn(draws: seq<Draw>, firstPage: nat, firstY: int, page: nat, y: int) {
    && firstPage <= page
    && AllBefore(draws, page, y)
    && InReadingOrder(draws)
    && AllInsideTable(draws, firstPage, firstY)
    && EveryPageHeaded(draws, firstPage, page, firstY)
  }

  /** And that the cursor waits for the next row where it belongs. */
  predicate Laid(draws: seq<Draw>, firstPage: nat, firstY: int, page: nat, y: int, next: Item) {
    Drawn(draws, firstPage, firstY, page, y) && CursorAt(draws, page, y, next)
  }

  /** Drawing a row at the cursor and moving down keeps the table well laid out. */
  lemma DrawRow(draws: seq<Draw>, firstPage: nat, firstY: int, page: nat, y: int, item: Item, drop: nat)
    requires Drawn(draws, firstPage, firstY, page, y)
    requires !item.Heading? && InsideTable(Draw(page, y, item), firstPage, firstY) && drop > 0
    ensures Drawn(draws + [Draw(page, y, item)], firstPage, firstY, page, y - drop)
    ensures Rows(draws + [Draw(page, y, item)]) == Rows(draws) + [item]
  {
  }

  lemma NextPage(draws: seq<Draw>, page: nat, y: int)
    requires AllBefore(draws, page, y)
    ensures AllBefore(draws, page + 1, TOP)
    ensures AllBefore(draws + [Draw(page + 1, TOP, Heading)], page + 1, TOP - 25)
  {
  }

  lemma InsideAppend(draws: seq<Draw>, d: Draw, firstPage: nat, firstY: int)
    requires AllInsideTable(draws, firstPage, firstY) && InsideTable(d, firstPage, firstY)
    ensures AllInsideTable(draws + [d], firstPage, firstY)
  {
  }

  lemma HeadedNext(draws: seq<Draw>, firstPage: nat, lastPage: nat, firstY: int)
    requires firstPage <= lastPage && EveryPageHeaded(draws, firstPage, lastPage, firstY)
    ensures EveryPageHeaded(draws + [Draw(lastPage + 1, TOP, Heading)], firstPage, lastPage + 1, firstY)
  {
  }

  /** So does breaking to a new page and repeating the heading. */
  lemma BreakPage(draws: seq<Draw>, firstPage: nat, firstY: int, page: nat, y: int)
    requires Drawn(draws, firstPage, firstY, page, y)
    ensures Drawn(draws + [Draw(page + 1, TOP, Heading)], firstPage, firstY, page + 1, TOP - 25)
    ensures Rows(draws + [Draw(page + 1, TOP, Heading)]) == Rows(draws)
  {
    var heading := Draw(page + 1, TOP, Heading);
    RowsAppend(draws, heading);
    NextPage(draws, page, y);
    OrderAppend(draws, heading);
    InsideAppend(draws, heading, firstPage, firstY);
    HeadedNext(draws, firstPage, page, firstY);
  }

  /** One row with room for it. */
  lemma KeepPage(draws: seq<Draw>, firstPage: nat, firstY: int, page: nat, y: int, row: Item, next: Item)
    requires Laid(draws, firstPage, firstY, page, y, row) && !row.Heading? && y >= Guard(row)
    requires InsideTable(Draw(page, y, row), firstPage, firstY) && Gap(Draw(page, y, row), next) == 0
    ensures var all := draws + [Draw(page, y, row)];
      Laid(all, firstPage, firstY, page, y - Drop(row), next) && Rows(all) == Rows(draws) + [row]
  {
    PlaceRow(draws, page, y, row, next);
    DrawRow(draws, firstPage, firstY, page, y, row, Drop(row));
  }

  /** One row without: the page is broken first. */
  lemma TurnPage(draws: seq<Draw>, firstPage: nat, firstY: int, page: nat, y: int, row: Item, next: Item)
    requires Laid(draws, firstPage, firstY, page, y, row) && !row.Heading? && y < Guard(row)
    requires InsideTable(Draw(page + 1, 1000, row), firstPage, firstY) && Gap(Draw(page + 1, 1000, row), next) == 0
    ensures var all := draws + [Draw(page + 1, 1025, Heading)] + [Draw(page + 1, 1000, row)];
      Laid(all, firstPage, firstY, page + 1, 1000 - Drop(row), next) && Rows(all) == Rows(draws) + [row]
  {
    PlaceOnNewPage(draws, page, y, row, next);
    BreakPage(draws, firstPage, firstY, page, y);
    DrawRow(draws + [Draw(page + 1, 1025, Heading)], firstPage, firstY, page + 1, 1000, row, Drop(row));
  }

  /** One element, on a new page or not. */
  lemma ElementStep(draws: seq<Draw>, firstPage: nat, firstY: int, page: nat, y: int, row: Item)
    requires Laid(draws, firstPage, firstY, page, y, ELEMENT_NEXT) && row.ElementRow?
    ensures y < MARGIN + 30 ==>
      var all := draws + [Draw(page + 1, TOP, Heading)] + [Draw(page + 1, TOP - 25, row)];
      Laid(all, firstPage, firstY, page + 1, TOP - 25 - 14, ELEMENT_NEXT) && Rows(all) == Rows(draws) + [row]
    ensures y >= MARGIN + 30 ==>
      var all := draws + [Draw(page, y, row)];
      Laid(all, firstPage, firstY, page, y - 14, ELEMENT_NEXT) && Rows(all) == Rows(draws) + [row]
  {
    if y < MARGIN + 30 {
      TurnPage(draws, firstPage, firstY, page, y, row, ELEMENT_NEXT);
    } else {
      KeepPage(draws, firstPage, firstY, page, y, row, ELEMENT_NEXT);
    }
  }

  lemma ElementRowsNext(above: seq<Item>, elements: seq<Element>, i: nat)
    requires i < |elements|
    ensures above + ElementRows(elements[..i + 1])
         == above + ElementRows(elements[..i]) + [ElementRow(elements[i].name, elements[i].grade)]
  {
    assert elements[..i + 1][..i] == elements[..i];
  }

  /** One pass of the element loop. */
  method DrawElement(e: Element, ghost firstPage: nat, ghost firstY: int, before: seq<Draw>, page0: nat, y0: int)
    returns (draws: seq<Draw>, page: nat, y: int)
    requires Laid(before, firstPage, firstY, page0, y0, ELEMENT_NEXT)
    ensures Laid(draws, firstPage, firstY, page, y, ELEMENT_NEXT)
    ensures Rows(draws) == Rows(before) + [ElementRow(e.name, e.grade)]
    ensures draws[|draws| - 1].item.ElementRow?
  {
    draws, page, y := before, page0, y0;
    var row := ElementRow(e.name, e.grade);
    ElementStep(draws, firstPage, firstY, page, y, row);
    if y < MARGIN + 30 {
      page := page + 1;
      draws, y := draws + [Draw(page, TOP, Heading)], TOP - 25;
    }
    draws, y := draws + [Draw(page, y, row)], y - 14;
  }

  /** The element loop of one sample. */
  method DrawElements(elements: seq<Element>, ghost firstPage: nat, ghost firstY: int,
                      before: seq<Draw>, page0: nat, y0: int)
    returns (draws: seq<Draw>, page: nat, y: int)
    requires Laid(before, firstPage, firstY, page0, y0, ELEMENT_NEXT)
    ensures Laid(draws, firstPage, firstY, page, y, ELEMENT_NEXT)
    ensures Rows(draws) == Rows(before) + ElementRows(elements)
    ensures if elements == [] then draws == before else draws[|draws| - 1].item.ElementRow?
  {
    draws, page, y := before, page0, y0;
    ghost var above := Rows(before);
    for i := 0 to |elements|
      invariant Laid(draws, firstPage, firstY, page, y, ELEMENT_NEXT)
      invariant if i == 0 then draws == before else draws[|draws| - 1].item.ElementRow?
      invariant Rows(draws) == above + ElementRows(elements[..i])
    {
      ElementRowsNext(above, elements, i);
      draws, page, y := DrawElement(elements[i], firstPage, firstY, draws, page, y);
    }
    assert elements[..|elements|] == elements;
  }

  /** The gold line of one sample, on a new page when little room is left. */
  method DrawGoldLine(s: Sample, ghost firstPage: nat, ghost firstY: int, before: seq<Draw>, page0: nat, y0: int)
    returns (draws: seq<Draw>, page: nat, y: int)
    requires Laid(before, firstPage, firstY, page0, y0, SAMPLE_NEXT)
    ensures Laid(draws, firstPage, firstY, page, y, ELEMENT_NEXT) && y >= MARGIN + 30
    ensures Rows(draws) == Rows(before) + [SampleRow(s.id, s.technique, s.gold)]
    ensures draws != [] && draws[|draws| - 1].item.SampleRow?
  {
    draws, page, y := before, page0, y0;
    var row := SampleRow(s.id, s.technique, s.gold);
    if y < MARGIN + 50 {
      TurnPage(draws, firstPage, firstY, page, y, row, ELEMENT_NEXT);
      page := page + 1;
      draws, y := draws + [Draw(page, TOP, Heading)], TOP - 25;
    } else {
      KeepPage(draws, firstPage, firstY, page, y, row, ELEMENT_NEXT);
    }
    draws, y := draws + [Draw(page, y, row)], y - 20;
  }

  /** The block of a sample's elements below its gold line. */
  method DrawBlock(s: Sample, ghost firstPage: nat, ghost firstY: int, before: seq<Draw>, page0: nat, y0: int)
    returns (draws: seq<Draw>, page: nat, y: int)
    requires Laid(before, firstPage, firstY, page0, y0, ELEMENT_NEXT) && y0 >= MARGIN + 30
    requires before[|before| - 1].item.SampleRow?
    ensures Laid(draws, firstPage, firstY, page, y, SAMPLE_NEXT)
    ensures Rows(draws) == Rows(before) + BlockRows(s)
  {
    draws, page, y := before, page0, y0;
    if s.elements != [] {
      if s.digest != "" {
        var digest := DigestRow(s.digest);
        KeepPage(draws, firstPage, firstY, page, y, digest, ELEMENT_NEXT);
        draws, y := draws + [Draw(page, y, digest)], y - 16;
      }
      draws, page, y := DrawElements(s.elements, firstPage, firstY, draws, page, y);
      MoveDown(draws, page, y, 6);
      y := y - 6;
    }
  }

  lemma MoveDown(draws: seq<Draw>, page: nat, y: int, drop: nat)
    requires AllBefore(draws, page, y)
    ensures AllBefore(draws, page, y - drop)
  {
  }

  lemma FirstHeading(page: nat, y: int)
    ensures Drawn([HeadingOn(page, page, y)], page, y, page, y - 25) && Rows([HeadingOn(page, page, y)]) == []
  {
    RowsAppend([], HeadingOn(page, page, y));
    assert [] + [HeadingOn(page, page, y)] == [HeadingOn(page, page, y)];
  }

  lemma TableRowsNext(samples: seq<Sample>, i: nat)
    requires i < |samples|
    ensures TableRows(samples[..i + 1])
         == TableRows(samples[..i]) + [SampleRow(samples[i].id, samples[i].technique, samples[i].gold)]
            + BlockRows(samples[i])
  {
    assert samples[..i + 1][..i] == samples[..i];
  }

  /**
   The results table, from whatever height the text above it left. Every sample, digest
   and element is drawn exactly once and in order; no two draws share a height; no row is
   drawn below the margin; and every page that the table reaches repeats the heading.
   */
  method DrawTable(samples: seq<Sample>, firstPage: nat, firstY: int)
    returns (draws: seq<Draw>, page: nat, y: int)
    ensures Rows(draws) == TableRows(samples)
    ensures InReadingOrder(draws)
    ensures AllInsideTable(draws, firstPage, firstY)
    ensures firstPage <= page && EveryPageHeaded(draws, firstPage, page, firstY)
    ensures AllBefore(draws, page, y) && Spaced(draws)
  {
    draws, page, y := [HeadingOn(firstPage, firstPage, firstY)], firstPage, firstY - 25;
    FirstHeading(firstPage, firstY);
    for i := 0 to |samples|
      invariant Laid(draws, firstPage, firstY, page, y, SAMPLE_NEXT)
      invariant Rows(draws) == TableRows(samples[..i])
    {
      draws, page, y := DrawGoldLine(samples[i], firstPage, firstY, draws, page, y);
      draws, page, y := DrawBlock(samples[i], firstPage, firstY, draws, page, y);
      TableRowsNext(samples, i);
    }
    assert samples[..|samples|] == samples;
  }

  // ----- Wrapped text, which has no page break ------------------------------------------

  /** Lines drawn one below the other from a height, all on one page. */
  function TextDraws(lines: seq<string>, page: nat, y: int): seq<Draw> {
    seq(|lines|, k requires 0 <= k < |lines| => Draw(page, y - LEADING * k, TextLine(lines[k])))
  }

  predicate AboveMargin(draws: seq<Draw>) {
    forall i :: 0 <= i < |draws| ==> draws[i].y >= MARGIN
  }

  method DrawText(lines: seq<string>, page: nat, y0: int) returns (draws: seq<Draw>, y: int)
    ensures draws == TextDraws(lines, page, y0) && y == y0 - LEADING * |lines|
  {
    draws, y := [], y0;
    for i := 0 to |lines|
      invariant draws == TextDraws(lines[..i], page, y0) && y == y0 - LEADING * i
    {
      draws, y := draws + [Draw(page, y, TextLine(lines[i]))], y - LEADING;
    }
    assert lines[..|lines|] == lines;
  }

  /** The notes: one page break before the first line, none after it. */
  method DrawNotes(lines: seq<string>, page0: nat, y0: int) returns (draws: seq<Draw>)
    ensures var start := NotesStart(page0, y0); draws == TextDraws(lines, start.0, start.1)
  {
    var page, y := page0, y0;
    if y < MARGIN + LEADING {
      page, y := page + 1, TOP;
    }
    draws, y := DrawText(lines, page, y);
  }

  function NotesStart(page: nat, y: int): (nat, int) {
    if y < MARGIN + LEADING then (page + 1, TOP) else (page, y)
  }

  /** Notes go to the top of the next page exactly when the table ended lower than 0.89 of an inch. */
  lemma NotesBreakIff(page: nat, y: int)
    ensures NotesStart(page, y) == if y < 89 then (page + 1, 1025) else (page, y)
  {
  }

  /** How many lines of text fit between a height and the margin. */
  function Room(y: int): nat {
    if y < MARGIN then 0 else (y - MARGIN) / LEADING + 1
  }

  /** A run of text stays above the margin exactly when it has no more lines than there is room. */
  lemma TextAboveMarginIff(lines: seq<string>, page: nat, y: int)
    ensures AboveMargin(TextDraws(lines, page, y)) <==> |lines| <= Room(y)
  {
    var draws := TextDraws(lines, page, y);
    if |lines| > Room(y) {
      assert draws[Room(y)].y < MARGIN;
    }
  }

  /** Two lines of notes always stay above the margin; the 69th never does, wherever the table ended. */
  lemma NotesRoom(page: nat, y: int)
    requires y <= TOP
    ensures 2 <= Room(NotesStart(page, y).1) <= 68
    ensures Room(TOP) == 68
  {
  }

  /** The height at which the results table starts, below the certificate's details and statement. */
  function TableStart(statement: seq<string>): int {
    var details := TOP - 35 - 30 - 22 - 22 - 35;
    if statement == [] then details else details - LEADING * |statement| - 16
  }

  /** The table starts 8.81 inches up, or after a statement 0.16 below it, each of its lines taking 0.14. */
  lemma TableStartsAt(statement: seq<string>)
    ensures TableStart(statement) == if |statement| == 0 then 881 else 865 - 14 * |statement|
  {
  }

  /** A supersession statement pushes the table's first heading below the margin from its 57th line on. */
  lemma StatementLeavesRoomIff(statement: seq<string>)
    ensures TableStart(statement) >= MARGIN <==> |statement| <= 56
    ensures AboveMargin(TextDraws(statement, 0, TOP - 144)) <==> |statement| <= 58
  {
    TextAboveMarginIff(statement, 0, TOP - 144);
  }
}
