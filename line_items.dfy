/**
 * The line-item engine of extract_data_from_pdf as specification
 * functions: where a page's table starts, which lines are rows and how a
 * row is cut into its six columns, the item-number continuity check, the
 * running total, and how pages and documents are put together. The
 * methods in module App are proved equal to these functions.
 */
module LineItems {
  import opened Options
  import opened Text
  import opened Amount
  import opened Sequences

  /** The column-title line that marks the start of the item table. */
  const Header: string := "Item Descrição Qtde. Unid. Vl. unid. Vl. total"

  /** One table row, the six columns in the order the extractor stores them. */
  datatype Row = Row(
    item: string,
    description: string,
    quantity: string,
    unit: string,
    unitValue: string,
    totalValue: string)

  function Fields(r: Row): seq<string> {
    [r.item, r.description, r.quantity, r.unit, r.unitValue, r.totalValue]
  }

  /**
   * The summary row appended after the last page. Its sixth column is the
   * formatted total; only its empty item matters, since it is filtered
   * out again straight away.
   */
  const SummaryRow: Row := Row("", "", "", "", "", "Total:")

  // ---------------------------------------------------------------------
  // Header location

  /**
   * The index just past the first line that contains `sub`, or None when
   * no line does.
   */
  function FirstContaining(lines: seq<string>, sub: string): (r: Option<nat>)
    ensures r.Some? ==> 1 <= r.value <= |lines|
  {
    if |lines| == 0 then None
    else if Contains(lines[0], sub) then Some(1)
    else
      match FirstContaining(lines[1..], sub)
      case None => None
      case Some(k) => Some(k + 1)
  }

  /**
   * The header scan's answer: the index just past the first header line.
   * The search itself is stated generically in FirstContaining, so that
   * proofs about it never unfold the long header literal.
   */
  function HeaderStart(lines: seq<string>): (r: Option<nat>)
    ensures r.Some? ==> 1 <= r.value <= |lines|
  {
    FirstContaining(lines, Header)
  }

  /**
   * FirstContaining is one past the FIRST line that contains `sub`, and
   * None exactly when no line does.
   */
  lemma {:induction false} FirstContainingIsFirst(lines: seq<string>, sub: string)
    ensures var r := FirstContaining(lines, sub);
      (r.Some? ==> 1 <= r.value <= |lines| && Contains(lines[r.value - 1], sub))
      && (r.Some? ==> forall j :: 0 <= j < r.value - 1 ==> !Contains(lines[j], sub))
      && (r.None? <==> forall j :: 0 <= j < |lines| ==> !Contains(lines[j], sub))
  {
    if |lines| > 0 && !Contains(lines[0], sub) {
      FirstContainingIsFirst(lines[1..], sub);
      assert forall j :: 1 <= j < |lines| ==> lines[j] == lines[1..][j - 1];
    }
  }

  /** HeaderStart points just past the first line that contains the header. */
  lemma HeaderStartIsFirst(lines: seq<string>)
    ensures var r := HeaderStart(lines);
      (r.Some? ==> 1 <= r.value <= |lines| && Contains(lines[r.value - 1], Header))
      && (r.Some? ==> forall j :: 0 <= j < r.value - 1 ==> !Contains(lines[j], Header))
      && (r.None? <==> forall j :: 0 <= j < |lines| ==> !Contains(lines[j], Header))
  {
    FirstContainingIsFirst(lines, Header);
  }

  /** `lines[start_index:]`: with no header the slice `lines[None:]` is the whole page. */
  function DataLines(lines: seq<string>): seq<string> {
    match HeaderStart(lines)
    case None => lines
    case Some(k) => lines[k..]
  }

  /** The data lines are the page from the scan's starting index on, 0 when there is no header. */
  lemma DataLinesFrom(lines: seq<string>, from: nat)
    requires from == match HeaderStart(lines) case None => 0 case Some(k) => k
    ensures from <= |lines| && lines[from..|lines|] == DataLines(lines)
  {
    var start := HeaderStart(lines);
    if start.None? {
      assert lines[0..|lines|] == lines;
    }
  }

  /** A page without the header is scanned from its first line, not skipped. */
  lemma NoHeaderScansWholePage(lines: seq<string>)
    requires forall j :: 0 <= j < |lines| ==> !Contains(lines[j], Header)
    ensures DataLines(lines) == lines
  {
    HeaderStartIsFirst(lines);
  }

  /** With a header, scanning starts on the line after the first header line. */
  lemma HeaderSkipsPreamble(lines: seq<string>, h: nat)
    requires h < |lines| && Contains(lines[h], Header)
    requires forall j :: 0 <= j < h ==> !Contains(lines[j], Header)
    ensures DataLines(lines) == lines[h + 1..]
  {
    HeaderStartIsFirst(lines);
  }

  // ---------------------------------------------------------------------
  // Row splitting

  /** Cutting a token list of at least six tokens into the six columns. */
  function RowOf(f: seq<string>): Row
    requires |f| >= 6
  {
    Row(f[0], Join(f[1..|f| - 4]), f[|f| - 4], f[|f| - 3], f[|f| - 2], f[|f| - 1])
  }

  /**
   * One line as a table row: a non-blank line whose whitespace split has
   * at least six tokens, the first all digits. The first token is the
   * item, the last four are quantity, unit, unit value and total value,
   * and the tokens between are rejoined with single spaces as the
   * description.
   */
  function ParseRow(line: string): (r: Option<Row>)
    ensures r.Some? ==> IsDigitString(r.value.item)
  {
    if IsBlank(line) then None
    else
      var f := Split(line);
      if |f| >= 6 && IsDigitString(f[0]) then Some(RowOf(f))
      else
        None
  }

  /**
   * The row gate: a line is a row exactly when its split has at least six
   * tokens and the first is all digits. The blank-line test in front
   * turns nothing else away.
   */
  lemma RowGate(line: string)
    ensures ParseRow(line).Some? <==> |Split(line)| >= 6 && IsDigitString(Split(line)[0])
  {
    BlankIffNoTokens(line);
  }

  /** A line of five tokens or fewer, blank lines included, is never a row. */
  lemma ShortLineIsNotRow(line: string)
    requires |Split(line)| <= 5
    ensures ParseRow(line) == None
  {
  }

  /**
   * Round trip of the split: the six columns joined by single spaces give
   * the line with its whitespace runs collapsed to single spaces. The item
   * is the first token, the last four columns are the last four tokens,
   * and the description is never empty.
   */
  lemma RowRejoin(line: string)
    requires ParseRow(line).Some?
    ensures var f := Split(line); var r := ParseRow(line).value;
      Join(Fields(r)) == Join(f) && r.item == f[0] && r.description != []
      && [r.quantity, r.unit, r.unitValue, r.totalValue] == f[|f| - 4..]
  {
    var f := Split(line);
    ParseRowCuts(line);
    SplitTokenNonEmpty(line, 1);
    RowOfColumns(f);
    JoinMiddle(f);
  }

  lemma RowOfColumns(f: seq<string>)
    requires |f| >= 6
    ensures var r := RowOf(f);
      [r.quantity, r.unit, r.unitValue, r.totalValue] == f[|f| - 4..]
      && Fields(r) == [f[0], Join(f[1..|f| - 4])] + f[|f| - 4..]
  {
  }

  lemma ParseRowCuts(line: string)
    requires ParseRow(line).Some?
    ensures |Split(line)| >= 6 && ParseRow(line).value == RowOf(Split(line))
  {
    BlankIffNoTokens(line);
  }

  /** Rejoining the middle tokens first and then the whole row changes nothing. */
  lemma JoinMiddle(f: seq<string>)
    requires |f| >= 6 && |f[1]| > 0
    ensures Join([f[0], Join(f[1..|f| - 4])] + f[|f| - 4..]) == Join(f)
    ensures Join(f[1..|f| - 4]) != []
  {
    var m, tail := f[1..|f| - 4], f[|f| - 4..];
    JoinNonEmpty(m);
    assert f[1..] == m + tail;
    assert f == [f[0]] + f[1..];
    JoinRegroup(f[0], m, tail);
  }

  /** Joining x, then the joined middle, then the tail is joining all their tokens. */
  lemma JoinRegroup(x: string, m: seq<string>, tail: seq<string>)
    requires |m| > 0 && |tail| > 0
    ensures Join([x, Join(m)] + tail) == Join([x] + (m + tail))
  {
    var j, t := Join(m), Join(tail);
    JoinAppend([x, j], tail);
    JoinPair(x, j);
    JoinAppend(m, tail);
    JoinCons(x, m + tail);
    SpacedAssoc(x, j, t);
  }

  lemma JoinPair(x: string, j: string)
    ensures Join([x, j]) == x + " " + j
  {
    assert [x, j][1..] == [j];
  }

  lemma JoinCons(x: string, rest: seq<string>)
    requires |rest| > 0
    ensures Join([x] + rest) == x + " " + Join(rest)
  {
    assert ([x] + rest)[1..] == rest;
  }

  lemma SpacedAssoc(x: string, j: string, t: string)
    ensures x + " " + j + " " + t == x + " " + (j + " " + t)
  {
  }

  /** The six columns of a row re-split give back exactly the line's tokens. */
  lemma RowResplit(line: string)
    requires ParseRow(line).Some?
    ensures Split(Join(Fields(ParseRow(line).value))) == Split(line)
  {
    RowRejoin(line);
    var f := Split(line);
    SplitTokens(line);
    assert forall k :: 0 <= k < |f| ==> f[k] in f;
    SplitJoin(f);
  }

  // ---------------------------------------------------------------------
  // Continuity check and running total

  /**
   * The extractor's state while it walks one page: the rows accepted so
   * far (`data`), the running total (`total_value`) and the last accepted
   * item number (`last_item`).
   */
  datatype Scan = Scan(rows: seq<Row>, total: real, last: Option<nat>)

  /** The state at the start of a page's scan, as far as the page itself is concerned. */
  const Fresh: Scan := Scan([], 0.0, None)

  /**
   * The continuity check: a three-digit item is let through only when no
   * item was accepted yet on this page or it is the last one plus one.
   * Items of other lengths are never checked.
   */
  predicate InSequence(last: Option<nat>, item: string)
    requires OnlyDigits(item)
  {
    !(|item| == 3 && last.Some? && DigitsValue(item) != last.value + 1)
  }

  /** One iteration of the line loop. */
  function Step(s: Scan, line: string): Scan {
    match ParseRow(line)
    case None => s
    case Some(r) =>
      if InSequence(s.last, r.item) then
        Scan(s.rows + [r], s.total + AmountOrZero(r.totalValue), Some(DigitsValue(r.item)))
      else
        s
  }

  /** The line loop over `lines`, from state `s`. */
  function ScanLines(s: Scan, lines: seq<string>): Scan {
    if |lines| == 0 then s
    else Step(ScanLines(s, lines[..|lines| - 1]), lines[|lines| - 1])
  }

  /** A three-digit item out of sequence is dropped: rows, total and last item all stay as they were. */
  lemma RejectedIdLeavesStateAlone(s: Scan, line: string)
    requires ParseRow(line).Some?
    requires var item := ParseRow(line).value.item;
      |item| == 3 && s.last.Some? && DigitsValue(item) != s.last.value + 1
    ensures Step(s, line) == s
  {
  }

  /**
   * The continuity check only looks at three-digit items: a row with an
   * item of any other length is appended whatever the last item was.
   */
  lemma OtherLengthNeverRejected(s: Scan, line: string)
    requires ParseRow(line).Some? && |ParseRow(line).value.item| != 3
    ensures var r := ParseRow(line).value;
      Step(s, line) == Scan(s.rows + [r], s.total + AmountOrZero(r.totalValue), Some(DigitsValue(r.item)))
  {
  }

  /**
   * An accepted row is appended and becomes the last item whether or not
   * its total value parses; an unparsable value leaves the total alone.
   */
  lemma UnparsableAmountKeepsRow(s: Scan, line: string)
    requires ParseRow(line).Some? && ParseAmount(ParseRow(line).value.totalValue).None?
    requires InSequence(s.last, ParseRow(line).value.item)
    ensures var r := ParseRow(line).value;
      Step(s, line) == Scan(s.rows + [r], s.total, Some(DigitsValue(r.item)))
  {
  }

  /**
   * A row that passes the continuity check is appended, its amount added
   * to the total and its item number remembered as the last item.
   */
  lemma AcceptedRowAppended(s: Scan, line: string)
    requires ParseRow(line).Some? && InSequence(s.last, ParseRow(line).value.item)
    ensures var r := ParseRow(line).value;
      Step(s, line) == Scan(s.rows + [r], s.total + AmountOrZero(r.totalValue), Some(DigitsValue(r.item)))
  {
  }

  /** The first row of a page is never rejected by the continuity check. */
  lemma FirstRowOnPageAccepted(rows: seq<Row>, total: real, line: string)
    requires ParseRow(line).Some?
    ensures Step(Scan(rows, total, None), line).rows == rows + [ParseRow(line).value]
  {
  }

  /** The amounts of `rows` added up in order; unparsable ones add nothing. */
  function SumAmounts(rows: seq<Row>): real {
    if |rows| == 0 then 0.0
    else SumAmounts(rows[..|rows| - 1]) + AmountOrZero(rows[|rows| - 1].totalValue)
  }

  lemma {:induction false} SumAmountsAppend(a: seq<Row>, b: seq<Row>)
    ensures SumAmounts(a + b) == SumAmounts(a) + SumAmounts(b)
    decreases |b|
  {
    if |b| == 0 {
      assert a + b == a;
    } else {
      var init := b[..|b| - 1];
      assert (a + b)[..|a + b| - 1] == a + init;
      assert (a + b)[|a + b| - 1] == b[|b| - 1];
      SumAmountsAppend(a, init);
    }
  }

  predicate RowsWellFormed(rows: seq<Row>) {
    forall k :: 0 <= k < |rows| ==> IsDigitString(rows[k].item)
  }

  /**
   * Item continuity: every three-digit item after the first accepted row
   * is its predecessor's number plus one.
   */
  predicate Continuous(rows: seq<Row>)
    requires RowsWellFormed(rows)
  {
    forall k :: 0 < k < |rows| && |rows[k].item| == 3 ==>
      DigitsValue(rows[k].item) == DigitsValue(rows[k - 1].item) + 1
  }

  /** `last_item` is the number of the last accepted row, None before the first. */
  predicate LastTracksRows(s: Scan)
    requires RowsWellFormed(s.rows)
  {
    s.last == if |s.rows| == 0 then None else Some(DigitsValue(s.rows[|s.rows| - 1].item))
  }

  /**
   * What a page's scan keeps true from a fresh start: the accepted rows
   * have numeric items and are continuous, `last_item` is the last
   * accepted item, and the total is the sum of their amounts.
   */
  predicate PageInvariant(s: Scan) {
    RowsWellFormed(s.rows) && Continuous(s.rows) && LastTracksRows(s)
    && s.total == SumAmounts(s.rows)
  }

  /** Accepting a row that passes the continuity check keeps the page invariant. */
  lemma AcceptKeepsPageInvariant(s: Scan, r: Row)
    requires PageInvariant(s) && IsDigitString(r.item) && InSequence(s.last, r.item)
    ensures PageInvariant(Scan(s.rows + [r], s.total + AmountOrZero(r.totalValue), Some(DigitsValue(r.item))))
  {
    var rows := s.rows + [r];
    assert rows[..|rows| - 1] == s.rows;
    assert forall k :: 0 <= k < |s.rows| ==> rows[k] == s.rows[k];
    assert rows[|s.rows|] == r;
  }

  lemma StepKeepsPageInvariant(s: Scan, line: string)
    requires PageInvariant(s)
    ensures PageInvariant(Step(s, line))
  {
    match ParseRow(line)
    case None =>
    case Some(r) =>
      if InSequence(s.last, r.item) {
        AcceptKeepsPageInvariant(s, r);
      }
  }

  /** The page invariant holds after every line of a page's scan. */
  lemma {:induction false} PageScanInvariant(lines: seq<string>)
    ensures PageInvariant(ScanLines(Fresh, lines))
  {
    if |lines| > 0 {
      PageScanInvariant(lines[..|lines| - 1]);
      StepKeepsPageInvariant(ScanLines(Fresh, lines[..|lines| - 1]), lines[|lines| - 1]);
    }
  }

  /**
   * The line loop started with earlier rows, an earlier total and a given
   * last item adds to them exactly what it adds from nothing: the page
   * result does not depend on what earlier pages accumulated.
   */
  lemma {:induction false} ScanLinesShift(rows: seq<Row>, total: real, last: Option<nat>, lines: seq<string>)
    ensures var f := ScanLines(Scan([], 0.0, last), lines);
      ScanLines(Scan(rows, total, last), lines) == Scan(rows + f.rows, total + f.total, f.last)
  {
    if |lines| > 0 {
      var prefix := lines[..|lines| - 1];
      ScanLinesShift(rows, total, last, prefix);
      var f := ScanLines(Scan([], 0.0, last), prefix);
      match ParseRow(lines[|lines| - 1])
      case None =>
      case Some(r) =>
        assert rows + f.rows + [r] == rows + (f.rows + [r]);
    }
  }

  /** Extending the scanned slice by one line is one more Step. */
  lemma ScanLinesStep(s: Scan, lines: seq<string>, from: nat, i: nat)
    requires from <= i < |lines|
    ensures ScanLines(s, lines[from..i + 1]) == Step(ScanLines(s, lines[from..i]), lines[i])
  {
    var run := lines[from..i + 1];
    assert run[..|run| - 1] == lines[from..i];
    assert run[|run| - 1] == lines[i];
    ScanLinesLast(s, run);
  }

  /** The fold's own unfolding, kept apart so that callers need not unfold Step. */
  lemma ScanLinesLast(s: Scan, lines: seq<string>)
    requires |lines| > 0
    ensures ScanLines(s, lines) == Step(ScanLines(s, lines[..|lines| - 1]), lines[|lines| - 1])
  {
  }

  /** Scanning two runs of lines one after the other is scanning their concatenation. */
  lemma {:induction false} ScanLinesAppend(s: Scan, a: seq<string>, b: seq<string>)
    ensures ScanLines(s, a + b) == ScanLines(ScanLines(s, a), b)
    decreases |b|
  {
    if |b| == 0 {
      assert a + b == a;
    } else {
      var init := b[..|b| - 1];
      assert (a + b)[..|a + b| - 1] == a + init;
      assert (a + b)[|a + b| - 1] == b[|b| - 1];
      ScanLinesAppend(s, a, init);
    }
  }

  /** Every row a scan adds is the parse of one of the scanned lines. */
  lemma {:induction false} ScannedRowsComeFromLines(s: Scan, lines: seq<string>)
    ensures var t := ScanLines(s, lines);
      |s.rows| <= |t.rows| && t.rows[..|s.rows|] == s.rows
      && forall k :: |s.rows| <= k < |t.rows| ==> exists line :: line in lines && ParseRow(line) == Some(t.rows[k])
  {
    if |lines| > 0 {
      var prefix := lines[..|lines| - 1];
      ScannedRowsComeFromLines(s, prefix);
      var t := ScanLines(s, prefix);
      assert forall line :: line in prefix ==> line in lines;
      var u := ScanLines(s, lines);
      if u != t {
        assert u.rows == t.rows + [ParseRow(lines[|lines| - 1]).value];
        assert u.rows[..|t.rows|] == t.rows;
        assert ParseRow(lines[|lines| - 1]) == Some(u.rows[|u.rows| - 1]);
      }
    }
  }

  // ---------------------------------------------------------------------
  // Pages, documents and the corpus

  /** The rows one page contributes: its data lines scanned from a fresh `last_item`. */
  function PageRows(page: seq<string>): seq<Row> {
    ScanLines(Fresh, DataLines(page)).rows
  }

  /** The amount one page adds to its document's total. */
  function PageTotal(page: seq<string>): real {
    ScanLines(Fresh, DataLines(page)).total
  }

  /**
   * Scanning a page's data lines after earlier pages adds exactly the
   * page's own rows and total to what those pages left.
   */
  lemma PageAfter(page: seq<string>, rows: seq<Row>, total: real)
    ensures var t := ScanLines(Scan(rows, total, None), DataLines(page));
      t.rows == rows + PageRows(page) && t.total == total + PageTotal(page)
  {
    ScanLinesShift(rows, total, None, DataLines(page));
  }

  /** One document's rows: each page's rows, in page order. */
  function DocumentRows(pages: seq<seq<string>>): seq<Row> {
    ConcatMap(pages, PageRows)
  }

  /** One document's total: the parsed amounts of all its accepted rows. */
  function DocumentTotal(pages: seq<seq<string>>): real {
    SumAmounts(DocumentRows(pages))
  }

  function SumPageTotals(pages: seq<seq<string>>): real {
    if |pages| == 0 then 0.0
    else SumPageTotals(pages[..|pages| - 1]) + PageTotal(pages[|pages| - 1])
  }

  /** Continuity holds page by page; it is never checked across a page break. */
  lemma PageRowsContinuous(page: seq<string>)
    ensures RowsWellFormed(PageRows(page)) && Continuous(PageRows(page))
  {
    PageScanInvariant(DataLines(page));
  }

  /** A document's total is the sum of what each of its pages adds. */
  lemma {:induction false} DocumentTotalByPages(pages: seq<seq<string>>)
    ensures DocumentTotal(pages) == SumPageTotals(pages)
  {
    if |pages| > 0 {
      var init := pages[..|pages| - 1];
      var page := pages[|pages| - 1];
      DocumentTotalByPages(init);
      PageScanInvariant(DataLines(page));
      SumAmountsAppend(DocumentRows(init), PageRows(page));
    }
  }

  /** Every row of a document has a numeric, hence non-empty, item. */
  lemma {:induction false} DocumentRowsWellFormed(pages: seq<seq<string>>)
    ensures RowsWellFormed(DocumentRows(pages))
  {
    if |pages| > 0 {
      DocumentRowsWellFormed(pages[..|pages| - 1]);
      PageRowsContinuous(pages[|pages| - 1]);
    }
  }

  lemma DocumentRowsStep(pages: seq<seq<string>>, p: nat)
    requires p < |pages|
    ensures DocumentRows(pages[..p + 1]) == DocumentRows(pages[..p]) + PageRows(pages[p])
  {
    ConcatMapStep(pages, p, PageRows);
  }

  /** Pages are independent: the rows of a run of pages are the rows of its parts, in order. */
  lemma DocumentRowsAppend(a: seq<seq<string>>, b: seq<seq<string>>)
    ensures DocumentRows(a + b) == DocumentRows(a) + DocumentRows(b)
  {
    ConcatMapAppend(a, b, PageRows);
  }

  /** All documents' rows, in upload order (`all_data.extend`). */
  function CorpusRows(docs: seq<seq<seq<string>>>): seq<Row> {
    ConcatMap(docs, DocumentRows)
  }

  lemma CorpusRowsStep(docs: seq<seq<seq<string>>>, i: nat)
    requires i < |docs|
    ensures CorpusRows(docs[..i + 1]) == CorpusRows(docs[..i]) + DocumentRows(docs[i])
  {
    ConcatMapStep(docs, i, DocumentRows);
  }

  /** Documents are independent: the combined rows of a run of documents are those of its parts, in order. */
  lemma CorpusRowsAppend(a: seq<seq<seq<string>>>, b: seq<seq<seq<string>>>)
    ensures CorpusRows(a + b) == CorpusRows(a) + CorpusRows(b)
  {
    ConcatMapAppend(a, b, DocumentRows);
  }

  // ---------------------------------------------------------------------
  // The filter on the returned rows

  /** `[row for row in data if row[0] != '']`. */
  function KeepItems(rows: seq<Row>): seq<Row> {
    if |rows| == 0 then []
    else if rows[0].item != [] then [rows[0]] + KeepItems(rows[1..])
    else KeepItems(rows[1..])
  }

  /** The filter keeps exactly the rows whose item is non-empty. */
  lemma {:induction false} KeepItemsFilters(rows: seq<Row>)
    ensures forall r :: r in KeepItems(rows) ==> r in rows && r.item != []
    ensures forall r :: r in rows && r.item != [] ==> r in KeepItems(rows)
  {
    if |rows| > 0 {
      KeepItemsFilters(rows[1..]);
      assert rows == [rows[0]] + rows[1..];
    }
  }

  /**
   * The filter works row by row: it keeps the order of the rows and every
   * duplicate, so filtering a concatenation filters each part.
   */
  lemma {:induction false} KeepItemsAppend(a: seq<Row>, b: seq<Row>)
    ensures KeepItems(a + b) == KeepItems(a) + KeepItems(b)
  {
    if |a| == 0 {
      assert a + b == b;
    } else {
      assert (a + b)[0] == a[0];
      assert (a + b)[1..] == a[1..] + b;
      KeepItemsAppend(a[1..], b);
    }
  }

  /** A single row is kept exactly when its item is non-empty. */
  lemma KeepItemsSingle(r: Row)
    ensures KeepItems([r]) == if r.item != [] then [r] else []
  {
    assert [r][1..] == [];
  }

  /**
   * Appending the summary row and filtering empty items gives back the
   * data rows unchanged when none of them has an empty item.
   */
  lemma {:induction false} SummaryRowFiltered(rows: seq<Row>)
    requires forall k :: 0 <= k < |rows| ==> rows[k].item != []
    ensures KeepItems(rows + [SummaryRow]) == rows
  {
    if |rows| > 0 {
      assert (rows + [SummaryRow])[1..] == rows[1..] + [SummaryRow];
      SummaryRowFiltered(rows[1..]);
    }
  }

  // ---------------------------------------------------------------------
  // A worked receipt

  lemma SumAmountsSnoc(rows: seq<Row>, r: Row)
    ensures SumAmounts(rows + [r]) == SumAmounts(rows) + AmountOrZero(r.totalValue)
  {
    assert (rows + [r])[..|rows|] == rows;
  }

  lemma SumOfThree(a: Row, b: Row, c: Row)
    ensures SumAmounts([a, b, c])
         == AmountOrZero(a.totalValue) + AmountOrZero(b.totalValue) + AmountOrZero(c.totalValue)
  {
    SumAmountsSnoc([], a);
    assert [] + [a] == [a];
    SumAmountsSnoc([a], b);
    assert [a] + [b] == [a, b];
    SumAmountsSnoc([a, b], c);
    assert [a, b] + [c] == [a, b, c];
  }

  /** Totals "12,50", "7,00" and "abc": the rows add up to 19.50, the last one adding nothing. */
  lemma ReceiptTotalExample(a: Row, b: Row, c: Row)
    requires a.totalValue == "12,50" && b.totalValue == "7,00" && c.totalValue == "abc"
    ensures SumAmounts([a, b, c]) == 19.5
  {
    assert AmountOrZero(a.totalValue) == 12.5 by { TwelveFifty(); }
    assert AmountOrZero(b.totalValue) == 7.0 by { SevenReais(); }
    assert AmountOrZero(c.totalValue) == 0.0 by { NoDigitNoAmount(c.totalValue); }
    SumOfThree(a, b, c);
  }
}
