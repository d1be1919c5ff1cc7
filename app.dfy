/**
 * extract_data_from_pdf and the per-document loop of main, step by step
 * as app.py runs them: loops over pages and lines that append to the row
 * list, add to the running total and move `last_item`. Each method is
 * proved equal to the specification functions of module LineItems.
 */
module App {
  import opened Options
  import opened Sequences
  import opened Text
  import opened Amount
  import opened LineItems

  /**
   * The header scan: walks the lines and stops at the first one that
   * contains the header, answering the index after it; None when the loop
   * runs out.
   */
  method LocateHeader(lines: seq<string>) returns (startIndex: Option<nat>)
    ensures startIndex == HeaderStart(lines)
  {
    HeaderStartIsFirst(lines);
    startIndex := None;
    var lineIndex := 0;
    while lineIndex < |lines|
      invariant 0 <= lineIndex <= |lines|
      invariant forall j :: 0 <= j < lineIndex ==> !Contains(lines[j], Header)
    {
      if Contains(lines[lineIndex], Header) {
        startIndex := Some(lineIndex + 1);
        return;
      }
      lineIndex := lineIndex + 1;
    }
  }

  /**
   * One pass of the line loop: a blank line, a line that fails the row
   * gate and a three-digit item out of sequence leave `data`, `total` and
   * `lastItem` as they were (the `continue`); any other row is appended,
   * its amount added when it parses, and its item number remembered.
   */
  method TakeLine(line: string, data0: seq<Row>, total0: real, lastItem0: Option<nat>)
    returns (data: seq<Row>, total: real, lastItem: Option<nat>)
    ensures Scan(data, total, lastItem) == Step(Scan(data0, total0, lastItem0), line)
  {
    data, total, lastItem := data0, total0, lastItem0;
    if !IsBlank(line) {
      var fields := Split(line);
      if |fields| >= 6 && IsDigitString(fields[0]) {
        ParseRowCuts(line);
        var item := fields[0];
        if |item| == 3 && IsDigitString(item) {
          if lastItem.Some? {
            var nextItem := DigitsValue(item);
            if nextItem != lastItem.value + 1 {
              RejectedIdLeavesStateAlone(Scan(data0, total0, lastItem0), line);
              return;
            }
          }
        }
        var row := Row(item, Join(fields[1..|fields| - 4]), fields[|fields| - 4],
                       fields[|fields| - 3], fields[|fields| - 2], fields[|fields| - 1]);
        assert row == RowOf(fields);
        AcceptedRowAppended(Scan(data0, total0, lastItem0), line);
        total := total + AmountOrZero(row.totalValue);
        data := data + [row];
        lastItem := Some(DigitsValue(item));
      } else {
        RowGate(line);
      }
    }
  }

  /**
   * The line loop over a page's data lines, with `last_item` reset to
   * None first: each line goes through TakeLine in order.
   */
  method ScanLinesLoop(dataLines: seq<string>, data0: seq<Row>, total0: real)
    returns (data: seq<Row>, total: real)
    ensures data == ScanLines(Scan(data0, total0, None), dataLines).rows
    ensures total == ScanLines(Scan(data0, total0, None), dataLines).total
  {
    data, total := data0, total0;
    var lastItem: Option<nat> := None;
    for i := 0 to |dataLines|
      invariant Scan(data, total, lastItem) == ScanLines(Scan(data0, total0, None), dataLines[..i])
    {
      ScanLinesStep(Scan(data0, total0, None), dataLines, 0, i);
      assert dataLines[0..i] == dataLines[..i];
      assert dataLines[0..i + 1] == dataLines[..i + 1];
      data, total, lastItem := TakeLine(dataLines[i], data, total, lastItem);
    }
    assert dataLines[..|dataLines|] == dataLines;
  }

  /**
   * The body of extract_data_from_pdf's page loop: find the header and
   * scan the lines after it (the whole page when there is none),
   * appending each accepted row to `data` and its amount, when it parses,
   * to `total`. What the page adds does not depend on what earlier pages
   * left in `data` and `total`.
   */
  method ScanPage(lines: seq<string>, data0: seq<Row>, total0: real) returns (data: seq<Row>, total: real)
    ensures data == data0 + PageRows(lines)
    ensures total == total0 + PageTotal(lines)
  {
    var startIndex := LocateHeader(lines);
    // lines[start_index:], where lines[None:] is the whole page
    var from := match startIndex case None => 0 case Some(k) => k;
    DataLinesFrom(lines, from);
    data, total := ScanLinesLoop(lines[from..], data0, total0);
    assert lines[from..|lines|] == lines[from..];
    PageAfter(lines, data0, total0);
  }

  /**
   * extract_data_from_pdf on a document already turned into pages of text
   * lines. Returns the rows of every page in page order, each page
   * scanned from its header with its own continuity check, and the sum of
   * the amounts of those rows that parse.
   */
  method ExtractDocument(pages: seq<seq<string>>) returns (rows: seq<Row>, total: real)
    ensures rows == DocumentRows(pages)
    ensures total == DocumentTotal(pages)
    ensures forall k :: 0 <= k < |rows| ==> IsDigitString(rows[k].item)
  {
    var data: seq<Row> := [];
    total := 0.0;
    for p := 0 to |pages|
      invariant data == DocumentRows(pages[..p])
      invariant total == SumAmounts(data)
    {
      ghost var before := data;
      data, total := ScanPage(pages[p], data, total);
      DocumentRowsStep(pages, p);
      PageScanInvariant(DataLines(pages[p]));
      SumAmountsAppend(before, PageRows(pages[p]));
    }
    assert pages[..|pages|] == pages;
    DocumentRowsWellFormed(pages);
    SummaryRowFiltered(data);
    // the summary row goes on and comes straight off again
    rows := KeepItems(data + [SummaryRow]);
  }

  /**
   * The upload loop of main: every document in upload order, its rows
   * appended to the combined list and its total to the list of totals.
   */
  method ExtractCorpus(docs: seq<seq<seq<string>>>) returns (allData: seq<Row>, totalValues: seq<real>)
    ensures allData == CorpusRows(docs)
    ensures |totalValues| == |docs|
    ensures forall i :: 0 <= i < |docs| ==> totalValues[i] == DocumentTotal(docs[i])
  {
    allData := [];
    totalValues := [];
    for idx := 0 to |docs|
      invariant allData == CorpusRows(docs[..idx])
      invariant |totalValues| == idx
      invariant forall i :: 0 <= i < idx ==> totalValues[i] == DocumentTotal(docs[i])
    {
      var data, totalValue := ExtractDocument(docs[idx]);
      CorpusRowsStep(docs, idx);
      allData := allData + data;
      TotalsExtend(docs, idx, totalValues, totalValue);
      totalValues := totalValues + [totalValue];
    }
    assert docs[..|docs|] == docs;
  }

  /** Appending the next document's total keeps the list of totals aligned with the documents. */
  lemma TotalsExtend(docs: seq<seq<seq<string>>>, idx: nat, totals: seq<real>, t: real)
    requires idx < |docs| && |totals| == idx
    requires forall i :: 0 <= i < idx ==> totals[i] == DocumentTotal(docs[i])
    requires t == DocumentTotal(docs[idx])
    ensures forall i :: 0 <= i < idx + 1 ==> (totals + [t])[i] == DocumentTotal(docs[i])
  {
    assert forall i :: 0 <= i < idx ==> (totals + [t])[i] == totals[i];
  }
}
