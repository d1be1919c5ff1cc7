# NFC-e line-item extraction, modelled in Dafny

This project models the text-to-line-item engine of the NFC-e DANFE
receipt extractor (`extract_data_from_pdf` in `app.py`) and the loop in
`main` that runs it over every uploaded document. A document is a
sequence of pages. A page is a sequence of text lines, as
`page.extract_text().split('\n')` would give them.

For each page, the extractor does four things:

1. **Header location.** It finds the first line that contains the column
   header `Item Descrição Qtde. Unid. Vl. unid. Vl. total` and parses the
   lines after it. A page without that line is parsed from its first line.
2. **Row splitting.** It splits a non-blank line on whitespace. The line
   is a row when it has at least six tokens and the first is all digits:
   - the first token is the item;
   - the last four tokens are quantity, unit, unit value and total value;
   - the tokens in between, joined by single spaces, are the description.
3. **Continuity check.** A three-digit item is dropped when an item was
   already accepted on the page and this one is not that item plus one.
4. **Running total.** The total value is read with `,` as the decimal
   point and added to the document total. A value that does not parse
   adds nothing, but its row is kept.

After the last page, a summary row with an empty item is appended and
then filtered out again. The upload loop concatenates every document's
rows and lists every document's total.

Layout:

- `options.dfy`: the `Option` type.
- `sequences.dfy`: `ConcatMap`, the flattening used for `extend`.
- `text.dfy`: Python's whitespace `split()`, `strip()` emptiness,
  `' '.join`, the `in` substring test, and `isdigit`/`int` on ASCII digits.
- `amount.dfy`: `float(vl_total.replace(',', '.'))` over exact decimals.
- `line_items.dfy`: the engine as specification functions, with the
  properties proved about them:
  - `Step` is one pass of the line loop;
  - `ScanLines` is the loop over a page;
  - `PageRows`, `DocumentRows` and `CorpusRows` are the outputs.
- `app.dfy`: the extractor as the source runs it, with its loops,
  `last_item`, `data` and `total_value`. Each method is proved equal to
  those functions.

Three behaviours of the code are easy to misread:

- A page without a header is scanned from its first line
  (`lines[None:]`, app.py:39). It is not skipped.
- `last_item` is reset at the start of every page (app.py:38). It is not
  carried across the pages of a document.
- `str.replace(',', '.')` replaces every comma, not only one. So `"1,2,3"`
  becomes `"1.2.3"`, which does not parse.

## Model

| member | source | states |
|---|---|---|
| App.LocateHeader | app.py:30-35 | the header scan answers one past the index of the first line containing the header, None when there is none |
| App.TakeLine | app.py:40-62 | one pass of the line loop leaves data, total and last item exactly as `Step` says: unchanged for a blank line, a gated-out line or an out-of-sequence id; otherwise the row appended, its amount added and its item remembered |
| App.ScanLinesLoop | app.py:38-62 | the line loop started with `last_item = None` ends with the rows and total of `ScanLines` over the lines |
| App.ScanPage | app.py:30-62 | one page appends exactly that page's rows to `data` and its amount to `total_value`, whatever earlier pages left there |
| App.ExtractDocument | app.py:9-70 | the returned rows are every page's rows in page order with the summary row filtered out; the total is the sum of the rows' parsed amounts; every returned item is all digits |
| App.ExtractCorpus | app.py:81-89 | `all_data` is the concatenation of every document's rows in upload order, and `total_values[i]` is document i's total |
| LineItems.HeaderStartIsFirst | app.py:31-35 | the start index is one past the FIRST line containing the header; it is None exactly when no line contains it |
| LineItems.NoHeaderScansWholePage | app.py:31-39 | a page with no header line is scanned from its first line, not skipped |
| LineItems.HeaderSkipsPreamble | app.py:31-39 | with a first header line at h, the scanned lines are exactly those after h |
| LineItems.DataLinesFrom | app.py:31-39 | slicing from the start index, or from 0 when it is None, gives the page's data lines |
| LineItems.ParseRow | app.py:40-55 | a line that yields a row has an all-digits item |
| LineItems.RowGate | app.py:40-42 | a line is a row if and only if its split has at least six tokens and the first is all digits; the blank test rejects nothing more |
| LineItems.ShortLineIsNotRow | app.py:40-42 | blank lines and lines of five tokens or fewer never produce a row |
| LineItems.RowRejoin | app.py:41-55 | the six columns joined by spaces equal the line's tokens joined by spaces; the item is the first token, the last four columns are the last four tokens, and the description is non-empty |
| LineItems.RowResplit | app.py:41-55 | re-splitting the joined columns gives back exactly the line's tokens |
| LineItems.DataLines | app.py:31-39 | the lines the loop visits: those after the first header line, or the whole page when it has none (meaning stated by HeaderStartIsFirst, NoHeaderScansWholePage and HeaderSkipsPreamble) |
| LineItems.InSequence | app.py:44-50 | the continuity check rejects only a three-digit item that follows an accepted item on the page and is not that item plus one (stated by RejectedIdLeavesStateAlone, OtherLengthNeverRejected and FirstRowOnPageAccepted) |
| LineItems.Step | app.py:40-62 | one pass of the line loop over the scan state; App.TakeLine is proved equal to it, and AcceptedRowAppended, RejectedIdLeavesStateAlone and UnparsableAmountKeepsRow state each of its outcomes |
| LineItems.OtherLengthNeverRejected | app.py:44-62 | a row whose item is not three digits long skips the continuity check: it is appended, its amount added and its number remembered, whatever the last item was |
| LineItems.RejectedIdLeavesStateAlone | app.py:44-50 | an out-of-sequence three-digit item leaves rows, total and last item unchanged |
| LineItems.AcceptedRowAppended | app.py:51-62 | an accepted row is appended, its amount added, and its number becomes the last item |
| LineItems.UnparsableAmountKeepsRow | app.py:56-62 | a row whose total value does not parse is still appended and still advances the last item; only the total stays the same |
| LineItems.FirstRowOnPageAccepted | app.py:38-50 | with no item accepted yet on the page, a row is never rejected by the continuity check |
| LineItems.AcceptKeepsPageInvariant | app.py:44-62 | accepting an in-sequence row keeps the page invariant: digit items, continuity, last item = last row's number, total = sum of amounts |
| LineItems.StepKeepsPageInvariant | app.py:39-62 | every pass of the line loop keeps the page invariant |
| LineItems.PageScanInvariant | app.py:38-62 | after any prefix of a page's lines, the accepted rows are continuous, `last_item` is the last accepted number and the total is the sum of their parsed amounts |
| LineItems.PageRowsContinuous | app.py:38-62 | on one page, every accepted three-digit item after the first accepted row is its predecessor plus one |
| LineItems.ScanLinesShift | app.py:38-62 | starting the line loop with earlier rows and total adds exactly what it adds from empty ones, so no state from earlier pages matters |
| LineItems.PageAfter | app.py:38-62 | a page's scan after earlier pages adds exactly that page's own rows and amount |
| LineItems.ScanLinesAppend | app.py:39-62 | scanning two runs of lines one after the other is scanning their concatenation |
| LineItems.ScannedRowsComeFromLines | app.py:39-61 | the loop only appends: earlier rows stay a prefix, and every new row is the parse of one of the scanned lines |
| LineItems.DocumentTotalByPages | app.py:56-58 | a document's total is the sum of what each of its pages adds |
| LineItems.DocumentRowsWellFormed | app.py:42-61 | every row of a document has an all-digits, hence non-empty, item |
| LineItems.DocumentRowsAppend | app.py:23-61 | pages are independent: the rows of a run of pages are the rows of its parts, in order |
| LineItems.CorpusRowsAppend | app.py:85-89 | documents are independent: the combined rows of a run of documents are those of its parts, in order |
| LineItems.KeepItems | app.py:68 | the comprehension that drops rows with an empty item (stated by KeepItemsFilters, KeepItemsAppend and KeepItemsSingle) |
| LineItems.KeepItemsFilters | app.py:68 | the filter keeps exactly the rows whose item is non-empty |
| LineItems.KeepItemsAppend | app.py:68 | the filter works row by row: filtering a concatenation is concatenating the filtered parts, so order and duplicates are kept |
| LineItems.KeepItemsSingle | app.py:68 | a single row is kept exactly when its item is non-empty |
| LineItems.SummaryRowFiltered | app.py:65-68 | appending the summary row and filtering empty items gives the data rows back unchanged |
| LineItems.ReceiptTotalExample | app.py:56-58 | rows with totals "12,50", "7,00" and "abc" add up to 19.50, the unparsable one adding nothing |
| Amount.ParseAmount | app.py:57-60 | `float()` of the comma-replaced total value, None where Python raises ValueError (stated by CommaDecimal, IntegerAmount, NoDigitNoAmount and ParseFormattedCents) |
| Amount.AmountOrZero | app.py:56-60 | what the `try` adds to the total: the parsed amount, or nothing when the parse fails (stated by UnparsableAmountKeepsRow and ReceiptTotalExample) |
| Amount.CommaDecimal | app.py:57 | digits, a comma, digits is read as the whole part plus the fraction |
| Amount.IntegerAmount | app.py:57 | a plain run of digits is an integral amount |
| Amount.NoDigitNoAmount | app.py:57-60 | a token without any digit never parses (`inf` and `nan` are left out, see below) |
| Amount.ParseFormattedCents | app.py:57 | an amount printed with two decimals after a comma reads back as exactly that many centavos |
| Amount.ReplaceCommasAt | app.py:57 | the replacement turns every comma into a period and changes nothing else |
| Text.Split | app.py:41 | Python's `str.split()` with no separator (stated by SplitTokens and SplitIsMaximalRuns) |
| Text.SplitIsMaximalRuns | app.py:41 | the line is its tokens interleaved with blank gaps, every gap between two tokens non-empty; with SplitTokens, every token is a maximal run of non-whitespace, never cut and never merged |
| Text.SplitTokens | app.py:41 | the tokens of a split are non-empty and free of whitespace, and together they are exactly the line's non-whitespace characters |
| Text.SplitJoin | app.py:41-51 | splitting the space-join of non-empty whitespace-free tokens gives those tokens back |
| Text.IsBlank | app.py:40 | `not line.strip()`: every character is whitespace (stated by BlankIffNoTokens) |
| Text.BlankIffNoTokens | app.py:40-41 | a line is blank (`strip()` empty) exactly when it splits into no tokens |
| Text.Contains | app.py:33 | the `in` substring test (stated by ContainsAt) |
| Text.ContainsAt | app.py:33 | the header test holds exactly when the header occurs at some index of the line |
| Text.StartsWithSlice | app.py:33 | the prefix test compares the line's first characters with the header |

## Left out

- PDF and file I/O are not modelled: `tempfile`, `PdfReader`,
  `extract_text` and reading the upload (app.py:14-25). A document is
  given as its pages' lines, with `text.split('\n')` already done.
- Binary floating point: amounts are exact decimals (`real`). Float
  rounding in `total_value += ...` is not modelled.
- The text `f'Total: {total_value:.2f}'` in the summary row is not
  modelled. The summary row carries the fixed label `Total:`; it is
  filtered out before anything reads it.
- `float()` forms that no receipt amount uses are not parsed, so the model
  reads them as "no amount": exponents (`1e3`), `inf`, `nan`, digit
  separators (`1_000`) and non-ASCII digits.
- `int(item)` (app.py:47, 62) raises a ValueError that nothing catches on
  an item longer than 4300 digits (CPython's `int_max_str_digits` limit)
  or on a digit such as `'²'` that `str.isdigit()` accepts but `int()`
  rejects; the whole extraction then aborts. The model reads integers as
  unbounded and treats only `'0'..'9'` as digits, so it never aborts:
  `LineItems.Step` accepts the long item as a row, and skips a line whose
  first token has a non-ASCII digit as not a row.
- The Streamlit, pandas and plotly presentation in `main` is not modelled
  (app.py:72-127). This includes:
  - the summary statistics over float totals;
  - the `df[:-1]` slices that drop a real row from the displayed tables;
  - the item count at line 114;
  - the per-document display inside the upload loop (app.py:91-93).
