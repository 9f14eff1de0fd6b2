# Registry filter for accounting establishments, modelled in Dafny

`scriptCont.py` reads the establishment files of the Brazilian company
registry (`PLAN<n>.ESTABELE`, semicolon-separated, no header) chunk by chunk.
It keeps the establishments that meet three conditions:

- they are in the state of Minas Gerais (`UF == "MG"`);
- their registration is active (status `"02"`);
- their principal activity code is one of three accounting codes.

For each kept establishment it derives the CNPJ, a one-line address and up to
three phone numbers. It attaches the municipality name from a lookup table
with a left join, and writes the report as spreadsheet sheets of at most one
million lines each.

The project models that pipeline, one module per stage:

| module | file | what it models |
|---|---|---|
| `Common` | common.dfy | the cell (text or missing), `Option`, `Result` and the three failures that stop a run |
| `Text` | text.dfy | `str.strip()`, `str.strip('"')`, the case-insensitive `"nan"` test, decimal digits both ways |
| `Seqs` | seqs.dfy | order-preserving filtering (a row mask), concatenation (`pd.concat`), row-wise `apply` |
| `Sources` | sources.dfy | the `PLAN(\d+)` sort key and the stable numeric sort of the source paths |
| `RowFormat` | row_format.dfy | `formatar_telefone` and `montar_endereco` |
| `ChunkFilter` | chunk_filter.dfy | `processar_chunk`: the column check, both filter stages, the derived columns and the projection |
| `Aggregation` | aggregate.dfy | the driver loop over files and chunks, and the concatenation of the non-empty results |
| `Enrich` | enrich.dfy | loading the municipality table, the left join and the final column order |
| `Export` | export.dfy | `num_abas`, the page slices and the sheet names |
| `Pipeline` | pipeline.dfy | the whole script, step by step, with the first failure stopping it |

Modelling choices:

- A missing cell (pandas NaN) is `None`, and `str()` of it is `"nan"`.
- A chunk is its column count plus its rows. A short row reads as missing
  cells.
- A file is the sequence of chunks the reader yields. The file contents are
  given as a map from path to chunks.
- `Failure` models the three ways the script raises:
  - a path without a `PLAN<digits>` token (`.group` on `None`);
  - a municipality table with fewer than two columns (`columns[1]`);
  - a chunk that has survivors but no column 27 (the projection at line 147
    raises `KeyError` for `email`).
- Errors stop the whole run, as the uncaught exception does.

The model keeps these behaviours of the code as written:

- For an empty report the export loop writes no sheet, not one empty sheet
  (`Export.SheetCountSpec`, `Pipeline.NoSurvivorNoSheet`). What the
  spreadsheet library then does with the sheetless workbook is under
  "## Left out".
- Sheets are named `Parte_1`, `Parte_2`, … .
- Among the filter fields and the CNPJ parts, only quotes are stripped (no
  whitespace), and the region is compared raw. The address and phone cells
  are stripped of whitespace and then of quotes.
- The missing-value test in `formatar_telefone` looks only at the number. A
  missing area code is kept as the text `"nan"` in front of a present number
  (`RowFormat.PhoneMissingAreaCode`).

## Model

| member | source | states |
|---|---|---|
| Sources.FirstMatch | scriptCont.py:42-45 | `re.search` finds the leftmost position at or after `from` where `PLAN` is followed by a digit, and no match means there is none anywhere |
| Sources.DigitRun | scriptCont.py:42 | the greedy `\d+` run is all digits and is followed by a non-digit or the end |
| Sources.PlanKeyOfToken | scriptCont.py:42-45 | a path starting with `PLAN` and the decimal text of `n`, then a non-digit, has sort key `n` |
| Sources.DigitRunIs | scriptCont.py:42 | a maximal digit run is the one `\d+` matches |
| Sources.KeyAll | scriptCont.py:43-46 | every path gets its key, in order; it fails exactly when some path has no key, naming such a path |
| Sources.InsertSorted | scriptCont.py:43-46 | inserting into a sorted list keeps it sorted and adds exactly the element (as a multiset) |
| Sources.SortByKeySorted | scriptCont.py:43-46 | the sort yields an ascending permutation of its input |
| Sources.InsertKeepsKeyOrder | scriptCont.py:43-46 | insertion keeps the relative order of the elements with any one key |
| Sources.SortIsStable | scriptCont.py:43-46 | `sorted` is stable: paths with equal keys keep their input order |
| Sources.OrderSourcesSpec | scriptCont.py:42-46 | the processing order fails iff some path lacks the token; otherwise it is an ascending, stable permutation of the keyed paths, each key being its path's `PLAN` number |
| Sources.OrderedFromInput | scriptCont.py:43-46 | every path in the processing order is one of the listed paths |
| Sources.NumericOrderExample | scriptCont.py:42-46 | paths numbered 2, 10 and 1 are processed as 1, 2, 10 (numeric, not lexical) |
| Text.StripWithSpec | scriptCont.py:68-73 | the stripped text neither starts nor ends with a stripped character, is empty iff every character is stripped, and is unchanged when nothing is strippable |
| Text.StripWithIsInfix | scriptCont.py:68-73 | strip removes exactly a run of stripped characters at each end |
| Text.StripQuotesOfQuoted | scriptCont.py:132-134 | a digit string wrapped in quotes loses exactly the quotes |
| Text.NanTextSpellings | scriptCont.py:76 | the `lower() != "nan"` test rejects exactly the eight case spellings of `nan` |
| Text.DigitsValueOfNatToString | scriptCont.py:207 | the decimal text of `n` reads back as `n` |
| Text.NatToStringInjective | scriptCont.py:207 | distinct numbers have distinct decimal texts |
| RowFormat.FormatPhone | scriptCont.py:81-86 | the phone is empty iff the cleaned area code or number is empty or the number is `nan` in any case; otherwise it is area code followed by number |
| RowFormat.PhoneExamples | scriptCont.py:84-86 | area code "31" and number "999999999" give "31999999999"; an empty number gives "" |
| RowFormat.CleanKeeps | scriptCont.py:82-83 | `str(v).strip().strip('"')` leaves a text with nothing to strip unchanged |
| RowFormat.CleanMissing | scriptCont.py:82-83 | a missing cell is cleaned to "nan" |
| RowFormat.PhoneOfTrimmed | scriptCont.py:81-86 | trimmed area code and number, the number not `nan`, are joined with no separator |
| RowFormat.PhoneEmptyNumber | scriptCont.py:84-86 | an empty number gives no phone, whatever the area code |
| RowFormat.PhoneMissingNumber | scriptCont.py:83-86 | a missing number gives no phone, whatever the area code |
| RowFormat.PhoneMissingAreaCode | scriptCont.py:82-85 | a missing area code reads as "nan" and is kept in front of a present number |
| RowFormat.PhoneOfQuotedDigits | scriptCont.py:81-86 | quoted digit strings lose their quotes and are joined |
| RowFormat.QuotedDigitsClean | scriptCont.py:82-83 | cleaning a quoted digit string yields the digits |
| RowFormat.AddressTextShape | scriptCont.py:75-79 | the address is `"{tipo} {logradouro}, {numero}"`, then `", {complemento}"` exactly when the complement is non-empty and not `nan`, then `" - {bairro} - CEP: {cep}"` |
| RowFormat.AddressOfTrimmed | scriptCont.py:67-79 | cells with nothing to strip are composed as they are |
| RowFormat.AddressExample | scriptCont.py:75-79 | RUA, A, 10, no complement, CENTRO, 30000000 give "RUA A, 10 - CENTRO - CEP: 30000000" |
| RowFormat.AddressWithComplementExample | scriptCont.py:75-79 | the same with complement "AP 2" gives "RUA A, 10, AP 2 - CENTRO - CEP: 30000000" |
| RowFormat.AddressMissingCells | scriptCont.py:68-78 | a missing complement is left out, and a missing district is printed as "nan" |
| ChunkFilter.SurvivorsSpec | scriptCont.py:117-129 | the two filter stages keep exactly the rows with region "MG", quote-stripped status "02" and an accepted quote-stripped activity code |
| ChunkFilter.ChunkResultSpec | scriptCont.py:112-147 | a chunk without column 19 gives no rows; it fails iff it has column 19 but not column 27 and some row survives, with the missing-column error |
| ChunkFilter.ChunkRecords | scriptCont.py:117-147 | a chunk with column 27 gives one record per surviving position, record `k` derived from the row at the `k`-th surviving position |
| ChunkFilter.SurvivorPositions | scriptCont.py:117-127 | the surviving positions are exactly the rows meeting all three conditions, strictly ascending |
| ChunkFilter.SurvivorRecord | scriptCont.py:117-147 | a kept row's record has UF "MG", an accepted activity code, and the row's municipality code and email |
| ChunkFilter.CnpjOfQuotedParts | scriptCont.py:131-135 | quoted 8-, 4- and 2-digit parts give the 14-digit CNPJ, parts in order with no separator |
| ChunkFilter.CnpjMissingPart | scriptCont.py:131-135 | a missing CNPJ part leaves the CNPJ missing |
| ChunkFilter.ProcessChunk | scriptCont.py:88-147 | `processar_chunk` returns what `ChunkResult` specifies |
| Seqs.FilterTwice | scriptCont.py:117-127 | two masks in sequence select what one mask with both conditions selects |
| Seqs.FilterIsSubsequence | scriptCont.py:117-127 | a mask keeps the satisfying rows once each, in ascending position |
| Seqs.KeptFromSatisfy | scriptCont.py:117-127 | every position a mask keeps satisfies the mask |
| Seqs.KeptFromAscending | scriptCont.py:117-127 | the positions a mask keeps are strictly ascending, so no row is kept twice or reordered |
| Seqs.KeptFromComplete | scriptCont.py:117-127 | every position that satisfies the mask is kept |
| Seqs.FilterMembers | scriptCont.py:117-127 | a mask keeps a row iff the row is in the frame and satisfies the condition |
| Seqs.Apply | scriptCont.py:137-141 | `apply` along the rows gives `f` of each row, in row order |
| Seqs.FlattenWithoutEmpty | scriptCont.py:167-171 | leaving empty tables out of a concatenation changes nothing |
| Aggregation.CollectSpec | scriptCont.py:155-168 | `resultados` fails iff some chunk fails, with the first failing chunk's error; otherwise it holds the non-empty chunk outputs in chunk order |
| Aggregation.AggregatedSpec | scriptCont.py:153-179 | without a failing chunk, the filtered table is every chunk's output concatenated in file order, then chunk order |
| Aggregation.NothingSurvives | scriptCont.py:170-179 | when no row survives anywhere, the filtered table is empty |
| Aggregation.CollectErrSticks | scriptCont.py:155-166 | once a chunk has failed, later chunks do not change the outcome |
| Aggregation.AbortKeepsError | scriptCont.py:155-166 | an error in any chunk is the error of the whole run |
| Aggregation.Aggregate | scriptCont.py:153-179 | the nested file/chunk loop with its `resultados` accumulator computes `Aggregated` |
| Enrich.LoadLookup | scriptCont.py:49-61 | the lookup fails iff it has fewer than two columns, with that width |
| Enrich.JoinOnLoadedLookup | scriptCont.py:55-61 | with two or more columns and distinct column-0 codes, the join keeps one line per record, whose name is column 1 of the raw line whose column 0 equals the record's code, or missing when no line has it |
| Enrich.NamesForMembers | scriptCont.py:183 | a name is matched to a code iff some lookup line with that code carries it |
| Enrich.JoinRecordSpec | scriptCont.py:183-190 | every record gives at least one joined line carrying its fields; the name is missing, or is a name the lookup gives for the record's code |
| Enrich.LeftJoinAppend | scriptCont.py:183 | the join of a concatenation is the concatenation of the joins, so record order is kept |
| Enrich.LeftJoinTotal | scriptCont.py:183 | no record is lost by the left join |
| Enrich.NamesForUnique | scriptCont.py:183 | with unique codes, a code matches the name of its one line, or nothing |
| Enrich.LeftJoinUnique | scriptCont.py:183-190 | with unique codes, the join keeps the row count and line `k` is record `k` with its municipality name, or a missing name |
| Enrich.LeftJoinNoLookup | scriptCont.py:183-190 | an empty municipality table gives every line a missing name |
| Export.SheetCountSpec | scriptCont.py:199-200 | `num_abas` is the ceiling of total / limit: enough pages, no spare page, and 0 exactly for an empty table |
| Export.PageSpec | scriptCont.py:203-206 | page `i` holds lines `i*limit` up to `(i+1)*limit` or the end; it is never empty, holds at most the limit, and is full unless last |
| Export.SheetsCoverTable | scriptCont.py:203-208 | the sheets together hold the whole report, in order, each line once |
| Export.PrefixCovered | scriptCont.py:203-206 | the first `k` sheets hold the report up to line `k*limit` |
| Export.SheetNamesDistinct | scriptCont.py:207 | distinct pages have distinct sheet names |
| Export.Paginate | scriptCont.py:197-208 | the export loop writes exactly the sheets `Sheets` specifies |
| Pipeline.ReportSpec | scriptCont.py:43-208 | a finished run writes every joined line once and in order, across sheets named `Parte_1`, `Parte_2`, …, each holding between one line and the limit |
| Pipeline.NoSurvivorNoSheet | scriptCont.py:170-203 | when no row survives, the export loop writes no sheet |
| Pipeline.Run | scriptCont.py:41-211 | the script computes `Report` |

## Left out

- Reading the files: `pd.read_csv` with its chunking, latin-1 decoding and
  `;` splitting. A file is given as its sequence of chunks, and the
  municipality table as its column count and the lines after its header.
- The directory listing (`glob.glob`) and `os.path.join`. The paths are an
  input.
- The spreadsheet writer (`pd.ExcelWriter`, openpyxl). The output is the
  sequence of sheets, each a name and its lines; `Report` returning `Ok([])`
  means the export loop writes no sheet, not that the workbook is saved.
  For an empty report the `with pd.ExcelWriter(...)` block of
  scriptCont.py:202-208 most likely ends in an uncaught exception: the
  openpyxl writer drops the workbook's default sheet, and openpyxl refuses
  to save a workbook without a visible sheet. That failure is not modelled.
- Progress messages (`print`).
- Names of the municipality table's other columns. A column whose header
  collides with a report column would get a suffix from `merge` and change
  the final selection. The model keeps only the first two columns.
- The frame width is given per chunk. A row longer than the frame, which
  makes the reader raise, is not modelled.
- Sources.DigitRun: `\d` in Python's `re` also matches non-ASCII decimal
  digits. The model accepts only `0`-`9`.
- Text.NanTextSpellings: `str.lower()` is modelled on ASCII letters only.
  That is exact for the comparison with `"nan"` but not for other texts.
- Export.Paginate: the row limit is a parameter that must be positive. The
  script uses `MaxLinhasPorAba` = 1 000 000.
- The `row.get(col, "")` defaults in `montar_endereco` and the phone lambdas
  are unreachable. Any chunk that gets that far without those columns fails
  at the projection for lack of `email`.
