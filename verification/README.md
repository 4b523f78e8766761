# KEGG Mapper file preparation, modelled in Dafny

The tool compares two MassTRIX `.annotated` files. These are tab-separated text files in which column 6 (0-based) holds a KEGG id. The tool writes a `map.txt` file for KEGG Mapper.

The model covers the two functions that do the work in `app.py`:

- **`get_cid`** reads one file. It splits the file into lines and splits each line on tabs. It takes field 6 of each line and keeps it when it starts with `C`, which marks a compound id. Ids stay in line order and repeats are kept. The model is `Extract.GetCid`, with `Extract.CollectFrom` as the image of its loop.
- **`compute`** compares two files. It extracts the ids of both files, first file first. It builds the de-duplicated union `dict.fromkeys(cid1 + cid2)`, the two sets, their intersection and the two differences. It counts the three parts. It writes the map text: the header `KEGG_ID\tcolor`, then one `<id>\t<colour>` line per id of the union, joined by single line breaks. The colour is yellow for common ids, blue for ids only in the first file, and red for ids only in the second. The model is `Compare.Compute`, on top of `Compare.ComputeIds`.

Modules:

- `Text` (`text.dfy`) holds Python's `str.split(sep)`, `sep.join` and `str.splitlines`, on '\n' only.
- `Seqs` (`seqs.dfy`) holds `set(xs)` as `Elems`, order-preserving filtering, and `list(dict.fromkeys(xs))` as `Dedup`, which keeps first occurrences.
- `Extract` (`extract.dfy`) holds `get_cid`.
- `Compare` (`compare.dfy`) holds `compute`. It also has a reader for the map text (`ParseMap`), the partner of the writer.
- `Wrappers` (`wrappers.dfy`) holds the `Option` and `Result` datatypes.
- `Scenarios` (`scenarios.dfy`) holds worked examples.

**Short lines raise.** `line.split("\t")[6]` at app.py:12 raises `IndexError` on any line with fewer than seven fields. That includes an empty line, because `"".split("\t")` is `[""]`, and so the text `"\n"`, which `splitlines()` turns into one empty line. The model follows the code:

- `GetCid` returns `Err(IndexError(k))` for the first line `k` without a field 6.
- `Compute` passes that error on, looking at the first file before the second.

Pure functions are deterministic, so repeating a call gives the same result, as the source does.

## Model

| member | source | states |
|---|---|---|
| `Text.Split` | app.py:12 | `line.split("\t")` gives at least one piece. No piece holds the separator, and the pieces joined by the separator give the line back. A line ending in the separator ends with an empty piece. |
| `Text.SplitJoin` | app.py:12 | Joining separator-free pieces and splitting again gives the same pieces. So the fields of a line are exactly what was written between its tabs. |
| `Text.SplitKeepsOut` | app.py:12 | A character absent from a line is absent from each of its fields. So a field taken from a line holds no line break. |
| `Text.SplitLines` | app.py:11 | `splitlines()` on '\n':<br>• the empty text has no lines;<br>• no line holds a line break;<br>• the lines joined by '\n' give the text back, up to one final line break;<br>• a non-empty text has at least one line, so `"\n"` is one empty line. |
| `Seqs.FilterMember` | app.py:13-14 | An id is kept by the `startswith("C")` filter exactly when it occurs in the input and starts with `C`. |
| `Seqs.FilterAppend` | app.py:11-14 | Filtering a list made of two parts keeps the first part's survivors before the second part's. This is the line-order guarantee of the loop. |
| `Seqs.DedupMember` | app.py:23 | `dict.fromkeys(cid1 + cid2)` holds exactly the ids that occur in `cid1 + cid2`. |
| `Seqs.DedupNoDup` | app.py:23 | The de-duplicated union has no repeated id. |
| `Seqs.DedupSnoc` | app.py:23 | Inserting one more key into the dict appends it exactly when it is new. |
| `Seqs.DedupFirstOccurrence` | app.py:23 | The ids of the union come in the order of their first occurrences in `cid1 + cid2`. |
| `Seqs.DedupAppend` | app.py:23 | The union of two lists is the de-duplicated first list, followed by the second list's new ids in their own first-occurrence order. |
| `Seqs.DedupCard` | app.py:23 | The union is exactly as long as the set of its ids. |
| `Extract.CidsOfAppend` | app.py:11-14 | Ids are extracted line by line: the ids of two blocks of lines are those of the first block followed by those of the second. |
| `Extract.CidsOfLine` | app.py:12-14 | A single line contributes its field 6 when that starts with 'C', and nothing otherwise. |
| `Extract.CidsOfMember` | app.py:12-14 | An id is extracted exactly when it starts with 'C' and is field 6 of some line. |
| `Extract.CidsOfWellFormed` | app.py:12-14 | Every extracted id starts with 'C' and holds no tab. When no line holds a line break, no id does either. |
| `Extract.OneLineFile` | app.py:9-15 | A one-line file with seven or more fields yields its field 6 when that starts with 'C' and nothing otherwise. With fewer fields it raises on line 0. |
| `Extract.CollectFrom` | app.py:10-15 | The loop from line `k` on succeeds exactly when every line has a field 6. It then returns the ids of all lines. Otherwise it stops at the first line without a field 6, at or after `k`. |
| `Extract.GetCid` | app.py:9-15 | `get_cid` has these properties:<br>• it succeeds exactly when every line has a field 6, and then returns the 'C' ids of field 6 in line order;<br>• it returns at most one id per line, each well formed;<br>• it raises on the first short line;<br>• the empty text gives no ids. |
| `Compare.ColorName` | app.py:39-43 | The colour names read back as their colours and hold no tab or line break. |
| `Compare.Classify` | app.py:27-31 | `both`, `only1` and `only2`:<br>• each holds exactly the ids in both files, only the first, or only the second;<br>• they are pairwise disjoint and cover every id of either file;<br>• `len(only1) + len(both)` is the size of `set1`, and likewise for `set2`;<br>• the three sizes add up to the size of the union of the sets. |
| `Compare.ColorOfClassifies` | app.py:37-43 | For an id of either file, its colour is yellow exactly when it is in both files, blue exactly when it is only in the first, and red exactly when it is only in the second. |
| `Compare.Rows` | app.py:37-45 | There is one row per id of `allcompounds`, in its order. Each row's colour is the one the id's membership in the two files calls for. |
| `Compare.RowOrder` | app.py:23 | In the map:<br>• the first file's ids come before every id found only in the second file;<br>• they keep the order of their first appearance in the first file;<br>• the second file's own ids keep the order of their first appearance in the second file. |
| `Compare.ParseRowsOfLines` | app.py:45 | The `<id>\t<colour>` lines of rows with clean ids read back as those rows. |
| `Compare.MapTextRoundTrip` | app.py:35-46 | Splitting the map text on '\n' gives the header and then one line per row, `1 + len(rows)` lines in all. The text ends without a line break. Reading it back gives the rows. |
| `Compare.RowsOfWellFormedIds` | app.py:45-46 | Rows built from extracted ids give a map text that splits into its lines, reads back as the rows, and has no final line break. |
| `Compare.ClassifyCounts` | app.py:23-33 | `n1 + n2 + n_common` is the length of `allcompounds`, and `n_common` is the size of the intersection. |
| `Compare.EmptyRows` | app.py:35-46 | With no ids in either file there are no rows, and the map text is the header alone. |
| `Compare.ComputeIds` | app.py:21-48 | On the two id lists:<br>• the counts satisfy `n1 + n_common == len(set1)`, `n2 + n_common == len(set2)` and `n1 + n2 + n_common == len(allcompounds)`, and `n_common` is the intersection's size;<br>• when every id starts with 'C' and holds no tab or line break, as extracted ids do, the map text has `1 + n1 + n2 + n_common` lines, ends without a line break and reads back as the coloured rows;<br>• no ids give counts 0 and the header alone. |
| `Compare.Compute` | app.py:17-48 | `compute` succeeds exactly when every line of both files has a field 6. An error is the first short line of the first file when it has one, and otherwise that of the second. On success it reports the comparison of the extracted ids, whose map reads back as the rows. Two empty files give counts 0 and the header alone. |
| `Scenarios.ShortLineRaises` | app.py:11-12 | The one-line file `a\tb\tc` raises on line 0 instead of being skipped. |
| `Scenarios.EmptyLineRaises` | app.py:11-12 | The text `"\n"` is one empty line, which has no field 6, so extraction raises on line 0. |
| `Scenarios.RepeatedIdCountedOnce` | app.py:23-46 | An id given twice in the first file and absent from the second is counted once as exclusive to the first file and written once, in blue. |
| `Scenarios.TwoFilesExample` | app.py:17-48 | Files with ids `x, y` and `y, z` give one exclusive id each and one common id. The map is `x` blue, `y` yellow, `z` red, in that order. |
| `Scenarios.KeggExample` | app.py:17-48 | The id lists `C001, C002` and `C002, C003` give counts 1, 1, 1 and the map `KEGG_ID\tcolor`, `C001\tblue`, `C002\tyellow`, `C003\tred`. |

## Left out

- The Panel user interface is not modelled: widgets, notifications, messages and event wiring (app.py:1-7, 50-127). It has no algorithmic content.
- Decoding the uploaded bytes as UTF-8 with an ISO-8859-1 fallback is not modelled (app.py:87-92). The model takes decoded text, as a sequence of characters.
- The `StringIO` buffer and the download of `map.txt` are not modelled (app.py:104-111). They are I/O.
- `Text.SplitLines`: only '\n' is a line boundary. Python's `splitlines` also breaks at `\r`, `\r\n`, `\v`, `\f`, `\x1c`-`\x1e`, `\x85`, `\u2028` and `\u2029`. Text holding those characters is split differently by the source.
- `dict` and `set` hashing are not modelled. A dict's key order is modelled as the order of first insertion, and sets are Dafny sets.
- `Extract.Error`: Python's `IndexError` carries only the message "list index out of range". The model adds the 0-based number of the offending line, to state which line raises.
- The `results` dictionary is modelled as the record `Report(n1, n2, nCommon, mapText)` with the same four entries.
