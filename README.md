# Climagas PDF form filler — a Dafny model

`app_prueba.py` is a small Streamlit tool. The user uploads three things:

- a PDF template with an interactive form;
- an Excel sheet of products;
- a product code.

The tool finds the product's row and binds six sheet columns to six form fields. It then writes the bound strings into the template's widget annotations through pdfrw.

This project models the logic of that path and proves what it guarantees.

- **`/T` normalisation** (`FieldNames`, line 17). pdfrw hands out a widget's partial field name as the raw literal-string token, e.g. `(NIF)`. When the text starts with `(` and ends with `)`, the tool drops the first and last characters. Otherwise the text is used as it is.
- **The fill pass on values** (`FormFill`, lines 10-22). This part is stated on annotation dictionaries as values.
  - `FillAnnotation` says what one annotation becomes. When its normalised name is a key of the data, `/V` becomes that string and `/Ff` becomes the integer 1; otherwise nothing changes.
  - `FillPages` says what the whole page list becomes.
  - pdfrw hands every name, string and bare token (a number such as `5`, a boolean) out as a Python string, so such a `/T` is looked up by its text. A truthy `/T` that is an array or a dictionary is not a string: a list has no `startswith` (`AttributeError`), and a `PdfDict` answers the attribute with `None`, which cannot be called (`TypeError`). The handler's `except` then reports an error and no PDF is produced. The model makes this an explicit failure (`None`).
- **The fill pass in place** (`PdfForm`, lines 7-22). pdfrw's annotation dictionaries are mutable objects: `annotation.update(...)` changes them where they are. The same object may be listed on several pages, or twice on one.
  - Annotations are a class.
  - The nested loops are methods with loop invariants.
  - `Fill` is proved against `FillPages`: on success the document's new content is `FillPages` of its old content. In every case each annotation object ends either untouched or filled once.
- **Record lookup and binding** (`Records`, lines 44-51, 61-68).
  - `FindProduct` picks the first row whose `PRODUCTO` cell equals the code. It reports "not found" when there is no such row, and a separate error when the column is missing (pandas raises `KeyError`).
  - `BindRecord` is the binding loop, proved against `Binding`. The keys of `data_dict` are exactly the mapped fields whose column the row has, and each holds `str()` of that cell.
- **The button handler** (`App`, lines 58-71). `GeneratePdf` composes lookup, binding and fill, and states when a PDF is produced.

A complete AcroForm filler would also handle hierarchical field names, checkboxes, appearance streams, `NeedAppearances` and batch aggregation. This script does none of these, and neither does the model. For the same reason the model does not merge widgets into fields. Each widget looks its name up on its own, and `FillPagesConsistent` proves that widgets sharing a name still receive the same `/V`.

## Model

| member | source | states |
|---|---|---|
| FieldNames.Normalise | app_prueba.py:17 | a text that starts with `(` and ends with `)` is that key wrapped in one pair of parentheses; any other text is its own key |
| FieldNames.NormaliseUnwraps | app_prueba.py:17 | wrapping a name in parentheses and normalising gives the name back |
| FieldNames.NormaliseLength | app_prueba.py:17 | the key is never longer than the text, and has the same length exactly when nothing is stripped |
| FieldNames.NormaliseOneLayer | app_prueba.py:17 | only one layer of parentheses is stripped; a bare name and its parenthesised form reach the same key |
| FormFill.Truthy | app_prueba.py:15 | Python's truth test: a name, string or token is true exactly when its text is non-empty, so a name always is |
| FormFill.FieldKey | app_prueba.py:14-17 | the filler fails on an annotation exactly when its `/T` is unreadable; a looked-up key comes from a non-empty text and is never longer than it (see `FieldKeySkips`, `FieldKeyFails`, `FieldKeyOfString`) |
| FormFill.FieldKeySkips | app_prueba.py:14-15 | an annotation is skipped exactly when `/T` is absent or fails Python's truth test |
| FormFill.FieldKeyFails | app_prueba.py:14-17 | the filler raises exactly on a truthy `/T` that is a Python int, an array or a dictionary, none of which is a string |
| FormFill.FieldKeyOfString | app_prueba.py:14-17 | an empty string or token `/T` is skipped; `(name)` is looked up as `name`; any other non-empty string or token, a number such as `5` included, is looked up as itself |
| FormFill.FillAnnotation | app_prueba.py:18-22 | `/T` is never touched; a matched annotation gets `/V` = the bound string and `/Ff` = 1 (the full frame is `FillAnnotationFrame`) |
| FormFill.FillAnnotationFrame | app_prueba.py:18-22 | a matched annotation gains exactly `/V` = the bound string and `/Ff` = 1 and keeps every other entry; an unmatched one is unchanged |
| FormFill.FillAnnotationKeepsName | app_prueba.py:19-22 | filling never touches `/T`, so the annotation's lookup key is the same afterwards |
| FormFill.FillAnnotationKeepsReadable | app_prueba.py:14-22 | whether Python can read `/T` is the same before and after filling |
| FormFill.FillAnnotationIdempotent | app_prueba.py:18-22 | filling an annotation twice with the same data gives the same dictionary as filling it once |
| FormFill.FillAnnots | app_prueba.py:13-22 | one `/Annots` list fills exactly when every `/T` in it is readable; the result has the same length and order, each entry filled |
| FormFill.FillPage | app_prueba.py:11-22 | a page without `/Annots` is passed over unchanged; otherwise the page fills exactly when every `/T` on it is readable, and its list is then filled entry by entry |
| FormFill.FillPages | app_prueba.py:10-22 | the document fills exactly when every listed `/T` is readable; the result keeps the page count, page order and `/Annots` presence, and fills each list entry by entry |
| FormFill.FillPagesCharacterised | app_prueba.py:10-22 | any page list that relates to the input page by page and entry by entry as a fill does is the result of `FillPages` |
| FormFill.FillPagesNoData | app_prueba.py:18-22 | filling with an empty `data_dict` returns the document unchanged |
| FormFill.FillPagesIdempotent | app_prueba.py:18-22 | filling a filled document again with the same data changes nothing |
| FormFill.FillPagesConsistent | app_prueba.py:13-22 | two widgets, anywhere in the document, whose names normalise to the same bound key end with the same `/V`, the bound string |
| FormFill.FillPagesUntouched | app_prueba.py:14-18 | an annotation whose name is not bound comes out exactly as it went in |
| PdfForm.FillWidget | app_prueba.py:14-22 | one annotation object is updated in place to `FillAnnotation` of its old dictionary; the result says whether its `/T` was readable |
| PdfForm.FillAnnotationList | app_prueba.py:13-22 | the loop over one `/Annots` list fails exactly when some listed object's `/T` is unreadable; every object ends untouched or filled, and all are filled on success |
| PdfForm.FillPageOf | app_prueba.py:11-22 | one turn of the page loop keeps every object untouched or filled, and on success adds the page's objects to the filled ones; on failure it names an unreadable `/T` |
| PdfForm.UnreadableWidget | app_prueba.py:14-17 | one listed object whose `/T` has no text makes the whole document fail to fill |
| PdfForm.Fill | app_prueba.py:10-22 | fails exactly when `FillPages` of the old content fails; on success the new content is `FillPages` of the old; each annotation object ends untouched or filled once, aliases included |
| Records.FirstMatch | app_prueba.py:64 | finds a row exactly when some row's code cell equals the code, and returns the first such row |
| Records.FindProduct | app_prueba.py:61-64 | fails with a missing-column error exactly when `PRODUCTO` is not a column, and with not-found exactly when no row has the code; otherwise returns the first row with the code |
| Records.Binding | app_prueba.py:65-68 | a field is bound exactly when some map entry names it with a column the row has, and its value is `str()` of such a column's cell (the exact value per field, for a map without repeated fields, in `BindingContents`) |
| Records.BindingValues | app_prueba.py:65-68 | for a map without repeated fields, each field whose column the row has holds `str()` of that column's cell |
| Records.BindingContents | app_prueba.py:65-68 | the keys of the binding are exactly the mapped fields whose column the row has, each bound to `str()` of that cell |
| Records.BindingNoColumns | app_prueba.py:66-67 | a row with none of the mapped columns binds nothing: missing columns are skipped silently |
| Records.BindRecord | app_prueba.py:65-68 | the binding loop returns `Binding`: exactly the fields whose column the row has, each holding `str()` of that cell |
| App.FillWithRow | app_prueba.py:65-71 | binding the found row and filling the template succeeds exactly when `FillPages` with `Binding` of that row does, and the template then holds that result |
| App.GeneratePdf | app_prueba.py:58-71 | for a sheet whose rows are indexed by all its columns, the run reports not-found exactly when no row has the code, and fails when the code column is missing; the template is untouched when the lookup fails; otherwise the run succeeds exactly when `FillPages` with the bound row does, and the template then holds that result |

## Left out

- The Streamlit interface is not modelled: page setup, uploaders, the number input, the button, the messages and the download button (app_prueba.py:31-41, 53-57, 73-80). None of it has logic beyond the check that both files were uploaded.
- `PdfReader` parsing and `PdfWriter`/`BytesIO` output (app_prueba.py:8, 24-27) are foreign library I/O. The model starts from parsed pages whose `/Annots` entries are already resolved to annotation objects.
- How `PdfWriter` serialises the written value is not modelled. The value is recorded as the raw text handed to `PdfString`, which is what pdfrw stores.
- `pd.read_excel` (app_prueba.py:59) is a foreign library. The sheet is given as its set of columns and its rows.
- Python's `str()` on a cell (app_prueba.py:68) depends on pandas and float formatting. It is the opaque parameter `show`. `str()` at line 20 is applied to values that are already strings, so it is the identity.
- A sheet is taken to be well formed (`Records.WellFormed`): every row carries every column, as a pandas row does, and an empty cell is `Blank`, shown by `show` as Python shows NaN. `App.GeneratePdf` requires it; `Records` states its lemmas for any rows.
- Cells are reduced to numbers, text and blank (NaN). Dates and other cell kinds are not distinguished, and booleans count as the numbers 0 and 1, as pandas compares them. Every cell of the code column is taken to compare with the integer code by its numeric value only. Because an integer 5 and a float 5.0 are the same `Number`, the model does not fix which of "5" and "5.0" is written for such a cell; pandas may also have turned integer cells into floats when it took the row out of an all-numeric sheet.
- Only two failures are modelled, each as `Outcome.Failed`: a missing `PRODUCTO` column (`KeyError`) and a truthy `/T` that is an array or a dictionary (`AttributeError` or `TypeError`). The message the catch-all `except` prints is not modelled (app_prueba.py:82-83), and neither are other exceptions, such as an unreadable file.
- `/Ff` is set to the integer 1 as written. In a PDF, bit 1 of `/Ff` means read-only, not "show the value"; the model does not interpret it.
- The product code is a natural number, as the number input with step 1 and minimum 0 allows.
