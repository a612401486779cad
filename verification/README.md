# PosturAves lotes: a Dafny model

PosturAves tracks batches of poultry ("lotes"). It has two parts. An Express server keeps
them in one SQLite table, `lotes`, and exposes five `/api/lotes` routes. A browser page lists
the lotes as cards and creates, edits and deletes them through one shared form.

This project models both parts as written:

- **The service** (`backend/server.js`). The table is an immutable value: a map from id to
  row, plus the next AUTOINCREMENT id (`LoteTable`). Each route handler is a pure function
  from the table and the request to a reply (status, body, next table) (`LoteService`).
  - A row holds what SQLite stores, not the raw JSON (`SqlValues`). node-sqlite3 binds the
    parameters: `undefined` and `null` become NULL, booleans become 1/0. Then each column's
    declared type converts the value: TEXT columns store integers as decimal text, and the
    INTEGER column stores integer-literal text as an integer.
  - `ORDER BY dataEntrada DESC` is modelled with SQLite's comparison: NULL < numbers < text,
    and text compares lexicographically by code point (`LoteList`).
  - `ServiceTrace` runs request sequences from the empty table. It shows that every reachable
    table keeps `nome` unique, and that ids are never reused.
- **The page** (`public/js/app.js`). This covers the JavaScript string operations the form
  uses (`ClientText`) and the page's decisions (`ClientApp`): the status badge, the payload
  and its validation, POST vs PUT from the `idLoteParaEditar` slot, the slot's transitions,
  card display defaults, and the confirmation before a delete.
- **The seam between them** (`Interop`). The two files name the lote's fields differently.
  The server reads `nome`, `tipoAve`, `quantidadeAves`, `dataEntrada`, `status`. The page
  sends and reads `codigo_identificador`, `data_nascimento`, `linhagem`, `proprietario`,
  `quantidade_aves`, `data_chegada`, `status`. Each side is modelled as written, and the
  lemmas state the consequences:
  - every create or update sent by the page is answered 400;
  - every listed row renders with default card fields;
  - the row a create or update would store from a listed row's JSON is that row; sent back
    to its own id it changes nothing, and sent as a create it stores nothing.

Opening an edit sets `idLoteParaEditar`, and only a successful submit clears it: closing the
modal is not an event of the page. So after an edit is opened and abandoned, the next
complete submit is a PUT on that lote, whatever the user meant by it
(`ClientApp.EditSlotOutlivesDismissal`).

The server and the page, as written:
- There is no status-enumeration check.
- Status is not upper-cased by the server (only the page upper-cases what it sends).
- There are no `created_at`/`updated_at` columns.
- The list is ordered by `dataEntrada`, not by creation time.
- The page does not trim `data_chegada` or `status`: a status of a single blank passes its
  check.

## Model

| member | source | states |
|---|---|---|
| JsValues.Truthy | backend/server.js:105 | falsy exactly for undefined, null, false, 0 and the empty string |
| JsValues.ToJsString | public/js/app.js:70-86 | `${v}` is empty only for the empty string; a string shows itself and a number its decimal text (safe integers only, see Left out) |
| SqlValues.Bind | backend/server.js:112-114 | bound parameters: `undefined`/`null` become NULL, strings stay text, numbers stay integers |
| SqlValues.TextAffinity | backend/server.js:30-34 | an integer becomes its decimal text, so a TEXT column never holds an integer; NULL stays NULL and text is unchanged |
| SqlValues.IntegerAffinity | backend/server.js:32 | an INTEGER column keeps NULL and integers, turns integer-literal text into the integer and keeps other text; it never holds integer-literal text |
| SqlValues.AffinityRoundTrip | backend/server.js:30-34 | an integer stored as text in a TEXT column reads back as the same integer through INTEGER affinity |
| SqlValues.SqlLeq | backend/server.js:64 | NULL sorts before everything, integers before text, and integers by value |
| SqlValues.SqlLeqTotal | backend/server.js:64 | the `ORDER BY` comparison relates any two stored values |
| SqlValues.SqlLeqTransitive | backend/server.js:64 | the `ORDER BY` comparison is transitive |
| SqlValues.SqlLeqAntisymmetric | backend/server.js:64 | two values that sort both ways are equal |
| LoteList.Scan | backend/server.js:64 | the scan holds every row with an id in the range exactly once, and nothing else |
| LoteList.InsertDesc | backend/server.js:64 | inserting into a list sorted by descending `dataEntrada` keeps it sorted and adds exactly that row |
| LoteList.SortDesc | backend/server.js:64 | the sorted list is a permutation of its input, in non-increasing `dataEntrada` order |
| LoteList.ListRecords | backend/server.js:64 | the query's result holds each table row exactly once, sorted by descending `dataEntrada` |
| LoteList.ListRecordsExactlyOnce | backend/server.js:64-70 | every listed record is a row of the table, every row is listed, and no id is listed twice |
| LoteService.RowOf | backend/server.js:29-34 | column by column, what SQLite stores for each JSON value: NULL for absent or null, a string as text, a number as its decimal text in TEXT columns and as itself in `quantidadeAves`, integer-literal text as an integer there; TEXT columns never hold integers and the INTEGER column never holds integer-literal text |
| LoteService.RequestOf | backend/server.js:102 | each of the five fields is the body's property of that name, undefined when the body has none |
| LoteService.HasRequiredFields | backend/server.js:105 | a request passes iff none of `nome`, `dataEntrada`, `status` is undefined, null, false, 0 or the empty string |
| LoteService.CountTextStoredAsInteger | backend/server.js:32 | a bird count sent as the decimal text of an integer is stored as that integer |
| LoteService.ListLotes | backend/server.js:61-72 | 200 with every row once in non-increasing `dataEntrada` order, or 500 on a store failure; the table never changes |
| LoteService.GetLote | backend/server.js:75-95 | 200 with the row iff the id is present, 404 iff absent, 500 on a store failure; the table never changes |
| LoteService.CreateLote | backend/server.js:98-142 | 400 iff `nome`, `dataEntrada` or `status` is falsy; 500 iff they are present and the store fails; 409 iff another row already stores that `nome`; 201 iff none of these; on 201 `loteId` is above every existing id, exactly that row is added and every other row is unchanged; any other outcome leaves the table as it was; uniqueness is preserved |
| LoteService.DeleteLote | backend/server.js:145-173 | 200 iff the id is present, removing exactly that row and keeping the id counter; 404 iff absent with the table unchanged |
| LoteService.UpdateLote | backend/server.js:176-238 | 400 on a falsy required field; 500 iff they are present and the store fails; 404 iff the id is absent; 409 iff a different row holds the new `nome`; 200 iff none of these; on 200 the id stays and only its row is replaced by the submitted fields; uniqueness is preserved |
| ServiceProperties.CreateThenGet | backend/server.js:112-140 | fetching the id a creation returned yields the stored submitted fields |
| ServiceProperties.CreateDuplicateConflicts | backend/server.js:117-123 | a second creation with a `nome` already stored is 409 and the table keeps only the first |
| ServiceProperties.UpdateKeepingNomeSucceeds | backend/server.js:203-212 | an update that keeps the row's own `nome` never conflicts |
| ServiceProperties.DeleteThenGetAndCreate | backend/server.js:149-171 | after a delete the id is not found, and a later creation gets a different id |
| ServiceProperties.DeleteAbsentIsNoOp | backend/server.js:162-171 | deleting an absent id is 404 and changes nothing |
| ServiceProperties.CreateThenDelete | backend/server.js:29 | creating then deleting a lote restores the rows but not the AUTOINCREMENT counter |
| ServiceTrace.Handle | backend/server.js:61-238 | every route preserves the table invariant; the counter never decreases and advances exactly on a creation |
| ServiceTrace.Run | backend/server.js:28-35 | any request sequence from a valid table ends in a valid table |
| ServiceTrace.ReachableValid | backend/server.js:29-30 | every table reachable from the empty one has unique `nome`s and ids below the counter |
| ServiceTrace.CreatedIdsFresh | backend/server.js:29 | the ids created along any run strictly increase and lie above every id the starting table ever held: no id is handed out twice |
| ClientText.TrimStart | public/js/app.js:159 | the result is the input without its leading white space |
| ClientText.TrimEnd | public/js/app.js:159 | the result is the input without its trailing white space |
| ClientText.Trim | public/js/app.js:159-162 | `trim` returns the input's middle part, with only white space removed on either side and none left at its ends |
| ClientText.TrimUnique | public/js/app.js:159-162 | exactly one string is the input trimmed, so `Trim` matches the independent description |
| ClientText.TrimIdempotent | public/js/app.js:159-162 | trimming twice equals trimming once |
| ClientText.TrimEmptyIffWhiteSpace | public/js/app.js:171 | a field is empty after trimming iff it is all white space |
| ClientText.ToUpper | public/js/app.js:167 | the same length, each character upper-cased |
| ClientText.ToLower | public/js/app.js:18 | the same length, each character lower-cased |
| ClientText.ToUpperMeaning | public/js/app.js:167 | upper-casing keeps the text up to case and leaves no lower-case ASCII letter |
| ClientText.LowerOfUpper | public/js/app.js:18 | lower-casing an upper-cased string equals lower-casing the original |
| ClientText.DigitPrefix | public/js/app.js:164 | the longest prefix made of digits |
| ClientText.ParseInt | public/js/app.js:164 | NaN for blank input, for text whose first non-blank character is neither a digit nor a sign, and for a sign not followed by a digit; otherwise the value of the longest digit prefix after the optional sign, negated after a minus |
| ClientText.ParseIntRoundTrip | public/js/app.js:163-165 | `parseInt(s, 10)` reads back every integer written in decimal |
| ClientText.ParseIntIgnoresSuffix | public/js/app.js:164 | `parseInt` stops at the first non-digit, so trailing text does not change the number |
| ClientApp.StatusBadgeClass | public/js/app.js:15-27 | the class is one of the three badge classes, and the default one for a null, undefined or empty status |
| ClientApp.BadgeClassByStatus | public/js/app.js:15-27 | `bg-success` iff the status is "ativo" in any case, `bg-secondary` iff "inativo" in any case, `bg-light text-dark` otherwise |
| ClientApp.BadgeIgnoresUpperCasing | public/js/app.js:15-27 | the upper-cased status the form sends gets the same badge as the status typed |
| ClientApp.QuantityOf | public/js/app.js:163-165 | null exactly for an empty field, otherwise the `parseInt` result (NaN when there is no digit) |
| ClientApp.BuildPayload | public/js/app.js:158-168 | code, lineage and owner trimmed; dates passed through; status equal up to case with no lower-case ASCII letter; the count is the count field as `QuantityOf` reads it |
| ClientApp.QuantityRoundTrip | public/js/app.js:163-165 | a bird count typed in decimal is sent as that integer |
| ClientApp.PayloadCompleteIff | public/js/app.js:171-174 | a request is sent iff the code is not all white space and the arrival date and status are non-empty |
| ClientApp.PayloadComplete | public/js/app.js:171 | the payload passes iff code, arrival date and status are all truthy strings |
| ClientApp.PayloadJson | public/js/app.js:185-189 | the body carries the seven client field names, each string field holding the payload's value; `quantidade_aves` is the parsed number, or null when there is none or it was NaN |
| ClientApp.SubmitRequest | public/js/app.js:176-181 | PUT on `/api/lotes/{id}` iff the slot holds a non-empty id, otherwise POST on `/api/lotes`; the body is the payload |
| ClientApp.SubmitStep | public/js/app.js:171-206 | an incomplete payload sends nothing and changes nothing; a complete one is sent first, as JSON, with the request the slot selects, followed by a reload of the list exactly when the request succeeds; the slot is cleared exactly on that success; a submit never sends a DELETE |
| ClientApp.Step | public/js/app.js:155-210 | the slot changes only when an edit fetch succeeds (set to that id) or a complete submit succeeds (cleared); no DELETE without confirmation; no POST/PUT without a complete payload |
| ClientApp.SlotTransitions | public/js/app.js:145 | the slot after each kind of event, in both directions: set iff the edit fetch succeeds, cleared iff the submit succeeds, unchanged on failure or delete |
| ClientApp.DeleteNeedsConfirmation | public/js/app.js:239-241 | a DELETE is issued iff the card has an id and `confirm` returns true; the slot is untouched |
| ClientApp.RunClient | public/js/app.js:8 | from the initial null slot, the slot only ever holds a non-empty id |
| ClientApp.SubmitDispatchReachable | public/js/app.js:176-181 | in every reachable state a valid submit is a PUT on the edited lote iff one is being edited, and a POST otherwise |
| ClientApp.EditSlotOutlivesDismissal | public/js/app.js:145 | after an edit is opened, any number of delete clicks leave the slot on that lote, and the next complete submit is a PUT on it |
| ClientApp.CardOf | public/js/app.js:67-104 | the header is the code ("undefined" when absent); lineage and owner read N/A when falsy and their text otherwise; the count reads 0 when null or absent and the value otherwise; the status is shown as sent; the badge is one of the three classes, `bg-success`/`bg-secondary` iff the status is "ativo"/"inativo" in any case, so `bg-light text-dark` otherwise; the buttons carry the id as text |
| ClientApp.OrNotAvailable | public/js/app.js:72-77 | a falsy value shows N/A and a truthy one its text, so N/A appears exactly for a falsy value or the string "N/A" |
| ClientApp.CountOrZero | public/js/app.js:78-82 | null and undefined show 0 and anything else itself, so 0 appears exactly for those, the number 0 and the string "0" |
| Interop.SqlToJs | backend/server.js:70 | NULL becomes null, an integer a number and text a string; binding the JSON value again gives back the stored value |
| Interop.RecordJson | backend/server.js:70 | a listed row is sent with the server's six column names; `id` is the row's id and each other property is that column's value, so reading the object as a request body yields exactly the row's columns |
| Interop.ListedRowEchoes | backend/server.js:70 | the row a create or update would store from a listed row's JSON is that row |
| Interop.ListedRowUpdateIsNoOp | backend/server.js:176-238 | a listed row sent back to its own id with truthy required fields is answered 200 and leaves the table unchanged |
| Interop.ListedRowCreateStoresNothing | backend/server.js:98-142 | a listed row sent as a create is answered 400, 409 or (on a store failure) 500, never 201, and the table is unchanged |
| Interop.PagePayloadRejected | public/js/app.js:158-168 | every payload of the page's shape, hence every one it builds, is answered 400 by both create and update, with the table unchanged |
| Interop.ListedRowCard | public/js/app.js:70-86 | every row of a valid table renders with header "undefined", N/A lineage and owner, count 0, and the badge of its status |
| Interop.CreatedActiveLoteBadge | public/js/app.js:15-27 | a lote created with status "ativo" in any case is shown with `bg-success` |

## Left out

- Express wiring, JSON body parsing, static files, `app.listen` and console logging. These are plumbing.
- Opening the database, `CREATE TABLE IF NOT EXISTS` and seeding at startup. The seed rows are
  not in the source. The model starts from an empty table with next id 1.
- Storage failures other than the UNIQUE violation. Each handler takes a `fault` flag
  standing for them: the reply is 500 and the table does not change. The failure text
  (`err.message`) is not modelled.
- Response messages. Bodies carry a failure tag (`MissingFields`, `DuplicateNome`,
  `NotFound`, `StorageError`) instead of the Portuguese message texts.
- Parsing the URL id. Ids are integers, and a non-numeric id matches no row. The PUT reply
  echoes the id as that integer; the server echoes the URL string.
- SqlValues.Bind: every number binds as an INTEGER. node-sqlite3 binds numbers outside 32
  bits, and non-integral numbers, as REAL, which TEXT columns print differently; this is not
  modelled.
- JSON arrays or objects as field values.
- INTEGER affinity for text with surrounding spaces, real-number text, or values outside 64
  bits. Exhausting the 64-bit AUTOINCREMENT range is not modelled either.
- ListLotes: the order of rows with equal `dataEntrada` is left open by SQLite. The model
  happens to keep increasing id order, and the contract does not depend on it.
- All DOM work: HTML templating, the Bootstrap modal, `alert`, `fetch`, the edit form's
  prefill (app.js:135-141) and reset, and the guards on missing DOM elements (assumed
  present). `confirm` is kept as a boolean input.
- Date display through `toLocaleDateString`/`toLocaleString`. It depends on locale and
  time-zone data.
- Async ordering and overlapping submissions.
- ClientText.ToUpper: ASCII letters only. JavaScript's full Unicode case mapping (which can
  change a string's length) is not modelled. ClientText.LowerOfUpper and
  ClientApp.BadgeIgnoresUpperCasing hold for this ASCII mapping only: in JavaScript
  `"atıvo".toUpperCase()` is `"ATIVO"`, so the typed status gets `bg-light text-dark` while the
  status sent gets `bg-success`.
- ClientText.ToLower: ASCII letters only, for the same reason as ClientText.ToUpper.
- JsValues.ToJsString: numbers are exact integers, printed in plain decimal. JavaScript
  numbers are doubles, and `String(n)` switches to exponent form (`"1e+21"`) from 10^21 on; the
  model assumes every number on the page is a safe integer (below 2^53 in magnitude).
- Interop.SqlToJs: an INTEGER column's value reaches JavaScript as the same number. node-sqlite3
  hands 64-bit integers to JavaScript as doubles, so past 2^53 the value is not exact, and
  `Interop.ListedRowEchoes` holds only for rows whose integers are safe integers.
- ClientText.ParseInt: precision loss above 2^53 and the distinction between -0 and 0 are not
  modelled.
- ClientApp.StatusBadgeClass: requires a falsy or string status. A truthy non-string would
  make `toLowerCase` throw, and the server's TEXT column never sends one.
