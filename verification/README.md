# hotspot-logger in Dafny

hotspot-logger records who connected to a hotspot. Each record holds a CPF (a Brazilian taxpayer number), a device MAC address and the time of connection. A small HTTP API stores the records and lists and searches them. A browser dashboard shows them.

This project models the decisions both sides make, as pure functions over immutable data:

- **Server** (`api/server.js`):
  - the CPF check (eleven digits once every non-digit is stripped);
  - the MAC check (six hex pairs joined by `:` or `-`);
  - `POST /logs`: which 400 message answers, or what is inserted;
  - `GET /logs`: `page`/`limit` defaults, offset, and `totalPages` as the ceiling of `total / limit`;
  - `GET /logs/search`: which `LIKE` clauses and bound parameters are built;
  - the response for each outcome once the database has answered.
- **Dashboard** (`nginx/html/js/script.js`):
  - `formatCPF`;
  - when `triggerAutoSearch` and `searchLogs` search, and which query parameters they send;
  - when `renderPagination` enables its two buttons.

The database is not modelled. Its answer is an input to `Handlers.Respond`: either a failure, or the rows and the `COUNT(*)` it returned.

The JavaScript primitives the code relies on are written out in module `Text`:

- `\D` removes every character that is not an ASCII digit.
- `toUpperCase` acts on ASCII letters.
- `trim` removes the ECMAScript white-space and line-terminator set.
- A missing value or `""` is falsy.
- `parseInt(x) || d` is modelled with `None` standing for NaN.

Modules follow the program: `Wrappers`, `Text`, `Validators`, `Pagination`, `Handlers`, `Dashboard`.

`validarCPF` is `Validators.ValidCpf` and `validarMacAddress` is `Validators.ValidMac`. `toUpperCase` is `Text.Upper`. The search statement text is `Handlers.SearchSql` and the CPF mask of `formatCPF` is `Dashboard.CpfMask`. `renderPagination` is `Dashboard.RenderPagination`, and the "Encontrados" figure `data.count || data.data.length` is `Dashboard.DisplayedCount`. These are definitions; the rows below name the members whose contracts state what they mean.

## Model

| member | source | states |
|---|---|---|
| Text.Digits | api/server.js:26 | the stripped CPF holds only decimal digits and is no longer than the input |
| Text.DigitsOfDigits | api/server.js:26 | a string of digits only survives stripping unchanged |
| Text.DigitsOfNonDigits | api/server.js:26 | a string without digits is stripped to the empty string |
| Text.DigitsAppend | api/server.js:26 | stripping a concatenation is concatenating the stripped parts |
| Text.DigitsCountPositions | api/server.js:26 | the stripped length equals the number of digit positions in the input |
| Text.UpperChar | api/server.js:73 | the result is never a lower-case ASCII letter; it is an upper-case ASCII letter iff the input was an ASCII letter of either case; only lower-case letters change, each 32 code points down |
| Text.UpperIdempotent | api/server.js:73 | upper-casing twice equals upper-casing once, and no lower-case ASCII letter remains |
| Text.UpperOfNoLower | api/server.js:73 | text without lower-case ASCII letters is left unchanged by upper-casing |
| Text.UpperKeepsClasses | api/server.js:73 | upper-casing preserves digit and hex-digit class and leaves non-letters in place |
| Text.Trim | nginx/html/js/script.js:69-70 | the result is a slice of the input; only white space lies outside it; it neither starts nor ends with white space; it is empty iff the input is all white space |
| Text.Decimal | api/server.js:167 | placeholder numbers are rendered as at least one decimal digit; one digit below ten |
| Text.DecimalRoundTrip | api/server.js:167 | reading the rendered placeholder number back as decimal digits gives the number, for every n |
| Validators.ValidCpfCountsDigits | api/server.js:25-28 | a CPF is accepted iff exactly eleven of its positions hold a digit |
| Validators.ValidCpfIgnoresNonDigit | api/server.js:25-28 | inserting a non-digit anywhere never changes the verdict |
| Validators.ValidCpfAmidNonDigits | api/server.js:25-28 | digits surrounded by digit-free text are accepted iff there are eleven of them |
| Validators.CpfAcceptedExamples | api/server.test.js:15-45 | plain eleven digits and digits wrapped in letters are accepted |
| Validators.ValidCpfGrouped | api/server.js:25-28 | digit groups joined by one non-digit separator are accepted iff they hold eleven digits in all |
| Validators.CpfWithSpacesExample | api/server.test.js:23-25 | `123 456 789 01` is accepted |
| Validators.CpfTooShortExample | api/server.test.js:27-29 | ten digits are rejected |
| Validators.CpfTooLongExample | api/server.test.js:31-33 | twelve digits are rejected |
| Validators.CpfNoDigitExamples | api/server.test.js:35-41 | the empty string and digit-free punctuation are rejected |
| Validators.MatchesGroupsIffShaped | api/server.js:32 | the grouped pattern with k separators matches exactly the strings of length 3k+2 with a separator at every index ≡ 2 (mod 3) and hex digits elsewhere |
| Validators.ValidMacIffPositions | api/server.js:31-34 | a MAC is accepted iff it has length 17, a `:` or `-` at 2, 5, 8, 11, 14 and a hex digit of either case everywhere else |
| Validators.MacRejectsWrongLength | api/server.js:31-34 | any string not 17 characters long is rejected |
| Validators.MacRejectsMisplacedChar | api/server.js:31-34 | one wrong character at a digit or separator position rejects the address |
| Validators.ValidMacFromGroups | api/server.js:31-34 | six hex pairs with any mix of `:` and `-` are accepted |
| Validators.MacAcceptedColonExamples | api/server.test.js:49-59 | colon-separated addresses in upper, lower and mixed case are accepted |
| Validators.MacAcceptedOtherExamples | api/server.test.js:61-76 | hyphens, all-digit groups and mixed separators are accepted |
| Validators.MacRejectedExamples | api/server.test.js:69-96 | no separators, five groups, a one-digit group, non-hex letters, `""` and `"null"` are rejected |
| Validators.ValidMacUpper | api/server.js:64-73 | upper-casing an accepted MAC keeps it accepted and keeps its separators |
| Pagination.ParseOr | api/server.js:90-91 | a non-zero number is kept; NaN and 0 give the default; with a non-zero default the result is never 0 |
| Pagination.CeilDiv | api/server.js:110 | the page count n is the least with total ≤ n·limit (bounds for a divisor of either sign) |
| Pagination.CeilDivUnique | api/server.js:110 | the ceiling is the only integer meeting those bounds |
| Pagination.PageCountSign | api/server.js:110 | no rows give 0 pages, not 1; any rows give at least one page |
| Pagination.PageCountExamples | api/server.test.js:240-304 | 100 rows make 2 pages of 50 or 10 pages of 10; 0 rows make 0 pages |
| Pagination.PageHasRowsIffCounted | api/server.js:92-110 | a page's offset is below the total iff its number is at most the page count |
| Pagination.RowOnPage | api/server.js:92-97 | row i lies in the window of page i/limit+1, and that page is counted |
| Pagination.RowOnOnePage | api/server.js:92-97 | no other page's window holds the same row |
| Handlers.PostLogs | api/server.js:47-74 | each 400 message answers exactly when its check is the first to fail; otherwise the CPF is inserted as sent and the MAC upper-cased, both still valid |
| Handlers.PostLogsMissingExamples | api/server.test.js:161-186 | a missing `cpf`, `macaddress` or both gives the missing-fields error |
| Handlers.PostLogsBadCpfExample | api/server.test.js:188-195 | nine digits give the CPF error |
| Handlers.PostLogsBadMacExample | api/server.test.js:197-204 | `invalid-mac` gives the MAC error |
| Handlers.PostLogsRejectsMac | api/server.js:64-68 | a valid CPF with a non-empty invalid MAC gives the MAC error |
| Handlers.PostLogsInsertsValid | api/server.js:58-74 | a valid CPF and MAC are inserted with the MAC upper-cased |
| Handlers.UpperMacExample | api/server.js:73 | `aa:bb:cc:dd:ee:ff` is stored as `AA:BB:CC:DD:EE:FF` |
| Handlers.PostLogsInsertExample | api/server.test.js:206-225 | a lower-case MAC is bound upper-cased next to the unchanged CPF |
| Handlers.ListLogs | api/server.js:90-92 | page and limit fall back to 1 and 50 when absent, NaN or 0, are never 0, and the offset skips the earlier pages |
| Handlers.ListLogsExamples | api/server.test.js:240-289 | defaults give page 1 of 50 at offset 0; page 2 of 10 starts at row 10 |
| Handlers.Wildcard | api/server.js:168 | the pattern is the value with one `%` on each side |
| Handlers.AddFilter | api/server.js:166-176 | one filter step appends one clause on its column at the next placeholder and its `%`-wrapped value, keeping the numbering consecutive |
| Handlers.SearchLogs | api/server.js:154-178 | 400 iff neither filter is given; otherwise one clause per filter, CPF first, placeholders `$1`, `$2` in order, parameters `%cpf%` and the upper-cased `%MAC%` |
| Handlers.SearchSqlIgnoresValues | api/server.js:162-178 | the SQL text depends only on which filters are present, never on their values |
| Handlers.SearchLogsSingleExamples | api/server.test.js:380-452 | the parameters for a CPF alone, an upper-cased MAC alone, and the 400 without either |
| Handlers.SearchLogsBoth | api/server.js:166-176 | with both filters the query is `cpf LIKE $1` and `mac_address LIKE $2` bound to the two patterns |
| Handlers.ClauseTextExamples | api/server.js:166-176 | the clause texts ` AND cpf LIKE $1` and ` AND mac_address LIKE $2` |
| Handlers.SearchLogsBothExample | api/server.test.js:420-432 | `cpf=123&mac=AA:BB` binds `%123%` and `%AA:BB%` |
| Handlers.SearchLogsWithDate | nginx/html/js/script.js:210-220 | the corrected search: 400 iff no filter of the three; the date is the last clause, on the day, bound as given; without a date it is the search as written |
| Handlers.Respond | api/server.js:76-189 | 400 iff validation failed, whatever the database; 500 with a fixed message iff the database failed a valid request; 201 with the message `Log registrado com sucesso` and the first returned row, or no row when none came back; 200 with the listing's pagination block or the search's row count |
| Handlers.RejectedNeverReachesStore | api/server.js:52-68 | a rejected request gets the same response whatever the database would answer |
| Handlers.ListResponseExamples | api/server.test.js:240-304 | the pagination blocks `{1,50,100,2}` and `{2,10,100,10}`, and `totalPages` 0 for an empty table |
| Dashboard.CpfMaskRoundTrip | nginx/html/js/script.js:169 | masking eleven digits gives `ddd.ddd.ddd-dd`, and stripping it gives the digits back |
| Dashboard.MaskedCpfIsMaskOfDigits | nginx/html/js/script.js:167-169 | every punctuated CPF is the mask of its own digits and is accepted by the server |
| Dashboard.FormatCpf | nginx/html/js/script.js:165-172 | `-` for a missing or empty CPF; the punctuated form with the same digits when eleven digits remain; otherwise the value unchanged |
| Dashboard.FormatCpfAgreesWithServer | nginx/html/js/script.js:165-172 | the dashboard punctuates exactly the CPFs the server's check accepts |
| Dashboard.FormatCpfIdempotent | nginx/html/js/script.js:165-172 | formatting a formatted CPF changes nothing |
| Dashboard.PunctuatedCpfAccepted | api/server.test.js:19-21 | the server accepts `123.456.789-01` |
| Dashboard.StoredCpfDisplaysMasked | nginx/html/js/script.js:133 | every CPF the server inserts is shown punctuated, with its digits unchanged |
| Dashboard.SearchRequest | nginx/html/js/script.js:68-85 | no request iff a one- or two-character fragment is alone; each parameter is the trimmed CPF or MAC of at least three characters or a set date; each appears iff its condition holds; no name repeats |
| Dashboard.Lookup | api/server.js:154 | a name is found iff some parameter carries it, and the value found is one sent under that name |
| Dashboard.LookupNamed | nginx/html/js/script.js:82-85 | with each name sent at most once, the server reads the value sent under it |
| Dashboard.DashboardSearchAtServer | nginx/html/js/script.js:82-87 | the server receives the trimmed fields of three or more characters, and rejects the request iff both CPF and MAC are shorter |
| Dashboard.InitialSearchRejected | nginx/html/js/script.js:210-220 | the page-load search sends the date alone and the server answers it with the 400 error |
| Dashboard.DashboardSearchAtDatedServer | nginx/html/js/script.js:82-87 | against the corrected search, a dashboard request is rejected iff it carries no parameter, and the date reaches the server |
| Dashboard.InitialSearchAtDatedServer | nginx/html/js/script.js:210-220 | against the corrected search, the page-load request filters on today's date |
| Dashboard.DisplayedCountIsRows | nginx/html/js/script.js:93 | for an answered search the figure shown is the number of rows received |
| Dashboard.AutoSearch | nginx/html/js/script.js:40-65 | the first page is reloaded iff every field is empty; a change is ignored iff it is typed and `searchLogs` would not search |
| Dashboard.TypedSearchIsNeverDropped | nginx/html/js/script.js:49-76 | a search scheduled by typing always sends a request |
| Dashboard.DateChangeMayBeDropped | nginx/html/js/script.js:40-76 | clearing the date beside a two-character CPF schedules a search that sends nothing |
| Dashboard.EmptyListingDisablesBoth | nginx/html/js/script.js:151-156 | on page 1 of an empty listing both buttons are disabled |
| Dashboard.PagerMatchesServer | nginx/html/js/script.js:147-157 | after a listing request, "Próxima" is enabled iff the next page holds rows, and an enabled "Anterior" leads to a page the server serves as asked |
| Dashboard.FailedListingRendersNoPager | nginx/html/js/script.js:149 | a 500 answer carries no pagination block, so no buttons are rendered |

## Findings

| source | as written | input that shows it | evidently intended | confidence | as-written member | corrected member |
|---|---|---|---|---|---|---|
| nginx/html/js/script.js:210-220 | on load the dashboard sets the date field to today and calls `searchLogs`, which sends only `date`; `GET /logs/search` (api/server.js:154-160) reads only `cpf` and `mac`, so it answers 400 | CPF and MAC fields empty, date `2026-02-01` | the first listing shows the day's records: the search reads `date` as a third filter | medium, not executed | Dashboard.InitialSearchRejected | Handlers.SearchLogsWithDate (with Dashboard.InitialSearchAtDatedServer and Dashboard.DashboardSearchAtDatedServer) |

The handlers otherwise model the server as written. `Handlers.SearchLogs` is the search the server runs today. `Handlers.SearchLogsWithDate` is the dated search the page-load code relies on. The SQL text of the day filter (` AND DATE(horario) = $n`) is this model's choice: the repository has none.

## Left out

- `GET /health` and `GET /logs/stats`: `/health` runs one probe query; `/logs/stats` runs two aggregate queries (api/server.js:123-138) and merges them into one object, spreading the first row and applying `parseInt` to the 24-hour count. Neither has logic of its own.
- Database behaviour: what `LIKE`, `ORDER BY horario DESC`, `LIMIT` and `OFFSET` return. The rows and the count are inputs.
- Express plumbing: JSON parsing, CORS, `listen`, and the `SIGTERM` shutdown.
- A request body whose `cpf` or `macaddress` is not a string. The checks still run in order. A falsy non-string (`null`, `0`, `false`) gets the missing-fields 400 (api/server.js:52), like an absent field; so does a truthy non-string beside a missing other field. A truthy non-string `cpf` that reaches api/server.js:58 makes `replace` throw (api/server.js:26), which answers 500. A truthy non-string `macaddress` that reaches api/server.js:64 behind a valid CPF is converted to a string by the pattern test. When that string fails the pattern, the MAC 400 answers (api/server.js:33, 64-67). When it passes, for example an array holding one valid address, `toUpperCase` throws (api/server.js:73) and the answer is 500.
- Repeated query keys, which Express delivers as arrays.
- Pagination.ParseOr: models `parseInt` by its outcome only, a number or NaN. Reading a number from the text, including prefixes such as `"2abc"`, is not modelled.
- Pagination.CeilDiv: is the exact ceiling over integers. The floating-point rounding of `Math.ceil(total / limit)` for totals beyond 2^53 is not modelled.
- Handlers.ListLogs: negative `page` or `limit` are kept as the source keeps them, and nothing is claimed about what the database does with them. The offset `(page - 1) * limit` is computed exactly. The source computes it as a double, so once the product passes 2^53 the value sent to the database is rounded (for example page − 1 = limit = 3^17), and the model does not cover that rounding.
- Text.Upper: covers ASCII letters only. Full Unicode case mapping (for example `ß` becoming `SS`) is not modelled. It does not change which MAC addresses `POST /logs` accepts, because the pattern admits only ASCII. The search upper-cases its `mac` fragment without validating it (api/server.js:174), so for a non-ASCII letter the bound parameter differs: `mac=é` binds `%É%` in the source and `%é%` in Handlers.SearchLogs.
- Text.Trim and the three-character thresholds count code points. JavaScript counts UTF-16 code units, so the two differ only for characters outside the Basic Multilingual Plane.
- Dashboard I/O: the DOM, `fetch`, the 300 ms debounce timer, the Enter-key shortcut and the 30-second statistics refresh. The model assumes the fields do not change between the keystroke and the delayed search.
- Rendering: `renderLogsTable`, `formatNumber`, `formatDate`, `getTodayString` and `loadStats` only turn data into HTML or strings through `Intl` and the clock.
- Dashboard.DisplayedCount: assumes a search body. After a 400 answer, `data.data` is undefined and the source's `catch` branch shows its error text instead.
