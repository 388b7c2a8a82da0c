# Paginated `operacoes` listing — a Dafny model

This project models the one endpoint of the service, `GET /operacoes`. The
endpoint lists the accounting operations (`t_operacao` rows) that belong to a
classifier code (`codigoClassificador`) and an operation date (`dataContabil`).
The list is cut into pages and sorted by one allow-listed column.

The handler does four things, and the model follows them module by module:

- **Validation** (`validation.dfy`).
  - Both required parameters must be present and non-empty.
  - `page` and `size` default to `1` and `10` and go through `parseInt(…, 10)`.
  - `sort` defaults to `id,asc` and is split on `,`. The direction defaults to `asc`.
  - A page or size below 1 is rejected.
  - A sort column whose lower-case form is not `id`, `descricao`, `valor` or `data_contabil` is rejected.
  - The three checks run in that order, and each has its own 400 message.
- **Statements** (`sql.dfy`).
  - A count statement and a page statement share one filter:
    `codigo_classificador = $1 AND data_operacao = $2`.
  - The page statement adds `ORDER BY <column> <ASC|DESC> LIMIT $3 OFFSET $4`.
  - The bind values are `[codigo, data]` for the count and `[codigo, data, size, (page - 1) * size]` for the page.
  - Statement text is a token sequence, so the model can say exactly what text reaches the database.
- **Pagination** (`pagination.dfy`).
  - The offset is `(page - 1) * size`.
  - `totalPages` is `Math.ceil(totalItems / size)`.
  - The `pagination` object echoes the requested page and size.
- **Row shaping** (`rows.dfy`).
  - `formatResponse` maps every row to a record with eighteen fields.
  - `id` and `id_cliente` go through `parseInt` without a radix.
  - `valor_movimento` goes through `parseFloat`.
  - Every other field is copied unchanged.

`handler.dfy` puts these together. `Handler.Handle` takes a request and a store and answers 200, 400 or 500. It also returns the list of statements it sent. `Handler.Respond` is the part after validation.

The database is an abstract store: one function answers the count statement with the text of its `count` cell, and one answers the page statement with rows. `None` stands for any failure of a call.

The JavaScript primitives the handler relies on are modelled in two modules:

- `js_string.dfy` covers `toLowerCase`, `split` with a one-character separator, and `join`.
- `js_number.dfy` covers `parseInt` with and without a radix, NaN, `<` against NaN, and `Math.ceil` of a quotient.

All integers are unbounded. A value that is not a number is the `NaN` case of `JsNumber.Num`.

The code accepts a `page` or `size` that is not a numeral: `parseInt` returns NaN, and `NaN < 1` is false. The request therefore reaches the database with NaN bound to `LIMIT`/`OFFSET`. Line 33 therefore does not reject a non-numeric page or size, and the model keeps that behaviour: `Validation.NonNumericPageAccepted` proves that such a page is accepted.

The filter column for the date is `data_operacao`, although the parameter is named `dataContabil`. The model keeps the code's column.

## Model

| member | source | states |
|---|---|---|
| JsString.Lower | src/index.js:38 | lower-casing keeps the length and maps every character through the ASCII case map |
| JsString.LowerIdempotent | src/index.js:38 | lower-casing twice equals lower-casing once, and no upper-case letter remains |
| JsString.LowerFixedPoint | src/index.js:38 | a string is its own lower-case form exactly when it has no upper-case letter |
| JsString.Split | src/index.js:31 | `split(',')` yields at least one piece, no piece contains the separator, and joining the pieces with it gives back the input |
| JsString.SplitJoin | src/index.js:31 | splitting a join of separator-free pieces gives back exactly those pieces |
| JsString.FirstPieceIsPrefix | src/index.js:31 | the column token is everything before the first comma, and the whole string when there is none |
| JsNumber.ParseIntNumeral | src/index.js:27-28 | `parseInt(s, 10)` skips leading whitespace, reads an optional sign and the longest run of decimal digits, and returns their signed value whatever follows |
| JsNumber.ParseIntNotANumber | src/index.js:27-28 | when no digit follows the whitespace and the optional sign, `parseInt(s, 10)` is NaN |
| JsNumber.ParseIntOfIntToString | src/index.js:27-28 | `parseInt(String(n), 10) == n` for every integer |
| JsNumber.ParseIntNoRadixHex | src/index.js:91 | without a radix, a `0x`/`0X` prefix makes `parseInt` read the following digits as hexadecimal |
| JsNumber.ParseIntNoRadixOfIntToString | src/index.js:91 | a decimal numeral is read back as its number by `parseInt` without a radix |
| JsNumber.CeilDiv | src/index.js:69 | `Math.ceil(a / d)` is the least `q` with `a <= q * d`, i.e. `(q - 1) * d < a <= q * d` |
| JsNumber.CeilDivUnique | src/index.js:69 | those bounds determine the ceiling uniquely |
| Validation.InvalidSortMessageText | src/index.js:37-39 | the sort-column error lists the allowed columns in allow-list order, separated by `, ` |
| Validation.Validate | src/index.js:19-41 | an accepted request has both required values, a page and size not below 1, an allow-listed column, the parsed page and size, the column as written, and DESC exactly for a direction that lower-cases to `desc` |
| Validation.MissingParametersFirst | src/index.js:21-25 | a missing or empty `codigoClassificador` or `dataContabil` gives the missing-parameters error, whatever else is sent, and only then |
| Validation.PageSizeBeforeSort | src/index.js:33-35 | with the required values present, the page/size error is reported exactly when the parsed page or size is below 1, before the sort is checked |
| Validation.SortColumnChecked | src/index.js:37-40 | past the first two checks, the request is accepted exactly when the lower-cased column is allowed, and otherwise gets the sort-column error |
| Validation.EmptyIsAbsent | src/index.js:27-30 | an empty `page`, `size` or `sort` is treated like an absent one, because the default applies to every falsy value |
| Validation.DefaultSortIsIdAscending | src/index.js:30-31 | the default sort means column `id`, direction `asc`, and `id` is allowed |
| Validation.Defaults | src/index.js:27-31 | with only the required parameters the request is accepted as page 1, size 10, `id` ascending |
| Validation.NumericPageAndSize | src/index.js:27-28 | a page and size sent as numerals at least 1 are accepted as those numbers |
| Validation.NonNumericPageAccepted | src/index.js:27-35 | a page that does not start with a digit, a sign or whitespace parses to NaN and passes the range check |
| Validation.SortTokensOf | src/index.js:30-31 | `column,direction` splits into its two halves, and a sort without a comma gets direction `asc` |
| Validation.DescendingIff | src/index.js:41 | the direction is DESC exactly for `desc` in any mix of cases, and ASC for every other token, including garbage |
| Validation.EqualIgnoringCaseIff | src/index.js:38 | two strings are equal up to case exactly when their lower-case forms are equal |
| Validation.AllowedColumnIff | src/index.js:37-38 | a column is accepted exactly when it spells one of the four allowed names in some mix of cases |
| Validation.AllowedColumnIsIdentifier | src/index.js:38-57 | an accepted column, which is interpolated into the SQL text as written, consists only of letters and `_` and has the length of an allowed name |
| Pagination.OffsetOfPage | src/index.js:53 | for page and size at least 1 the offset is a non-negative multiple of the size from which the page is recovered |
| Pagination.OffsetNaN | src/index.js:53 | the offset is NaN exactly when the page or the size is NaN |
| Pagination.TotalPagesBounds | src/index.js:69 | no rows means zero pages; otherwise the page count is the least number of pages whose capacity holds all rows |
| Pagination.PageNonEmptyIff | src/index.js:53-69 | page `p` of a `LIMIT size OFFSET (p-1)*size` query holds a row exactly when `p <= totalPages` |
| Pagination.PagesCoverAllRows | src/index.js:53-69 | the row counts of pages 1 to `totalPages` add up to the number of matching rows |
| Pagination.MakePageInfo | src/index.js:69-77 | the `pagination` object echoes the item count, page and size, and its page count bounds the items from both sides |
| Sql.Queries | src/index.js:44-62 | the count and the page query share one filter; the page is limited to `size` rows from `(page - 1) * size` and sorted by the validated column and direction |
| Sql.ParseRender | src/index.js:44-62 | the rendered statement determines its query: text plus bind values can be read back losslessly |
| Sql.QueriesAreSafe | src/index.js:37-62 | for an accepted request both statements contain only the handler's keywords, its schema names, an allow-listed column and ASC/DESC, and every placeholder has a bound value |
| Sql.CountTextFixed | src/index.js:44-51 | the count statement's text is the same for every request |
| Sql.PageTextDependsOnlyOnSort | src/index.js:54-60 | two page statements have the same text exactly when they sort by the same column and direction |
| Sql.SharedFilter | src/index.js:44-62 | both statements carry the same FROM/WHERE text; the page binds `[codigo, data]` followed by size and offset |
| Rows.FormatResponse | src/index.js:89-110 | one record per row, in row order, each record the shape of its row |
| Rows.FormatCopiesFields | src/index.js:89-110 | every field except the two identifiers and the amount is copied unchanged, and the amount is read from `valor_movimento` |
| Rows.FormatAppend | src/index.js:90 | shaping distributes over concatenation of row lists |
| Rows.ShapeRoundTrip | src/index.js:89-110 | a row whose identifier columns hold integer text is recovered from its record: the identifiers through `parseInt`, the fifteen copied fields verbatim, and the amount through its symbolic `parseFloat` |
| Rows.ShapeReadsIdentifiers | src/index.js:91-100 | the record's `id` and `id_cliente` are the integers written in the row |
| Handler.Handle | src/index.js:18-42 | a 400 is answered exactly when validation fails, with that check's message and no statement sent; an accepted request is answered by `Handler.Respond` on the validated values |
| Handler.Respond | src/index.js:43-86 | an accepted request never gets a 400; a 500 carries the internal-error message after one or two statements; a 200 follows both; what is sent is always a prefix of [count, page] |
| Handler.SentStatementsAreSafe | src/index.js:37-67 | every statement that reaches the store, for any request, is safe in the sense of `Sql.Safe` |
| Handler.SentStatements | src/index.js:49-67 | the count statement binds `[codigoClassificador, dataContabil]`, and the page statement binds the same values followed by size and offset |
| Handler.ServerErrorIff | src/index.js:64-86 | a 500 is answered exactly when the count call or the page call fails |
| Handler.FoundEchoesRequest | src/index.js:71-79 | a 200 echoes the validated page and size and carries one record per returned row |
| Handler.FoundFromStore | src/index.js:64-79 | a 200 is the envelope built from the parsed count text and the shaped rows |
| Handler.FoundPage | src/index.js:53-79 | against a store whose count text parses to the item count and which honours LIMIT/OFFSET, the answer reports that count and the ceiling page count, holds at most `size` records, and is non-empty exactly for pages up to `totalPages` |
| Handler.ThreeRowsPageOneOfTwo | src/index.js:18-87 | three matching rows with `page=1&size=2`, against a store that honours LIMIT/OFFSET, give two records and `{totalItems: 3, totalPages: 2, currentPage: 1, pageSize: 2}` |
| Handler.NoMatchingRows | src/index.js:64-79 | a count of `0` with no rows gives an empty 200 answer with zero items and zero pages |

## Left out

- Server setup, the connection pool, CORS, JSON body parsing and `listen` (lines 1-16 and 112-115) are environment. They are not modelled.
- The `console.error` logging on failure is not modelled. It has no effect on the answer.
- The database is not modelled. The store is any pair of functions from statements to answers, and the SQL itself (matching, ordering, LIMIT/OFFSET) is left abstract.
  - `Handler.FoundPage` states the LIMIT/OFFSET behaviour as a precondition on the store.
  - A missing count row, which makes the code throw, is modelled as a failing count call, i.e. a 500.
- Exact whitespace and layout of the SQL text are not modelled. Statements are token sequences.
- Column values other than the two identifiers and the amount are treated as opaque cells. Columns of `SELECT *` that `formatResponse` does not read are dropped.
- Rows.ShapeRoundTrip: the amount half of the round trip holds only because `parseFloat` is symbolic. In the real program `parseFloat("19.90")` and `parseFloat("19.9")` are equal, so two rows that differ only in the amount's spelling give the same record.
- Rows.FormatResponse: `parseFloat(valor_movimento)` is kept symbolic as `FloatOf(cell)`, because floating point is not modelled.
- JsNumber.ParseIntNumeral: integers are unbounded. `parseInt` results beyond 2^53 lose precision in JavaScript but not here. `parseInt("-0")` is the integer 0 rather than -0.
- Handler.Respond: JSON serialisation is not modelled. In particular, NaN in the envelope becomes `null` in the real answer.
- JsString.Lower lower-cases ASCII letters only, whereas JavaScript lower-cases all of Unicode. The handler only compares lower-case forms against ASCII targets: `desc` and the four column names. The only non-ASCII characters whose lower-case form contains an ASCII letter are U+212A KELVIN SIGN (to `k`) and U+0130 (to `i` followed by U+0307). Neither can complete a target, so the accept/reject verdicts are the same.
- A query parameter repeated in the URL arrives as an array in Express. Parameters are modelled as single strings, so that case is not covered.
