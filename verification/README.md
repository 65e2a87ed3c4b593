# App Store Connect client: request pipeline and report parsing

A Dafny model of the core of a small App Store Connect API client. The model covers two parts.

The first part is the request/response pipeline of `lib/api/index.ts`:
- the API handle (`makeAPI`);
- the request headers;
- the query sanitizer and the `qs` repeat-format encoder;
- the request `call` builds, and the branch it takes on the response: absent, inflated GZIP text, or decoded JSON;
- the JSON error-envelope check and `APIError`'s message;
- the JSON reviver, which turns URL and ISO-date strings into objects.

The second part is the report post-processing of `lib/v1/routes/finance-reports/index.ts`:
- `removeRows`;
- the `FINANCE_DETAIL` preamble rule of `parseTsv`;
- the renaming of the parsed rows and columns through `mapKey`;
- the request shape of the two download functions.

JavaScript values are the datatype `Js.Value`: null, booleans, numbers, strings, arrays, plain objects, a Luxon `DateTime` (valid, or invalid with a `null` ISO text) and a WHATWG `URL`.

A plain object is an ordered list of fields, not a map. The model enumerates the keys of an object in insertion order. That is JavaScript's order for keys that are not integer-like; JavaScript lists integer-like keys such as `"2020"` first, in ascending order (see "## Left out"). `qs` relies on this order for the order of the pairs. lodash `mapKeys` relies on it to decide which column wins when two columns rename alike.

Property access takes the first field with the key (`Js.Lookup`). Property assignment overwrites in place or appends (`Js.Assign`).

JavaScript exceptions are the `Js.Error` cases of a `Result`.

Every library the code calls is a function-valued parameter, gathered in `Api.Foreign`, `Api.Zlib`, `Reviver.Parsers` and `FinanceReports.Dsv`:
- `got`;
- `JSON.parse` and `JSON.stringify`;
- `new URL` and `DateTime.fromISO`;
- zlib and Buffer decoding;
- `qs` percent-encoding;
- d3 `tsvParse`;
- lodash `snakeCase(deburr(·))`.

Behaviours of the code a reader may not expect:
- An empty response body yields an absent result only for text responses. A GZIP response arrives as a Buffer, and a Buffer is truthy even when empty, so an empty GZIP body goes to the inflater (`Api.EmptyGzipBodyIsInflated`).
- The error-envelope check fires on any `errors` array, including an empty one (`Api.EmptyErrorsArrayIsError`).
- A JSON body of `null` throws a TypeError when `null.errors` is read. It is not returned as a value.
- A transport failure whose error carries no `response` throws a TypeError when `error.response.body` is read. So does a `sanitize` failure, because it is thrown inside the same `try`.
- `sanitize` is not idempotent. `{href: new URL(u)}` becomes `{href: u}` and then the bare string `u`. The model proves exactly when it is idempotent (`Sanitizer.SanitizeIdempotentIff`).
- An invalid Luxon DateTime in a query sanitizes to `null`, because its `toISO()` returns `null`; `qs` then prints the key with an empty value.
- The fixpoints of `sanitize` are the trees with no DateTime, no URL, no object with a truthy `isLuxonDateTime`, and no object with a non-empty string `href` (`Sanitizer.SanitizeFixpoints`).
- A plain object with a truthy `isLuxonDateTime` property passes the DateTime test. Calling its missing `toISO` then throws a TypeError.
- The preamble rule drops three lines only when the text has at least three line breaks. With fewer, only the last line survives (`FinanceReports.TsvTextPreamble`).

Modules, one file each: `Seqs` (sequence helpers), `Js`, `Sanitizer`, `QueryString`, `Reviver`, `Api` and `FinanceReports`.

## Model

| member | source | states |
|---|---|---|
| Api.MakeApi | lib/api/index.ts:13-15 | The base URL is kept. The token is stored exactly when it is present and non-empty; otherwise the handle holds `null`. |
| Api.MakeApiIdempotent | lib/api/index.ts:13-15 | Normalising the token of an existing handle again changes nothing. |
| Api.ApiErrorMessageParts | lib/api/index.ts:20-22 | An APIError's message is `"<code> <message>"`, with `undefined` for a missing part. The first word is the status code and reads back as the same number; the rest is the status message. |
| Api.Headers | lib/api/index.ts:112-127 | `Accept` is always set, to the requested content type or to `application/json` by default. `authorization` is `Bearer <token>` and is added exactly when the token is truthy. No other header is set. |
| Api.HeadersCarryToken | lib/api/index.ts:112-127 | A server reading the bearer token back from the headers gets the handle's token, and none when the handle has none. |
| Api.Gunzip | lib/api/index.ts:225-246 | Inflation failure is a DecompressionError. Otherwise the result is the raw inflated bytes exactly when the encoding is nil (`isNil`), and otherwise the inflated bytes decoded with the given encoding. |
| Api.RequestBody | lib/api/index.ts:211-217 | A request body is sent exactly when the caller gives one, and it is `JSON.stringify` of that object. |
| Api.BuildRequest | lib/api/index.ts:88-96 | Building the request fails exactly when the query is present and `sanitize` throws. Otherwise the request carries the base URL, path, verb, the headers of the handle's token and accept type, and the encoded query. Its body is `JSON.stringify` of the caller's body when there is one, and absent otherwise. A binary response is requested exactly for GZIP. |
| Api.ReviveKeepsErrorsArray | lib/api/index.ts:135-140 | Reviving never creates or removes a top-level `errors` array. |
| Api.Json | lib/api/index.ts:129-145 | Unparseable text is a SyntaxError and a parsed `null` is a TypeError. An APIError is raised exactly when the parsed value has an `errors` array, and it carries the whole revived object and the status message. Otherwise the revived value is returned. |
| Api.EmptyErrorsArrayIsError | lib/api/index.ts:140-142 | `{"errors": []}` is an error envelope too. |
| Api.Call | lib/api/index.ts:80-110 | A failed request build or a rejection without a response is a TypeError. A rejection with a response is a transport error whose message is that response's body. A falsy body is an absent result. A truthy GZIP body is inflated: a DecompressionError when inflation fails, else the UTF-8 text of the inflated bytes. Any other truthy body gives exactly what `json` gives for it with the response's status code and message. |
| Api.GzipCallIgnoresJson | lib/api/index.ts:105-106 | A GZIP call's outcome does not depend on the JSON parser or the reviver. |
| Api.JsonCallIgnoresInflate | lib/api/index.ts:107-108 | A non-GZIP call's outcome does not depend on the inflater. |
| Api.EmptyGzipBodyIsInflated | lib/api/index.ts:103-106 | An empty GZIP response, whatever its status, is never an absent result: it goes to the inflater, and fails if the inflater rejects empty input. |
| Sanitizer.Sanitize | lib/api/index.ts:193-209 | The only failure is a TypeError. Output holds no DateTime or URL. Scalars pass unchanged. A DateTime becomes its ISO text (`null` when invalid). A URL becomes its `href` (an empty object when that is empty). Array element i and object field i of the output are the sanitized element or field i of the input, and keys keep their order. A plain object with a truthy `isLuxonDateTime` throws; otherwise one with a non-empty string `href` becomes that string. |
| Sanitizer.SanitizeFailsIffPoisoned | lib/api/index.ts:193-209 | `sanitize` throws exactly when it reaches a plain object with a truthy `isLuxonDateTime`. |
| Sanitizer.DuckTypingOrder | lib/api/index.ts:197-200 | The DateTime test comes first. A plain object with a non-empty string `href` collapses to it; an empty `href` leaves a plain object with the same keys. |
| Sanitizer.SanitizeFixpoints | lib/api/index.ts:193-209 | `sanitize` returns its input unchanged exactly on trees with no DateTime, no URL and no object either duck-typed test fires on. |
| Sanitizer.SanitizedCleanIff | lib/api/index.ts:193-209 | A sanitized tree is a fixpoint exactly when the input had no rebuilt object whose `href` only becomes a non-empty string once sanitized. |
| Sanitizer.SanitizeIdempotentIff | lib/api/index.ts:193-209 | Sanitizing twice equals sanitizing once exactly when the input has no such late `href`. |
| Sanitizer.SanitizeNotIdempotent | lib/api/index.ts:199-205 | Some input sanitizes successfully but gives a different result when sanitized again. |
| QueryString.Query | lib/api/index.ts:183-191 | An absent query gives no query string. Otherwise a query string is produced exactly when `sanitize` succeeds, and its failure is a TypeError. |
| QueryString.PairsAreLeaves | lib/api/index.ts:187-190 | Under a key prefix, `qs` emits one pair per scalar leaf, in order, keyed by the prefix and the leaf's object-key path in brackets. Array positions never appear. |
| QueryString.QueryPairsAreLeaves | lib/api/index.ts:187-190 | The pairs of a whole query are its scalar leaves in order, keyed `a[b][c]` by their object-key paths. |
| QueryString.RepeatFormat | lib/api/index.ts:188 | An array of scalars under a key repeats that key once per element, in order. |
| QueryString.TagsExample | lib/api/index.ts:183-191 | `{tags: ['a', 'b']}` encodes as `tags=a&tags=b`. |
| Reviver.ReviveString | lib/api/index.ts:147-160 | A string becomes a URL exactly when the URL parser accepts it. Otherwise it becomes a DateTime exactly when the date parser accepts it, and otherwise it stays the same string. |
| Reviver.JsonParser | lib/api/index.ts:147-160 | Non-string values are never changed; strings become strings, URLs or DateTimes. |
| Reviver.Revive | lib/api/index.ts:135 | Parsing with the reviver revives every array element and every field value in place, keys unchanged, and each string leaf as `jsonParser` does. Non-string scalars are unchanged. |
| Reviver.UrlBeforeDate | lib/api/index.ts:149-152 | Once the URL parser accepts a string, the date parser is never consulted. |
| Reviver.SanitizeRevived | lib/api/index.ts:193-209 | Sanitizing a revived response tree whose raw data `sanitize` leaves alone gives back the raw tree, with each string replaced by its URL `href` or date ISO text. |
| FinanceReports.RemoveRowsSuffix | lib/v1/routes/finance-reports/index.ts:50-56 | `removeRows(s, 0)` is `s`, and every result is a suffix of `s`. |
| FinanceReports.RemoveRowsDropsLines | lib/v1/routes/finance-reports/index.ts:50-56 | `removeRows(s, n)` is the text from line `n` on, joined by line breaks. It never drops the last line. |
| FinanceReports.RemoveRowsAfterBreaks | lib/v1/routes/finance-reports/index.ts:51-53 | With at least `n` line breaks, the removed prefix holds exactly `n` line breaks and ends with one: the result is the text after the n-th break. |
| FinanceReports.RemoveRowsNoBreak | lib/v1/routes/finance-reports/index.ts:52 | Without a line break (`indexOf` gives -1), the text is unchanged. |
| FinanceReports.RemoveRowsKeepsLastLine | lib/v1/routes/finance-reports/index.ts:52 | Once the line breaks run out, the last line is kept. |
| FinanceReports.LinesRoundTrip | lib/v1/routes/finance-reports/index.ts:52 | Splitting on line breaks and joining again gives back the text. |
| FinanceReports.UnlinesRoundTrip | lib/v1/routes/finance-reports/index.ts:52 | Joining lines free of line breaks and splitting again gives back the lines. |
| FinanceReports.CountLines | lib/v1/routes/finance-reports/index.ts:52 | A text has one more line than line breaks. |
| FinanceReports.MapKeysLookup | lib/v1/routes/finance-reports/index.ts:66 | A renamed row holds, under each renamed key, the value of the last column renamed to it. |
| FinanceReports.LastRenamedToSome | lib/v1/routes/finance-reports/index.ts:66 | A renamed key is present exactly when some column renames to it. |
| FinanceReports.MapKeysDistinct | lib/v1/routes/finance-reports/index.ts:66 | No key of a renamed row occurs twice. |
| FinanceReports.AssignDistinct | lib/v1/routes/finance-reports/index.ts:66 | Assigning a property keeps the keys of an object distinct. |
| FinanceReports.MapKeysPointwise | lib/v1/routes/finance-reports/index.ts:66 | When no two columns rename alike, each property is renamed in place with its value. |
| FinanceReports.IsFinanceDetail | lib/v1/routes/finance-reports/index.ts:62 | A null query is a TypeError. For any other query the test holds exactly when `filter` is an object whose `reportType` is `FINANCE_DETAIL`. |
| FinanceReports.TsvText | lib/v1/routes/finance-reports/index.ts:62-64 | Other report types reach the parser unmodified; a detailed report reaches it as a suffix of the body. |
| FinanceReports.TsvTextPreamble | lib/v1/routes/finance-reports/index.ts:62-64 | A detailed report loses exactly a prefix with three line breaks ending in one. With fewer line breaks, only the last line is left. |
| FinanceReports.PreambleRule | lib/v1/routes/finance-reports/index.ts:62-65 | A detailed finance query hands the table parser the body after `removeRows(body, 3)`; any other non-null query hands it the body unchanged. |
| FinanceReports.ParseTsv | lib/v1/routes/finance-reports/index.ts:58-70 | A null query is a TypeError. Otherwise the result is the renaming of the table parsed from the preamble-stripped text: `originalColumns` is the parsed header, `columns` has its length with `columns[i]` the renamed `originalColumns[i]`, and the row count is kept. |
| FinanceReports.Renaming | lib/v1/routes/finance-reports/index.ts:66-68 | The header survives unchanged as `originalColumns`; `columns` is index-aligned with it, each entry the normalised header name; output row i is parsed row i passed through `mapKeys`. |
| FinanceReports.RowRenamed | lib/v1/routes/finance-reports/index.ts:66 | For any parsed table, each output row has distinct keys: exactly the renamed keys of its parsed row, each holding the value of the last column renamed to it. |
| FinanceReports.RowKeysAmongColumns | lib/v1/routes/finance-reports/index.ts:66-68 | For a parsed row whose keys are all header columns, every key of its output row appears in `columns`: rows and header are renamed alike. |
| FinanceReports.RowsFollowColumns | lib/v1/routes/finance-reports/index.ts:66-68 | For a parsed row keyed by the header, when the renamed columns are distinct, the output row has exactly `columns` as its keys, in order, each with its original column's value. |
| FinanceReports.DownloadFinancialReports | lib/v1/routes/finance-reports/index.ts:9-19 | A query `sanitize` rejects is a TypeError. A failed call passes its error on, an inflated body is handed to `parseTsv`, and an absent body is a TypeError. A result comes only from a truthy response, and an APIError or SyntaxError never occurs. |
| FinanceReports.DownloadSalesReports | lib/v1/routes/finance-reports/index.ts:38-48 | The same as the finance download, for the `salesReports` path. |
| FinanceReports.ReportRequest | lib/v1/routes/finance-reports/index.ts:13-16 | Both downloads send one GET on their path with `Accept: application/a-gzip`, no body, a binary response type, and the caller's query sanitized and encoded in repeat format. |

## Left out

- The `got` transport is a parameter from the request to a response or rejection. Network I/O, `prefixUrl` resolution, status-code handling inside `got`, and the Promise machinery are not modelled.
- `HEAD`, `GET`, `POST`, `PUT`, `PATCH` and `DELETE` (lib/api/index.ts:37-78) only pass their verb to `call`, which the model takes as a `Method` argument.
- `JSON.parse`, `JSON.stringify`, `new URL`, Luxon `DateTime.fromISO`/`toISO`, zlib inflation, Buffer decoding and `qs` percent-encoding are function parameters. Their own behaviour is not modelled.
- The `url` and `iso` parsers are assumed to reject the empty string and never to return empty text. This is the `Reviver.Sound` requirement of `Reviver.SanitizeRevived`.
- d3 `tsvParse`/`autoType` and lodash `snakeCase`/`deburr` are function parameters. Per-cell type inference and accent removal are therefore not modelled.
- Numbers are integers. Floating point, `NaN` and `Infinity` are not modelled.
- `undefined` is modelled as an absent `Option`, not as a `Value`.
- Api.Gunzip: Buffer decoding is a total function of the encoding and the bytes, so the rejection when `unzipped.toString(encoding)` throws on an unknown encoding (lib/api/index.ts:238-239) is not modelled. `call` always passes `'utf8'`, which never throws.
- `gunzip` without an encoding is covered only by `Api.Gunzip`; `call` always passes `'utf8'`.
- Api.Json: the message comes from the status code and message given as parameters. Their origin in the raw response is not modelled beyond `Api.Call` passing them on.
- FinanceReports.DownloadFinancialReports: an absent result (a falsy body) makes `parseTsv` throw a TypeError. The model returns that TypeError instead of reading a property of `undefined`.
- Js.Assign: appends every new key, so integer-like keys keep their insertion position instead of moving to the front in ascending order as JavaScript enumerates them. For reports with integer-like column names, the "in order" parts of `FinanceReports.MapKeysPointwise` and `FinanceReports.RowsFollowColumns` and the pair order of `QueryString.QueryPairsAreLeaves` therefore differ from JavaScript. Modelling the two-tier key order would mean a second key ordering throughout the model.
- The type-only interfaces (`API`, `APIOptions`, the query and `RowArray` interfaces) carry no behaviour. They appear only as datatypes.
- `examples/getting-started.js` is environment, file and console I/O and is not part of this model.
