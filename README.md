# RequestLogger formatter in Dafny

`RequestLogger` is an Alamofire add-on. It watches completed `URLSessionTask`s and prints at most
one log entry per task. Its verbosity is one of three levels: `verbose`, `debug` or `error`.
Verbose and debug log every task; error level logs only the tasks that failed. This
project models the part of it that decides what the log entry says. There are four pieces:

- **Request renderers.** These are the `URLRequest` extensions `curlString` and `string`. Each
  builds a list of tokens from the URL, the HTTP method, the header dictionary (minus the
  `Cookie` header) and a UTF-8 body. `curlString` joins the tokens with a shell continuation
  (space, backslash, newline, tab) and `string` joins them with newlines. Both are `method`s
  with the source's loop over the headers. Each is proved equal to `Join` of the pure token
  list `Tokens(style, req, fd)`.
- **Body renderer.** `prettyPrint(with:)` becomes the function `PrettyPrint`. Its control flow
  runs over the Foundation calls, which it receives as a `Foundation` value of total
  functions.
- **Exchange formatter.** The level switch of `RequestLogger.parse` is `Parse`, split into one
  method per level: `ParseVerbose`, `ParseDebug` and `ParseError`. Each builds the log text with
  `+` just as the source builds it with `+=`. Each call of `log` appends to the out-parameter
  `logged`. The verbose HTML branch logs and leaves through a labelled `break`, as the source's
  `break` leaves the `switch`. Every method is proved against the pure function
  `Format(exchange, level, fd): Option<string>`, where `None` means `log` is never called.
- **Level.** The three-case datatype `Level` selects the template.

The module `Text` models the two Swift library operations the formatter relies on.
`Join` is `joined(separator:)`. `IntToString` is the decimal text that string interpolation
gives an `Int`; the task identifier and the status code are rendered this way.

Quirks of the source that the model keeps:

- **HTML marker.** The marker reads
  `\nData : HTML (for print html responce enable logHTMLResponse to true)`.
- **HTML is always suppressed.** `logHTMLResponse` is declared but never read. No setting lets
  an HTML body be logged.
- **Verbose heading.** The verbose heading is `Request <id> : `, with a space before the colon.
  Debug and error use `Request <id>: `.
- **MIME line on errors.** With an error and a response, verbose and debug add only the status
  code. Error level adds the status code and the MIME type.

## Model

| member | source | states |
|---|---|---|
| `RequestLogger.Tokens` | RequestLogger.swift:221-263 | The token list `curlString` or `string` joins. It is computed as lead tokens, header tokens and the body token, and is empty exactly when the request has no URL. `CurlTokensShape`, `CurlTokensCount` and `SummaryTokensShape` state its shape and length. |
| `RequestLogger.CurlString` | RequestLogger.swift:220-245 | `curlString` returns the curl tokens joined with the continuation separator. The tokens are `curl <url>` (plus ` --head` for HEAD), `-X <method>`, one `-H` per non-Cookie header in iteration order, and `-d` for a decodable body. It returns `""` without a URL. |
| `RequestLogger.SummaryString` | RequestLogger.swift:247-267 | `string` returns the summary lines joined with newlines. The lines are the URL line, the method line, one `HTTPHeader` line per non-Cookie header and the `httpBody` line. It returns `""` without a URL. |
| `RequestLogger.NoUrlRendersEmpty` | RequestLogger.swift:220-267 | Both renderings of a request without a URL are the empty string. |
| `RequestLogger.CurlBareGet` | RequestLogger.swift:222-244 | A GET with no headers and no body renders as exactly `curl <url>`, with no separator. |
| `RequestLogger.CurlTokensShape` | RequestLogger.swift:222-241 | The first curl token is `curl <url>`, ending in ` --head` exactly for HEAD. A `-X <method>` token follows it iff the method is present and is neither GET nor HEAD. Every later token is a `-H` or `-d` flag, so HEAD and GET get no `-X`. |
| `RequestLogger.CurlTokensCount` | RequestLogger.swift:228-242 | With distinct keys, the curl token count is 1 + [method flag] + #headers − [Cookie present] + [decodable body]. |
| `RequestLogger.SummaryTokensShape` | RequestLogger.swift:250-263 | The summary starts with `URL : <url>`, then `httpMethod : <m>` when a method is present. With distinct keys, the line count is 1 + [method] + #headers − [Cookie present] + [decodable body]. |
| `RequestLogger.HeaderTokensMembers` | RequestLogger.swift:234-260 | A token is among the header tokens iff some header whose key is not `Cookie` yields it. |
| `RequestLogger.HeaderTokensCount` | RequestLogger.swift:234-260 | With distinct keys, every header yields one token except `Cookie`, which yields none. |
| `RequestLogger.HeaderTokensAppend` | RequestLogger.swift:234-237 | The loop over a concatenation of headers appends the tokens of each part in turn. |
| `RequestLogger.WithoutCookie` | RequestLogger.swift:235 | The `where key != "Cookie"` filter keeps exactly the entries whose key is not `Cookie`. |
| `RequestLogger.HeaderTokensIgnoreCookie` | RequestLogger.swift:234-260 | The header tokens equal those of the headers with every Cookie entry removed. |
| `RequestLogger.RenderersIgnoreCookie` | RequestLogger.swift:234-260 | Headers that agree once Cookie entries are dropped give identical token lists in both renderings. An absent dictionary counts as an empty one. |
| `RequestLogger.HeaderTokensPermutation` | RequestLogger.swift:234-260 | Header lists with the same multiset of entries yield the same multiset of tokens. |
| `RequestLogger.RenderersIgnoreHeaderOrder` | RequestLogger.swift:234-260 | Reordering the header dictionary only permutes the tokens of either rendering. An absent dictionary counts as an empty one. |
| `RequestLogger.PrettyPrint` | RequestLogger.swift:155-169 | `prettyPrint(with:)` is total. Its text is empty, or the UTF-8 decoding of the body, or that of the body's pretty-printed form, and never anything else. `PrettyPrintFallback` and `PrettyPrintParsed` state which one each case gives. |
| `RequestLogger.PrettyPrintFallback` | RequestLogger.swift:156-168 | When JSON parsing or re-serialising throws, `prettyPrint` is the UTF-8 decoding of the raw data if there is one, else `""`. |
| `RequestLogger.PrettyPrintParsed` | RequestLogger.swift:157-168 | When both JSON calls succeed, `prettyPrint` is the UTF-8 decoding of the pretty bytes, or `""` if they do not decode. There is no raw fallback. |
| `RequestLogger.Format` | RequestLogger.swift:68-138 | The text `parse` logs for one task at one level, or none. Logged text always opens with its level's heading. `ErrorLevelLogsOnlyErrors`, `VerboseAndDebugAlwaysLog`, `ErrorEnding`, `HtmlSuppressedAtVerbose` and `DataShownAtVerbose` state the rest. |
| `RequestLogger.Parse` | RequestLogger.swift:68-138 | `parse` calls `log` once with `Format(...)`'s text when that is `Some`, and never when it is `None`. |
| `RequestLogger.ParseVerbose` | RequestLogger.swift:69-103 | The verbose branch logs exactly one text. It is the verbose `Format`: heading with curl, outcome, then the HTML marker or the data block. The HTML `break` keeps it to one log. |
| `RequestLogger.ParseDebug` | RequestLogger.swift:104-121 | The debug branch logs exactly one text, the debug `Format`: heading and outcome, never data. |
| `RequestLogger.ParseError` | RequestLogger.swift:122-137 | The error branch logs nothing without an error. Otherwise it logs exactly the error-level `Format`. |
| `RequestLogger.ErrorLevelLogsOnlyErrors` | RequestLogger.swift:122-137 | At error level a task is logged iff it has an error, whatever its response and data. |
| `RequestLogger.VerboseAndDebugAlwaysLog` | RequestLogger.swift:68-121 | At verbose and debug level every task is logged. |
| `RequestLogger.DataOnlyInVerboseSuccess` | RequestLogger.swift:74-134 | With an error, or at debug or error level, the response data has no influence on the log text. |
| `RequestLogger.HeadingByLevel` | RequestLogger.swift:70-125 | The verbose entry starts `Request <id> : ` and the other levels start `Request <id>: `. |
| `RequestLogger.ErrorEnding` | RequestLogger.swift:74-134 | A task with an error is logged at every level, and its text ends with the error block, so no data follows it. Without an HTTP response the text ends with the error line. With one, error level ends with the status and MIME lines, and verbose and debug end with the status line. |
| `RequestLogger.HtmlSuppressedAtVerbose` | RequestLogger.swift:89-93 | A verbose, error-free `text/html` response ends with the HTML marker, and its data has no influence on the text. |
| `RequestLogger.DataShownAtVerbose` | RequestLogger.swift:96-99 | A verbose, error-free, non-HTML task with data ends with `\nData :\n` and the rendered body. |
| `Text.Join` | RequestLogger.swift:244 | `joined(separator:)`: the empty string for no tokens. Otherwise its length is the tokens' total length plus one separator per pair of neighbours. `JoinFirst` and `JoinAppend` state where the tokens go. |
| `Text.JoinAppend` | RequestLogger.swift:244 | Joining a non-empty token list with one more token appends the separator and that token. |
| `Text.JoinFirst` | RequestLogger.swift:244 | A joined non-empty list starts with its first token, and a single token is joined to itself. |
| `Text.NatToStringDigits` | RequestLogger.swift:70 | The decimal text of a natural is non-empty, all digits, and has a leading `0` only for zero. |
| `Text.NatToStringValue` | RequestLogger.swift:70 | Reading the decimal text of a natural back gives that natural. |
| `Text.NatToStringInjective` | RequestLogger.swift:70 | Distinct naturals have distinct decimal texts. |
| `Text.IntToString` | RequestLogger.swift:70 | The text `Int` interpolation gives for the task identifier and the status code. It is never empty and starts with `-` iff the number is negative. `NatToStringValue` and `IntToStringInjective` show it loses nothing. |
| `Text.IntToStringInjective` | RequestLogger.swift:70 | Distinct task identifiers and status codes render as distinct texts. |

## Left out

- The observer lifecycle (`startLogging`, `beginLogging`, `endLogging`, `deinit`, lines 40-61) is `NotificationCenter` plumbing on an `OperationQueue` and is not modelled.
- The `enabled` flag and its default (line 29) only gate that subscription.
- The payload casts in `parse` (lines 64-66) are Alamofire runtime downcasts. The model starts from a typed `Exchange` instead.
- The `sessionDelegate[task]?.delegate.data` lookup (line 96) is Alamofire internals. `Exchange.data` stands for its result.
- A response that is not an `HTTPURLResponse` fails the casts at lines 76, 80, 109, 113 and 129. It is modelled as no response.
- `log` (lines 143-149) is console output on a `DispatchQueue`. The model records each call as an element of `logged` and leaves out the separator lines and the asynchrony.
- `Environment` (lines 190-214) holds compile-time build flags and has no logic.
- `Level.description` (lines 175-177) relies on reflection through `String(describing:)`.
- The `==` and `<` operators on `Level` (lines 182-188) compare `hashValue`, which Swift does not promise to be stable or ordered. No ordering of the levels is modelled or proved.
- `JSONSerialization` and `String(data:encoding:)` are Foundation code that is not part of this model. They are total functions in the `Foundation` parameter; `None` stands for a thrown error or a `nil` result.
- The iteration order of `allHTTPHeaderFields` is unspecified. Headers are a sequence in some iteration order; order-independence is stated as a multiset lemma, and header properties as membership and counts.
- `logHTMLResponse` (line 31) is stored but never read by `parse`, so the model has no such input.
- The single `switch` of `parse` is split into one method per level (`ParseVerbose`, `ParseDebug`, `ParseError`), and `Parse` dispatches to them. The text each branch builds is unchanged.
