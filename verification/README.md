# gent: endpoint templating, pooled writer and middleware chain, in Dafny

This project models the core of `gent`, a Go HTTP client wrapper:

- the paged byte buffer (`buffer`), the pooled writer (`writer`) and the
  bounded page pool (`MemPool`);
- the endpoint formatter of a client request (`Request.fmtEndpoint`), which
  fills `{}` placeholders with percent-escaped path parameters and appends
  the query string;
- the `RequestBuilder` setters and `Build`, with the builder's own endpoint
  scanner;
- the per-request middleware chain (`Request.Next`, `prepare`, `execute`),
  the chain `Client.Do` assembles, and `Client.Use` and
  `getClientForRequest`;
- the request context (`Context`): its value store, `Error`, `Next` and `do`;
- the retry predicate (`ShouldRetry`) and the two retrier constructors;
- the client options and `newConfiguration`.

Everything is immutable data and pure functions. Go's mutable state becomes
a value that is passed in and returned; the page pool, for instance, is
threaded through every call that uses it. Bytes are integers 0..255, and a
Go string is a sequence of them. A Go nil becomes `None`, or an empty map or
sequence where nil and empty read the same. Code the library calls but does
not own is a function parameter:

- marshalers;
- `http.NewRequestWithContext`;
- `HttpClient.Do` and `Requester.Do`;
- `url.PathEscape`;
- the HTTP client constructor.

A user middleware is arbitrary Go code. Here it is a script of `Step`s:
- set a value;
- delete a value;
- record an error;
- call `Next`.

The modules follow the source files:

| file | module | models |
|---|---|---|
| `common.dfy` | `Common` | bytes, pages, results, errors |
| `mempool.dfy` | `MemPool` | mempool.go |
| `buffer.dfy` | `Buffer` | buffer.go |
| `escape.dfy` | `Escape` | `shouldEscape` and `escape` (their file is not part of this model; its tests are) |
| `writer.dfy` | `Writer` | writer.go |
| `template.dfy` | `Template` | reference definitions for templates and query strings |
| `format.dfy` | `EndpointFormat` | `fmtEndpoint` (request.go) |
| `builder.dfy` | `Builder` | builder.go |
| `middleware.dfy` | `Middleware` | the value store and middleware steps |
| `request.dfy` | `Requests` | request.go |
| `context.dfy` | `Contexts` | context.go |
| `retrier.dfy` | `Retriers` | retrier.go |
| `options.dfy` | `Options` | options.go |
| `client.dfy` | `Clients` | client.go |
| `scanners.dfy` | `Scanners` | the two endpoint scanners compared |

Where the code and its documentation disagree, the model follows the code:

- `prepare` does not fail when a request has a body but no marshaler. It
  sends an empty body.
- `Client.Do` never consults the configured retrier. `execute` sends once.
- `fmtEndpoint` treats a lone `}` as plain template text, while the
  builder rejects it (`Scanners.StrayCloseDiffers`).
- `WithHeader` and `WithQueryParameter` are documented as overwriting an
  existing key. The code appends to the key's values.

## Model

| member | source | states |
|---|---|---|
| MemPool.NewMemPool | mempool.go:23-31 | a new pool is empty and keeps the given page size and channel bound |
| MemPool.NewMemPoolCorrected | mempool.go:23-31 | the corrected constructor never configures a page size below 1, and is `NewMemPool` itself for any positive page size |
| MemPool.NewDefaultMemPool | mempool.go:13-18 | the default pool is empty, with 256-byte pages and room for 100 of them |
| MemPool.Acquire | mempool.go:35-42 | the oldest pooled page comes back with length 0; with nothing pooled, a fresh page of the configured capacity comes back and the pool is unchanged |
| MemPool.Offer | mempool.go:48-51 | a returned page is kept, truncated, only while the channel has room, and is otherwise dropped |
| MemPool.Release | mempool.go:46-53 | releasing k pages leaves min(bound, before + k) pooled: the earlier ones first, in order, with the overflow dropped |
| MemPool.ReleaseAppend | mempool.go:46-53 | releasing one list and then another leaves the pool exactly as releasing the two joined |
| MemPool.ReleasePositive | mempool.go:46-53 | releasing pages that have room never pools a page without room |
| MemPool.RunKeepsBound | mempool.go:35-53 | no sequence of acquires and releases makes the pool exceed its bound or changes its configuration |
| MemPool.ReleaseThenAcquire | mempool.go:35-53 | a page released into an empty pool comes back from the next acquire with length 0 and its capacity kept |
| Buffer.NewBuffer | buffer.go:12-17 | a new buffer holds exactly its first page, with nothing retired |
| Buffer.Add | buffer.go:40-44 | adding a page retires the current one; the contents grow by exactly the new page, and the byte counter stays consistent |
| Buffer.Len | buffer.go:47-49 | the length is the retired byte count plus the current page, which equals the length of the contents |
| Buffer.Build | buffer.go:22-36 | building appends the contents to the given slice when it has room; otherwise it builds a new slice of exactly the buffer's length holding the contents |
| Buffer.AppendPages | buffer.go:32-34 | appending the retired pages into a slice with room gives the old data followed by their concatenation, within the capacity |
| Buffer.AddAllContents | buffer.go:40-44 | after any run of adds the buffer stays valid, and its contents are the old contents followed by the pages in order |
| Escape.EscapeByte | escape_test.go:10-45 | an escaped byte is `%` plus two hex digits whose values are the byte's high and low nibbles |
| Escape.HexDigit | escape_test.go:10-45 | nibbles 0-9 map to `0`-`9` and 10-15 to upper-case `A`-`F` |
| Escape.EscapeExamples | escape_test.go:10-116 | space, newline, 0x00 and 0x7F escape to `%20`, `%0A`, `%00` and `%7F`, and letters and digits are never escaped |
| Escape.EscapedAppend | writer.go:56-67 | escaping distributes over concatenation |
| Escape.EscapedUnreserved | writer.go:56-67 | a run of unreserved bytes is written unchanged |
| Escape.EscapedAlphabet | writer.go:56-67 | escaped text contains only unreserved bytes and `%` |
| Escape.UnescapeEscaped | writer.go:56-67 | percent-decoding the escaped form gives back the original bytes |
| Escape.EscapedExample | writer_test.go:174-175 | "Test!" escapes to "Test%21" |
| Writer.NewWriter | writer.go:10-17 | a new writer holds no text and has exactly one page, acquired from the pool |
| Writer.WriteByte | writer.go:20-29 | the text grows by the byte; with room, only the current page changes and it gets the byte; on a full page, that page is retired, and a page acquired from the pool, with its capacity, becomes current holding just the byte |
| Writer.WriteByteAsString | writer.go:20-53 | writing a byte leaves writer and pool exactly as writing the one-byte string |
| Writer.Refill | writer.go:41-49 | one round of the loop: the current page is retired, and a page acquired from the pool takes min(its capacity, what is left) bytes, at least one |
| Writer.Fill | writer.go:40-51 | the text grows by the rest of the string; the current page is retired first, every page retired after it is full, and the last page is not empty |
| Writer.WriteString | writer.go:32-53 | the text grows by exactly the string; a string that fits only extends the current page; otherwise the current page is topped up to its capacity and retired, every later retired page is full, and no page goes past its capacity |
| Writer.TopUp | writer.go:36-39 | topping up the current page fills it exactly to capacity with the front of the string |
| Writer.FillAsWritten | writer.go:40-51 | the loop as written, for any pool: when it finishes, the text has grown by the rest of the string |
| Writer.ZeroPageStalls | writer.go:40-51 | with a page size of 0 and an empty pool, the loop as written does not finish after any number of rounds |
| Writer.FillAsWrittenAgrees | writer.go:40-51 | over a pool whose pages have room, the loop as written finishes within one round per byte, with the result of `Fill` |
| Writer.CorrectedPoolFinishes | mempool.go:23-31 | over the corrected pool the loop as written always finishes |
| Writer.EscapeLoop | writer.go:57-66 | from any point of the scan, the text grows by the escaped rest of the input |
| Writer.EscapeSplit | writer.go:58-66 | the escaped rest splits at the first byte that must be escaped: the unreserved run, that byte's `%XX`, then the escaped remainder |
| Writer.WriteEscaped | writer.go:56-67 | the text grows by the percent-escaped string |
| Writer.Release | writer.go:70-74 | the current page and then the retired pages go back to the pool in that order; the pool keeps the capacities of as many as it has room for, and keeps its configuration |
| Writer.FillFromEmptyPool | writer.go:38-51 | with an empty pool, writing n bytes retires one page per full page size and leaves the remainder on the last page |
| Writer.WriteStringSplitExample | writer_test.go:123-129 | on a pool of 10-byte pages, a 44-byte string ends up as four retired pages and 4 bytes on the current page |
| Writer.WriteEscapedExample | writer_test.go:158-176 | writing "Test!" escaped into an empty writer gives "Test%21" |
| EndpointFormat.ScanLoop | request.go:183-199 | the scan reports an illegal `{` exactly when a malformed `{` comes before the parameters run out; "not enough parameters" exactly when the template is otherwise sound but has more placeholders than parameters; otherwise the text so far plus the uncopied rest is the substituted template |
| EndpointFormat.ScanAll | request.go:180-199 | the same, for the whole template with no parameter used yet |
| EndpointFormat.WritePair | request.go:216-218 | a query pair is written as the escaped key, `=`, the escaped value |
| EndpointFormat.WriteValues | request.go:212-220 | every value of one key is written, in order, with `&` before every pair but the first of the query |
| EndpointFormat.WriteEntries | request.go:211-221 | all the pairs of the query are written, key by key, joined by `&` |
| EndpointFormat.WriteQuery | request.go:208-222 | an empty query adds nothing; otherwise `?` is followed by the joined pairs |
| EndpointFormat.WriteTail | request.go:204-222 | the uncopied template text is followed by the query part |
| EndpointFormat.Conclude | request.go:201-224 | a scan error is returned as is; leftover parameters are "too many parameters"; otherwise the result is the substituted template plus the query; in every case the writer's pages go back to the pool |
| EndpointFormat.FmtEndpoint | request.go:172-225 | the four outcomes are each characterised both ways (illegal format, not enough, too many, success); success gives the template with escaped parameters substituted, followed by the query; the pool keeps its configuration and does not shrink |
| EndpointFormat.PathExample | request.go:183-199 | "h/{}" with parameter "a b" substitutes to "h/a%20b" |
| EndpointFormat.FmtEndpointExample | request.go:172-225 | formatting "h/{}" with parameter "a b" and no query gives "h/a%20b" |
| Builder.NewRequest | builder.go:34-42 | a new builder has only its method and format set |
| Builder.WithRawBody | builder.go:46-52 | the body becomes the byte slice and the marshaler is cleared; nothing else changes |
| Builder.WithBody | builder.go:57-64 | body and marshaler are both replaced; nothing else changes |
| Builder.AddValues | builder.go:72-75 | a key's values grow by the new ones at the end, and other keys are untouched |
| Builder.WithHeader | builder.go:68-77 | the header value is appended to the key's values; other keys and fields are untouched |
| Builder.WithQueryParameter | builder.go:81-90 | the values are appended to the key's values; other keys and fields are untouched |
| Builder.HeadersAccumulate | builder.go:68-77 | adding a header twice under one key keeps both values, in order |
| Builder.WithPathParameters | builder.go:95-106 | the earlier parameters are kept, and each new one is appended escaped, in order |
| Builder.ScanFormat | builder.go:119-138 | from any scan position, the scan succeeds exactly when the rest is well-formed (every `{` is followed at once by `}`, and every `}` follows a `{`) with as many placeholders as unused parameters; the result is the text so far, then the uncopied text, then the substituted rest; every failure is InvalidFormat |
| Builder.Rejected | builder.go:120-137 | wherever the scan gives up (a `{` not followed by `}`, a stray `}`, a `{` with no parameter left, or an unclosed `{` at the end) the rest of the template really is malformed or has the wrong number of placeholders |
| Builder.BuildEndpoint | builder.go:112-138 | the endpoint is built exactly for well-formed templates whose placeholder count matches the parameters, and is the parameters substituted as given |
| Builder.FittingHint | builder.go:112-118 | a template that fits its parameters never gives a negative capacity hint |
| Builder.EmptyTemplateHint | builder.go:112-118 | an empty template with one empty parameter gives the hint -2, although it does not fit |
| Builder.BuildEndpointCorrected | builder.go:112-138 | the corrected endpoint step needs no precondition: it succeeds exactly for a fitting template, with the parameters substituted, and is the as-written step whenever the hint is non-negative |
| Builder.SelectBodyAsWritten | builder.go:140-152 | the body step as written: the marshaler's result if one is set; a non-nil byte slice as is; a nil body as empty; any other body, including a nil byte slice, is InvalidBodyType |
| Builder.RawNilBodyRejected | builder.go:148-152 | as written, `WithRawBody(nil)` makes the body step fail with InvalidBodyType |
| Builder.SelectBody | builder.go:140-152 | the corrected body step: without a marshaler it fails exactly for non-slice bodies, and a nil byte slice is an empty body |
| Builder.SelectBodyCorrection | builder.go:148-152 | the corrected and as-written body steps differ exactly on a nil byte slice without a marshaler |
| Builder.MergeHeaders | builder.go:172-182 | the caller's header values come first and the marshaler's follow, key by key |
| Builder.Build | builder.go:109-185 | as written: a template that does not fit gives InvalidFormat; otherwise the first failing step's error is returned, the body step being the as-written one (so a raw nil body is InvalidBodyType), and on success the request carries the built endpoint, the body data and the merged headers |
| Builder.BuildCorrected | builder.go:109-185 | the same steps, with no precondition: a template with a negative hint is InvalidFormat, and the body step is the corrected one |
| Builder.BuildCorrection | builder.go:148-152 | with a fitting template `Build` rejects a raw nil body, the corrected build treats it as no body at all, and the two agree on every other body |
| Middleware.Get | context.go:55-60 | a lookup gives the stored value and true exactly when the key is present, and nil and false otherwise; the request's `Get` (request.go:93-98) is the same lookup on the request's store |
| Middleware.Set | context.go:64-68 | after a set the key holds the new value, and every other key reads as before |
| Middleware.Del | context.go:72-76 | after a delete the key is gone, every other key reads as before, and deleting a missing key changes nothing |
| Middleware.SetSetDel | context.go:64-76 | the last of two sets wins, and deleting after a set leaves no trace of the key |
| Requests.NewRequest | request.go:42-71 | a new request starts with cursor 0, an empty store, no errors and nothing built; the inputs are kept as given |
| Requests.AddError | request.go:111-113 | an error is appended after the earlier ones, and nothing else changes |
| Requests.ReqSet | request.go:85-89 | only the store changes, and only at the key |
| Requests.RequestHeaders | request.go:145-150 | the content type is set only when it is non-empty; every caller header is set and wins over it |
| Requests.Assemble | request.go:129-155 | a marshaler runs only when there is both a body and a marshaler; a failure records exactly that step's error (the marshaler's, or the request constructor's) and changes nothing else; success stores the endpoint, the data (empty without marshaling) and the constructed request with the content type and the caller's headers |
| Requests.PrepareWork | request.go:117-156 | prepare either records exactly one error, changing nothing else but the pool, or records none; the inputs, cursor and store are kept |
| Requests.PrepareFails | request.go:117-156 | prepare stops the chain unless the template fits, the marshaler succeeds and the request can be built; the error recorded is the formatter's, the marshaler's or the request constructor's, whichever failed first |
| Requests.PrepareBuilds | request.go:117-156 | when the template fits, the marshaler succeeds and the request can be built, prepare gets through; the endpoint is the substituted template plus the query, the data is the marshaled body or empty, and the request is the constructed one with the content type and the caller's headers (with PrepareFails: prepare gets through exactly under these conditions) |
| Requests.ExecuteWork | request.go:160-168 | the response is whatever the client returned, even alongside an error, and that error, if any, is appended |
| Requests.Next | request.go:102-108 | running the chain restores the cursor, keeps the inputs, keeps the errors already recorded as a prefix, and keeps the pool usable; past the end it does nothing |
| Requests.RunStage | request.go:102-168 | a stage run with the cursor advanced keeps the same invariants |
| Requests.RunSteps | request.go:102-108 | a middleware script keeps the same invariants |
| Requests.PassThroughStep | request.go:102-108 | a single middleware that only calls Next leaves the request exactly as the rest of the chain leaves it |
| Requests.SkipPassThrough | request.go:102-108 | middlewares that only call Next are invisible: running from the first of them is running from the stage after the last |
| Requests.StoreOnlyStops | request.go:102-108 | a middleware that never calls Next changes only the store, so no later stage runs |
| Requests.ExecuteLast | request.go:160-168 | with the cursor on execute, the chain ends with the client's response and error |
| Requests.PassThroughToExecute | request.go:160-168 | pass-through middlewares followed by execute send the request as it stands |
| Contexts.NewRequestContext | context.go:23-36 | a new context has cursor 0, the given request, an empty store, no response and no errors |
| Contexts.CtxError | context.go:39-41 | an error is appended after the earlier ones, and nothing else changes |
| Contexts.CtxSet | context.go:64-68 | only the store changes, and only at the key |
| Contexts.CtxDel | context.go:72-76 | only the store changes: the key is gone and the other keys read as before |
| Contexts.DoWork | context.go:89-96 | a transport error appends exactly that error and leaves the response as it was; otherwise the response is set and no error is added |
| Contexts.Next | context.go:80-86 | the cursor is restored, the request is kept, and earlier errors stay a prefix; past the end Next does nothing |
| Contexts.RunSteps | context.go:80-86 | a middleware script keeps the same invariants |
| Contexts.PassThroughThenDo | context.go:80-96 | pass-through middlewares followed by do produce exactly what do alone produces |
| Contexts.StoreOnlyStops | context.go:80-86 | a middleware that never calls Next changes only the store, so do never runs |
| Retriers.NewBasicRetrier | retrier.go:22-29 | the basic retrier has no retryable status codes |
| Retriers.NewStatusCodeRetrier | retrier.go:34-43 | the status-code retrier keeps its code list as given |
| Retriers.Listed | retrier.go:69-73 | the search over the codes finds a code exactly when it is in the list |
| Retriers.ShouldRetry | retrier.go:57-79 | an error is retried as is; a status above 299 is reported as failed and retried exactly when its code is listed; otherwise there is no error and no retry; a retry always carries an error |
| Retriers.BasicRetriesErrorsOnly | retrier.go:22-79 | the basic retrier retries exactly when there is an error |
| Options.Configure | options.go:90-132 | a setter option makes the configuration hold its value; a middleware option appends its middleware; no option touches a field other than its own |
| Options.NewConfiguration | options.go:19-33 | the resulting configuration always has a pool |
| Options.Untouched | options.go:24-26 | a run of options that never names a field leaves that field as it was |
| Options.ConfigureAllAppend | options.go:24-26 | applying two runs of options is applying one run after the other |
| Options.LastWins | options.go:90-116 | for pool, client, constructor and retrier, the last option of its kind wins |
| Options.MiddlewaresInOrder | options.go:118-132 | each middleware list is the middlewares of its options, in option order |
| Options.NewConfigurationDefaults | options.go:19-33 | with no pool option the default pool is used; with no client option the client is http.DefaultClient; otherwise the last pool given is used, or the default pool if it was nil |
| Clients.NewClientAsWritten | client.go:29-39 | as written, the client takes the pool, HTTP client and constructor from the configuration, and both middleware lists start empty |
| Clients.NewClient | client.go:29-39 | the corrected client also takes both middleware lists from the options, in order |
| Clients.NewClientDropsMiddlewares | client.go:29-39 | a middleware given as an option is lost by the client as written and kept by the corrected one |
| Clients.Use | client.go:45-58 | before-build middlewares append to the pre-build list and before-execute middlewares to the pre-execute list; any other stage is an error and changes nothing |
| Clients.UseExtendsChain | client.go:45-58 | middlewares added with Use run right after those of the same stage: before prepare for BeforeBuild, before execute for BeforeExecute |
| Clients.ClientForRequest | client.go:61-67 | a set constructor is used; otherwise the stored client is |
| Clients.Chain | client.go:81-89 | the chain is every pre-build middleware, then prepare, then every pre-execute middleware, then execute |
| Clients.Start | client.go:91-97 | the chain starts on a fresh request with cursor 0, no errors, and the chosen HTTP client |
| Clients.Do | client.go:70-106 | the client comes back unchanged but for its pool, which stays usable and does not shrink |
| Clients.DoReportsPrepareError | client.go:81-105 | through pass-through pre-build middlewares, a call that prepare cannot get through returns no response and exactly the error of the step that failed: the formatter's (illegal brace, too few or too many parameters), else the marshaler's, else the request constructor's |
| Clients.ReachPrepare | client.go:81-99 | through pass-through pre-build middlewares, prepare runs on the fresh request |
| Clients.DoFailsOnBadTemplate | client.go:99-105 | with pass-through pre-build middlewares, a template that does not fit the path parameters makes Do return the formatting error and no response |
| Clients.DoStopsWithoutNext | client.go:99-105 | a first middleware that never calls Next makes Do return no response and no error |
| Clients.PreparedToExecute | client.go:86-89 | after prepare, pass-through pre-execute middlewares lead straight to execute |
| Clients.DoSendsPrepared | client.go:81-105 | through pass-through middlewares, for a call whose chosen HTTP client is not nil, whose template fits, whose body marshals and whose request can be built, Do returns exactly the response and error that this client returns for the prepared request |
| Scanners.ScannersAgree | builder.go:112-138 | on templates without a stray `}`, the builder and fmtEndpoint accept the same inputs and build the same endpoint |
| Scanners.StrayCloseDiffers | builder.go:121-122 | a lone `}` is plain text to fmtEndpoint and an error to the builder |

## Left out

- Mutexes, `Lock`/`Unlock` and the channel's thread safety are not modelled. Every operation runs sequentially.
- `retrier.Run` is not modelled. It delegates to an outside retry loop with timed delays and context cancellation. The delay function is not kept either.
- Marshalers (marshaler.go) are function parameters that may fail. The JSON, XML and form encodings are out of scope.
- `http.NewRequestWithContext`, `HttpClient.Do`, `Requester.Do`, `url.PathEscape` and the HTTP client constructor are function parameters. A constructor returns the same client for the same constructor every time.
- `Build` does not merge the query into the URL: the query map is returned as it stands. The merge and `url.Values.Encode` are library code (builder.go:161-170).
- Header canonicalisation by `http.Header.Set`/`Add` is not modelled. Headers are kept under their keys as given.
- Go's random map iteration order becomes an arbitrary but fixed list order. A query map is a list of keys with their values, and every property holds for every order.
- A nil map or slice is treated the same as an empty one wherever the two read the same.
- The verb wrappers `Get`, `Post`, `Patch`, `Put` and `Delete` are not modelled. They only forward to `Do`.
- `context.Context` deadlines and cancellation are not modelled.
- A user middleware is modelled only as a script of store updates, recorded errors and calls of `Next`. A Go middleware that rewrites the request's own fields is not covered. Neither is one that calls `Next` from another goroutine.
- `MemoryPool`, `Retrier` and `HttpClient` interfaces are limited to the library's own pool and retrier, and to HTTP clients known by name. Other implementations are not modelled.
- Requests.Next: requires a pool whose fresh and pooled pages have room for at least one byte. With a page size of 0, only a `writeString` longer than the room left on the current page loops for ever (writer.go:40-51, `Writer.ZeroPageStalls`). `writeByte` grows a capacity-0 page through `append` (writer.go:25-27), and an empty string always fits (writer.go:34-36). So some calls over such a pool do finish. The precondition excludes them too, because the model does not grow a page past its capacity.
- Builder.Build: requires the capacity hint `len(format) + Σ(len(param) - 2)` to be non-negative, because `make` panics on a negative capacity.
- Builder.BuildEndpoint: requires the capacity hint to be non-negative, because `make` panics on a negative capacity (builder.go:112-118). Only a template that does not fit its parameters has a negative hint (`Builder.FittingHint`).
- MemPool.NewMemPool: requires a non-negative pool size, because `make(chan []byte, poolSize)` panics on a negative size (mempool.go:23-31).
- MemPool.Acquire: requires a non-negative page size when nothing is pooled, because `make([]byte, 0, pageSize)` panics on a negative capacity (mempool.go:35-42).
- Clients.Do: requires a pool whose fresh and pooled pages have room for a byte. With a page size of 0, `Do` does not return when formatting the endpoint writes a string longer than the room left on the current page (writer.go:40-51, `Writer.ZeroPageStalls`). It does return when every `writeString` fits. An example is the endpoint `""` with the query `{"": [""]}`, since `writeByte` grows its capacity-0 page through `append` (writer.go:25-27). The precondition excludes these calls too, because the model does not grow a page past its capacity.
- EndpointFormat.FmtEndpoint: requires the same pool, and excludes the same finishing page-size-0 calls for the same reason.
- Writer.NewWriter: requires the same pool, and excludes the same finishing page-size-0 calls for the same reason.
- Requests.ExecuteWork: a nil HTTP client is handed to the send function like any other. In Go, `r.client.Do` on a nil client panics (request.go:163). A nil client comes from `UseHttpClient(nil)` or from a constructor that returns nil.
- Clients.DoSendsPrepared: requires a non-nil chosen client, because Go panics on a nil one.
- Writer.Release: requires a sound writer, whose pages all have room for a byte. Go's `release` accepts any pages. Every writer the library builds over a usable pool is sound.
- Retriers.ShouldRetry: requires a response or an error, because a nil response with a nil error dereferences nil.
- Requests.Next: the contract states only what every chain run keeps. What a given chain produces is stated by the lemmas `SkipPassThrough`, `StoreOnlyStops`, `ExecuteLast` and `PassThroughToExecute`, and by the `Clients.Do*` lemmas.

## Findings

| source | as written | input that shows it | evidently intended | confidence | as-written member | corrected member |
|---|---|---|---|---|---|---|
| client.go:29-39 | `NewClient` builds empty middleware lists and ignores the configuration's high- and low-level middlewares | `NewClient(UseHighLevelMiddleware(m))` has no pre-build middleware (`Clients.NewClientDropsMiddlewares`) | the options' middlewares become the client's pre-build and pre-execute lists, in option order | high, not executed | Clients.NewClientAsWritten | Clients.NewClient |
| builder.go:148-152 | a nil `[]byte` body without a marshaler fails the `bytes != nil` test and then the `body != nil` test, so `Build` returns ErrInvalidBodyType | `NewRequest(m, f).WithRawBody(nil).Build(ctx)` (`Builder.RawNilBodyRejected`, `Builder.BuildCorrection`) | a nil byte slice is an empty raw body, like a nil body, since it needs no marshaler | medium, not executed | Builder.Build | Builder.BuildCorrected |
| writer.go:40-51 | `NewMemPool` accepts a page size of 0; the `writeString` loop then acquires pages of capacity 0, `end` stays at `beg`, and the loop never ends | `NewMemPool(0, n)` and then any `writeString` longer than the current page's room (`Writer.ZeroPageStalls`) | a pool hands out pages with room for at least one byte, so that each round of the loop writes a byte and the loop ends | medium, not executed | Writer.FillAsWritten | MemPool.NewMemPoolCorrected |
| builder.go:112-118 | `Build` sizes the endpoint slice as `len(format) + Σ(len(param) - 2)` before checking the template; for a template that does not fit its parameters this can be negative, and `make` panics | `NewRequest("GET", "").WithPathParameters("").Build(ctx)` (`Builder.EmptyTemplateHint`) | a template that does not fit is reported as ErrInvalidFormat, as the scan that follows would report it | medium, not executed | Builder.BuildEndpoint | Builder.BuildEndpointCorrected |
