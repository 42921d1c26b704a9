# pepper: the proxy's decision logic in Dafny

pepper is a personal HTTP proxy. It runs every request through a chain of
middleware before it reaches the request multiplexer:

1. **search hijack** (`hijackSearchEngine`). A request whose URI starts with
   `http://www.bing.com/search` is redirected to the proxy's own search page.
2. **domain filter** (`domainFilterHandler` over `isHostAllowed` and
   `dnsDomainIs`). The host is checked against a whitelist first, then a
   blacklist. Hosts that match neither are allowed. A refused host gets a 403.
3. **web-bug detector** (`webBugHandler`). It keeps a list of canonical URLs
   (scheme, `://`, host, path) known to be 1x1 tracking GIFs. A listed URL is
   redirected to `http://pepper/pixel.gif` and the blocked-bug counter goes
   up by one. Any other URL is fetched once by the detector. The URL is added
   to the list when the response is declared shorter than 100 bytes, has type
   `image/gif`, and its GIF header gives width times height equal to one. The
   request is then handed on.
4. **keyword search** (`SEManager`, used behind the search page). The query
   is split on single spaces. When there are two or more words and the
   first is a registered keyword, the rest of the query goes raw into that
   engine's `%s` template. Otherwise, a one-word query included, the default
   engine (DuckDuckGo) gets the whole query.

Files and modules:

- `wrappers.dfy` (`Wrappers`): Option and Result.
- `text.dfy` (`Text`): `strings.HasPrefix`, `strings.HasSuffix`,
  `strings.Split` and `strings.Join` with the `" "` separator, and
  `fmt.Sprintf` on templates whose only verb is one `%s`.
- `domains.dfy` (`Domains`): the matcher, the policy and the filter decision.
  The lists are parameters.
- `webbug.dfy` (`WebBug`): the detector as a pure step function `Step`, and
  as the class `WebBugHandler` with `blacklist` and `counter` fields. Its
  `Handle` method scans the list with a loop and is proved equal to `Step`.
  `Run` folds `Step` over a sequence of requests. The lemmas about `Run`
  state growth, duplicate-freedom, the counter and blocking.
- `search.dfy` (`Search`): `SearchEngine`, `SEManager`, `NewSEManager`,
  `Add`, `Get` and `Query`.
- `pipeline.dfy` (`Pipeline`): each middleware is a decorator from the next
  handler to a handler. `Chain` composes them in the order of `main`. The
  method `Serve` runs one request through the chain with the detector as an
  object.

The outbound fetch and the GIF decoding are inputs: a `FetchOutcome` per
request URI. The multiplexer and everything behind it is a terminal stage
that only records that the request reached it.

The model follows the code where a reader might expect otherwise:

- The search term is not URL-escaped (sem.go:49-56, pepper.go:78). So
  "duck hello world" gives `https://duckduckgo.com/?q=hello world`, not
  `hello%20world`.
- Queries are split on the single character `" "`, not on runs of
  whitespace. `strings.Split` always yields at least one word, so `Query`
  never fails. The empty query goes to the default engine as an empty term;
  it is not an error.
- The pattern `"."` does not match the empty hostname: the root-domain rule
  needs a pattern longer than one character (pepper.go:155). So
  "`.d` matches `d`" holds only for non-empty `d`.
- The first detection of a web bug lists the URL but does not increment the
  counter. Only redirects increment it (pepper.go:37, 60-63).
- The size test reads the declared `ContentLength`. An unknown length (-1)
  passes it (pepper.go:53).

## Model

| member | source | states |
|---|---|---|
| `Text.HasPrefix` | pepper.go:75 | `strings.HasPrefix(s, prefix)`: `prefix` is no longer than `s` and equals its first characters. Also used at pepper.go:155 and 160. |
| `Text.HasSuffix` | pepper.go:160 | `strings.HasSuffix(s, suffix)`: `suffix` is no longer than `s` and equals its last characters. |
| `Text.Join` | sem.go:54-56 | `strings.Join(words, " ")`: the words with one space between neighbours, `""` for no words. |
| `Text.Format` | sem.go:49-56 | `fmt.Sprintf(t, arg)` on a template whose only `%` is one `%s`: the text before the verb, then `arg`, then the text after it. |
| `Text.Split` | sem.go:43 | `strings.Split(q, " ")` yields at least one word, and no word holds a space. Joining the words with `" "` gives `q` back. There is exactly one word iff `q` has no space. |
| `Text.SplitJoin` | sem.go:52-56 | The converse round trip: splitting the join of one or more space-free words gives the words back. |
| `Text.FormatSplices` | sem.go:49-56 | A template made of `pre`, then `%s`, then `post`, with no other `%`, is a valid template. `Sprintf` on it yields `pre`, then the argument, then `post`. |
| `Domains.DnsDomainIs` | pepper.go:148-165 | The three tests of `dnsDomainIs`: equality; a pattern longer than one character that starts with `.` and equals `.` + hostname; a pattern that starts with `.` and is a suffix of the hostname. No case folding. |
| `Domains.DotPatternMatches` | pepper.go:148-165 | A pattern `.d` matches hostname `h` iff `h == d` with `d` non-empty, or `h` ends with the whole pattern `.d`. |
| `Domains.PlainPatternMatchesExactly` | pepper.go:148-165 | A pattern without a leading dot matches a hostname iff the two are equal. |
| `Domains.SubdomainsMatch` | pepper.go:154-162 | `.d` matches every `sub + "." + d`, and matches `d` itself when `d` is non-empty. |
| `Domains.MatchesAny` | pepper.go:168-179 | The early-return scan is true iff some pattern in the list matches the host. |
| `Domains.Classify` | pepper.go:167-182 | Whitelisted iff some whitelist pattern matches. Blacklisted iff no whitelist pattern and some blacklist pattern matches. Default-allowed iff neither list matches. |
| `Domains.IsHostAllowed` | pepper.go:167-182 | A whitelist match allows the host whatever the blacklist holds. The host is refused exactly when no whitelist pattern and some blacklist pattern matches it. |
| `Domains.DomainFilter` | pepper.go:186-203 | Forward iff `isHostAllowed(host)`. 403 exactly when no whitelist pattern and some blacklist pattern matches. |
| `WebBug.CanonicalUrl` | pepper.go:31 | The blacklist key `scheme` + `://` + `host` + `path`. The query string is not part of it. |
| `WebBug.CanonicalUrlInjective` | pepper.go:31 | The key `scheme://host` + path determines scheme, host and path. This needs a scheme without `:`, a host without `/`, and a path that is empty or starts with `/`. |
| `WebBug.IsWebBug` | pepper.go:53-60 | The response was fetched, its declared length is below 100 (-1 included), its declared type is `image/gif`, its GIF header decoded, and width times height is one. |
| `WebBug.WebBugIsOnePixel` | pepper.go:53-60 | For 16-bit GIF dimensions, `Width * Height == 1` holds exactly for the 1x1 image. |
| `WebBug.Step` | pepper.go:29-67 | One request to the detector, branch for branch: a listed URL redirects to the pixel and bumps the counter; otherwise the request is handed on, and the list gains the URL only when the response is short, declared `image/gif`, decodes, and has width times height one. A fetch error or a decode error changes nothing. |
| `WebBug.StepCharacterized` | pepper.go:29-67 | The request redirects to the pixel iff the URL is listed. The counter goes up by one exactly then. The list gains the URL exactly when it was not listed and the fetch gave a web bug: fetched, length < 100 (-1 included), `image/gif`, decoded, product 1. Fetch or decode errors change nothing. |
| `WebBug.StepKeepsNoDuplicates` | pepper.go:34-63 | The list never holds a URL twice. |
| `WebBug.Run` | pepper.go:28-67 | The detector's list and counter carried across a sequence of requests handled one at a time, one action per request. |
| `WebBug.RunMonotone` | pepper.go:28-67 | Over any sequence of requests, the old list is a prefix of the new one and there are no duplicates. Every added URL is the URL of a request whose response was a web bug. The counter grows by the number of pixel redirects. |
| `WebBug.BlacklistedStaysBlocked` | pepper.go:33-41 | Once listed, a URL stays listed. Every later request for it is redirected, never fetched. |
| `WebBug.FirstPassedThenBlocked` | pepper.go:31-66 | A web bug seen for the first time is delegated and listed, with the counter unchanged. The next request for it is redirected and counted. |
| `WebBug.WebBugHandler.constructor` | pepper.go:28 | The detector starts with an empty list and a zero counter. |
| `WebBug.WebBugHandler.Handle` | pepper.go:29-67 | The list scan, the fetch checks, the in-place append and the counter increment together leave the object in the state `Step` gives. The action is the one `Step` gives. The list stays duplicate-free. |
| `Search.NewSEManager` | sem.go:60-68 | No engines. The default engine is `https://duckduckgo.com/?q=%s`, titled `DuckDuckGo`, keyword `duck`. Every template has a single `%s`. |
| `Search.FirstWithKeyword` | sem.go:33-37 | The index found is the first engine whose keyword equals the argument. None only when no engine has it. |
| `Search.Get` | sem.go:29-39 | The empty keyword gives "keyword too short". Otherwise the result is the first engine in list order whose keyword is exactly the argument. If there is none, the result is "no search engine" for that keyword. |
| `Search.Add` | sem.go:22-26 | Always returns no error. The caller's manager is unchanged, engines and default alike, because the receiver is a copy. |
| `Search.AddDoesNotRegister` | sem.go:22-26 | After `Add` of an engine with a fresh non-empty keyword, `Get` of that keyword still fails. |
| `Search.AddEngine` | sem.go:22-26 | The intended `Add`: no error, the default engine is kept, and the engine list becomes the old list with the new engine appended. |
| `Search.AddEngineRegisters` | sem.go:22-26 | After `AddEngine`, every keyword found before is found the same. The new engine answers its non-empty keyword when nothing earlier did. Every other keyword fails as before, with the same error. |
| `Search.FirstWithKeywordAppend` | sem.go:33-37 | Appending an engine keeps earlier first matches. The new engine is found only when no earlier one is. |
| `Search.Query` | sem.go:42-57 | `Query` never fails. A query without a space goes whole into the default template. |
| `Search.QueryWithKeyword` | sem.go:52-56 | `keyword + " " + term` with a registered space-free keyword gives that engine's template with `term` substituted verbatim. |
| `Search.QueryFallsBack` | sem.go:52-55 | `keyword + " " + term` with an unregistered keyword gives the default template with the whole original query substituted. This includes the empty keyword before a leading space. |
| `Search.QueryWithoutEngines` | sem.go:42-55 | With no engines, every query goes whole into the default template. |
| `Search.DuckDuckGoTemplate` | sem.go:64 | The default template has one `%s` and formats to `https://duckduckgo.com/?q=` followed by the argument. |
| `Search.FreshManagerSearchesDuckDuckGo` | sem.go:42-68 | A fresh manager resolves every query `q` to `https://duckduckgo.com/?q=` + `q`, unescaped. |
| `Search.DuckRegistered` | sem.go:33-36 | A manager holding only DuckDuckGo answers `duck` with it. |
| `Search.DuckKeywordSearch` | sem.go:52-56 | With `duck` registered, `duck ` + `term` resolves to `https://duckduckgo.com/?q=` + `term`, spaces kept. |
| `Pipeline.HijackSearchEngine` | pepper.go:73-85 | Hijacks iff the request URI has the prefix. Then the redirect goes to `http://pepper/search?q=` + `q`, with no escaping. |
| `Pipeline.Terminal` | pepper.go:277-289 | The multiplexer as the end of the chain: it records that the request reached it, with the detector unchanged and no fetch recorded. |
| `Pipeline.HijackStage` | pepper.go:73-85 | `hijackSearchEngine(next, prefix)` as a decorator: the redirect on the prefix, otherwise `next`. |
| `Pipeline.DomainFilterStage` | pepper.go:186-203 | `domainFilterHandler(next)` as a decorator: `next` for an allowed host, otherwise a 403. |
| `Pipeline.WebBugStage` | pepper.go:27-69 | `webBugHandler(next)` as a decorator: `Step` on the canonical URL with the outcome of fetching the request URI; the pixel redirect, or `next` on the new detector state with the detector's fetch recorded. |
| `Pipeline.Chain` | pepper.go:292-294 | The wrapping order of `main`: the hijack outermost, then the domain filter, then the detector around the multiplexer. |
| `Pipeline.HijackStageApplies` | pepper.go:73-85 | The hijack stage redirects, with the detector untouched and nothing fetched, exactly on the prefix. Otherwise it delegates the request unchanged. |
| `Pipeline.DomainFilterStageApplies` | pepper.go:186-203 | The filter stage delegates iff the host is allowed. Otherwise it answers 403 and the next handler does not run. |
| `Pipeline.WebBugStageApplies` | pepper.go:27-69 | The detector stage takes `Step`'s state. It answers with the pixel redirect on a listed URL. Otherwise it fetches the request URI once and hands the request on. |
| `Pipeline.ChainApplies` | pepper.go:291-294 | The chain runs the hijack first, then the domain filter, then the detector. |
| `Pipeline.HijackComesFirst` | pepper.go:292-294 | A hijacked request is redirected whatever its host. The detector does not change and nothing is fetched. |
| `Pipeline.DeniedHostNeverFetched` | pepper.go:292-294 | A request that is not hijacked and whose host is refused gets a 403. Nothing is fetched and the detector does not change. |
| `Pipeline.AllowedHostReachesDetector` | pepper.go:292-294 | A request that is not hijacked and whose host is allowed gets the detector's decision. A listed URL gets the pixel with no fetch. Otherwise the detector fetches once and hands the request to the multiplexer. |
| `Pipeline.FetchOnlyAllowed` | pepper.go:292-294 | The detector fetches at most once per request, the request's own URI, and only when the request was neither hijacked nor refused. The reverse proxy's own fetch behind the multiplexer (pepper.go:216-224, 280) is not recorded. |
| `Pipeline.Serve` | pepper.go:292-298 | One request through the chain with the detector object gives the response, fetches and detector state that `Chain` gives. |
| `Pipeline.AsWired` | pepper.go:259-273 | The handlers see empty lists and no engines, whatever was decoded, because `main` decodes into a local that shadows the package-level `data`. |
| `Pipeline.ConfigOf` | pepper.go:168-182 | The lists the domain filter reads from `data`, with the Bing prefix of pepper.go:294. |
| `Pipeline.ManagerOf` | pepper.go:87-88 | The search manager `searchHandler` builds: a fresh manager whose engines are those in `data`. |
| `Pipeline.ShadowedDataIgnored` | pepper.go:267 | As wired, no request is ever refused, and every query goes whole to DuckDuckGo. |
| `Pipeline.LoadedBlacklistForbidsTracker` | pepper.go:267-294 | With the loaded lists in effect, no whitelist and blacklist `.example.com`, a request for `tracker.example.com` gets a 403 with no fetch. |

## Findings

| source | as written | input that shows it | evidently intended | confidence | as-written member | corrected member |
|---|---|---|---|---|---|---|
| pepper.go:267 | `data := Data{}` declares a local in `main`. The configuration is decoded into it. `isHostAllowed` (pepper.go:168, 174) and `searchHandler` (pepper.go:89) read the package-level `data` (pepper.go:259), which stays empty. | A data file with blacklist `[".example.com"]`, then a request for `tracker.example.com`: it is allowed, not refused. | The decoded lists and engines drive the filter and the search manager. | high; not executed | `Pipeline.ShadowedDataIgnored` | `Pipeline.LoadedBlacklistForbidsTracker` |
| sem.go:23-24 | `Add` has a value receiver. The `append` changes a copy and the caller's `Engines` is unchanged. | `m.Add(SearchEngine{Keyword: "g", …})`, then `m.Get("g")`: it returns an error. | The engine is added to the manager. | high; not executed | `Search.AddDoesNotRegister` | `Search.AddEngineRegisters` |

## Left out

- HTTP plumbing is not modelled: response writers, the mechanics of `http.Redirect`, the reverse proxy (pepper.go:216-224), the multiplexer's host and path routing, and `ListenAndServe` (pepper.go:277-298). This is library I/O. The multiplexer is the terminal stage `Pipeline.Terminal`.
- The outbound fetch `http.DefaultClient.Get` and `gif.DecodeConfig` (pepper.go:44, 54) are foreign calls. Their results are the input `FetchOutcome`, a function of the request URI in the pipeline.
- Parsing the `q` parameter out of the request URL (pepper.go:77) is library code. The decoded value is the field `Request.q`.
- Concurrency is not modelled: the atomic counter and the unsynchronised shared slice (pepper.go:37, 62, 109). Requests are handled one at a time, and the counter is an unbounded `nat`.
- WebBug.WebBugHandler.Handle: the counter is a `nat`, so the wrap-around of the Go `uint64` after 2^64 blocked requests is not modelled.
- `searchHandler` is not modelled: its page template, method check and counter display (pepper.go:87-144). This is UI and I/O; the search logic it calls is `Search.Query`.
- `pixelHandler`'s constant GIF payload and headers (pepper.go:240-253) are left out: a constant with no logic.
- Flag parsing and JSON loading in `main` (pepper.go:263-275) are I/O. Only their effect on which lists the handlers read is modelled (`Pipeline.AsWired`).
- `logHandler` and `htdocsHandler` (pepper.go:205-237) are development-only I/O. Log output is left out too.
- `fmt.Sprintf` is modelled only on templates with exactly one `%`, used as `%s`. Other verbs, `%%`, and missing or extra arguments are left out.
- The second `isHostAllowed` call in `domainFilterHandler` (pepper.go:195) reads the same lists, so its fall-through branch (pepper.go:200) cannot run. `Domains.DomainFilter` has no such branch.
