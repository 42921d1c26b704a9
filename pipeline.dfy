/**
 * The interception pipeline that `main` builds: the search hijack wraps the
 * domain filter, which wraps the web-bug detector, which wraps the request
 * multiplexer. Each stage is a decorator from the next handler to a handler;
 * the multiplexer and everything behind it is the terminal stage here.
 */
module Pipeline {
  import opened Text
  import opened Domains
  import opened WebBug
  import opened Search
  import opened Wrappers

  /**
   * What the stages read of a request: the URL's scheme, host and path, the
   * raw request URI, the `Host` header, and the decoded `q` query parameter.
   */
  datatype Request = Request(scheme: string, urlHost: string, path: string, requestURI: string, host: string, q: string)

  /** How an exchange ends: a 302 redirect, a 403, or handed to the multiplexer. */
  datatype Response = Redirect(location: string) | Forbidden | ToMux

  /** The response, the detector's state afterwards, and the URIs the detector fetched. */
  datatype Outcome = Outcome(response: Response, detector: Detector, fetched: seq<string>)

  type Handler = (Detector, Request) -> Outcome

  /** The hijack prefix and the domain lists the middleware is built with. */
  datatype Middleware = Middleware(hijackPrefix: string, whitelist: seq<string>, blacklist: seq<string>)

  /** The request-URI prefix `main` hijacks. */
  const BingSearch := "http://www.bing.com/search"
  /** The proxy's own search endpoint; the hijack template is this followed by `%s`. */
  const PepperSearch := "http://pepper/search?q="

  datatype HijackDecision = HijackTo(location: string) | PassOn

  /**
   * `hijackSearchEngine`: a request URI with the configured prefix is
   * redirected to the proxy's search page with `q` appended unescaped;
   * anything else passes on.
   */
  function HijackSearchEngine(requestURI: string, q: string, prefix: string): (d: HijackDecision)
    ensures d.HijackTo? <==> HasPrefix(requestURI, prefix)
    ensures d.HijackTo? ==> d.location == PepperSearch + q
  {
    if HasPrefix(requestURI, prefix) then
      FormatSplices(PepperSearch, "", q);
      assert PepperSearch + "%s" + "" == PepperSearch + "%s";
      HijackTo(Format(PepperSearch + "%s", q))
    else PassOn
  }

  /** The multiplexer and what lies behind it, which this model does not open. */
  function Terminal(): Handler {
    (d: Detector, r: Request) => Outcome(ToMux, d, [])
  }

  /** `webBugHandler(next)`: the detector's step on the canonical URL, fetching the request URI when the URL is not listed. */
  function WebBugStage(fetch: string -> FetchOutcome, next: Handler): Handler {
    (d: Detector, r: Request) =>
      var h := Step(d, CanonicalUrl(r.scheme, r.urlHost, r.path), fetch(r.requestURI));
      if h.action == RedirectToPixel then Outcome(Redirect(PixelUrl), h.after, [])
      else
        var o := next(h.after, r);
        o.(fetched := [r.requestURI] + o.fetched)
  }

  /** `domainFilterHandler(next)`. */
  function DomainFilterStage(whitelist: seq<string>, blacklist: seq<string>, next: Handler): Handler {
    (d: Detector, r: Request) =>
      if DomainFilter(r.host, whitelist, blacklist) == Forward then next(d, r)
      else Outcome(Forbidden, d, [])
  }

  /** `hijackSearchEngine(next, prefix)`. */
  function HijackStage(prefix: string, next: Handler): Handler {
    (d: Detector, r: Request) =>
      match HijackSearchEngine(r.requestURI, r.q, prefix)
      case HijackTo(location) => Outcome(Redirect(location), d, [])
      case PassOn => next(d, r)
  }

  /** The chain of `main`: hijack, then domain filter, then web-bug detector, then the multiplexer. */
  function Chain(cfg: Middleware, fetch: string -> FetchOutcome): Handler {
    HijackStage(cfg.hijackPrefix, DomainFilterStage(cfg.whitelist, cfg.blacklist, WebBugStage(fetch, Terminal())))
  }

  lemma HijackStageApplies(prefix: string, next: Handler, d: Detector, r: Request)
    ensures HijackStage(prefix, next)(d, r)
      == if HasPrefix(r.requestURI, prefix) then Outcome(Redirect(PepperSearch + r.q), d, []) else next(d, r)
  {
    var decision := HijackSearchEngine(r.requestURI, r.q, prefix);
    assert decision.HijackTo? <==> HasPrefix(r.requestURI, prefix);
  }

  lemma DomainFilterStageApplies(whitelist: seq<string>, blacklist: seq<string>, next: Handler, d: Detector, r: Request)
    ensures DomainFilterStage(whitelist, blacklist, next)(d, r)
      == if IsHostAllowed(r.host, whitelist, blacklist) then next(d, r) else Outcome(Forbidden, d, [])
  {
    var action := DomainFilter(r.host, whitelist, blacklist);
    assert action == Forward <==> IsHostAllowed(r.host, whitelist, blacklist);
  }

  lemma WebBugStageApplies(fetch: string -> FetchOutcome, d: Detector, r: Request)
    ensures var h := Step(d, CanonicalUrl(r.scheme, r.urlHost, r.path), fetch(r.requestURI));
      WebBugStage(fetch, Terminal())(d, r)
      == if h.action == RedirectToPixel then Outcome(Redirect(PixelUrl), h.after, [])
         else Outcome(ToMux, h.after, [r.requestURI])
  {
  }

  /** The chain, stage by stage. */
  lemma ChainApplies(cfg: Middleware, fetch: string -> FetchOutcome, d: Detector, r: Request)
    ensures Chain(cfg, fetch)(d, r)
      == if HasPrefix(r.requestURI, cfg.hijackPrefix) then Outcome(Redirect(PepperSearch + r.q), d, [])
         else if !IsHostAllowed(r.host, cfg.whitelist, cfg.blacklist) then Outcome(Forbidden, d, [])
         else WebBugStage(fetch, Terminal())(d, r)
  {
    var detector := WebBugStage(fetch, Terminal());
    var filter := DomainFilterStage(cfg.whitelist, cfg.blacklist, detector);
    HijackStageApplies(cfg.hijackPrefix, filter, d, r);
    DomainFilterStageApplies(cfg.whitelist, cfg.blacklist, detector, d, r);
  }

  /** A hijacked request is redirected before any other stage runs, whatever its host. */
  lemma HijackComesFirst(cfg: Middleware, fetch: string -> FetchOutcome, d: Detector, r: Request)
    requires HasPrefix(r.requestURI, cfg.hijackPrefix)
    ensures Chain(cfg, fetch)(d, r) == Outcome(Redirect(PepperSearch + r.q), d, [])
  {
    ChainApplies(cfg, fetch, d, r);
  }

  /** A denied host gets a 403: the detector neither fetches nor changes. */
  lemma DeniedHostNeverFetched(cfg: Middleware, fetch: string -> FetchOutcome, d: Detector, r: Request)
    requires !HasPrefix(r.requestURI, cfg.hijackPrefix)
    requires !Matches(r.host, cfg.whitelist) && Matches(r.host, cfg.blacklist)
    ensures Chain(cfg, fetch)(d, r) == Outcome(Forbidden, d, [])
  {
    ChainApplies(cfg, fetch, d, r);
  }

  /**
   * A request that is neither hijacked nor denied reaches the detector: a
   * listed URL is answered with the pixel without a fetch; any other is
   * fetched once and handed to the multiplexer.
   */
  lemma AllowedHostReachesDetector(cfg: Middleware, fetch: string -> FetchOutcome, d: Detector, r: Request)
    requires !HasPrefix(r.requestURI, cfg.hijackPrefix)
    requires IsHostAllowed(r.host, cfg.whitelist, cfg.blacklist)
    ensures var url := CanonicalUrl(r.scheme, r.urlHost, r.path);
      var o := Chain(cfg, fetch)(d, r);
      && o.detector == Step(d, url, fetch(r.requestURI)).after
      && (url in d.blacklist ==> o.response == Redirect(PixelUrl) && o.fetched == [])
      && (url !in d.blacklist ==> o.response == ToMux && o.fetched == [r.requestURI])
  {
    ChainApplies(cfg, fetch, d, r);
    WebBugStageApplies(fetch, d, r);
    StepCharacterized(d, CanonicalUrl(r.scheme, r.urlHost, r.path), fetch(r.requestURI));
  }

  /**
   * Whatever the request, the detector fetches at most its request URI,
   * and only for a request that was neither hijacked nor denied.
   */
  lemma FetchOnlyAllowed(cfg: Middleware, fetch: string -> FetchOutcome, d: Detector, r: Request)
    ensures var o := Chain(cfg, fetch)(d, r);
      && (o.fetched == [] || o.fetched == [r.requestURI])
      && (o.fetched != [] ==> !HasPrefix(r.requestURI, cfg.hijackPrefix) && IsHostAllowed(r.host, cfg.whitelist, cfg.blacklist))
  {
    ChainApplies(cfg, fetch, d, r);
    if !HasPrefix(r.requestURI, cfg.hijackPrefix) && IsHostAllowed(r.host, cfg.whitelist, cfg.blacklist) {
      AllowedHostReachesDetector(cfg, fetch, d, r);
    }
  }

  /**
   * One request through the chain, with the detector as an object whose
   * list and counter `Handle` updates in place.
   */
  method Serve(handler: WebBugHandler, cfg: Middleware, fetch: string -> FetchOutcome, r: Request)
    returns (response: Response, fetched: seq<string>)
    requires handler.Valid()
    modifies handler
    ensures handler.Valid()
    ensures Chain(cfg, fetch)(old(handler.State()), r) == Outcome(response, handler.State(), fetched)
  {
    match HijackSearchEngine(r.requestURI, r.q, cfg.hijackPrefix)
    case HijackTo(location) =>
      return Redirect(location), [];
    case PassOn =>
    if DomainFilter(r.host, cfg.whitelist, cfg.blacklist) == Forbid403 {
      return Forbidden, [];
    }
    var action := handler.Handle(CanonicalUrl(r.scheme, r.urlHost, r.path), fetch(r.requestURI));
    if action == RedirectToPixel {
      return Redirect(PixelUrl), [];
    }
    return ToMux, [r.requestURI];
  }

  /** The configuration as `main` decodes it: lists and search engines. */
  datatype Data = Data(whitelist: seq<string>, blacklist: seq<string>, engines: seq<SearchEngine>)

  /**
   * What the handlers read as `main` is written: the decoded value lands in
   * a local that shadows the package-level `data`, so the handlers see the
   * zero value whatever was loaded.
   */
  function AsWired(loaded: Data): (seen: Data)
    ensures seen.whitelist == [] && seen.blacklist == [] && seen.engines == []
  {
    Data([], [], [])
  }

  /** The middleware configuration `main` builds from the data its handlers read. */
  function ConfigOf(seen: Data): Middleware {
    Middleware(BingSearch, seen.whitelist, seen.blacklist)
  }

  /** The search manager `searchHandler` builds from the data it reads. */
  function ManagerOf(seen: Data): SEManager {
    NewSEManager().(engines := seen.engines)
  }

  /**
   * As wired, the loaded configuration has no effect: no request is ever
   * refused, and every search goes to DuckDuckGo whatever keyword it starts with.
   */
  lemma ShadowedDataIgnored(loaded: Data, fetch: string -> FetchOutcome, d: Detector, r: Request, query: string)
    ensures Chain(ConfigOf(AsWired(loaded)), fetch)(d, r).response != Forbidden
    ensures Query(ManagerOf(AsWired(loaded)), query) == Ok(DuckDuckGoSearch + query)
  {
    ChainApplies(ConfigOf(AsWired(loaded)), fetch, d, r);
    assert !Matches(r.host, []);
    assert ManagerOf(AsWired(loaded)) == NewSEManager();
    FreshManagerSearchesDuckDuckGo(query);
  }

  /**
   * With the loaded lists in effect, a blacklist entry `.example.com` and no
   * whitelist, a request to `tracker.example.com` is refused with no fetch.
   */
  lemma LoadedBlacklistForbidsTracker(loaded: Data, fetch: string -> FetchOutcome, d: Detector, r: Request)
    requires loaded.whitelist == [] && loaded.blacklist == [".example.com"]
    requires r.host == "tracker.example.com" && !HasPrefix(r.requestURI, BingSearch)
    ensures Chain(ConfigOf(loaded), fetch)(d, r) == Outcome(Forbidden, d, [])
  {
    assert HasSuffix(r.host, ".example.com");
    assert ".example.com" in loaded.blacklist;
    DeniedHostNeverFetched(ConfigOf(loaded), fetch, d, r);
  }
}
