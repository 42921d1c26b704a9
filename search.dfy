/**
 * The keyword search resolver `SEManager`: a list of search engines and a
 * default one. A query's first space-separated word may select an engine by
 * keyword; the rest of the query is substituted raw (no URL escaping) into
 * that engine's URL template.
 */
module Search {
  import opened Wrappers
  import opened Text

  /** A keyword search engine: a URL template, a title and the keyword that selects it. */
  datatype SearchEngine = SearchEngine(url: string, title: string, keyword: string)

  /** The engines in configuration order and the default engine. */
  datatype SEManager = SEManager(engines: seq<SearchEngine>, defaultEngine: SearchEngine)

  datatype SearchError = KeywordTooShort | NoEngineWithKeyword(keyword: string) | NoWords

  /** The default engine's URL template is this prefix followed by the verb `%s`. */
  const DuckDuckGoSearch := "https://duckduckgo.com/?q="
  const DuckDuckGo := SearchEngine(DuckDuckGoSearch + "%s", "DuckDuckGo", "duck")

  /** The DuckDuckGo template is single-verb and formats to its prefix followed by the argument. */
  lemma DuckDuckGoTemplate(arg: string)
    ensures SingleVerb(DuckDuckGo.url)
    ensures Format(DuckDuckGo.url, arg) == DuckDuckGoSearch + arg
  {
    FormatSplices(DuckDuckGoSearch, "", arg);
    assert DuckDuckGoSearch + "%s" + "" == DuckDuckGo.url;
  }

  /** Every template of the manager has exactly one verb, `%s`. */
  predicate ValidTemplates(m: SEManager) {
    SingleVerb(m.defaultEngine.url) && forall e <- m.engines :: SingleVerb(e.url)
  }

  /** `NewSEManager`: no engines and DuckDuckGo as the default, a well-formed manager. */
  function NewSEManager(): (m: SEManager)
    ensures m.engines == []
    ensures m.defaultEngine.url == DuckDuckGoSearch + "%s"
    ensures m.defaultEngine.title == "DuckDuckGo" && m.defaultEngine.keyword == "duck"
    ensures ValidTemplates(m)
  {
    DuckDuckGoTemplate("");
    SEManager([], DuckDuckGo)
  }

  /** Index of the first engine of `engines` whose keyword is `keyword`. */
  function FirstWithKeyword(engines: seq<SearchEngine>, keyword: string): (r: Option<nat>)
    ensures r.Some? ==> r.value < |engines| && engines[r.value].keyword == keyword
    ensures r.Some? ==> forall j :: 0 <= j < r.value ==> engines[j].keyword != keyword
    ensures r.None? ==> forall e <- engines :: e.keyword != keyword
  {
    if engines == [] then None
    else if engines[0].keyword == keyword then Some(0)
    else
      match FirstWithKeyword(engines[1..], keyword)
      case None => None
      case Some(i) => Some(i + 1)
  }

  /**
   * `Get`: an error for the empty keyword; otherwise the first engine, in list
   * order, whose keyword is exactly `keyword`, or an error when there is none.
   */
  function Get(m: SEManager, keyword: string): (r: Result<SearchEngine, SearchError>)
    ensures keyword == "" ==> r == Err(KeywordTooShort)
    ensures keyword != "" && r.Err? ==> r == Err(NoEngineWithKeyword(keyword))
    ensures r.Ok? <==> keyword != "" && exists e <- m.engines :: e.keyword == keyword
    ensures r.Ok? ==> exists i :: (0 <= i < |m.engines| && m.engines[i] == r.value && r.value.keyword == keyword
                                   && forall j :: 0 <= j < i ==> m.engines[j].keyword != keyword)
  {
    if |keyword| < 1 then Err(KeywordTooShort)
    else
      match FirstWithKeyword(m.engines, keyword)
      case None => Err(NoEngineWithKeyword(keyword))
      case Some(i) => Ok(m.engines[i])
  }

  /** The caller's side of `Add`: the error it returns and the caller's manager afterwards. */
  datatype AddResult = AddResult(err: Option<SearchError>, caller: SEManager)

  /**
   * `Add` as written: its receiver is a copy, so the append is lost; it
   * returns no error and the caller's manager is what it was.
   */
  function Add(m: SEManager, se: SearchEngine): (r: AddResult)
    ensures r.err == None && r.caller == m
  {
    AddResult(None, m)
  }

  /** A fresh keyword added with `Add` is still not found. */
  lemma AddDoesNotRegister(m: SEManager, se: SearchEngine)
    requires se.keyword != "" && forall e <- m.engines :: e.keyword != se.keyword
    ensures Add(m, se).err == None
    ensures Get(Add(m, se).caller, se.keyword) == Err(NoEngineWithKeyword(se.keyword))
  {
  }

  /** `Add` as evidently intended: append to the caller's engines. */
  function AddEngine(m: SEManager, se: SearchEngine): (r: AddResult)
    ensures r.err == None && r.caller.defaultEngine == m.defaultEngine
    ensures r.caller.engines == m.engines + [se]
  {
    AddResult(None, m.(engines := m.engines + [se]))
  }

  /**
   * After `AddEngine` every keyword found before is found the same, the new
   * engine answers its non-empty keyword unless an earlier engine already
   * did, and every other keyword that failed still fails the same way.
   */
  lemma {:induction false} AddEngineRegisters(m: SEManager, se: SearchEngine, keyword: string)
    ensures Get(AddEngine(m, se).caller, keyword)
      == if Get(m, keyword).Ok? then Get(m, keyword)
         else if keyword == se.keyword && keyword != "" then Ok(se)
         else Get(m, keyword)
  {
    FirstWithKeywordAppend(m.engines, se, keyword);
  }

  /** Appending an engine leaves earlier first matches alone and is found only when nothing earlier is. */
  lemma {:induction false} FirstWithKeywordAppend(engines: seq<SearchEngine>, se: SearchEngine, keyword: string)
    ensures FirstWithKeyword(engines + [se], keyword)
      == if FirstWithKeyword(engines, keyword).Some? then FirstWithKeyword(engines, keyword)
         else if se.keyword == keyword then Some(|engines|)
         else None
  {
    if engines != [] {
      assert (engines + [se])[1..] == engines[1..] + [se];
      FirstWithKeywordAppend(engines[1..], se, keyword);
    }
  }

  /**
   * `Query`: split on single spaces; a one-word query goes to the default
   * engine whole; otherwise a registered first word selects its engine for
   * the remaining words, and an unregistered one sends the whole query to
   * the default engine. It never fails.
   */
  function Query(m: SEManager, query: string): (r: Result<string, SearchError>)
    requires ValidTemplates(m)
    ensures r.Ok?
    ensures ' ' !in query ==> r == Ok(Format(m.defaultEngine.url, query))
  {
    var words := Split(query);
    if |words| == 0 then Err(NoWords)
    else if |words| == 1 then Ok(Format(m.defaultEngine.url, words[0]))
    else
      match Get(m, words[0])
      case Err(_) => Ok(Format(m.defaultEngine.url, Join(words)))
      case Ok(se) => Ok(Format(se.url, Join(words[1..])))
  }

  /** A registered first word selects its engine, which receives the rest of the query verbatim. */
  lemma QueryWithKeyword(m: SEManager, keyword: string, term: string)
    requires ValidTemplates(m)
    requires ' ' !in keyword && Get(m, keyword).Ok?
    ensures Query(m, keyword + " " + term) == Ok(Format(Get(m, keyword).value.url, term))
  {
    SplitFirstWord(keyword, term);
    var words := Split(keyword + " " + term);
    assert words[1..] == Split(term);
  }

  /**
   * An unregistered first word, the empty word before a leading space
   * included, sends the whole query to the default engine.
   */
  lemma QueryFallsBack(m: SEManager, keyword: string, term: string)
    requires ValidTemplates(m)
    requires ' ' !in keyword && Get(m, keyword).Err?
    ensures Query(m, keyword + " " + term) == Ok(Format(m.defaultEngine.url, keyword + " " + term))
  {
    SplitFirstWord(keyword, term);
  }

  /** Without engines every query goes, whole, to the default engine. */
  lemma QueryWithoutEngines(m: SEManager, query: string)
    requires ValidTemplates(m) && m.engines == []
    ensures Query(m, query) == Ok(Format(m.defaultEngine.url, query))
  {
    if ' ' in query {
      var i := IndexOf(query, ' ');
      assert query == query[..i] + " " + query[i + 1..];
      QueryFallsBack(m, query[..i], query[i + 1..]);
    }
  }

  /** Every query a fresh manager resolves is a DuckDuckGo search for the whole query, unescaped. */
  lemma FreshManagerSearchesDuckDuckGo(query: string)
    ensures Query(NewSEManager(), query) == Ok(DuckDuckGoSearch + query)
  {
    DuckDuckGoTemplate(query);
    QueryWithoutEngines(NewSEManager(), query);
  }

  /** A manager holding only DuckDuckGo answers the keyword `duck` with it. */
  lemma DuckRegistered()
    ensures Get(SEManager([DuckDuckGo], DuckDuckGo), DuckDuckGo.keyword) == Ok(DuckDuckGo)
  {
    var m := SEManager([DuckDuckGo], DuckDuckGo);
    assert m.engines[0] == DuckDuckGo;
  }

  /**
   * With DuckDuckGo registered under `duck`, "duck hello world" searches it
   * for "hello world" with the space kept as it is: the term is not escaped.
   */
  lemma DuckKeywordSearch(term: string)
    ensures var m := SEManager([DuckDuckGo], DuckDuckGo);
      ValidTemplates(m) && Query(m, DuckDuckGo.keyword + " " + term) == Ok(DuckDuckGoSearch + term)
  {
    var m := SEManager([DuckDuckGo], DuckDuckGo);
    DuckDuckGoTemplate(term);
    assert ValidTemplates(m);
    DuckRegistered();
    assert ' ' !in DuckDuckGo.keyword;
    QueryWithKeyword(m, DuckDuckGo.keyword, term);
  }
}
