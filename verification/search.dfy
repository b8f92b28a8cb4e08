/**
 * The web search models: a search engine's query template, a search made
 * with it and the result pages viewed from it.
 */
module Search {
  import opened Wrappers
  import opened Failures
  import opened Strings
  import opened Externals

  datatype Engine = Engine(name: string, home: string, searchTemplate: string)

  datatype WebSearch = WebSearch(engine: Engine, query: string)

  /** A result page; `search` names the search it came from by its key. */
  datatype SearchResult = SearchResult(search: string, title: string, url: string)

  /** `url`: the engine's template with the URL-quoted query in place of `%s`. */
  function SearchUrl(s: WebSearch, ext: Externals): Result<string, Failure> {
    Format(s.engine.searchTemplate, ext.quotePlus(s.query))
  }

  /** A template with one `%s` and no other `%` yields the results page of the quoted query. */
  lemma SearchUrlOfTemplate(s: WebSearch, ext: Externals, before: string, after: string)
    requires '%' !in before && '%' !in after
    requires s.engine.searchTemplate == before + "%s" + after
    ensures SearchUrl(s, ext) == Ok(before + ext.quotePlus(s.query) + after)
  {
    FormatOne(before, after, ext.quotePlus(s.query));
  }

  /** A template without `%s` cannot take the query: the `url` property raises. */
  lemma SearchUrlWithoutDirective(s: WebSearch, ext: Externals)
    requires '%' !in s.engine.searchTemplate
    ensures SearchUrl(s, ext).Err? && SearchUrl(s, ext).error.TypeError?
  {
    FormatWithoutDirective(s.engine.searchTemplate, ext.quotePlus(s.query));
  }

  function EngineDisplay(e: Engine): string {
    e.name
  }

  function SearchDisplay(s: WebSearch): string {
    s.query
  }

  function ResultDisplay(r: SearchResult): string {
    r.title
  }
}
