/**
 * `help`: the support knowledge-base search. The query is spliced into the
 * search URL as it is; a successful search with hits is answered with one
 * block per article, highlight tags turned into Markdown bold; anything
 * else with a fixed apology that echoes the query.
 */
module Search {
  import opened Wrappers
  import opened Decimal
  import opened Markdown
  import opened Chat
  import opened Http
  import opened Texts

  /** One search hit: `{title, id}`. */
  datatype Article = Article(title: string, id: int)

  /** The decoded search response: `{total, articles}`. */
  datatype SearchBody = SearchBody(total: int, articles: seq<Article>)

  const NotFound: string := "К сожалению я ничего не нашел по запросу: "

  /** The search endpoint for `query`; the query is not URL-encoded. */
  function SearchUrl(query: string): string {
    SupportSite + "/api/kb/search?query=" + query + "&categoryId=3&offset=0"
  }

  function ArticleUrl(id: int): string {
    SupportSite + "/kb/articles/" + IntToString(id)
  }

  /** What follows the title in `'{title} https://.../articles/{id}\n\n'`. */
  function LinkPart(id: int): string {
    " " + ArticleUrl(id) + "\n\n"
  }

  function Block(a: Article): string {
    a.title + LinkPart(a.id)
  }

  /** `"".join` of the article blocks, in input order. */
  function Blocks(articles: seq<Article>): string {
    Join(articles, Block)
  }

  /** A block with only its title converted and its link left as it is. */
  function ConvertedBlock(a: Article): string {
    MarkToStar(a.title) + LinkPart(a.id)
  }

  function ConvertedTitles(articles: seq<Article>): string {
    Join(articles, ConvertedBlock)
  }

  /** The handler with its single HTTP request: `fetch(url)` is what the GET returns. */
  function Help(query: string, fetch: string -> Response<SearchBody>): (sent: seq<Message>)
    ensures |sent| == 1 && sent[0].replyMarkup == None
    ensures sent[0].disableWebPagePreview && sent[0].markdown
    ensures var resp := fetch(SearchUrl(query));
      if IsOk(resp) && resp.body.total > 0 then sent[0].text == ConvertedTitles(resp.body.articles)
      else sent[0].text == NotFound + query
  {
    var resp := fetch(SearchUrl(query));
    var text := if IsOk(resp) && resp.body.total > 0
      then MarkToStar(Blocks(resp.body.articles))
      else NotFound + query;
    ConvertBlocks(resp.body.articles);
    [Message(text, None, true, true)]
  }

  // ---------------------------------------------------------------------

  lemma LinkPartIsSafe(id: int)
    ensures SafeStart(LinkPart(id)) && NoChar(LinkPart(id), '<')
  {
    var s := IntToString(id);
    var u := LinkPart(id);
    assert u == " " + SupportSite + "/kb/articles/" + s + "\n\n";
    assert u[1] == SupportSite[0] == 'h';
    assert 'h' !in OpenTag && 'h' !in CloseTag;
    IntToStringShape(id);
    assert forall i :: 0 <= i < |s| ==> s[i] == '-' || IsDigit(s[i]);
    assert '<' !in SupportSite && '<' !in "/kb/articles/" && '<' !in s;
    assert '<' !in u;
    forall i | 0 <= i < |u| ensures u[i] != '<' {
      assert u[i] in u;
    }
  }

  /** Converting a block and what follows it converts the title and keeps the link. */
  lemma ConvertBlock(a: Article, rest: string)
    ensures MarkToStar(Block(a) + rest) == ConvertedBlock(a) + MarkToStar(rest)
  {
    var link := LinkPart(a.id);
    assert Block(a) + rest == a.title + (link + rest);
    LinkPartIsSafe(a.id);
    SafeStartExtends(link, rest);
    SplitBeforeSafeStart(a.title, link + rest);
    CopyNoLt(link, rest);
  }

  /** Converting the joined blocks converts each title and leaves every article link intact. */
  lemma {:induction false} ConvertBlocks(articles: seq<Article>)
    ensures MarkToStar(Blocks(articles)) == ConvertedTitles(articles)
    decreases |articles|
  {
    if articles != [] {
      JoinFirst(articles, Block);
      JoinFirst(articles, ConvertedBlock);
      ConvertBlock(articles[0], Blocks(articles[1..]));
      ConvertBlocks(articles[1..]);
    }
  }

  /** The query appears verbatim in the URL, right after `query=`. */
  lemma QueryVerbatim(query: string)
    ensures var k := |SupportSite + "/api/kb/search?query="|;
      SearchUrl(query)[k..k + |query|] == query
  {
  }

  /** A failed or empty search echoes the query without converting it, tags and all. */
  lemma NotFoundKeepsTags(query: string, fetch: string -> Response<SearchBody>)
    requires !IsOk(fetch(SearchUrl(query))) || fetch(SearchUrl(query)).body.total <= 0
    ensures Contains(query, OpenTag) ==> Contains(Help(query, fetch)[0].text, OpenTag)
    ensures Contains(query, CloseTag) ==> Contains(Help(query, fetch)[0].text, CloseTag)
  {
    EchoKeepsTag(query, fetch, OpenTag);
    EchoKeepsTag(query, fetch, CloseTag);
  }

  lemma EchoKeepsTag(query: string, fetch: string -> Response<SearchBody>, tag: string)
    requires !IsOk(fetch(SearchUrl(query))) || fetch(SearchUrl(query)).body.total <= 0
    ensures Contains(query, tag) ==> Contains(Help(query, fetch)[0].text, tag)
  {
    var text := Help(query, fetch)[0].text;
    if Contains(query, tag) {
      var i :| 0 <= i <= |query| && OccursAt(tag, query, i);
      assert text[|NotFound| + i..] == query[i..];
      assert OccursAt(tag, text, |NotFound| + i);
    }
  }

  /** `{total: 0}` for the query "foo" gives the apology ending in "foo". */
  lemma NothingFoundExample(fetch: string -> Response<SearchBody>)
    requires fetch(SearchUrl("foo")) == Response(200, SearchBody(0, []))
    ensures Help("foo", fetch)[0].text == "К сожалению я ничего не нашел по запросу: foo"
  {
  }

  /** One hit `{title: "T", id: 5}` gives its title and the link ending in "/5". */
  lemma OneHitExample(fetch: string -> Response<SearchBody>)
    requires fetch(SearchUrl("bar")) == Response(200, SearchBody(1, [Article("T", 5)]))
    ensures Help("bar", fetch)[0].text == "T " + SupportSite + "/kb/articles/5\n\n"
  {
    JoinSingle(Article("T", 5), ConvertedBlock);
    assert IntToString(5) == "5";
    assert MarkToStar("T") == "T" by {
      assert !(OpenTag <= "T") && !(CloseTag <= "T");
    }
  }

  /** A positive total with no articles gives an empty message, not the apology. */
  lemma PositiveTotalNoArticles(query: string, fetch: string -> Response<SearchBody>)
    requires IsOk(fetch(SearchUrl(query))) && fetch(SearchUrl(query)).body.total > 0
    requires fetch(SearchUrl(query)).body.articles == []
    ensures Help(query, fetch)[0].text == ""
  {
  }
}
