/** The club news listing (main.py `get_news`): one record per article of
    the fetched page, in page order. Resolution of the article link against
    the club page address (`urllib.parse.urljoin`) is the parameter
    `urljoin`; the link's `href` is passed as found, possibly absent. */
module News {
  import opened Wrappers
  import opened PyStr
  import opened Elements

  /** One `article.post-list` / `article.article-list` element, reduced to
      the results of its four selectors. */
  datatype Article = Article(
    anchors: seq<Element>,    // `.article-image>a`
    titles: seq<Element>,     // `.article-title`
    summaries: seq<Element>,  // `.article-summary`
    times: seq<Element>)      // `.tags-time`

  datatype Story = Story(link: string, title: string, summary: Option<string>, time: Option<string>)

  /** The stripped text of the first match of an optional selector. */
  function FirstText(es: seq<Element>): (r: Option<string>)
    ensures r.None? <==> es == []
    ensures r.Some? ==> r.value == Strip(es[0].text) && Strip(r.value) == r.value
  {
    if es == [] then None
    else
      StripIdempotent(es[0].text);
      Some(Strip(es[0].text))
  }

  /** The record of one article; a missing image link or title raises
      `IndexError`, as indexing an empty selection does. */
  function Digest(a: Article, clubUrl: string, urljoin: (string, Option<string>) -> string): (r: Outcome<Story>)
    ensures r.Ok? <==> a.anchors != [] && a.titles != []
    ensures r.Raised? ==> r.fault == IndexOutOfRange
    ensures r.Ok? ==> r.value.link == urljoin(clubUrl, GetHref(a.anchors[0]))
    ensures r.Ok? ==> r.value.title == Strip(a.titles[0].text) && Strip(r.value.title) == r.value.title
    ensures r.Ok? ==> r.value.summary == FirstText(a.summaries) && r.value.time == FirstText(a.times)
  {
    if a.anchors == [] || a.titles == [] then Raised(IndexOutOfRange)
    else
      StripIdempotent(a.titles[0].text);
      Ok(Story(urljoin(clubUrl, GetHref(a.anchors[0])), Strip(a.titles[0].text),
               FirstText(a.summaries), FirstText(a.times)))
  }

  /** `get_news(club_url)` over the fetched page: a failed fetch raises; the
      listing succeeds exactly when every article has an image link and a
      title, and then holds one record per article, in order. */
  method GetNews(clubUrl: string, page: Outcome<seq<Article>>, urljoin: (string, Option<string>) -> string)
    returns (r: Outcome<seq<Story>>)
    ensures page.Raised? ==> r == Raised(page.fault)
    ensures page.Ok? ==> (r.Ok? <==> forall k :: 0 <= k < |page.value| ==> Digest(page.value[k], clubUrl, urljoin).Ok?)
    ensures page.Ok? && r.Raised? ==> r.fault == IndexOutOfRange
    ensures page.Ok? && r.Ok? ==> |r.value| == |page.value|
    ensures page.Ok? && r.Ok? ==>
      forall k :: 0 <= k < |r.value| ==> Digest(page.value[k], clubUrl, urljoin) == Ok(r.value[k])
  {
    if page.Raised? {
      return Raised(page.fault);
    }
    var articles := page.value;
    var stories: seq<Story> := [];
    var i := 0;
    while i < |articles|
      invariant 0 <= i <= |articles|
      invariant |stories| == i
      invariant forall k :: 0 <= k < i ==> Digest(articles[k], clubUrl, urljoin) == Ok(stories[k])
    {
      var d := Digest(articles[i], clubUrl, urljoin);
      if d.Raised? {
        return Raised(d.fault);
      }
      stories := stories + [d.value];
      i := i + 1;
    }
    r := Ok(stories);
  }
}
