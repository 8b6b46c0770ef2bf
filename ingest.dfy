/** Turning what the sources returned into articles (`fetchRSSFeeds` and
    `fetchRedditPosts` in lambda-function/index.js). The network is not
    modelled: each feed's parsed result and the Reddit response are inputs,
    and `Date.now()` is the parameter `nowMs`. */
module Ingest {
  import opened Js
  import opened Text
  import opened Seqs
  import opened Categorizer
  import opened Sanitize
  import opened Elapsed

  /** An aggregated article. `publishedAt` is the instant in milliseconds
      that the ISO string denotes. The url is missing only for a Reddit post
      that has none. */
  datatype Article = Article(id: string, title: string, summary: string, url: Option<string>,
                             source: string, publishedAt: int, topic: string, timeAgo: Elapsed)

  /** `pubDate` of a feed item: missing or empty, a date `Date` can parse, or
      text it cannot (for which `toISOString` throws). */
  datatype RawDate = NoDate | Parsed(ms: int) | Invalid

  /** An item as the RSS parser returns it. */
  datatype RssItem = RssItem(title: Option<string>, contentSnippet: Option<string>,
                             content: Option<string>, summary: Option<string>,
                             link: Option<string>, guid: Option<string>, pubDate: RawDate)

  /** The outcome of fetching one feed: the parsed feed (whose `items` may be
      missing) or a failure (network error, timeout, unparseable XML). */
  datatype FeedResult = Fetched(title: Option<string>, items: Option<seq<RssItem>>) | Failed

  /** The keys of `RSS_FEEDS`, in declaration order. */
  const RssFeeds: seq<string> := ["krebsonsecurity", "bleepingcomputer", "darkreading",
    "thehackernews", "securityweek", "therecord", "arstechnica", "wired"]

  const ItemsPerFeed := 8
  const RedditPostsKept := 5
  const SummaryLength := 250
  const DefaultTitle := "Security News Update"
  const RedditSource := "Reddit r/netsec"

  /** `${source}-${Date.now()}-${index}`. */
  function ItemId(source: string, nowMs: int, index: nat): string {
    source + "-" + IntToString(nowMs) + "-" + NatToString(index)
  }

  /** The mapping of one feed item, given that its date is not `Invalid`:
      the defaults for a missing title, summary, link and feed title, the
      cleaned title, and the summary cut to 250 characters. */
  function MapItem(source: string, feedTitle: Option<string>, item: RssItem, index: nat, nowMs: int): (a: Article)
    requires !item.pubDate.Invalid?
    ensures a.title == CleanText(Some(Or(item.title, DefaultTitle)))
    ensures forall i :: 0 <= i < |a.title| ==> Printable(a.title[i])
    ensures a.id == ItemId(source, nowMs, index)
    ensures a.summary == Take(CleanHTML(Some(Or(item.contentSnippet, Or(item.content,
                          Or(item.summary, "Security news update from " + source))))), SummaryLength)
    ensures |a.summary| <= SummaryLength
    ensures a.url == Some(if Truthy(item.link) then item.link.value
                          else if Truthy(item.guid) then item.guid.value else "#")
    ensures a.source == (if Truthy(feedTitle) then feedTitle.value else source)
    ensures a.publishedAt == (if item.pubDate.Parsed? then item.pubDate.ms else nowMs)
    ensures a.topic == Categorize(Or(item.title, ""), Or(item.contentSnippet, ""))
    ensures a.timeAgo == TimeAgo(nowMs, a.publishedAt)
  {
    var body := Or(item.contentSnippet, Or(item.content, Or(item.summary, "Security news update from " + source)));
    var published := if item.pubDate.Parsed? then item.pubDate.ms else nowMs;
    var topic := Categorize(Or(item.title, ""), Or(item.contentSnippet, ""));
    Article(ItemId(source, nowMs, index),
            CleanText(Some(Or(item.title, DefaultTitle))),
            Take(CleanHTML(Some(body)), SummaryLength),
            Some(Or(item.link, Or(item.guid, "#"))),
            Or(feedTitle, source),
            published,
            topic,
            TimeAgo(nowMs, published))
  }

  /** Some item of `items` has a date `toISOString` throws on. */
  predicate HasInvalidDate(items: seq<RssItem>) {
    exists i | 0 <= i < |items| :: items[i].pubDate.Invalid?
  }

  /** What one feed contributes: its first eight items, mapped; nothing at
      all when the fetch failed, when the feed has no item list, or when
      mapping any of those eight items throws. */
  function MapFeed(source: string, result: FeedResult, nowMs: int): (r: seq<Article>)
    ensures |r| <= ItemsPerFeed
    ensures forall a :: a in r ==> |a.summary| <= SummaryLength
    ensures result.Failed? || result.items.None? ==> r == []
    ensures result.Fetched? && result.items.Some? ==>
      var first := Take(result.items.value, ItemsPerFeed);
      if HasInvalidDate(first) then r == []
      else |r| == |first| && forall i :: 0 <= i < |r| ==> r[i] == MapItem(source, result.title, first[i], i, nowMs)
  {
    match result
    case Failed => []
    case Fetched(title, items) =>
      if items.None? then []
      else
        var first := Take(items.value, ItemsPerFeed);
        if HasInvalidDate(first) then []
        else seq(|first|, i requires 0 <= i < |first| => MapItem(source, title, first[i], i, nowMs))
  }

  /** The concatenation of `parts`, in order. */
  function Flatten<T>(parts: seq<seq<T>>): seq<T> {
    if parts == [] then [] else Flatten(parts[..|parts| - 1]) + parts[|parts| - 1]
  }

  /** What every feed contributes, one list per feed, in `RSS_FEEDS` order. */
  function FeedContributions(results: seq<FeedResult>, nowMs: int): (r: seq<seq<Article>>)
    requires |results| == |RssFeeds|
    ensures |r| == |results|
    ensures forall i :: 0 <= i < |r| ==> r[i] == MapFeed(RssFeeds[i], results[i], nowMs)
  {
    seq(|results|, i requires 0 <= i < |results| => MapFeed(RssFeeds[i], results[i], nowMs))
  }

  /** All RSS articles: each feed's contribution, in `RSS_FEEDS` order. */
  function RssArticles(results: seq<FeedResult>, nowMs: int): seq<Article>
    requires |results| == |RssFeeds|
  {
    Flatten(FeedContributions(results, nowMs))
  }

  /** `fetchRSSFeeds`: collects the contributions feed by feed. */
  method FetchRSSFeeds(results: seq<FeedResult>, nowMs: int) returns (all: seq<Article>)
    requires |results| == |RssFeeds|
    ensures all == RssArticles(results, nowMs)
    ensures |all| <= ItemsPerFeed * |RssFeeds|
  {
    var parts := FeedContributions(results, nowMs);
    all := [];
    var i := 0;
    while i < |RssFeeds|
      invariant 0 <= i <= |RssFeeds|
      invariant all == Flatten(parts[..i])
    {
      var contribution := MapFeed(RssFeeds[i], results[i], nowMs);
      assert parts[..i + 1][..i] == parts[..i];
      all := all + contribution;
      i := i + 1;
    }
    assert parts[..|RssFeeds|] == parts;
    FlattenBound(parts, ItemsPerFeed);
  }

  /** Lists of at most `n` elements each flatten to at most `n` per list. */
  lemma {:induction false} FlattenBound<T>(parts: seq<seq<T>>, n: nat)
    requires forall i :: 0 <= i < |parts| ==> |parts[i]| <= n
    ensures |Flatten(parts)| <= n * |parts|
  {
    if parts != [] {
      FlattenBound(parts[..|parts| - 1], n);
    }
  }

  /** Each element of a flattened list comes from one of the parts. */
  lemma {:induction false} FlattenMember<T>(parts: seq<seq<T>>, x: T)
    requires x in Flatten(parts)
    ensures exists i :: 0 <= i < |parts| && x in parts[i]
  {
    var last := |parts| - 1;
    if x !in parts[last] {
      FlattenMember(parts[..last], x);
      var i :| 0 <= i < last && x in parts[..last][i];
      assert parts[..last][i] == parts[i];
    }
  }

  /** Every RSS summary is at most 250 characters long. */
  lemma RssSummariesBounded(results: seq<FeedResult>, nowMs: int)
    requires |results| == |RssFeeds|
    ensures forall a :: a in RssArticles(results, nowMs) ==> |a.summary| <= SummaryLength
  {
    var parts := FeedContributions(results, nowMs);
    forall a: Article | a in Flatten(parts) ensures |a.summary| <= SummaryLength {
      FlattenMember(parts, a);
    }
  }

  /** Flattening distributes over concatenation of the lists of parts. */
  lemma {:induction false} FlattenAppend<T>(p: seq<seq<T>>, q: seq<seq<T>>)
    ensures Flatten(p + q) == Flatten(p) + Flatten(q)
    decreases |q|
  {
    if q == [] {
      assert p + q == p;
    } else {
      var last := |q| - 1;
      assert (p + q)[..|p + q| - 1] == p + q[..last];
      FlattenAppend(p, q[..last]);
    }
  }

  /** A feed that fails removes its own contribution and changes nothing
      else: the other feeds' articles stay, in the same order. */
  lemma FailedFeedIsolated(results: seq<FeedResult>, k: nat, nowMs: int)
    requires |results| == |RssFeeds| && k < |results|
    ensures var parts := FeedContributions(results, nowMs);
      RssArticles(results[k := Failed], nowMs)
        == Flatten(parts[..k]) + Flatten(parts[k + 1..])
  {
    var parts := FeedContributions(results, nowMs);
    assert FeedContributions(results[k := Failed], nowMs) == parts[k := []];
    FlattenEmptied(parts, k);
  }

  /** Emptying one part removes exactly that part's elements. */
  lemma FlattenEmptied<T>(parts: seq<seq<T>>, k: nat)
    requires k < |parts|
    ensures Flatten(parts[k := []]) == Flatten(parts[..k]) + Flatten(parts[k + 1..])
  {
    var none: seq<seq<T>> := [[]];
    assert parts[k := []] == parts[..k] + none + parts[k + 1..];
    FlattenAppend(parts[..k] + none, parts[k + 1..]);
    FlattenAppend(parts[..k], none);
    assert Flatten(none) == [];
  }

  // ----- Reddit -----

  /** The fields of a `/r/netsec/hot.json` child post the aggregator reads. */
  datatype RedditPost = RedditPost(id: string, title: Option<string>, score: int, numComments: int,
                                   url: Option<string>, createdUtc: Option<int>,
                                   stickied: bool, isSelf: bool)

  /** The Reddit request's outcome: an error or timeout, a body that is not
      JSON, or a JSON body whose `data.children` may be missing. */
  datatype RedditResponse = RequestFailed | NotJson | Payload(children: Option<seq<RedditPost>>)

  /** The posts the aggregator keeps: neither stickied nor self posts. */
  predicate IsLinkPost(p: RedditPost) {
    !p.stickied && !p.isSelf
  }

  /** The summary text of a Reddit article, before cleaning. */
  function RedditBlurb(score: int, comments: int): string {
    "Reddit discussion with " + IntToString(score) + " upvotes. " + IntToString(comments) + " comments."
  }

  /** The mapping of one Reddit post whose creation time is present. */
  function MapPost(p: RedditPost, nowMs: int): (a: Article)
    requires p.createdUtc.Some?
    ensures a.source == RedditSource
    ensures a.title == CleanText(p.title)
    ensures a.url == p.url
    ensures a.publishedAt == p.createdUtc.value * 1000
    ensures a.topic == Categorize(Interpolate(p.title), "")
    ensures a.summary == RedditBlurb(p.score, p.numComments)
  {
    var published := p.createdUtc.value * 1000;
    RedditBlurbIsClean(p.score, p.numComments);
    Article("reddit-" + p.id, CleanText(p.title),
            CleanText(Some(RedditBlurb(p.score, p.numComments))),
            p.url, RedditSource, published,
            Categorize(Interpolate(p.title), ""),
            TimeAgo(nowMs, published))
  }

  /** The Reddit summary is printable ASCII with no space at either end, so
      cleaning leaves it as it is. */
  lemma RedditBlurbIsClean(score: int, comments: int)
    ensures CleanText(Some(RedditBlurb(score, comments))) == RedditBlurb(score, comments)
  {
    var s := RedditBlurb(score, comments);
    var a, b := IntToString(score), IntToString(comments);
    PrintableConcat("Reddit discussion with ", a);
    PrintableConcat("Reddit discussion with " + a, " upvotes. ");
    PrintableConcat("Reddit discussion with " + a + " upvotes. ", b);
    PrintableConcat("Reddit discussion with " + a + " upvotes. " + b, " comments.");
    assert s[0] == 'R' && s[|s| - 1] == '.';
    CleanTextOfClean(s);
  }

  /** Printable text joined to printable text is printable. */
  lemma PrintableConcat(x: string, y: string)
    requires forall i :: 0 <= i < |x| ==> Printable(x[i])
    requires forall i :: 0 <= i < |y| ==> ('0' <= y[i] <= '9') || Printable(y[i])
    ensures forall i :: 0 <= i < |x + y| ==> Printable((x + y)[i])
  {
    forall i | 0 <= i < |x + y| ensures Printable((x + y)[i]) {
      if i >= |x| { assert (x + y)[i] == y[i - |x|]; }
    }
  }

  /** `fetchRedditPosts`: nothing on a failed request, a body that is not
      JSON, a payload without `data.children`, or a kept post without a
      creation time (whose date `toISOString` throws on); otherwise the first
      five link posts, mapped. */
  function RedditArticles(response: RedditResponse, nowMs: int): (r: seq<Article>)
    ensures |r| <= RedditPostsKept
    ensures forall a :: a in r ==> a.source == RedditSource
    ensures response.RequestFailed? || response.NotJson? || (response.Payload? && response.children.None?) ==> r == []
  {
    match response
    case RequestFailed => []
    case NotJson => []
    case Payload(children) =>
      if children.None? then []
      else
        var kept := Take(Filter(children.value, IsLinkPost), RedditPostsKept);
        if exists i | 0 <= i < |kept| :: kept[i].createdUtc.None? then []
        else seq(|kept|, i requires 0 <= i < |kept| => MapPost(kept[i], nowMs))
  }

  /** Every Reddit article comes from a link post of the payload, in the
      payload's order, and there are as many as there are link posts, up to
      five. */
  lemma RedditArticlesFromLinkPosts(children: seq<RedditPost>, nowMs: int)
    requires forall i :: 0 <= i < |children| ==> children[i].createdUtc.Some?
    ensures var r := RedditArticles(Payload(Some(children)), nowMs);
      var kept := Take(Filter(children, IsLinkPost), RedditPostsKept);
      && |r| == |kept|
      && (forall i :: 0 <= i < |r| ==> IsLinkPost(kept[i]) && kept[i] in children && r[i] == MapPost(kept[i], nowMs))
      && IsSubsequence(kept, children)
  {
    var kept := Take(Filter(children, IsLinkPost), RedditPostsKept);
    KeptLinkPosts(children);
    assert forall i :: 0 <= i < |kept| ==> kept[i].createdUtc.Some?;
    RedditArticlesMapped(children, kept, nowMs);
    MappedPosts(kept, RedditArticles(Payload(Some(children)), nowMs), nowMs);
  }

  /** A sequence built by mapping posts has one article per post, each the
      mapped post at the same position. */
  lemma MappedPosts(kept: seq<RedditPost>, r: seq<Article>, nowMs: int)
    requires forall i :: 0 <= i < |kept| ==> kept[i].createdUtc.Some?
    requires r == seq(|kept|, i requires 0 <= i < |kept| => MapPost(kept[i], nowMs))
    ensures |r| == |kept| && forall i :: 0 <= i < |r| ==> r[i] == MapPost(kept[i], nowMs)
  {
  }

  /** With every kept post dated, the Reddit articles are the kept posts
      mapped one by one. */
  lemma RedditArticlesMapped(children: seq<RedditPost>, kept: seq<RedditPost>, nowMs: int)
    requires kept == Take(Filter(children, IsLinkPost), RedditPostsKept)
    requires forall i :: 0 <= i < |kept| ==> kept[i].createdUtc.Some?
    ensures RedditArticles(Payload(Some(children)), nowMs)
      == seq(|kept|, i requires 0 <= i < |kept| => MapPost(kept[i], nowMs))
  {
    assert !exists i | 0 <= i < |kept| :: kept[i].createdUtc.None?;
  }

  /** The posts kept are link posts of the payload, in its order. */
  lemma KeptLinkPosts(children: seq<RedditPost>)
    ensures var kept := Take(Filter(children, IsLinkPost), RedditPostsKept);
      && (forall i :: 0 <= i < |kept| ==> IsLinkPost(kept[i]) && kept[i] in children)
      && IsSubsequence(kept, children)
  {
    var linked := Filter(children, IsLinkPost);
    var kept := Take(linked, RedditPostsKept);
    forall i | 0 <= i < |kept| ensures IsLinkPost(kept[i]) && kept[i] in children {
      assert kept[i] == linked[i];
      assert linked[i] in linked;
    }
    FilterIsSubsequence(children, IsLinkPost);
    SliceIsSubsequence(linked, 0, |kept|);
    SubsequenceTransitive(kept, linked, children);
  }
}
