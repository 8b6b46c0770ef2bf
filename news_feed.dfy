/** The article grid (src/components/NewsFeed.jsx): an infinite-scroll
    window over the list, the shortened description, the category colours,
    and how an article is recognised as read. */
module NewsFeedView {
  import opened Js
  import opened Text
  import FeedView

  const PageSize := 20
  const DescriptionLength := 150
  const DefaultColor := "#6b7280"

  /** The window after one `loadMore`: grows by a page, capped at the list
      length, and only while it does not already cover the list. */
  function NextVisible(visible: nat, length: nat): (r: nat)
    ensures visible < length ==> visible < r <= length && r <= visible + PageSize
    ensures visible < length ==> (r == length || r == visible + PageSize)
    ensures visible >= length ==> r == visible
  {
    if visible < length then (if visible + PageSize < length then visible + PageSize else length) else visible
  }

  /** The window after `n` loads. */
  function LoadTimes(visible: nat, length: nat, n: nat): nat
    decreases n
  {
    if n == 0 then visible else LoadTimes(NextVisible(visible, length), length, n - 1)
  }

  /** Enough loads reveal the whole list: `n` pages past the window cover
      it. */
  lemma {:induction false} LoadsReachEnd(visible: nat, length: nat, n: nat)
    requires visible + n * PageSize >= length
    ensures LoadTimes(visible, length, n) >= length
    ensures visible <= length ==> LoadTimes(visible, length, n) == length
    decreases n
  {
    if n > 0 {
      var next := NextVisible(visible, length);
      assert next + (n - 1) * PageSize >= length;
      LoadsReachEnd(next, length, n - 1);
    }
  }

  /** How many articles are shown: `Math.min(visibleArticles, articles.length)`,
      which is also the length of `articles.slice(0, visibleArticles)`. */
  function Shown(visible: nat, length: nat): (r: nat)
    ensures r <= visible && r <= length && (r == visible || r == length)
  {
    if visible < length then visible else length
  }

  /** The rendered articles: the first `visible` ones. */
  function Rendered<T>(articles: seq<T>, visible: nat): (r: seq<T>)
    ensures |r| == Shown(visible, |articles|)
    ensures r == articles[..|r|]
  {
    if visible < |articles| then articles[..visible] else articles
  }

  /** The window's state. */
  class FeedWindow {
    var visible: nat
    /** The article count the window was last reset for. */
    var length: nat

    constructor (length0: nat)
      ensures visible == PageSize && length == length0
    {
      visible := PageSize;
      length := length0;
    }

    /** `loadMore`. */
    method LoadMore()
      modifies this
      ensures visible == NextVisible(old(visible), length)
      ensures length == old(length)
    {
      if visible < length {
        visible := if visible + PageSize < length then visible + PageSize else length;
      }
    }

    /** The effect on `articles.length`: a new count resets the window. */
    method ArticlesChanged(newLength: nat)
      modifies this
      ensures length == newLength
      ensures visible == if newLength != old(length) then PageSize else old(visible)
    {
      if newLength != length {
        visible := PageSize;
      }
      length := newLength;
    }
  }

  /** `article.description.substring(0, 150)` followed by '...' when the
      description is longer. */
  function Truncate(d: string): (r: string)
    ensures |d| <= DescriptionLength ==> r == d
    ensures |d| > DescriptionLength ==>
      |r| == DescriptionLength + 3 && r[..DescriptionLength] == d[..DescriptionLength] && r[DescriptionLength..] == "..."
  {
    if |d| > DescriptionLength then d[..DescriptionLength] + "..." else d
  }

  /** The description paragraph: absent when the description is missing
      or empty. */
  function DescriptionShown(description: Option<string>): (r: Option<string>)
    ensures r.Some? <==> Truthy(description)
  {
    if Truthy(description) then Some(Truncate(description.value)) else None
  }

  /** Shortening a shortened description changes nothing. */
  lemma TruncateIdempotent(d: string)
    ensures Truncate(Truncate(d)) == Truncate(d)
  {
    if |d| > DescriptionLength {
      var t := Truncate(d);
      assert t[..DescriptionLength] == d[..DescriptionLength];
    }
  }

  /** `colors` in `getCategoryColor`. */
  const CategoryColors: seq<(string, string)> := [
    ("ai-security", "#8b5cf6"),
    ("cloud-security", "#3b82f6"),
    ("social-engineering", "#ec4899"),
    ("privacy", "#10b981"),
    ("malware", "#ef4444"),
    ("vulnerabilities", "#f59e0b"),
    ("data-breach", "#dc2626"),
    ("compliance", "#6366f1")
  ]

  function ColorLookup(table: seq<(string, string)>, key: string): (r: Option<string>)
    ensures r.Some? <==> exists i :: 0 <= i < |table| && table[i].0 == key
    ensures r.Some? ==> exists i :: 0 <= i < |table| && table[i] == (key, r.value)
  {
    if table == [] then None
    else if table[0].0 == key then Some(table[0].1)
    else
      var r := ColorLookup(table[1..], key);
      assert forall i :: 0 < i < |table| ==> table[i] == table[1..][i - 1];
      r
  }

  /** `getCategoryColor`. A missing category is looked up as 'undefined',
      which is not a key. */
  function CategoryColor(category: Option<string>): (r: string)
  {
    match ColorLookup(CategoryColors, Interpolate(category))
    case Some(c) => c
    case None => DefaultColor
  }

  /** A listed category gets its own colour, never the grey; any other
      category gets the grey. */
  lemma CategoryColorCorrect(category: Option<string>)
    ensures var r := CategoryColor(category);
      && (r == DefaultColor <==> forall i :: 0 <= i < |CategoryColors| ==> CategoryColors[i].0 != Interpolate(category))
      && (r != DefaultColor ==> category.Some? && exists i :: 0 <= i < |CategoryColors| && CategoryColors[i] == (category.value, r))
  {
    assert forall i :: 0 <= i < |CategoryColors| ==> CategoryColors[i].1 != DefaultColor;
    assert forall i :: 0 <= i < |CategoryColors| ==> CategoryColors[i].0 != "undefined";
  }

  // ----- read marks -----

  /** As written: a click marks `article.link`, and an article shows as
      read when `article.link` is in the set. */
  function ClickKeyAsWritten(a: FeedView.FeedArticle): Option<string> {
    a.link
  }

  predicate IsReadAsWritten(read: set<Option<string>>, a: FeedView.FeedArticle) {
    ClickKeyAsWritten(a) in read
  }

  /** An article as the aggregator sends it: a `url`, no `link`. */
  function AggregatorArticle(title: string, url: string): (a: FeedView.FeedArticle)
    ensures a.link.None? && a.url == Some(url)
  {
    FeedView.FeedArticle(Some(title), None, None, None, None, None, None, None, None, None, Some(url))
  }

  /** With the aggregator's articles, opening one article marks every
      article as read. */
  lemma OneClickMarksAllAsWritten()
    ensures var a := AggregatorArticle("First", "https://example.com/1");
      var b := AggregatorArticle("Second", "https://example.com/2");
      a.url != b.url && !IsReadAsWritten({}, b) && IsReadAsWritten({ClickKeyAsWritten(a)}, b)
  {
  }

  /** Corrected: the article's own link, or its url when it has no link. */
  function ReadKey(a: FeedView.FeedArticle): (r: Option<string>)
    ensures a.link.Some? ==> r == a.link
    ensures a.link.None? ==> r == a.url
  {
    if a.link.Some? then a.link else a.url
  }

  predicate IsRead(read: set<Option<string>>, a: FeedView.FeedArticle) {
    ReadKey(a) in read
  }

  /** Opening an article marks it read and leaves every article with
      another key as it was; two aggregator articles with different urls
      have different keys. */
  lemma ClickMarksOnlyItself(read: set<Option<string>>, a: FeedView.FeedArticle, b: FeedView.FeedArticle)
    ensures IsRead(read + {ReadKey(a)}, a)
    ensures ReadKey(b) != ReadKey(a) ==> (IsRead(read + {ReadKey(a)}, b) <==> IsRead(read, b))
    ensures a.link.None? && b.link.None? && a.url != b.url ==> ReadKey(a) != ReadKey(b)
  {
  }

  /** `handleArticleClick`, keyed by `ReadKey`: the opened article reads as
      read afterwards, and nothing but the read set changes. */
  method HandleArticleClick(app: FeedView.Dashboard, a: FeedView.FeedArticle)
    modifies app
    ensures app.readArticles == old(app.readArticles) + {ReadKey(a)}
    ensures IsRead(app.readArticles, a)
    ensures app.articles == old(app.articles) && app.enabledSources == old(app.enabledSources)
    ensures app.selectedTopics == old(app.selectedTopics) && app.searchQuery == old(app.searchQuery)
    ensures app.sortBy == old(app.sortBy)
  {
    app.MarkAsRead(ReadKey(a));
  }
}
