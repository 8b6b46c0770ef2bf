/** The aggregator's request handler (`exports.handler` in
    lambda-function/index.js): merge the RSS and Reddit articles, keep the
    first article of each normalised title, sort newest first and keep 50. */
module Aggregate {
  import opened Js
  import opened Text
  import opened Seqs
  import opened Ingest

  const MaxArticles := 50
  const KeyLength := 100

  /** Kept by `.replace(/[^a-z0-9]/g, '')`. */
  predicate IsKeyChar(c: char) {
    ('a' <= c <= 'z') || ('0' <= c <= '9')
  }

  /** The normalised title: lower-cased, reduced to [a-z0-9], cut to 100. */
  function DedupKey(title: string): (k: string)
    ensures |k| <= KeyLength
    ensures forall i :: 0 <= i < |k| ==> IsKeyChar(k[i])
  {
    Take(Filter(Lower(title), IsKeyChar), KeyLength)
  }

  /** Case does not matter: a title and its lower-case form share a key. */
  lemma CaseIgnored(title: string)
    ensures DedupKey(Lower(title)) == DedupKey(title)
  {
    var l := Lower(title);
    assert Lower(l) == l by {
      forall i | 0 <= i < |l| ensures Lower(l)[i] == l[i] {
        assert l[i] == LowerChar(title[i]);
      }
    }
  }

  /** Punctuation and spacing do not matter: removing a character that is
      neither a letter nor a digit leaves the key as it is. */
  lemma PunctuationIgnored(before: string, c: char, after: string)
    requires !IsKeyChar(LowerChar(c))
    ensures DedupKey(before + [c] + after) == DedupKey(before + after)
  {
    LowerAround(before, c, after);
    FilterSkips(Lower(before), LowerChar(c), Lower(after), IsKeyChar);
    LowerAppend(before, after);
  }

  lemma LowerAround(before: string, c: char, after: string)
    ensures Lower(before + [c] + after) == Lower(before) + [LowerChar(c)] + Lower(after)
  {
    LowerAppend(before + [c], after);
    LowerAppend(before, [c]);
  }

  function Key(a: Article): string {
    DedupKey(a.title)
  }

  /** The keys of the articles of `s`. */
  function KeySet(s: seq<Article>): set<string> {
    set i | 0 <= i < |s| :: Key(s[i])
  }

  /** The first article of each key, in input order: what the loop over
      `allArticles` with the `seenTitles` set keeps. */
  function Dedup(s: seq<Article>): seq<Article> {
    if s == [] then []
    else
      var kept := Dedup(s[..|s| - 1]);
      if Key(s[|s| - 1]) in KeySet(s[..|s| - 1]) then kept else kept + [s[|s| - 1]]
  }

  /** One more article: kept iff its key is new. */
  lemma DedupSnoc(s: seq<Article>, x: Article)
    ensures Dedup(s + [x]) == if Key(x) in KeySet(s) then Dedup(s) else Dedup(s) + [x]
  {
    var t := s + [x];
    assert t[..|t| - 1] == s && t[|t| - 1] == x;
  }

  /** The keys of `s + [x]`. */
  lemma KeySetSnoc(s: seq<Article>, x: Article)
    ensures KeySet(s + [x]) == KeySet(s) + {Key(x)}
  {
    var t := s + [x];
    forall k | k in KeySet(t) ensures k in KeySet(s) + {Key(x)} {
      var i :| 0 <= i < |t| && k == Key(t[i]);
      if i < |s| { assert t[i] == s[i]; }
    }
    forall k | k in KeySet(s) + {Key(x)} ensures k in KeySet(t) {
      if k in KeySet(s) {
        var i :| 0 <= i < |s| && k == Key(s[i]);
        assert t[i] == s[i];
      } else {
        assert t[|s|] == x;
      }
    }
  }

  /** No two articles share a key. */
  predicate DistinctKeys(s: seq<Article>) {
    forall i, j :: 0 <= i < j < |s| ==> Key(s[i]) != Key(s[j])
  }

  /** `x` is the first article of `s` with its key. */
  predicate FirstOfItsKey(s: seq<Article>, x: Article) {
    exists j :: 0 <= j < |s| && s[j] == x && Key(x) !in KeySet(s[..j])
  }

  /** Deduplication keeps one article per key of the input: no two kept
      articles share a key, and every key of the input is kept. */
  lemma {:induction false} DedupKeys(s: seq<Article>)
    ensures DistinctKeys(Dedup(s))
    ensures KeySet(Dedup(s)) == KeySet(s)
    ensures |Dedup(s)| == |KeySet(s)|
  {
    if s != [] {
      var init, last := s[..|s| - 1], s[|s| - 1];
      assert s == init + [last];
      DedupKeys(init);
      KeySetSnoc(init, last);
      var kept := Dedup(init);
      KeySetSnoc(kept, last);
      if Key(last) !in KeySet(init) {
        assert Dedup(s) == kept + [last];
        DistinctSnoc(kept, last);
        assert |KeySet(s)| == |KeySet(init)| + 1;
      }
    }
  }

  /** An article with a new key keeps the keys distinct. */
  lemma DistinctSnoc(kept: seq<Article>, last: Article)
    requires DistinctKeys(kept) && Key(last) !in KeySet(kept)
    ensures DistinctKeys(kept + [last])
  {
    var t := kept + [last];
    forall i, j | 0 <= i < j < |t| ensures Key(t[i]) != Key(t[j]) {
      if j == |kept| {
        assert Key(kept[i]) in KeySet(kept);
      }
    }
  }

  /** Deduplication keeps the input order. */
  lemma {:induction false} DedupInOrder(s: seq<Article>)
    ensures IsSubsequence(Dedup(s), s)
  {
    if s != [] {
      var init, last := s[..|s| - 1], s[|s| - 1];
      assert s == init + [last];
      DedupInOrder(init);
      if Key(last) !in KeySet(init) {
        SubsequenceSnoc(Dedup(init), init, last);
      } else {
        SubsequenceOfInit(Dedup(init), init, last);
      }
    }
  }

  /** Each kept article is the first of its key in the input. */
  lemma {:induction false} DedupKeepsFirst(s: seq<Article>)
    ensures forall x :: x in Dedup(s) ==> FirstOfItsKey(s, x)
  {
    if s != [] {
      var init, last := s[..|s| - 1], s[|s| - 1];
      assert s == init + [last];
      DedupKeepsFirst(init);
      forall x | x in Dedup(s) ensures FirstOfItsKey(s, x) {
        if x in Dedup(init) {
          FirstOfItsKeyExtends(init, last, x);
        } else {
          assert x == last && Key(last) !in KeySet(init);
          assert s[|s| - 1] == x && s[..|s| - 1] == init;
        }
      }
    }
  }

  lemma FirstOfItsKeyExtends(s: seq<Article>, last: Article, x: Article)
    requires FirstOfItsKey(s, x)
    ensures FirstOfItsKey(s + [last], x)
  {
    var j :| 0 <= j < |s| && s[j] == x && Key(x) !in KeySet(s[..j]);
    assert (s + [last])[..j] == s[..j];
    assert (s + [last])[j] == x;
  }

  /** A subsequence stays one when both sides grow by the same element. */
  lemma {:induction false} SubsequenceSnoc<T>(sub: seq<T>, s: seq<T>, x: T)
    requires IsSubsequence(sub, s)
    ensures IsSubsequence(sub + [x], s + [x])
    decreases |s|
  {
    if sub == [] {
      assert sub + [x] == [x];
      SubsequenceOfLast(s, x);
    } else if sub[0] == s[0] {
      assert (sub + [x])[1..] == sub[1..] + [x];
      assert (s + [x])[1..] == s[1..] + [x];
      SubsequenceSnoc(sub[1..], s[1..], x);
    } else {
      assert (s + [x])[1..] == s[1..] + [x];
      SubsequenceSnoc(sub, s[1..], x);
    }
  }

  /** The last element alone is a subsequence. */
  lemma {:induction false} SubsequenceOfLast<T>(s: seq<T>, x: T)
    ensures IsSubsequence([x], s + [x])
    decreases |s|
  {
    if s != [] {
      assert (s + [x])[1..] == s[1..] + [x];
      SubsequenceOfLast(s[1..], x);
      if s[0] != x {
      } else {
        assert [x][1..] == [];
      }
    }
  }

  /** A subsequence of `s` is a subsequence of `s + [x]`. */
  lemma {:induction false} SubsequenceOfInit<T>(sub: seq<T>, s: seq<T>, x: T)
    requires IsSubsequence(sub, s)
    ensures IsSubsequence(sub, s + [x])
    decreases |s|
  {
    if sub != [] {
      assert (s + [x])[1..] == s[1..] + [x];
      if sub[0] == s[0] {
        SubsequenceOfInit(sub[1..], s[1..], x);
      } else {
        SubsequenceOfInit(sub, s[1..], x);
      }
    }
  }

  /** The handler's deduplication loop, with its `seenTitles` set. */
  method Deduplicate(all: seq<Article>) returns (unique: seq<Article>)
    ensures unique == Dedup(all)
  {
    unique := [];
    var seen: set<string> := {};
    var i := 0;
    while i < |all|
      invariant 0 <= i <= |all|
      invariant unique == Dedup(all[..i])
      invariant seen == KeySet(all[..i])
    {
      assert all[..i + 1] == all[..i] + [all[i]];
      unique, seen := KeepIfNew(all[..i], all[i], unique, seen);
      i := i + 1;
    }
    assert all[..|all|] == all;
  }

  /** One step of the loop: the article is kept, and its key remembered,
      iff the key is new. */
  method KeepIfNew(prefix: seq<Article>, a: Article, unique: seq<Article>, seen: set<string>)
    returns (unique': seq<Article>, seen': set<string>)
    requires unique == Dedup(prefix) && seen == KeySet(prefix)
    ensures unique' == Dedup(prefix + [a]) && seen' == KeySet(prefix + [a])
  {
    KeySetSnoc(prefix, a);
    DedupSnoc(prefix, a);
    var key := Key(a);
    if key !in seen {
      unique', seen' := unique + [a], seen + {key};
    } else {
      unique', seen' := unique, seen;
    }
  }

  function PublishedAt(a: Article): int {
    a.publishedAt
  }

  /** The articles returned: deduplicated, newest first, at most 50. */
  function TopArticles(all: seq<Article>): seq<Article> {
    Take(SortDesc(Dedup(all), PublishedAt), MaxArticles)
  }

  /** The response holds min(50, number of distinct keys) articles, newest
      first, no two with the same key, each the first of its key in the
      merged input; no deduplicated article left out is newer than one kept. */
  lemma TopArticlesCorrect(all: seq<Article>)
    ensures var top := TopArticles(all);
      && |top| == (if |KeySet(all)| <= MaxArticles then |KeySet(all)| else MaxArticles)
      && SortedDesc(top, PublishedAt)
      && multiset(top) <= multiset(Dedup(all))
      && (forall x :: x in top ==> FirstOfItsKey(all, x))
      && (forall x, y :: x in Dedup(all) && x !in top && y in top ==> PublishedAt(x) <= PublishedAt(y))
  {
    var unique := Dedup(all);
    DedupKeys(all);
    DedupKeepsFirst(all);
    SortDescCorrect(unique, PublishedAt);
    var sorted := SortDesc(unique, PublishedAt);
    var top := TopArticles(all);
    PrefixOfSorted(sorted, top, unique);
    TopAreNewest(all);
  }

  /** A prefix of a newest-first ordering of `unique` is newest first, and
      holds articles of `unique` only. */
  lemma PrefixOfSorted(sorted: seq<Article>, top: seq<Article>, unique: seq<Article>)
    requires |top| <= |sorted| && top == sorted[..|top|]
    requires SortedDesc(sorted, PublishedAt) && multiset(sorted) == multiset(unique)
    ensures SortedDesc(top, PublishedAt)
    ensures multiset(top) <= multiset(unique)
    ensures forall x :: x in top ==> x in unique
  {
    assert sorted == top + sorted[|top|..];
    assert multiset(sorted) == multiset(top) + multiset(sorted[|top|..]);
    forall x | x in top ensures x in unique {
      assert x in multiset(sorted);
      assert x in multiset(unique);
    }
  }

  /** No deduplicated article left out of the response is newer than one
      kept. */
  lemma TopAreNewest(all: seq<Article>)
    ensures var top := TopArticles(all);
      forall x, y :: x in Dedup(all) && x !in top && y in top ==> PublishedAt(x) <= PublishedAt(y)
  {
    var unique := Dedup(all);
    SortDescCorrect(unique, PublishedAt);
    var sorted := SortDesc(unique, PublishedAt);
    var top := TopArticles(all);
    assert top == sorted[..|top|];
    PrefixHoldsLargest(sorted, |top|, PublishedAt);
    forall x | x in unique ensures x in sorted {
      assert x in multiset(unique);
    }
  }

  /** The aggregator's HTTP answer. */
  datatype Response =
    | Preflight
    | Aggregated(count: nat, articles: seq<Article>, rssCount: nat, redditCount: nat)

  /** `exports.handler`: an OPTIONS request is answered with an empty 200;
      any other request aggregates the RSS articles, then the Reddit ones. */
  method Handler(httpMethod: string, feeds: seq<FeedResult>, reddit: RedditResponse, nowMs: int)
    returns (r: Response)
    requires |feeds| == |RssFeeds|
    ensures httpMethod == "OPTIONS" <==> r.Preflight?
    ensures r.Aggregated? ==>
      var all := RssArticles(feeds, nowMs) + RedditArticles(reddit, nowMs);
      && r.articles == TopArticles(all)
      && r.count == |r.articles|
      && r.rssCount == |RssArticles(feeds, nowMs)|
      && r.redditCount == |RedditArticles(reddit, nowMs)|
  {
    if httpMethod == "OPTIONS" {
      return Preflight;
    }
    var rss := FetchRSSFeeds(feeds, nowMs);
    var posts := RedditArticles(reddit, nowMs);
    var unique := Deduplicate(rss + posts);
    var top := Take(SortDesc(unique, PublishedAt), MaxArticles);
    return Aggregated(|top|, top, |rss|, |posts|);
  }

  /** The response never holds more than 50 articles, and none of them
      shares a key with another. */
  lemma ResponseBounded(all: seq<Article>)
    ensures |TopArticles(all)| <= MaxArticles
    ensures DistinctKeys(TopArticles(all))
  {
    var unique := Dedup(all);
    DedupKeys(all);
    SortDescCorrect(unique, PublishedAt);
    var sorted := SortDesc(unique, PublishedAt);
    var top := TopArticles(all);
    SortedKeepsDistinctKeys(unique, sorted);
  }

  /** A permutation of a list with distinct keys has distinct keys. */
  lemma SortedKeepsDistinctKeys(s: seq<Article>, t: seq<Article>)
    requires DistinctKeys(s) && multiset(s) == multiset(t)
    ensures DistinctKeys(t)
  {
    forall i, j | 0 <= i < j < |t| ensures Key(t[i]) != Key(t[j]) {
      var x, y := t[i], t[j];
      assert x in multiset(s) && y in multiset(s);
      var p :| 0 <= p < |s| && s[p] == x;
      var q :| 0 <= q < |s| && s[q] == y;
      if p == q {
        TwoOccurrences(t, i, j);
        DistinctHasNoRepeats(s, p);
      }
    }
  }

  /** An element at two positions occurs at least twice. */
  lemma TwoOccurrences<T>(t: seq<T>, i: nat, j: nat)
    requires i < j < |t| && t[i] == t[j]
    ensures multiset(t)[t[i]] >= 2
  {
    assert t == t[..i] + [t[i]] + t[i + 1..j] + [t[j]] + t[j + 1..];
  }

  /** In a list with distinct keys every article occurs once. */
  lemma DistinctHasNoRepeats(s: seq<Article>, p: nat)
    requires DistinctKeys(s) && p < |s|
    ensures multiset(s)[s[p]] == 1
  {
    assert s == s[..p] + [s[p]] + s[p + 1..];
    assert s[p] !in s[..p] by {
      forall k | 0 <= k < p ensures s[k] != s[p] { assert Key(s[k]) != Key(s[p]); }
    }
    assert s[p] !in s[p + 1..] by {
      forall k | p + 1 <= k < |s| ensures s[k] != s[p] { assert Key(s[p]) != Key(s[k]); }
    }
  }
}
