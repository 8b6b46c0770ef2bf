/** The source settings (src/components/Settings.jsx): nine sources that
    can be switched on and off one by one or all at once, and the list of
    source names the fetched articles actually carry. */
module SourceSettings {
  import opened Js
  import opened Seqs
  import opened ListToggle
  import FeedView

  /** An entry of `allSources`: id and display name. */
  datatype SourceEntry = SourceEntry(id: string, name: string)

  /** `allSources`. */
  const AllSources: seq<SourceEntry> := [
    SourceEntry("krebsonsecurity", "Krebs on Security"),
    SourceEntry("bleepingcomputer", "BleepingComputer"),
    SourceEntry("darkreading", "Dark Reading"),
    SourceEntry("thehackernews", "The Hacker News"),
    SourceEntry("securityweek", "SecurityWeek"),
    SourceEntry("therecord", "The Record"),
    SourceEntry("arstechnica", "Ars Technica Security"),
    SourceEntry("wired", "Wired Security"),
    SourceEntry("reddit", "r/netsec")
  ]

  /** The "Enable All" button: every id, in table order. */
  function EnableAll(): (r: seq<string>)
    ensures |r| == |AllSources|
    ensures forall i :: 0 <= i < |r| ==> r[i] == AllSources[i].id
  {
    seq(|AllSources|, i requires 0 <= i < |AllSources| => AllSources[i].id)
  }

  /** The "Disable All" button. */
  function DisableAll(): (r: seq<string>)
    ensures |r| == 0
  {
    []
  }

  /** No two sources share an id; there are exactly as many as the
      dashboard's threshold for skipping the source filter. */
  lemma SourceIdsDistinct()
    ensures forall i, j :: 0 <= i < j < |AllSources| ==> AllSources[i].id != AllSources[j].id
    ensures |AllSources| == FeedView.SourceFilterThreshold
  {
  }

  /** Enabling all sources switches the source filter off, and Enable All
      restores the dashboard's initial list. */
  lemma EnableAllShowsEverything(articles: seq<FeedView.FeedArticle>)
    ensures FeedView.SourceStage(articles, EnableAll()) == articles
    ensures EnableAll() == ["krebsonsecurity", "bleepingcomputer", "darkreading", "thehackernews",
                            "securityweek", "therecord", "arstechnica", "wired", "reddit"]
  {
  }

  /** Disabling all sources hides every article. */
  lemma DisableAllHidesEverything(articles: seq<FeedView.FeedArticle>)
    ensures FeedView.SourceStage(articles, DisableAll()) == []
  {
    FilterRejectsAll(articles, FeedView.SourceKept([]));
  }

  /** Every source id has its own name patterns on the dashboard. */
  lemma EverySourceHasPatterns()
    ensures forall i :: 0 <= i < |AllSources| ==> AllSources[i].id == FeedView.SourcePatterns[i].0
  {
  }

  // ----- getActualSources -----

  /** JavaScript's default string order, on code points: a proper prefix
      comes first, otherwise the first differing character decides. */
  predicate LexLeq(a: string, b: string) {
    if a == [] then true
    else if b == [] then false
    else if a[0] != b[0] then a[0] < b[0]
    else LexLeq(a[1..], b[1..])
  }

  lemma {:induction false} LexTotal(a: string, b: string)
    ensures LexLeq(a, b) || LexLeq(b, a)
  {
    if a != [] && b != [] && a[0] == b[0] {
      LexTotal(a[1..], b[1..]);
    }
  }

  /** Each adjacent pair in order. */
  predicate Ascending(s: seq<string>) {
    forall i :: 0 <= i < |s| - 1 ==> LexLeq(s[i], s[i + 1])
  }

  predicate Distinct(s: seq<string>) {
    forall i, j :: 0 <= i < j < |s| ==> s[i] != s[j]
  }

  function InsertLex(x: string, s: seq<string>): seq<string> {
    if s == [] || LexLeq(x, s[0]) then [x] + s else [s[0]] + InsertLex(x, s[1..])
  }

  /** `Array.prototype.sort()` with no comparator. */
  function SortLex(s: seq<string>): seq<string> {
    if s == [] then [] else InsertLex(s[0], SortLex(s[1..]))
  }

  lemma InsertLexCorrect(x: string, s: seq<string>)
    requires Ascending(s)
    ensures var r := InsertLex(x, s);
      Ascending(r) && multiset(r) == multiset(s) + multiset{x} && r != []
      && (r[0] == x || r[0] == s[0])
  {
    InsertLexAscending(x, s);
    InsertLexPermutes(x, s);
  }

  lemma {:induction false} InsertLexAscending(x: string, s: seq<string>)
    requires Ascending(s)
    ensures var r := InsertLex(x, s);
      Ascending(r) && r != [] && (r[0] == x || r[0] == s[0])
  {
    if s != [] && !LexLeq(x, s[0]) {
      LexTotal(x, s[0]);
      InsertLexAscending(x, s[1..]);
      var rest := InsertLex(x, s[1..]);
      var r := [s[0]] + rest;
      assert InsertLex(x, s) == r;
      assert LexLeq(s[0], rest[0]) by {
        if rest[0] != x { assert rest[0] == s[1..][0] == s[1]; }
      }
      forall i | 0 <= i < |r| - 1 ensures LexLeq(r[i], r[i + 1]) {
        if i > 0 { assert r[i] == rest[i - 1] && r[i + 1] == rest[i]; }
      }
    }
  }

  lemma {:induction false} InsertLexPermutes(x: string, s: seq<string>)
    ensures multiset(InsertLex(x, s)) == multiset(s) + multiset{x}
  {
    if s != [] && !LexLeq(x, s[0]) {
      InsertLexPermutes(x, s[1..]);
      assert s == [s[0]] + s[1..];
    }
  }

  lemma {:induction false} SortLexCorrect(s: seq<string>)
    ensures Ascending(SortLex(s)) && multiset(SortLex(s)) == multiset(s)
  {
    if s != [] {
      SortLexCorrect(s[1..]);
      InsertLexCorrect(s[0], SortLex(s[1..]));
      assert s == [s[0]] + s[1..];
    }
  }

  /** `articles.map(a => a.source).filter(Boolean)`. */
  function PresentSources(articles: seq<FeedView.FeedArticle>): (r: seq<string>)
    ensures forall x :: x in r <==> x != "" && exists k :: 0 <= k < |articles| && articles[k].source == Some(x)
  {
    if articles == [] then []
    else
      var rest := PresentSources(articles[1..]);
      assert forall k :: 0 < k < |articles| ==> articles[k] == articles[1..][k - 1];
      if Truthy(articles[0].source) then [articles[0].source.value] + rest else rest
  }

  /** `Array.from(new Set(s))`: first occurrences, in order. */
  function Unique(s: seq<string>): (r: seq<string>)
    ensures Distinct(r)
    ensures forall x :: x in r <==> x in s
  {
    if s == [] then []
    else
      var u := Unique(s[..|s| - 1]);
      assert forall x :: x in s <==> x in s[..|s| - 1] || x == s[|s| - 1];
      if s[|s| - 1] in u then u else u + [s[|s| - 1]]
  }

  /** `getActualSources`. */
  function GetActualSources(articles: Option<seq<FeedView.FeedArticle>>): seq<string> {
    if articles.None? || |articles.value| == 0 then []
    else SortLex(Unique(PresentSources(articles.value)))
  }

  /** No articles, no names; otherwise every non-empty source name exactly
      once, in ascending order. */
  lemma {:induction false} ActualSourcesCorrect(articles: Option<seq<FeedView.FeedArticle>>)
    ensures var r := GetActualSources(articles);
      && (articles.None? || articles.value == [] ==> r == [])
      && Ascending(r) && Distinct(r)
      && (forall x :: x in r <==>
            (articles.Some? && x != "" &&
             exists k :: 0 <= k < |articles.value| && articles.value[k].source == Some(x)))
  {
    if articles.Some? && articles.value != [] {
      var u := Unique(PresentSources(articles.value));
      SortLexCorrect(u);
      var r := SortLex(u);
      forall x ensures x in r <==> x in u {
        assert x in r <==> x in multiset(r);
      }
      DistinctByCount(u, r);
    }
  }

  /** A reordering of a list without repeats has no repeats. */
  lemma DistinctByCount(u: seq<string>, r: seq<string>)
    requires Distinct(u) && multiset(r) == multiset(u)
    ensures Distinct(r)
  {
    forall i, j | 0 <= i < j < |r| ensures r[i] != r[j] {
      if r[i] == r[j] {
        assert multiset(r)[r[i]] >= 2 by {
          assert r == r[..i] + [r[i]] + r[i + 1..j] + [r[j]] + r[j + 1..];
        }
        UniqueCount(u, r[i]);
      }
    }
  }

  lemma {:induction false} UniqueCount(u: seq<string>, x: string)
    requires Distinct(u)
    ensures multiset(u)[x] <= 1
  {
    if u != [] {
      UniqueCount(u[1..], x);
      assert u == [u[0]] + u[1..];
      if u[0] == x {
        assert x !in u[1..] by {
          forall k | 0 <= k < |u[1..]| ensures u[1..][k] != x {
            assert u[1..][k] == u[k + 1];
          }
        }
      }
    }
  }
}
