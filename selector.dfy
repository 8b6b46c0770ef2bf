/** Choosing the day's posts (`selectArticlesToPost` in
    lambda-linkedin-poster/index.js): articles of the target topics that the
    ledger does not report as posted, newest first; first one article per
    topic, then any others, three at most. The source compares articles by
    identity (`selected.includes(article)`); here an article is identified by
    its position in the ranked list. */
module Selector {
  import opened Js
  import opened Seqs
  import opened PostLedger
  import opened PostContent

  const PostsPerDay := 3

  /** `TARGET_CATEGORIES.includes(article.topic)`. */
  predicate InTarget(a: PosterArticle) {
    a.topic.Some? && a.topic.value in TargetCategories
  }

  /** `new Date(a.publishedAt || 0)`: a missing date counts as the epoch. */
  function DateKey(a: PosterArticle): int {
    if a.publishedAt.Some? then a.publishedAt.value else 0
  }

  /** The target-topic articles the ledger does not report as posted, in
      input order. */
  function Candidates(articles: seq<PosterArticle>, records: map<string, PostedRecord>, unreadable: set<string>)
    : seq<PosterArticle>
  {
    Filter(Filter(articles, InTarget), NotPosted(records, unreadable))
  }

  /** `!posted` for the ledger's answer about an article's url. */
  function NotPosted(records: map<string, PostedRecord>, unreadable: set<string>): PosterArticle -> bool {
    (a: PosterArticle) => !Posted(records, unreadable, a.url)
  }

  /** The candidates, newest first; ties keep their input order. */
  function Ranked(articles: seq<PosterArticle>, records: map<string, PostedRecord>, unreadable: set<string>)
    : seq<PosterArticle>
  {
    SortDesc(Candidates(articles, records, unreadable), DateKey)
  }

  /** The first pass from position `i` on, with `sel` chosen so far and the
      topics in `used`: an article whose topic is new is taken, until three
      are chosen. */
  function Pass1(ranked: seq<PosterArticle>, i: nat, sel: seq<nat>, used: set<Option<string>>): seq<nat>
    requires i <= |ranked|
    decreases |ranked| - i
  {
    if i == |ranked| || |sel| >= PostsPerDay then sel
    else if ranked[i].topic !in used then Pass1(ranked, i + 1, sel + [i], used + {ranked[i].topic})
    else Pass1(ranked, i + 1, sel, used)
  }

  /** The second pass from position `i` on: any article not yet chosen is
      taken, until three are chosen. */
  function Pass2(ranked: seq<PosterArticle>, i: nat, sel: seq<nat>): seq<nat>
    requires i <= |ranked|
    decreases |ranked| - i
  {
    if i == |ranked| || |sel| >= PostsPerDay then sel
    else if i !in sel then Pass2(ranked, i + 1, sel + [i])
    else Pass2(ranked, i + 1, sel)
  }

  /** The positions chosen by the two passes. */
  function Chosen(ranked: seq<PosterArticle>): seq<nat> {
    Pass2(ranked, 0, Pass1(ranked, 0, [], {}))
  }

  /** The articles at the given positions. */
  function At(ranked: seq<PosterArticle>, idx: seq<nat>): seq<PosterArticle>
    requires forall k :: 0 <= k < |idx| ==> idx[k] < |ranked|
  {
    seq(|idx|, k requires 0 <= k < |idx| => ranked[idx[k]])
  }

  /** The selection `selectArticlesToPost` returns. */
  function Selection(articles: seq<PosterArticle>, records: map<string, PostedRecord>, unreadable: set<string>)
    : seq<PosterArticle>
  {
    var ranked := Ranked(articles, records, unreadable);
    ChosenFacts(ranked);
    At(ranked, Chosen(ranked))
  }

  /** `selectArticlesToPost`: reads the ledger once per target-topic article
      and never writes it. */
  method SelectArticlesToPost(articles: seq<PosterArticle>, ledger: Ledger) returns (selected: seq<PosterArticle>)
    ensures selected == Selection(articles, ledger.records, ledger.unreadable)
  {
    var categoryArticles := Filter(articles, InTarget);
    var unposted := Unposted(categoryArticles, ledger);
    var ranked := SortDesc(unposted, DateKey);
    var pass1 := FirstPass(ranked);
    var sel := SecondPass(ranked, pass1);
    ChosenFacts(ranked);
    selected := At(ranked, sel);
  }

  /** The ledger loop: keeps, in order, the articles the ledger does not
      report as posted. */
  method Unposted(categoryArticles: seq<PosterArticle>, ledger: Ledger) returns (unposted: seq<PosterArticle>)
    ensures unposted == Filter(categoryArticles, NotPosted(ledger.records, ledger.unreadable))
  {
    var notPosted := NotPosted(ledger.records, ledger.unreadable);
    unposted := [];
    var i := 0;
    while i < |categoryArticles|
      invariant 0 <= i <= |categoryArticles|
      invariant unposted == Filter(categoryArticles[..i], notPosted)
    {
      var posted := ledger.IsArticlePosted(categoryArticles[i].url);
      assert categoryArticles[..i + 1] == categoryArticles[..i] + [categoryArticles[i]];
      FilterSnoc(categoryArticles[..i], categoryArticles[i], notPosted);
      if !posted {
        unposted := unposted + [categoryArticles[i]];
      }
      i := i + 1;
    }
    assert categoryArticles[..i] == categoryArticles;
  }

  /** The first loop: one article per topic, three at most. */
  method FirstPass(ranked: seq<PosterArticle>) returns (sel: seq<nat>)
    ensures sel == Pass1(ranked, 0, [], {})
  {
    sel := [];
    var used: set<Option<string>> := {};
    var i := 0;
    while i < |ranked|
      invariant 0 <= i <= |ranked|
      invariant Pass1(ranked, i, sel, used) == Pass1(ranked, 0, [], {})
    {
      if |sel| >= PostsPerDay { break; }
      if ranked[i].topic !in used {
        sel := sel + [i];
        used := used + {ranked[i].topic};
      }
      i := i + 1;
    }
  }

  /** The second loop: fills the remaining places with articles not yet
      chosen, in rank order. */
  method SecondPass(ranked: seq<PosterArticle>, pass1: seq<nat>) returns (sel: seq<nat>)
    ensures sel == Pass2(ranked, 0, pass1)
  {
    sel := pass1;
    var i := 0;
    while i < |ranked|
      invariant 0 <= i <= |ranked|
      invariant Pass2(ranked, i, sel) == Pass2(ranked, 0, pass1)
    {
      if |sel| >= PostsPerDay { break; }
      if i !in sel {
        sel := sel + [i];
      }
      i := i + 1;
    }
  }

  // ----- what the passes promise -----

  /** No position twice. */
  predicate Distinct(s: seq<nat>) {
    forall a, b :: 0 <= a < b < |s| ==> s[a] != s[b]
  }

  /** Every position is in range. */
  predicate InRange(s: seq<nat>, n: nat) {
    forall k :: 0 <= k < |s| ==> s[k] < n
  }

  /** The topics of the chosen positions. */
  function Topics(ranked: seq<PosterArticle>, sel: seq<nat>): set<Option<string>>
    requires InRange(sel, |ranked|)
  {
    set k | 0 <= k < |sel| :: ranked[sel[k]].topic
  }

  /** Position `p` holds the first article of its topic. */
  predicate FirstOfTopic(ranked: seq<PosterArticle>, p: nat)
    requires p < |ranked|
  {
    forall j :: 0 <= j < p ==> ranked[j].topic != ranked[p].topic
  }

  /** What holds of the first pass after it has looked at positions below `i`. */
  predicate Pass1Inv(ranked: seq<PosterArticle>, i: nat, sel: seq<nat>, used: set<Option<string>>) {
    && i <= |ranked|
    && InRange(sel, i)
    && (forall a, b :: 0 <= a < b < |sel| ==> sel[a] < sel[b])
    && used == Topics(ranked, sel)
    && (forall k :: 0 <= k < |sel| ==> FirstOfTopic(ranked, sel[k]))
    && |sel| <= PostsPerDay
    && (forall j :: 0 <= j < i ==> ranked[j].topic in used)
  }

  /** The first pass takes positions in increasing order, each the first of
      its topic, at most three; when it takes fewer than three, every topic of
      the ranked list is among them. */
  lemma {:induction false} Pass1Correct(ranked: seq<PosterArticle>, i: nat, sel: seq<nat>, used: set<Option<string>>)
    requires Pass1Inv(ranked, i, sel, used)
    ensures var r := Pass1(ranked, i, sel, used);
      && InRange(r, |ranked|)
      && (forall a, b :: 0 <= a < b < |r| ==> r[a] < r[b])
      && (forall k :: 0 <= k < |r| ==> FirstOfTopic(ranked, r[k]))
      && |r| <= PostsPerDay
      && (|r| < PostsPerDay ==> forall j :: 0 <= j < |ranked| ==> ranked[j].topic in Topics(ranked, r))
    decreases |ranked| - i
  {
    if i == |ranked| || |sel| >= PostsPerDay {
      Pass1Stops(ranked, i, sel, used);
    } else if ranked[i].topic !in used {
      Pass1Take(ranked, i, sel, used);
      Pass1Correct(ranked, i + 1, sel + [i], used + {ranked[i].topic});
    } else {
      Pass1Correct(ranked, i + 1, sel, used);
    }
  }

  /** Where the first pass stops, what it has chosen already has every
      property the lemma above promises. */
  lemma Pass1Stops(ranked: seq<PosterArticle>, i: nat, sel: seq<nat>, used: set<Option<string>>)
    requires Pass1Inv(ranked, i, sel, used)
    requires i == |ranked| || |sel| >= PostsPerDay
    ensures Pass1(ranked, i, sel, used) == sel
    ensures InRange(sel, |ranked|)
    ensures |sel| < PostsPerDay ==> forall j :: 0 <= j < |ranked| ==> ranked[j].topic in Topics(ranked, sel)
  {
  }

  /** Taking position `i`, the first of its topic, keeps the invariant. */
  lemma Pass1Take(ranked: seq<PosterArticle>, i: nat, sel: seq<nat>, used: set<Option<string>>)
    requires Pass1Inv(ranked, i, sel, used)
    requires i < |ranked| && |sel| < PostsPerDay && ranked[i].topic !in used
    ensures Pass1Inv(ranked, i + 1, sel + [i], used + {ranked[i].topic})
  {
    var sel', used' := sel + [i], used + {ranked[i].topic};
    assert FirstOfTopic(ranked, i);
    assert forall k :: 0 <= k < |sel| ==> sel'[k] == sel[k];
    assert sel'[|sel|] == i;
    assert Topics(ranked, sel') == used';
  }

  /** What holds of the second pass after it has looked at positions below `i`. */
  predicate Pass2Inv(ranked: seq<PosterArticle>, i: nat, sel: seq<nat>) {
    && i <= |ranked|
    && InRange(sel, |ranked|)
    && Distinct(sel)
    && |sel| <= PostsPerDay
    && (|sel| < PostsPerDay ==> forall j :: 0 <= j < i ==> j in sel)
  }

  /** The second pass keeps what the first chose as a prefix, adds no
      position twice, and stops at three or when every position is chosen. */
  lemma {:induction false} Pass2Correct(ranked: seq<PosterArticle>, i: nat, sel: seq<nat>)
    requires Pass2Inv(ranked, i, sel)
    ensures var r := Pass2(ranked, i, sel);
      && InRange(r, |ranked|)
      && Distinct(r)
      && |r| <= PostsPerDay
      && |sel| <= |r| && r[..|sel|] == sel
      && (|r| < PostsPerDay ==> forall j :: 0 <= j < |ranked| ==> j in r)
    decreases |ranked| - i
  {
    if i == |ranked| || |sel| >= PostsPerDay {
    } else if i !in sel {
      var sel' := sel + [i];
      assert forall j :: 0 <= j < i + 1 && |sel'| < PostsPerDay ==> j in sel';
      Pass2Correct(ranked, i + 1, sel');
      var r := Pass2(ranked, i + 1, sel');
      assert r[..|sel|] == r[..|sel'|][..|sel|];
    } else {
      Pass2Correct(ranked, i + 1, sel);
    }
  }

  /** The second pass keeps `sel` as its prefix. */
  lemma {:induction false} Pass2Prefix(ranked: seq<PosterArticle>, i: nat, sel: seq<nat>)
    requires i <= |ranked|
    ensures var r := Pass2(ranked, i, sel);
      |sel| <= |r| && r[..|sel|] == sel && (|sel| >= PostsPerDay ==> r == sel)
    decreases |ranked| - i
  {
    if i == |ranked| || |sel| >= PostsPerDay {
    } else if i !in sel {
      Pass2Prefix(ranked, i + 1, sel + [i]);
      var r := Pass2(ranked, i + 1, sel + [i]);
      assert r[..|sel|] == r[..|sel| + 1][..|sel|];
    } else {
      Pass2Prefix(ranked, i + 1, sel);
    }
  }

  /** What the second pass adds are positions from `i` on that were not
      chosen, in rank order. */
  lemma {:induction false} Pass2AddsInOrder(ranked: seq<PosterArticle>, i: nat, sel: seq<nat>)
    requires i <= |ranked|
    ensures var r := Pass2(ranked, i, sel);
      |sel| <= |r| && AddedInRankOrder(r, |sel|, i)
    decreases |ranked| - i
  {
    Pass2Prefix(ranked, i, sel);
    if i == |ranked| || |sel| >= PostsPerDay {
    } else if i !in sel {
      var sel' := sel + [i];
      Pass2AddsInOrder(ranked, i + 1, sel');
      Pass2Prefix(ranked, i + 1, sel');
      AddedStep(Pass2(ranked, i + 1, sel'), sel, i);
    } else {
      Pass2AddsInOrder(ranked, i + 1, sel);
    }
  }

  /** Adding `i` in front of positions added in rank order from `i + 1` on
      keeps them in rank order from `i` on. */
  lemma AddedStep(r: seq<nat>, sel: seq<nat>, i: nat)
    requires |sel| + 1 <= |r| && r[..|sel| + 1] == sel + [i] && i !in sel
    requires AddedInRankOrder(r, |sel| + 1, i + 1)
    ensures AddedInRankOrder(r, |sel|, i)
  {
    assert r[|sel|] == (sel + [i])[|sel|];
    assert r[..|sel|] == sel by { assert r[..|sel|] == r[..|sel| + 1][..|sel|]; }
    forall k | |sel| < k < |r| ensures r[k] !in sel {
      assert r[k] !in r[..|sel| + 1];
    }
  }

  /** A position from `i` on that the second pass passes over was already
      chosen, or three are chosen and it comes after everything added. */
  lemma {:induction false} Pass2SkipsOnlyChosen(ranked: seq<PosterArticle>, i: nat, sel: seq<nat>)
    requires i <= |ranked| && |sel| <= PostsPerDay
    ensures var r := Pass2(ranked, i, sel);
      |sel| <= |r| &&
      forall j :: i <= j < |ranked| && j !in r ==> |r| == PostsPerDay && AllAddedBefore(r, |sel|, j)
    decreases |ranked| - i
  {
    Pass2Prefix(ranked, i, sel);
    if i == |ranked| || |sel| >= PostsPerDay {
    } else if i !in sel {
      var sel' := sel + [i];
      Pass2SkipsOnlyChosen(ranked, i + 1, sel');
      Pass2Prefix(ranked, i + 1, sel');
      var r := Pass2(ranked, i + 1, sel');
      assert r[|sel|] == i;
    } else {
      Pass2SkipsOnlyChosen(ranked, i + 1, sel);
      Pass2Prefix(ranked, i + 1, sel);
      var r := Pass2(ranked, i + 1, sel);
      assert i in r by { assert r[..|sel|] == sel; }
    }
  }

  /** The positions after the first `n` of `r` are from `i` on, were not
      among the first `n`, and increase. */
  predicate AddedInRankOrder(r: seq<nat>, n: nat, i: nat)
    requires n <= |r|
  {
    && (forall k :: n <= k < |r| ==> i <= r[k] && r[k] !in r[..n])
    && (forall a, b :: n <= a < b < |r| ==> r[a] < r[b])
  }

  /** Every position after the first `n` of `r` is below `j`. */
  predicate AllAddedBefore(r: seq<nat>, n: nat, j: nat)
    requires n <= |r|
  {
    forall k :: n <= k < |r| ==> r[k] < j
  }

  /** The positions chosen are distinct and in range, at most three; the
      first pass's choices come first; the second pass then adds the
      positions it did not choose in rank order, so a position left out
      comes after all of them, and only when three are chosen. */
  lemma ChosenFacts(ranked: seq<PosterArticle>)
    ensures var c := Chosen(ranked);
      var p1 := Pass1(ranked, 0, [], {});
      && InRange(c, |ranked|) && Distinct(c) && |c| <= PostsPerDay
      && (|c| < PostsPerDay ==> forall j :: 0 <= j < |ranked| ==> j in c)
      && |p1| <= |c| && c[..|p1|] == p1
      && AddedInRankOrder(c, |p1|, 0)
      && (forall j :: 0 <= j < |ranked| && j !in c ==> |c| == PostsPerDay && AllAddedBefore(c, |p1|, j))
  {
    Pass1Correct(ranked, 0, [], {});
    var p1 := Pass1(ranked, 0, [], {});
    assert Pass2Inv(ranked, 0, p1);
    Pass2Correct(ranked, 0, p1);
    Pass2AddsInOrder(ranked, 0, p1);
    Pass2SkipsOnlyChosen(ranked, 0, p1);
  }

  /** Two topics, each twice, ranked A B A B: the first pass takes the
      first A and the first B, the second pass the second A. */
  lemma ChosenAlternatingTopics(a1: PosterArticle, a2: PosterArticle, a3: PosterArticle, a4: PosterArticle)
    requires a1.topic == a3.topic && a2.topic == a4.topic && a1.topic != a2.topic
    ensures Chosen([a1, a2, a3, a4]) == [0, 1, 2]
    ensures At([a1, a2, a3, a4], Chosen([a1, a2, a3, a4])) == [a1, a2, a3]
  {
    var ranked := [a1, a2, a3, a4];
    var t1, t2 := a1.topic, a2.topic;
    assert Pass1(ranked, 0, [], {}) == Pass1(ranked, 1, [0], {t1}) by {
      assert [] + [0] == [0];
      assert {} + {t1} == {t1};
    }
    assert Pass1(ranked, 1, [0], {t1}) == Pass1(ranked, 2, [0, 1], {t1, t2}) by {
      assert [0] + [1] == [0, 1];
      assert {t1} + {t2} == {t1, t2};
    }
    assert Pass1(ranked, 2, [0, 1], {t1, t2}) == [0, 1] by {
      assert Pass1(ranked, 3, [0, 1], {t1, t2}) == Pass1(ranked, 4, [0, 1], {t1, t2});
    }
    assert Pass2(ranked, 0, [0, 1]) == [0, 1, 2] by {
      assert Pass2(ranked, 2, [0, 1]) == Pass2(ranked, 3, [0, 1, 2]);
    }
  }

  /** The same scenario on whole runs: four unposted target-topic articles,
      newest first, topics A B A B, yield the first three. */
  lemma SelectionAlternatingTopics(a1: PosterArticle, a2: PosterArticle, a3: PosterArticle, a4: PosterArticle,
                                   records: map<string, PostedRecord>, unreadable: set<string>)
    requires a1.topic == a3.topic && a2.topic == a4.topic && a1.topic != a2.topic
    requires InTarget(a1) && InTarget(a2) && InTarget(a3) && InTarget(a4)
    requires !Posted(records, unreadable, a1.url) && !Posted(records, unreadable, a2.url)
    requires !Posted(records, unreadable, a3.url) && !Posted(records, unreadable, a4.url)
    requires DateKey(a1) >= DateKey(a2) >= DateKey(a3) >= DateKey(a4)
    ensures Selection([a1, a2, a3, a4], records, unreadable) == [a1, a2, a3]
  {
    var articles := [a1, a2, a3, a4];
    RankedKeepsSortedCandidates(articles, records, unreadable);
    ChosenAlternatingTopics(a1, a2, a3, a4);
  }

  /** When every article is an unposted target-topic article and they are
      already newest first, the ranking is the input. */
  lemma RankedKeepsSortedCandidates(articles: seq<PosterArticle>, records: map<string, PostedRecord>, unreadable: set<string>)
    requires forall k :: 0 <= k < |articles| ==> InTarget(articles[k]) && !Posted(records, unreadable, articles[k].url)
    requires SortedDesc(articles, DateKey)
    ensures Ranked(articles, records, unreadable) == articles
  {
    var notPosted := (a: PosterArticle) => !Posted(records, unreadable, a.url);
    FilterKeepsAll(articles, InTarget);
    FilterKeepsAll(articles, notPosted);
    SortDescOfSorted(articles, DateKey);
  }

  /** 0, 1, ..., n - 1. */
  function Iota(n: nat): (r: seq<nat>)
    ensures |r| == n && forall j :: 0 <= j < n ==> r[j] == j
  {
    seq(n, j requires 0 <= j < n => j)
  }

  /** A list of distinct positions below `n` has at most `n` entries, and
      exactly `n` when it holds every position below `n`. */
  lemma {:induction false} DistinctPositions(s: seq<nat>, n: nat)
    requires Distinct(s) && InRange(s, n)
    ensures |s| <= n
    ensures (forall j :: 0 <= j < n ==> j in s) ==> |s| == n
  {
    var elems := Elems(s);
    var range := Elems(Iota(n));
    DistinctCard(s);
    DistinctCard(Iota(n));
    assert elems <= range by {
      forall x | x in elems ensures x in range {
        var k :| 0 <= k < |s| && s[k] == x;
        assert Iota(n)[x] == x;
      }
    }
    SubsetCard(elems, range);
    if forall j :: 0 <= j < n ==> j in s {
      assert elems == range;
    }
  }

  lemma {:induction false} SubsetCard(a: set<nat>, b: set<nat>)
    requires a <= b
    ensures |a| <= |b|
    decreases b
  {
    if b != {} {
      var x :| x in b;
      SubsetCard(a - {x}, b - {x});
    }
  }

  /** The positions a list holds. */
  function Elems(s: seq<nat>): set<nat> {
    set x | x in s
  }

  /** A list without repeats has as many elements as entries. */
  lemma {:induction false} DistinctCard(s: seq<nat>)
    requires Distinct(s)
    ensures |Elems(s)| == |s|
  {
    if s != [] {
      var init := s[..|s| - 1];
      DistinctCard(init);
      assert s == init + [s[|s| - 1]];
      var before := Elems(init);
      var all := Elems(s);
      assert all == before + {s[|s| - 1]};
      assert s[|s| - 1] !in before by {
        forall k | 0 <= k < |init| ensures init[k] != s[|s| - 1] {
          assert init[k] == s[k];
        }
      }
      assert |all| == |before| + 1;
    }
  }

  // ----- the selection -----

  /** The ranked list is a permutation of the candidates, newest first. */
  lemma RankedCorrect(articles: seq<PosterArticle>, records: map<string, PostedRecord>, unreadable: set<string>)
    ensures var ranked := Ranked(articles, records, unreadable);
      && SortedDesc(ranked, DateKey)
      && multiset(ranked) == multiset(Candidates(articles, records, unreadable))
  {
    SortDescCorrect(Candidates(articles, records, unreadable), DateKey);
  }

  /** At most three, and exactly min(3, number of candidates). */
  lemma SelectionSize(articles: seq<PosterArticle>, records: map<string, PostedRecord>, unreadable: set<string>)
    ensures var n := |Candidates(articles, records, unreadable)|;
      |Selection(articles, records, unreadable)| == if n < PostsPerDay then n else PostsPerDay
  {
    var ranked := Ranked(articles, records, unreadable);
    RankedCorrect(articles, records, unreadable);
    ChosenFacts(ranked);
    DistinctPositions(Chosen(ranked), |ranked|);
    SortDescCorrect(Candidates(articles, records, unreadable), DateKey);
  }

  /** Every selected article is of a target topic and not reported posted. */
  lemma SelectionTargetUnposted(articles: seq<PosterArticle>, records: map<string, PostedRecord>, unreadable: set<string>)
    ensures forall a :: a in Selection(articles, records, unreadable) ==>
      InTarget(a) && !Posted(records, unreadable, a.url) && a in articles
  {
    var ranked := Ranked(articles, records, unreadable);
    var cands := Candidates(articles, records, unreadable);
    RankedCorrect(articles, records, unreadable);
    ChosenFacts(ranked);
    forall a | a in Selection(articles, records, unreadable)
      ensures InTarget(a) && !Posted(records, unreadable, a.url) && a in articles
    {
      assert a in ranked;
      assert a in multiset(cands);
    }
  }

  /** The first pass's choices open the selection: one article per topic,
      each the newest of its topic; the selection never repeats a position. */
  lemma SelectionOnePerTopicFirst(articles: seq<PosterArticle>, records: map<string, PostedRecord>, unreadable: set<string>)
    ensures var ranked := Ranked(articles, records, unreadable);
      var p1 := Pass1(ranked, 0, [], {});
      var c := Chosen(ranked);
      && |p1| <= |c| && c[..|p1|] == p1 && Distinct(c)
      && (forall k :: 0 <= k < |p1| ==> p1[k] < |ranked| && FirstOfTopic(ranked, p1[k]))
      && (forall a, b :: 0 <= a < b < |p1| ==> ranked[p1[a]].topic != ranked[p1[b]].topic)
  {
    var ranked := Ranked(articles, records, unreadable);
    Pass1Correct(ranked, 0, [], {});
    var p1 := Pass1(ranked, 0, [], {});
    assert Pass2Inv(ranked, 0, p1);
    Pass2Correct(ranked, 0, p1);
  }
}
