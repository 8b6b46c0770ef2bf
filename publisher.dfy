/** The poster's main loop and handler (`exports.handler` in
    lambda-linkedin-poster/index.js). LinkedIn and the news API are not
    modelled: what the k-th post attempt does is a given `Attempt`, and what
    the news API answered is a given `FetchOutcome`. */
module Publisher {
  import opened Js
  import opened Seqs
  import opened PostLedger
  import opened PostContent
  import opened Selector

  /** The k-th post: `postError` is the error LinkedIn's request raised, if
      any; `writeFails` says whether the ledger write after a successful post
      fails (that error is swallowed). */
  datatype Attempt = Attempt(postError: Option<string>, writeFails: bool)

  /** What `fetchArticles` yields: a rejection with its message, or the
      parsed response's `articles` field, possibly missing. */
  datatype FetchOutcome = FetchFailed(message: string) | Fetched(articles: Option<seq<PosterArticle>>)

  /** An entry of the handler's `results`. */
  datatype PostResult =
    | Succeeded(title: Option<string>, category: Option<string>)
    | FailedPost(title: Option<string>, error: string)

  datatype PosterBody =
    | ErrorBody(error: string)
    | NoNewArticles(message: string, categories: seq<string>)
    | Completed(message: string, posted: nat, failed: nat, results: seq<PostResult>)

  datatype PosterResponse = PosterResponse(statusCode: int, body: PosterBody)

  const TokenMissing := "LinkedIn access token not configured"
  const NothingNew := "No new articles to post"
  const Done := "LinkedIn posting completed"

  /** The result entry for one article and its attempt. */
  function ResultOf(a: PosterArticle, at: Attempt): (r: PostResult)
    ensures r.Succeeded? <==> at.postError.None?
    ensures r.title == a.title
    ensures r.Succeeded? ==> r.category == a.topic
    ensures r.FailedPost? ==> r.error == at.postError.value
  {
    if at.postError.None? then Succeeded(a.title, a.topic) else FailedPost(a.title, at.postError.value)
  }

  /** The results of posting `s` in order, the k-th with `outcome(k)`. */
  function Results(s: seq<PosterArticle>, outcome: nat -> Attempt): (r: seq<PostResult>)
    ensures |r| == |s|
    ensures forall k :: 0 <= k < |s| ==> r[k] == ResultOf(s[k], outcome(k))
  {
    if s == [] then [] else Results(s[..|s| - 1], outcome) + [ResultOf(s[|s| - 1], outcome(|s| - 1))]
  }

  /** The ledger after posting `s` in order: an article is marked only when
      its post succeeded. */
  function RecordsAfter(records: map<string, PostedRecord>, s: seq<PosterArticle>,
                        outcome: nat -> Attempt, nowMs: int): map<string, PostedRecord>
  {
    if s == [] then records
    else
      var prev := RecordsAfter(records, s[..|s| - 1], outcome, nowMs);
      var at := outcome(|s| - 1);
      if at.postError.None? then Marked(prev, s[|s| - 1], nowMs, at.writeFails) else prev
  }

  predicate IsSuccess(r: PostResult) { r.Succeeded? }
  predicate IsFailure(r: PostResult) { !r.Succeeded? }

  /** The loop over the selected articles: post, then mark. */
  method PublishAll(selected: seq<PosterArticle>, outcome: nat -> Attempt, ledger: Ledger, nowMs: int)
    returns (results: seq<PostResult>)
    modifies ledger
    ensures results == Results(selected, outcome)
    ensures ledger.records == RecordsAfter(old(ledger.records), selected, outcome, nowMs)
    ensures ledger.unreadable == old(ledger.unreadable)
  {
    results := [];
    var i := 0;
    while i < |selected|
      invariant 0 <= i <= |selected|
      invariant results == Results(selected[..i], outcome)
      invariant ledger.records == RecordsAfter(old(ledger.records), selected[..i], outcome, nowMs)
      invariant ledger.unreadable == old(ledger.unreadable)
    {
      assert selected[..i + 1][..i] == selected[..i];
      var at := outcome(i);
      if at.postError.None? {
        ledger.MarkArticleAsPosted(selected[i], nowMs, at.writeFails);
        results := results + [Succeeded(selected[i].title, selected[i].topic)];
      } else {
        results := results + [FailedPost(selected[i].title, at.postError.value)];
      }
      i := i + 1;
    }
    assert selected[..i] == selected;
  }

  /** The articles the handler works on: `response.articles || []`. */
  function ArticlesOf(fetched: FetchOutcome): seq<PosterArticle>
    requires fetched.Fetched?
  {
    if fetched.articles.Some? then fetched.articles.value else []
  }

  /** `exports.handler`: no token means no work at all; a failed fetch is a
      500 with its message; otherwise the selection is posted. */
  method Handler(token: Option<string>, fetched: FetchOutcome, ledger: Ledger,
                 outcome: nat -> Attempt, nowMs: int) returns (resp: PosterResponse)
    modifies ledger
    ensures !Truthy(token) ==> resp == PosterResponse(500, ErrorBody(TokenMissing))
    ensures Truthy(token) && fetched.FetchFailed? ==> resp == PosterResponse(500, ErrorBody(fetched.message))
    ensures !Truthy(token) || fetched.FetchFailed? ==> ledger.records == old(ledger.records)
    ensures Truthy(token) && fetched.Fetched? ==>
      var sel := Selection(ArticlesOf(fetched), old(ledger.records), old(ledger.unreadable));
      var results := Results(sel, outcome);
      && (sel == [] ==> resp == PosterResponse(200, NoNewArticles(NothingNew, TargetCategories)))
      && (sel != [] ==> resp == PosterResponse(200, Completed(Done, |Filter(results, IsSuccess)|,
                                                               |Filter(results, IsFailure)|, results)))
      && ledger.records == RecordsAfter(old(ledger.records), sel, outcome, nowMs)
    ensures ledger.unreadable == old(ledger.unreadable)
  {
    if !Truthy(token) {
      return PosterResponse(500, ErrorBody(TokenMissing));
    }
    if fetched.FetchFailed? {
      return PosterResponse(500, ErrorBody(fetched.message));
    }
    var articles := ArticlesOf(fetched);
    var selected := SelectArticlesToPost(articles, ledger);
    if |selected| == 0 {
      return PosterResponse(200, NoNewArticles(NothingNew, TargetCategories));
    }
    var results := PublishAll(selected, outcome, ledger, nowMs);
    resp := PosterResponse(200, Completed(Done, |Filter(results, IsSuccess)|, |Filter(results, IsFailure)|, results));
  }

  // ----- what a run promises -----

  /** Every selected article is accounted for once: posted plus failed is
      the number selected. */
  lemma {:induction false} CountsAddUp(results: seq<PostResult>)
    ensures |Filter(results, IsSuccess)| + |Filter(results, IsFailure)| == |results|
  {
    if results != [] {
      CountsAddUp(results[1..]);
    }
  }

  /** A run posts at most three articles. */
  lemma RunBounded(articles: seq<PosterArticle>, records: map<string, PostedRecord>, unreadable: set<string>,
                   outcome: nat -> Attempt)
    ensures var results := Results(Selection(articles, records, unreadable), outcome);
      |Filter(results, IsSuccess)| + |Filter(results, IsFailure)| <= PostsPerDay
  {
    SelectionSize(articles, records, unreadable);
    CountsAddUp(Results(Selection(articles, records, unreadable), outcome));
  }

  /** An article whose post succeeded and whose write went through is
      recorded as posted, whatever the later attempts do. */
  lemma {:induction false} SuccessIsRecorded(records: map<string, PostedRecord>, unreadable: set<string>,
                                             s: seq<PosterArticle>, outcome: nat -> Attempt, nowMs: int, k: nat)
    requires k < |s|
    requires outcome(k).postError.None? && !outcome(k).writeFails
    requires s[k].url.Some? && s[k].url.value !in unreadable
    ensures Posted(RecordsAfter(records, s, outcome, nowMs), unreadable, s[k].url)
  {
    var init := s[..|s| - 1];
    var prev := RecordsAfter(records, init, outcome, nowMs);
    if k == |s| - 1 {
      MarkedThenPosted(prev, unreadable, s[k], nowMs);
    } else {
      assert init[k] == s[k];
      SuccessIsRecorded(records, unreadable, init, outcome, nowMs, k);
      var at := outcome(|s| - 1);
      if at.postError.None? {
        MarkedKeepsOthers(prev, s[|s| - 1], nowMs, at.writeFails, s[k].url.value);
      }
    }
  }

  /** A url keeps its record, or its absence, unless some article carrying
      it was posted and written: every article with that url either failed
      to post or had its write fail, or (trivially) none carries it. */
  lemma {:induction false} OthersUntouched(records: map<string, PostedRecord>, s: seq<PosterArticle>,
                                           outcome: nat -> Attempt, nowMs: int, url: string)
    requires forall k :: 0 <= k < |s| && s[k].url == Some(url) ==>
      outcome(k).postError.Some? || outcome(k).writeFails
    ensures var after := RecordsAfter(records, s, outcome, nowMs);
      (url in after <==> url in records) && (url in records ==> after[url] == records[url])
  {
    if s != [] {
      var init := s[..|s| - 1];
      assert forall k :: 0 <= k < |init| ==> init[k] == s[k];
      OthersUntouched(records, init, outcome, nowMs, url);
    }
  }

  /** A failed post writes nothing: when every attempt fails, the ledger is
      unchanged. */
  lemma {:induction false} AllFailedWritesNothing(records: map<string, PostedRecord>, s: seq<PosterArticle>,
                                                  outcome: nat -> Attempt, nowMs: int)
    requires forall k :: 0 <= k < |s| ==> outcome(k).postError.Some?
    ensures RecordsAfter(records, s, outcome, nowMs) == records
  {
    if s != [] {
      AllFailedWritesNothing(records, s[..|s| - 1], outcome, nowMs);
    }
  }

  /** An article posted and recorded by one run is never selected by a later
      run against the updated ledger. */
  lemma NotPostedTwice(articles: seq<PosterArticle>, records: map<string, PostedRecord>, unreadable: set<string>,
                       outcome: nat -> Attempt, nowMs: int, later: seq<PosterArticle>, k: nat)
    requires var sel := Selection(articles, records, unreadable);
      k < |sel| && outcome(k).postError.None? && !outcome(k).writeFails
      && sel[k].url.Some? && sel[k].url.value !in unreadable
    ensures var sel := Selection(articles, records, unreadable);
      var after := RecordsAfter(records, sel, outcome, nowMs);
      forall a :: a in Selection(later, after, unreadable) ==> a.url != sel[k].url
  {
    var sel := Selection(articles, records, unreadable);
    var after := RecordsAfter(records, sel, outcome, nowMs);
    SuccessIsRecorded(records, unreadable, sel, outcome, nowMs, k);
    SelectionTargetUnposted(later, after, unreadable);
  }
}
