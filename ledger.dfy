/** The poster's record of what it has published (`isArticlePosted` and
    `markArticleAsPosted` in lambda-linkedin-poster/index.js). The DynamoDB
    table becomes a map from article url to record; the urls whose lookup
    fails are a given set, and whether a write fails is a parameter. */
module PostLedger {
  import opened Js

  /** An article as the poster reads it from the aggregator's JSON; every
      field may be missing. `publishedAt` is the instant in milliseconds. */
  datatype PosterArticle = PosterArticle(title: Option<string>, summary: Option<string>,
                                         description: Option<string>, url: Option<string>,
                                         source: Option<string>, topic: Option<string>,
                                         publishedAt: Option<int>)

  /** An item of the table. */
  datatype PostedRecord = PostedRecord(title: Option<string>, category: string, postedAt: int, source: string)

  /** The record `markArticleAsPosted` writes: a missing topic or source is
      stored as 'Unknown'. */
  function RecordFor(a: PosterArticle, nowMs: int): (r: PostedRecord)
    ensures r.category == (if Truthy(a.topic) then a.topic.value else "Unknown")
    ensures r.source == (if Truthy(a.source) then a.source.value else "Unknown")
    ensures r.title == a.title && r.postedAt == nowMs
  {
    PostedRecord(a.title, Or(a.topic, "Unknown"), nowMs, Or(a.source, "Unknown"))
  }

  /** What the lookup answers: posted iff the url has a record and its
      lookup does not fail. A failing lookup, and a missing url, count as
      "not posted". */
  predicate Posted(records: map<string, PostedRecord>, unreadable: set<string>, url: Option<string>) {
    url.Some? && url.value !in unreadable && url.value in records
  }

  /** The table after `markArticleAsPosted`: unchanged when the write fails
      (the error is swallowed) or there is no url to key it by. */
  function Marked(records: map<string, PostedRecord>, a: PosterArticle, nowMs: int, writeFails: bool)
    : (r: map<string, PostedRecord>)
    ensures writeFails || a.url.None? ==> r == records
    ensures !writeFails && a.url.Some? ==> r == records[a.url.value := RecordFor(a, nowMs)]
  {
    if writeFails || a.url.None? then records else records[a.url.value := RecordFor(a, nowMs)]
  }

  /** A successful write makes the article posted, unless its lookups fail. */
  lemma MarkedThenPosted(records: map<string, PostedRecord>, unreadable: set<string>,
                         a: PosterArticle, nowMs: int)
    requires a.url.Some? && a.url.value !in unreadable
    ensures Posted(Marked(records, a, nowMs, false), unreadable, a.url)
  {
  }

  /** Marking never removes a record, and changes no other url's record. */
  lemma MarkedKeepsOthers(records: map<string, PostedRecord>, a: PosterArticle, nowMs: int,
                          writeFails: bool, url: string)
    requires url in records
    ensures url in Marked(records, a, nowMs, writeFails)
    ensures a.url != Some(url) ==> Marked(records, a, nowMs, writeFails)[url] == records[url]
  {
  }

  /** The table. */
  class Ledger {
    var records: map<string, PostedRecord>
    /** The urls whose lookup fails. */
    var unreadable: set<string>

    constructor (records0: map<string, PostedRecord>, unreadable0: set<string>)
      ensures records == records0 && unreadable == unreadable0
    {
      records := records0;
      unreadable := unreadable0;
    }

    /** `isArticlePosted`. */
    method IsArticlePosted(url: Option<string>) returns (posted: bool)
      ensures posted <==> Posted(records, unreadable, url)
      ensures posted ==> url.Some? && url.value in records
    {
      if url.None? || url.value in unreadable {
        return false;
      }
      return url.value in records;
    }

    /** `markArticleAsPosted`. */
    method MarkArticleAsPosted(a: PosterArticle, nowMs: int, writeFails: bool)
      modifies this
      ensures records == Marked(old(records), a, nowMs, writeFails)
      ensures unreadable == old(unreadable)
    {
      if !writeFails && a.url.Some? {
        records := records[a.url.value := RecordFor(a, nowMs)];
      }
    }
  }
}
