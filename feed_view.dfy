/** The dashboard's article list (`processedArticles` and `markAsRead` in
    src/App.jsx): the fetched articles pass a source filter, a topic filter
    and a search filter, and are then sorted as the user chose. */
module FeedView {
  import opened Js
  import opened Text
  import opened Seqs

  /** An article as the dashboard reads it from the API's JSON; every field
      may be missing. `categories` and `tags` are `None` when they are not
      arrays. `pubDate` is the parsed instant in milliseconds. */
  datatype FeedArticle = FeedArticle(
    title: Option<string>, description: Option<string>, content: Option<string>,
    categories: Option<seq<string>>, category: Option<string>, tags: Option<seq<string>>,
    topic: Option<string>, source: Option<string>, pubDate: Option<int>,
    link: Option<string>, url: Option<string>)

  /** `sourcePatterns`: the names under which each source id may appear. */
  const SourcePatterns: seq<(string, seq<string>)> := [
    ("krebsonsecurity", ["krebs", "krebsonsecurity"]),
    ("bleepingcomputer", ["bleeping", "bleepingcomputer"]),
    ("darkreading", ["dark reading", "darkreading"]),
    ("thehackernews", ["hacker news", "hackernews", "thehackernews"]),
    ("securityweek", ["securityweek", "security week"]),
    ("therecord", ["the record", "therecord", "recorded future"]),
    ("arstechnica", ["ars technica", "arstechnica", "security \U{2013} ars technica"]),
    ("wired", ["wired", "security latest"]),
    ("reddit", ["reddit", "netsec", "r/netsec"])
  ]

  /** `TOPIC_KEYWORDS`. */
  const TopicKeywordTable: seq<(string, seq<string>)> := [
    ("ai", ["ai", "artificial intelligence", "machine learning", "chatgpt", "llm"]),
    ("cloud", ["cloud", "aws", "azure", "gcp", "saas"]),
    ("ransomware", ["ransomware", "ransom", "encryption", "lockbit", "blackcat"]),
    ("breach", ["breach", "leak", "exposed", "stolen data", "compromised"]),
    ("vulnerability", ["vulnerability", "vuln", "cve", "exploit", "patch"]),
    ("zero-day", ["zero-day", "zero day", "0-day", "unpatched"]),
    ("phishing", ["phishing", "email", "spear-phishing", "bec", "spam"]),
    ("social-engineering", ["social engineering", "pretexting", "manipulation", "scam"]),
    ("insider", ["insider", "employee", "internal threat", "privileged access"]),
    ("identity", ["identity", "authentication", "mfa", "password", "access", "iam", "sso"]),
    ("application", ["application", "app", "software", "code", "devsecops", "api"]),
    ("endpoint", ["endpoint", "device", "mobile", "laptop", "workstation", "edr"]),
    ("network", ["network", "infrastructure", "firewall", "router", "server", "dns"]),
    ("privacy", ["privacy", "gdpr", "compliance", "regulation", "hipaa", "pci", "data protection",
                 "personal data", "consent", "ccpa", "dpo", "audit", "policy", "legal", "law", "fine", "penalty"]),
    ("threat", ["threat", "apt", "actor", "intelligence", "ioc", "ttp"])
  ]

  /** With this many sources enabled (all of them) the source filter is
      skipped. */
  const SourceFilterThreshold := 9

  /** The value of the first entry with this key, if any. */
  function Lookup(table: seq<(string, seq<string>)>, key: string): (r: Option<seq<string>>)
    ensures r.Some? <==> exists i :: 0 <= i < |table| && table[i].0 == key
    ensures r.Some? ==> exists i :: 0 <= i < |table| && table[i].0 == key && table[i].1 == r.value
  {
    if table == [] then None
    else if table[0].0 == key then Some(table[0].1)
    else
      var r := Lookup(table[1..], key);
      assert forall i :: 0 < i < |table| ==> table[i] == table[1..][i - 1];
      r
  }

  /** `table[key] || [key]`: a key the table lacks stands for itself. */
  function OrSelf(table: seq<(string, seq<string>)>, key: string): (r: seq<string>)
    ensures (forall i :: 0 <= i < |table| ==> table[i].0 != key) ==> r == [key]
  {
    match Lookup(table, key)
    case Some(v) => v
    case None => [key]
  }

  /** `patterns.some(pattern => source.includes(pattern.toLowerCase()))`. */
  predicate AnyIn(text: string, patterns: seq<string>) {
    exists j :: 0 <= j < |patterns| && Contains(text, Lower(patterns[j]))
  }

  /** The source name as the filter compares it. */
  function SourceText(a: FeedArticle): string {
    Lower(Or(a.source, ""))
  }

  /** The source filter's test: some enabled id has a pattern in the
      article's lower-cased source. */
  predicate SourceOk(enabled: seq<string>, a: FeedArticle) {
    exists i :: 0 <= i < |enabled| && SourceHit(SourceText(a), enabled[i])
  }

  /** Some pattern of the source id `id` occurs in `source`. */
  predicate SourceHit(source: string, id: string) {
    AnyIn(source, OrSelf(SourcePatterns, id))
  }

  /** The texts the topic filter searches, in the order they are joined. */
  function SearchableParts(a: FeedArticle): seq<string> {
    [Or(a.title, ""), Or(a.description, ""), Or(a.content, "")]
      + (if a.categories.Some? then a.categories.value else [])
      + [Or(a.category, "")]
      + (if a.tags.Some? then a.tags.value else [])
      + [Or(a.topic, "")]
  }

  function SearchableText(a: FeedArticle): string {
    Lower(Join(SearchableParts(a), " "))
  }

  /** The topic filter's test: some selected topic has a keyword in the
      article's searchable text. */
  predicate TopicOk(topics: seq<string>, a: FeedArticle) {
    exists i :: 0 <= i < |topics| && AnyIn(SearchableText(a), OrSelf(TopicKeywordTable, topics[i]))
  }

  /** The search filter's test: the lower-cased query, untrimmed, occurs in
      the lower-cased title or description. */
  predicate SearchOk(query: string, a: FeedArticle) {
    || (a.title.Some? && Contains(Lower(a.title.value), Lower(query)))
    || (a.description.Some? && Contains(Lower(a.description.value), Lower(query)))
  }

  function SourceKept(enabled: seq<string>): FeedArticle -> bool {
    a => SourceOk(enabled, a)
  }

  function TopicKept(topics: seq<string>): FeedArticle -> bool {
    a => TopicOk(topics, a)
  }

  function SearchKept(query: string): FeedArticle -> bool {
    a => SearchOk(query, a)
  }

  /** What the three filters together let through. */
  predicate Kept(enabled: seq<string>, topics: seq<string>, query: string, a: FeedArticle) {
    && (|enabled| < SourceFilterThreshold ==> SourceOk(enabled, a))
    && (|topics| > 0 ==> TopicOk(topics, a))
    && (Trim(query) != "" ==> SearchOk(query, a))
  }

  function SourceStage(articles: seq<FeedArticle>, enabled: seq<string>): seq<FeedArticle> {
    if |enabled| < SourceFilterThreshold then Filter(articles, SourceKept(enabled)) else articles
  }

  function TopicStage(s: seq<FeedArticle>, topics: seq<string>): seq<FeedArticle> {
    if |topics| > 0 then Filter(s, TopicKept(topics)) else s
  }

  function SearchStage(s: seq<FeedArticle>, query: string): seq<FeedArticle> {
    if Trim(query) != "" then Filter(s, SearchKept(query)) else s
  }

  /** The articles the filters keep, in input order. */
  function Filtered(articles: seq<FeedArticle>, enabled: seq<string>, topics: seq<string>, query: string)
    : seq<FeedArticle>
  {
    SearchStage(TopicStage(SourceStage(articles, enabled), topics), query)
  }

  /** `new Date(a.pubDate || 0)`. */
  function DateKey(a: FeedArticle): int {
    if a.pubDate.Some? then a.pubDate.value else 0
  }

  /** The sort as a stable largest-key-first sort: each mode's comparator
      becomes a key. `collate` stands for `localeCompare`'s order. */
  function SortKey(sortBy: string, collate: string -> int): FeedArticle -> int {
    if sortBy == "date-desc" then DateKey
    else if sortBy == "date-asc" then (a: FeedArticle) => -DateKey(a)
    else if sortBy == "source" then (a: FeedArticle) => -collate(Or(a.source, ""))
    else if sortBy == "title" then (a: FeedArticle) => -collate(Or(a.title, ""))
    else (a: FeedArticle) => 0
  }

  /** `processedArticles()`. */
  function Processed(articles: seq<FeedArticle>, enabled: seq<string>, topics: seq<string>, query: string,
                     sortBy: string, collate: string -> int): seq<FeedArticle>
  {
    SortDesc(Filtered(articles, enabled, topics, query), SortKey(sortBy, collate))
  }

  /** The dashboard's state that these operations read and write. */
  class Dashboard {
    var articles: seq<FeedArticle>
    var selectedTopics: seq<string>
    var searchQuery: string
    var sortBy: string
    /** The links marked read; a missing link is stored as `undefined`. */
    var readArticles: set<Option<string>>
    var enabledSources: seq<string>

    /** The initial state: nothing fetched, every source enabled. */
    constructor ()
      ensures articles == [] && selectedTopics == [] && searchQuery == "" && sortBy == "date-desc"
      ensures readArticles == {}
      ensures enabledSources == ["krebsonsecurity", "bleepingcomputer", "darkreading", "thehackernews",
                                 "securityweek", "therecord", "arstechnica", "wired", "reddit"]
    {
      articles := [];
      selectedTopics := [];
      searchQuery := "";
      sortBy := "date-desc";
      readArticles := {};
      enabledSources := ["krebsonsecurity", "bleepingcomputer", "darkreading", "thehackernews",
                         "securityweek", "therecord", "arstechnica", "wired", "reddit"];
    }

    /** `markAsRead`: the link reads as read afterwards, nothing read is
        forgotten, and marking a link already read changes nothing. */
    method MarkAsRead(link: Option<string>)
      modifies this
      ensures readArticles == old(readArticles) + {link}
      ensures link in readArticles && old(readArticles) <= readArticles
      ensures link in old(readArticles) ==> readArticles == old(readArticles)
      ensures articles == old(articles) && selectedTopics == old(selectedTopics)
      ensures searchQuery == old(searchQuery) && sortBy == old(sortBy)
      ensures enabledSources == old(enabledSources)
    {
      readArticles := readArticles + {link};
    }

    /** `processedArticles()`, with its source filter's loops. */
    method ProcessedArticles(collate: string -> int) returns (result: seq<FeedArticle>)
      ensures result == Processed(articles, enabledSources, selectedTopics, searchQuery, sortBy, collate)
    {
      result := BySource(articles, enabledSources);
      result := TopicStage(result, selectedTopics);
      result := SearchStage(result, searchQuery);
      result := SortDesc(result, SortKey(sortBy, collate));
    }
  }

  /** The source filter: skipped when every source is enabled, otherwise a
      loop over the articles that keeps those `SourceAllowed` accepts. */
  method BySource(articles: seq<FeedArticle>, enabled: seq<string>) returns (kept: seq<FeedArticle>)
    ensures kept == SourceStage(articles, enabled)
  {
    if |enabled| >= SourceFilterThreshold {
      return articles;
    }
    kept := [];
    var i := 0;
    while i < |articles|
      invariant 0 <= i <= |articles|
      invariant kept == Filter(articles[..i], SourceKept(enabled))
    {
      var ok := SourceAllowed(enabled, articles[i]);
      assert SourceKept(enabled)(articles[i]) == ok;
      assert articles[..i + 1] == articles[..i] + [articles[i]];
      FilterSnoc(articles[..i], articles[i], SourceKept(enabled));
      if ok {
        kept := kept + [articles[i]];
      }
      i := i + 1;
    }
    assert articles[..i] == articles;
  }

  /** The source filter's callback: the first enabled id with a matching
      pattern ends the search. */
  method SourceAllowed(enabled: seq<string>, a: FeedArticle) returns (ok: bool)
    ensures ok <==> SourceOk(enabled, a)
  {
    var source := SourceText(a);
    var i := 0;
    while i < |enabled|
      invariant 0 <= i <= |enabled|
      invariant forall k :: 0 <= k < i ==> !SourceHit(source, enabled[k])
    {
      if SourceHit(source, enabled[i]) {
        return true;
      }
      NoHitExtends(source, enabled, i);
      i := i + 1;
    }
    return false;
  }

  lemma NoHitExtends(source: string, enabled: seq<string>, i: nat)
    requires i < |enabled| && !SourceHit(source, enabled[i])
    requires forall k :: 0 <= k < i ==> !SourceHit(source, enabled[k])
    ensures forall k :: 0 <= k < i + 1 ==> !SourceHit(source, enabled[k])
  {
  }

  // ----- what the list promises -----

  /** The filters keep exactly the articles that pass every active test,
      in input order. */
  lemma FilteredMembers(articles: seq<FeedArticle>, enabled: seq<string>, topics: seq<string>, query: string)
    ensures var f := Filtered(articles, enabled, topics, query);
      (forall a :: a in f <==> a in articles && Kept(enabled, topics, query, a))
      && IsSubsequence(f, articles)
  {
    FilteredMembership(articles, enabled, topics, query);
    FilteredInOrder(articles, enabled, topics, query);
  }

  lemma FilteredMembership(articles: seq<FeedArticle>, enabled: seq<string>, topics: seq<string>, query: string)
    ensures var f := Filtered(articles, enabled, topics, query);
      forall a :: a in f <==> a in articles && Kept(enabled, topics, query, a)
  {
    var s1 := SourceStage(articles, enabled);
    var s2 := TopicStage(s1, topics);
    assert forall a :: a in s1 <==> a in articles && (|enabled| < SourceFilterThreshold ==> SourceOk(enabled, a));
    assert forall a :: a in s2 <==> a in s1 && (|topics| > 0 ==> TopicOk(topics, a));
  }

  lemma FilteredInOrder(articles: seq<FeedArticle>, enabled: seq<string>, topics: seq<string>, query: string)
    ensures IsSubsequence(Filtered(articles, enabled, topics, query), articles)
  {
    var s1 := SourceStage(articles, enabled);
    var s2 := TopicStage(s1, topics);
    var s3 := SearchStage(s2, query);
    if |enabled| < SourceFilterThreshold { FilterIsSubsequence(articles, SourceKept(enabled)); }
    else { IdentityIsSubsequence(articles); }
    if |topics| > 0 { FilterIsSubsequence(s1, TopicKept(topics)); }
    else { IdentityIsSubsequence(s1); }
    if Trim(query) != "" { FilterIsSubsequence(s2, SearchKept(query)); }
    else { IdentityIsSubsequence(s2); }
    SubsequenceTransitive(s2, s1, articles);
    SubsequenceTransitive(s3, s2, articles);
  }

  /** The list shown is a reordering of the filtered articles, which are a
      subsequence of the fetched ones; the fetched list keeps its order. */
  lemma ProcessedPermutesFiltered(articles: seq<FeedArticle>, enabled: seq<string>, topics: seq<string>,
                                  query: string, sortBy: string, collate: string -> int)
    ensures var f := Filtered(articles, enabled, topics, query);
      var r := Processed(articles, enabled, topics, query, sortBy, collate);
      multiset(r) == multiset(f) && IsSubsequence(f, articles) && |r| <= |articles|
      && (forall a :: a in r <==> a in articles && Kept(enabled, topics, query, a))
  {
    var f := Filtered(articles, enabled, topics, query);
    FilteredMembers(articles, enabled, topics, query);
    SortDescCorrect(f, SortKey(sortBy, collate));
    SubsequenceLength(f, articles);
    var r := Processed(articles, enabled, topics, query, sortBy, collate);
    forall a ensures a in r <==> a in f {
      assert a in r <==> a in multiset(r);
    }
  }

  /** With every source enabled no article is dropped for its source. */
  lemma AllSourcesSkipFilter(articles: seq<FeedArticle>, enabled: seq<string>)
    requires |enabled| >= SourceFilterThreshold
    ensures SourceStage(articles, enabled) == articles
  {
  }

  /** 'date-desc' puts newer articles first, 'date-asc' older ones first. */
  lemma DateModesSorted(articles: seq<FeedArticle>, enabled: seq<string>, topics: seq<string>,
                        query: string, collate: string -> int)
    ensures var r := Processed(articles, enabled, topics, query, "date-desc", collate);
      forall i, j :: 0 <= i < j < |r| ==> DateKey(r[i]) >= DateKey(r[j])
    ensures var r := Processed(articles, enabled, topics, query, "date-asc", collate);
      forall i, j :: 0 <= i < j < |r| ==> DateKey(r[i]) <= DateKey(r[j])
  {
    var f := Filtered(articles, enabled, topics, query);
    SortDescCorrect(f, SortKey("date-desc", collate));
    SortDescCorrect(f, SortKey("date-asc", collate));
  }

  /** 'source' and 'title' order by the collation. */
  lemma CollatedModesSorted(articles: seq<FeedArticle>, enabled: seq<string>, topics: seq<string>,
                            query: string, collate: string -> int)
    ensures var r := Processed(articles, enabled, topics, query, "source", collate);
      forall i, j :: 0 <= i < j < |r| ==> collate(Or(r[i].source, "")) <= collate(Or(r[j].source, ""))
    ensures var r := Processed(articles, enabled, topics, query, "title", collate);
      forall i, j :: 0 <= i < j < |r| ==> collate(Or(r[i].title, "")) <= collate(Or(r[j].title, ""))
  {
    SortedBySource(articles, enabled, topics, query, collate);
    SortedByTitle(articles, enabled, topics, query, collate);
  }

  lemma SortedBySource(articles: seq<FeedArticle>, enabled: seq<string>, topics: seq<string>,
                       query: string, collate: string -> int)
    ensures var r := Processed(articles, enabled, topics, query, "source", collate);
      forall i, j :: 0 <= i < j < |r| ==> collate(Or(r[i].source, "")) <= collate(Or(r[j].source, ""))
  {
    var f := Filtered(articles, enabled, topics, query);
    assert Processed(articles, enabled, topics, query, "source", collate) == SortDesc(f, SortKey("source", collate));
    SourceAscending(f, collate);
  }

  lemma SourceAscending(f: seq<FeedArticle>, collate: string -> int)
    ensures var r := SortDesc(f, SortKey("source", collate));
      forall i, j :: 0 <= i < j < |r| ==> collate(Or(r[i].source, "")) <= collate(Or(r[j].source, ""))
  {
    var key := SortKey("source", collate);
    var r := SortDesc(f, key);
    SourceKeyNegates(collate);
    SortDescCorrect(f, key);
    forall i, j | 0 <= i < j < |r| ensures collate(Or(r[i].source, "")) <= collate(Or(r[j].source, "")) {
      assert key(r[i]) >= key(r[j]);
    }
  }

  lemma SourceKeyNegates(collate: string -> int)
    ensures forall a :: SortKey("source", collate)(a) == -collate(Or(a.source, ""))
  {
    assert "source" != "date-desc" && "source" != "date-asc";
  }

  lemma SortedByTitle(articles: seq<FeedArticle>, enabled: seq<string>, topics: seq<string>,
                      query: string, collate: string -> int)
    ensures var r := Processed(articles, enabled, topics, query, "title", collate);
      forall i, j :: 0 <= i < j < |r| ==> collate(Or(r[i].title, "")) <= collate(Or(r[j].title, ""))
  {
    var f := Filtered(articles, enabled, topics, query);
    assert Processed(articles, enabled, topics, query, "title", collate) == SortDesc(f, SortKey("title", collate));
    TitleAscending(f, collate);
  }

  lemma TitleAscending(f: seq<FeedArticle>, collate: string -> int)
    ensures var r := SortDesc(f, SortKey("title", collate));
      forall i, j :: 0 <= i < j < |r| ==> collate(Or(r[i].title, "")) <= collate(Or(r[j].title, ""))
  {
    var key := SortKey("title", collate);
    var r := SortDesc(f, key);
    TitleKeyNegates(collate);
    SortDescCorrect(f, key);
    forall i, j | 0 <= i < j < |r| ensures collate(Or(r[i].title, "")) <= collate(Or(r[j].title, "")) {
      assert key(r[i]) >= key(r[j]);
    }
  }

  lemma TitleKeyNegates(collate: string -> int)
    ensures forall a :: SortKey("title", collate)(a) == -collate(Or(a.title, ""))
  {
    assert "title" != "date-desc" && "title" != "date-asc" && "title" != "source";
  }

  /** Any other mode leaves the filtered order as it is. */
  lemma OtherModeKeepsOrder(articles: seq<FeedArticle>, enabled: seq<string>, topics: seq<string>,
                            query: string, sortBy: string, collate: string -> int)
    requires sortBy != "date-desc" && sortBy != "date-asc" && sortBy != "source" && sortBy != "title"
    ensures Processed(articles, enabled, topics, query, sortBy, collate) == Filtered(articles, enabled, topics, query)
  {
    SortDescConstantKey(Filtered(articles, enabled, topics, query), SortKey(sortBy, collate));
  }

  /** Articles without a `pubDate` (the aggregator sends `publishedAt`
      instead) all sort as the epoch, so both date modes keep the filtered
      order. */
  lemma UndatedKeepOrder(articles: seq<FeedArticle>, enabled: seq<string>, topics: seq<string>,
                         query: string, collate: string -> int)
    requires forall k :: 0 <= k < |articles| ==> articles[k].pubDate.None?
    ensures Processed(articles, enabled, topics, query, "date-desc", collate) == Filtered(articles, enabled, topics, query)
    ensures Processed(articles, enabled, topics, query, "date-asc", collate) == Filtered(articles, enabled, topics, query)
  {
    var f := Filtered(articles, enabled, topics, query);
    FilteredMembership(articles, enabled, topics, query);
    assert forall k :: 0 <= k < |f| ==> f[k] in articles;
    UndatedConstantKeys(f, collate);
  }

  /** Undated articles all have the same key in both date modes. */
  lemma UndatedConstantKeys(f: seq<FeedArticle>, collate: string -> int)
    requires forall k :: 0 <= k < |f| ==> f[k].pubDate.None?
    ensures SortDesc(f, SortKey("date-desc", collate)) == f
    ensures SortDesc(f, SortKey("date-asc", collate)) == f
  {
    assert "date-asc" != "date-desc";
    SortDescConstantKey(f, SortKey("date-desc", collate));
    SortDescConstantKey(f, SortKey("date-asc", collate));
  }

  /** An id without patterns of its own matches sources containing it. */
  lemma UnknownSourceIdIsItsOwnPattern(enabled: seq<string>, a: FeedArticle, i: nat)
    requires i < |enabled| && forall k :: 0 <= k < |SourcePatterns| ==> SourcePatterns[k].0 != enabled[i]
    requires Contains(SourceText(a), Lower(enabled[i]))
    ensures SourceOk(enabled, a)
  {
    assert OrSelf(SourcePatterns, enabled[i])[0] == enabled[i];
  }

  /** A topic appearing in the article's searchable fields lets it through
      the topic filter: e.g. the topic 'ai' keeps an article whose category
      is 'AI'. */
  lemma KeywordInCategoryKeeps(topics: seq<string>, a: FeedArticle, i: nat, j: nat)
    requires i < |topics| && j < |OrSelf(TopicKeywordTable, topics[i])|
    requires Contains(Lower(Or(a.category, "")), Lower(OrSelf(TopicKeywordTable, topics[i])[j]))
    ensures TopicOk(topics, a)
  {
    var parts := SearchableParts(a);
    var cats := if a.categories.Some? then a.categories.value else [];
    var k := 3 + |cats|;
    assert parts[k] == Or(a.category, "");
    JoinContains(parts, " ", k);
    ContainsLowered(Join(parts, " "), parts[k], Lower(OrSelf(TopicKeywordTable, topics[i])[j]));
  }

  /** What occurs in a piece of a text, lower-cased, occurs in the whole
      text lower-cased. */
  lemma ContainsLowered(text: string, piece: string, sub: string)
    requires Contains(text, piece) && Contains(Lower(piece), sub)
    ensures Contains(Lower(text), sub)
  {
    var p :| 0 <= p <= |text| - |piece| && OccursAt(text, piece, p);
    var q :| 0 <= q <= |piece| - |sub| && OccursAt(Lower(piece), sub, q);
    var lt, lp := Lower(text), Lower(piece);
    assert 0 <= p && p + |piece| <= |text| && text[p..p + |piece|] == piece;
    assert 0 <= q && q + |sub| <= |lp| && lp[q..q + |sub|] == sub;
    forall m | 0 <= m < |sub| ensures lt[p + q + m] == sub[m] {
      assert text[p..p + |piece|][q + m] == text[p + q + m];
      assert lp[q..q + |sub|][m] == lp[q + m];
    }
    assert lt[p + q..p + q + |sub|] == sub;
    assert OccursAt(lt, sub, p + q);
  }
}
