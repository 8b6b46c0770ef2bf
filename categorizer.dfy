/** The aggregator's topic classifier (`categorizeArticle` in
    lambda-function/index.js). The taxonomy is an ORDERED table: the first
    topic, in table order, with a keyword occurring in the lower-cased text
    wins. */
module Categorizer {
  import opened Text

  /** Topics in priority order, each with its keywords. */
  type Taxonomy = seq<(string, seq<string>)>

  const DefaultTopic := "General Security"

  /** `TOPIC_KEYWORDS`, in declaration order (object keys that are not array
      indices iterate in insertion order). */
  const TopicKeywords: Taxonomy := [
    ("Password Security", ["password", "authentication", "2fa", "mfa", "credential", "login"]),
    ("Social Engineering", ["phishing", "scam", "fraud", "social engineering", "impersonation"]),
    ("Mobile Security", ["mobile", "android", "ios", "smartphone", "app security"]),
    ("Financial Security", ["banking", "financial", "payment", "credit card", "cryptocurrency"]),
    ("Privacy", ["privacy", "data protection", "gdpr", "surveillance", "tracking", "CCPA", "HIPAA",
                 "data minimization", "DSAR", "DPIA"]),
    ("Email Security", ["email", "spam", "business email compromise", "bec"]),
    ("Network Security", ["network", "firewall", "router", "wifi", "vpn", "ddos"]),
    ("Updates", ["update", "patch", "vulnerability", "cve", "security fix"]),
    ("Vulnerabilities", ["vulnerability", "exploit", "buffer overflow", "sql injection"]),
    ("Data Breach", ["breach", "leak", "exposed", "compromised", "stolen data"]),
    ("AI Security", ["artificial intelligence", "ai", "machine learning", "ml", "deepfake", "nlp",
                     "ai threat", "ai security", "ai ethics", "ai governance", "large language model",
                     "llm", "chatgpt", "claude", "prompt injection", "ai bias", "algorithmic",
                     "neural network", "ai safety", "ai alignment", "automated", "bot detection",
                     "adversarial", "model poisoning", "data poisoning", "ai privacy", "synthetic media",
                     "generative ai"]),
    ("Cloud Security", ["cloud", "aws", "azure", "gcp", "cloud security"])
  ]

  /** `keywords.some(k => content.includes(k.toLowerCase()))`. */
  predicate AnyKeywordIn(keywords: seq<string>, content: string) {
    exists k | k in keywords :: Contains(content, Lower(k))
  }

  /** The index of the first entry at or after `from` whose keywords occur in
      `content`, or |table| when there is none. */
  function FirstMatchFrom(table: Taxonomy, content: string, from: nat): (r: nat)
    requires from <= |table|
    ensures from <= r <= |table|
    ensures r < |table| ==> AnyKeywordIn(table[r].1, content)
    ensures forall j :: from <= j < r ==> !AnyKeywordIn(table[j].1, content)
    decreases |table| - from
  {
    if from == |table| then |table|
    else if AnyKeywordIn(table[from].1, content) then from
    else FirstMatchFrom(table, content, from + 1)
  }

  /** The topic a first-match walk over `table` assigns to `content`. */
  function Classify(table: Taxonomy, content: string): (r: string)
    ensures r == DefaultTopic || exists i :: 0 <= i < |table| && r == table[i].0
  {
    var i := FirstMatchFrom(table, content, 0);
    if i < |table| then table[i].0 else DefaultTopic
  }

  /** The text the classifier looks at: `${title} ${summary}`, lower-cased. */
  function Content(title: string, summary: string): string {
    Lower(title + " " + summary)
  }

  /** `categorizeArticle(title, summary)` as a value. */
  function Categorize(title: string, summary: string): (r: string)
    ensures r == DefaultTopic || exists i :: 0 <= i < |TopicKeywords| && r == TopicKeywords[i].0
  {
    Classify(TopicKeywords, Content(title, summary))
  }

  /** `categorizeArticle`: the loop over the table with an early return. */
  method CategorizeArticle(title: string, summary: string) returns (topic: string)
    ensures topic == Categorize(title, summary)
    ensures topic == DefaultTopic || exists i :: 0 <= i < |TopicKeywords| && topic == TopicKeywords[i].0
  {
    topic := FirstMatchLoop(TopicKeywords, Content(title, summary));
  }

  /** The loop of `categorizeArticle` over any table: the first entry whose
      keywords occur returns its topic; past the end, the default. */
  method FirstMatchLoop(table: Taxonomy, content: string) returns (topic: string)
    ensures topic == Classify(table, content)
  {
    var i := 0;
    while i < |table|
      invariant 0 <= i <= |table|
      invariant FirstMatchFrom(table, content, 0) == FirstMatchFrom(table, content, i)
    {
      if AnyKeywordIn(table[i].1, content) {
        return table[i].0;
      }
      i := i + 1;
    }
    return DefaultTopic;
  }

  /** First match, both ways: the result is the first topic in table order
      that has a keyword in the text, or the default when no topic does. */
  lemma ClassifyIsFirstMatch(table: Taxonomy, content: string)
    ensures var r := Classify(table, content);
      || (r == DefaultTopic && forall j :: 0 <= j < |table| ==> !AnyKeywordIn(table[j].1, content))
      || (exists i :: 0 <= i < |table| && r == table[i].0 && AnyKeywordIn(table[i].1, content)
            && forall j :: 0 <= j < i ==> !AnyKeywordIn(table[j].1, content))
  {
    var i := FirstMatchFrom(table, content, 0);
    if i < |table| {
      assert Classify(table, content) == table[i].0;
    }
  }

  /** A topic whose keyword occurs wins unless an earlier topic also matches:
      the entry at position `i` decides only if no earlier entry matches. */
  lemma {:induction false} EarlierEntryWins(table: Taxonomy, content: string, i: nat)
    requires i < |table| && AnyKeywordIn(table[i].1, content)
    ensures FirstMatchFrom(table, content, 0) <= i
  {
  }

  /** The topic names of the table are pairwise distinct. */
  lemma TopicNamesDistinct()
    ensures forall i, j :: 0 <= i < j < |TopicKeywords| ==> TopicKeywords[i].0 != TopicKeywords[j].0
  {
  }

  /** None of the first eight topics is named 'Vulnerabilities'. */
  lemma EarlyNamesDiffer(i: nat)
    requires i <= 7
    ensures TopicKeywords[i].0 != "Vulnerabilities"
  {
    var n := TopicKeywords[i].0;
    assert n[0] != 'V';
  }

  /** Text mentioning a password is always 'Password Security', whatever else
      it mentions (for instance 'phishing'): it is the first entry. */
  lemma PasswordBeatsPhishing(title: string, summary: string)
    requires Contains(Content(title, summary), "password")
    ensures Categorize(title, summary) == "Password Security"
  {
    var content := Content(title, summary);
    LowerOfLowerCase("password");
    assert "password" in TopicKeywords[0].1;
    assert AnyKeywordIn(TopicKeywords[0].1, content);
  }

  /** 'Vulnerabilities' can never be assigned to a text mentioning
      'vulnerability': 'Updates' lists the same keyword and comes first. */
  lemma VulnerabilityNeverVulnerabilities(title: string, summary: string)
    requires Contains(Content(title, summary), "vulnerability")
    ensures Categorize(title, summary) != "Vulnerabilities"
  {
    var content := Content(title, summary);
    LowerOfLowerCase("vulnerability");
    assert "vulnerability" in TopicKeywords[7].1;
    assert AnyKeywordIn(TopicKeywords[7].1, content);
    EarlierEntryWins(TopicKeywords, content, 7);
    var i := FirstMatchFrom(TopicKeywords, content, 0);
    assert Categorize(title, summary) == TopicKeywords[i].0;
    EarlyNamesDiffer(i);
  }
}
