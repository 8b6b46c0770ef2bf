/** The topic picker (src/components/NewsFilter.jsx): fifteen topics, an
    "All" button that clears the selection, and a toggle per topic. */
module TopicFilter {
  import opened ListToggle
  import FeedView

  /** A topic button: its id, label (`caption`) and the keywords it documents. */
  datatype Topic = Topic(id: string, caption: string, keywords: seq<string>)

  /** `topics`. */
  const Topics: seq<Topic> := [
    Topic("ai", "AI Security", ["ai", "artificial intelligence", "machine learning", "chatgpt", "llm"]),
    Topic("cloud", "Cloud Security", ["cloud", "aws", "azure", "gcp", "saas"]),
    Topic("ransomware", "Ransomware", ["ransomware", "ransom", "encryption", "lockbit", "blackcat"]),
    Topic("breach", "Data Breach", ["breach", "leak", "exposed", "stolen data", "compromised"]),
    Topic("vulnerability", "Vulnerabilities", ["vulnerability", "vuln", "cve", "exploit", "patch"]),
    Topic("zero-day", "Zero-Day Exploits", ["zero-day", "zero day", "0-day", "unpatched"]),
    Topic("phishing", "Phishing & Email Threats", ["phishing", "email", "spear-phishing", "bec", "spam"]),
    Topic("social-engineering", "Social Engineering", ["social engineering", "pretexting", "manipulation", "scam"]),
    Topic("insider", "Insider Threats", ["insider", "employee", "internal threat", "privileged access"]),
    Topic("identity", "Identity & Access Management", ["identity", "authentication", "mfa", "password", "access", "iam", "sso"]),
    Topic("application", "Application Security", ["application", "app", "software", "code", "devsecops", "api"]),
    Topic("endpoint", "Endpoint Security", ["endpoint", "device", "mobile", "laptop", "workstation", "edr"]),
    Topic("network", "Infrastructure Security", ["network", "infrastructure", "firewall", "router", "server", "dns"]),
    Topic("privacy", "Privacy & Compliance", ["privacy", "gdpr", "compliance", "regulation", "hipaa", "pci", "data protection",
                                             "personal data", "consent", "ccpa", "dpo", "audit", "policy", "legal", "law", "fine", "penalty"]),
    Topic("threat", "Threat Intelligence", ["threat", "apt", "actor", "intelligence", "ioc", "ttp"])
  ]

  /** `showAllTopics`: the empty selection. */
  function ShowAllTopics(): (r: seq<string>)
    ensures IsAllSelected(r)
  {
    []
  }

  /** `isAllSelected`. */
  predicate IsAllSelected(selected: seq<string>) {
    |selected| == 0
  }

  /** "All" means no topic filtering: the dashboard keeps every article. */
  lemma AllSelectedFiltersNothing(articles: seq<FeedView.FeedArticle>, selected: seq<string>)
    requires IsAllSelected(selected)
    ensures FeedView.TopicStage(articles, selected) == articles
  {
  }

  /** No two topics share an id. */
  lemma TopicIdsDistinct()
    ensures forall i, j :: 0 <= i < j < |Topics| ==> Topics[i].id != Topics[j].id
  {
    FirstIdsDiffer();
    LastIdsDiffer();
  }

  lemma FirstIdsDiffer()
    ensures forall i, j :: 0 <= i < j < 8 ==> Topics[i].id != Topics[j].id
  {
  }

  lemma LastIdsDiffer()
    ensures forall i, j :: 0 <= i < 15 && 8 <= j < 15 && i < j ==> Topics[i].id != Topics[j].id
  {
  }

  /** The buttons offer exactly the topics the dashboard's keyword table
      knows, in the same order and with the same keywords, so a selected
      topic never falls back to matching its own id. */
  lemma TopicsMatchKeywordTable()
    ensures |Topics| == |FeedView.TopicKeywordTable|
    ensures forall i :: 0 <= i < |Topics| ==>
      Topics[i].id == FeedView.TopicKeywordTable[i].0 && Topics[i].keywords == FeedView.TopicKeywordTable[i].1
  {
  }
}
