/** The text of a LinkedIn post (`createPostContent` in
    lambda-linkedin-poster/index.js): an emoji for the topic, the title, the
    summary, a "Read more" link, the source and the hashtags. */
module PostContent {
  import opened Js
  import opened Text
  import opened Seqs
  import opened PostLedger

  const TargetCategories: seq<string> := ["AI Security", "Cloud Security", "Privacy"]

  // ----- the emoji table -----

  /** The intended emoji: robot, cloud, lock, and a shield for any other
      topic. The cloud and the shield carry VARIATION SELECTOR-16. */
  function EmojiFor(topic: Option<string>): (r: string)
    ensures |r| >= 1
    ensures topic.None? || topic.value !in TargetCategories <==> r == "\U{1F6E1}\U{FE0F}"
  {
    if topic == Some("AI Security") then "\U{1F916}"
    else if topic == Some("Cloud Security") then "\U{2601}\U{FE0F}"
    else if topic == Some("Privacy") then "\U{1F512}"
    else "\U{1F6E1}\U{FE0F}"
  }

  /** The emoji table as the file has it: each entry is a UTF-8 encoding read
      back as Windows-1252 text. */
  function EmojiAsWritten(topic: Option<string>): string {
    if topic == Some("AI Security") then "\U{F0}\U{178}\U{A4}\U{2013}"
    else if topic == Some("Cloud Security") then "\U{E2}\U{2DC}\U{EF}\U{B8}"
    else if topic == Some("Privacy") then "\U{F0}\U{178}\U{201D}\U{2019}"
    else "\U{F0}\U{178}\U{203A}\U{A1}\U{EF}\U{B8}"
  }

  /** The UTF-8 encoding of one character. */
  function Utf8(c: char): (bytes: seq<int>)
    ensures 1 <= |bytes| <= 4
    ensures forall i :: 0 <= i < |bytes| ==> 0 <= bytes[i] < 256
  {
    var n := c as int;
    if n < 0x80 then [n]
    else if n < 0x800 then [0xC0 + n / 64, 0x80 + n % 64]
    else if n < 0x10000 then [0xE0 + n / 4096, 0x80 + (n / 64) % 64, 0x80 + n % 64]
    else [0xF0 + n / 262144, 0x80 + (n / 4096) % 64, 0x80 + (n / 64) % 64, 0x80 + n % 64]
  }

  /** The UTF-8 encoding of a string. */
  function Utf8Encode(s: string): seq<int> {
    if s == [] then [] else Utf8(s[0]) + Utf8Encode(s[1..])
  }

  /** Windows-1252 for one byte: the block 0x80-0x9F has its own table, in
      which five bytes are undefined; every other byte is its own code point. */
  function Cp1252(b: int): (r: Option<char>)
    requires 0 <= b < 256
    ensures (b < 0x80 || 0xA0 <= b) ==> r == Some(b as char)
  {
    if b < 0x80 || 0xA0 <= b then Some(b as char)
    else
      var table: seq<int> := [
        0x20AC, 0, 0x201A, 0x0192, 0x201E, 0x2026, 0x2020, 0x2021,
        0x02C6, 0x2030, 0x0160, 0x2039, 0x0152, 0, 0x017D, 0,
        0, 0x2018, 0x2019, 0x201C, 0x201D, 0x2022, 0x2013, 0x2014,
        0x02DC, 0x2122, 0x0161, 0x203A, 0x0153, 0, 0x017E, 0x0178];
      var cp := table[b - 0x80];
      if cp == 0 then None else Some(cp as char)
  }

  /** Bytes read as Windows-1252 text, undefined bytes dropped. */
  function Cp1252Decode(bytes: seq<int>): string
    requires forall i :: 0 <= i < |bytes| ==> 0 <= bytes[i] < 256
  {
    if bytes == [] then []
    else
      var rest := Cp1252Decode(bytes[1..]);
      match Cp1252(bytes[0])
      case Some(c) => [c] + rest
      case None => rest
  }

  /** The mojibake of a string: its UTF-8 bytes read as Windows-1252. */
  function Mojibake(s: string): string {
    Utf8EncodeBytes(s);
    Cp1252Decode(Utf8Encode(s))
  }

  lemma {:induction false} Utf8EncodeBytes(s: string)
    ensures forall i :: 0 <= i < |Utf8Encode(s)| ==> 0 <= Utf8Encode(s)[i] < 256
  {
    if s != [] {
      Utf8EncodeBytes(s[1..]);
      var head, tail := Utf8(s[0]), Utf8Encode(s[1..]);
      assert Utf8Encode(s) == head + tail;
      forall i | 0 <= i < |head + tail| ensures 0 <= (head + tail)[i] < 256 {
        if i >= |head| { assert (head + tail)[i] == tail[i - |head|]; }
      }
    }
  }

  /** Each as-written entry is the mojibake of the intended emoji. */
  lemma EmojiAsWrittenIsMojibake(topic: Option<string>)
    ensures EmojiAsWritten(topic) == Mojibake(EmojiFor(topic))
  {
    if topic == Some("AI Security") {
      RobotMojibake();
    } else if topic == Some("Cloud Security") {
      CloudMojibake();
    } else if topic == Some("Privacy") {
      LockMojibake();
    } else {
      ShieldMojibake();
    }
  }

  lemma RobotMojibake()
    ensures Mojibake("\U{1F916}") == "\U{F0}\U{178}\U{A4}\U{2013}"
  {
    RobotBytes();
    RobotDecoded();
  }

  /** A one-character string encodes as that character. */
  lemma Utf8Single(s: string)
    requires |s| == 1
    ensures Utf8Encode(s) == Utf8(s[0])
  {
    assert s[1..] == [];
  }

  lemma RobotBytes()
    ensures Utf8Encode("\U{1F916}") == [0xF0, 0x9F, 0xA4, 0x96]
  {
    Utf8Single("\U{1F916}");
    assert Utf8("\U{1F916}"[0]) == [0xF0, 0x9F, 0xA4, 0x96] by {
      assert "\U{1F916}"[0] as int == 0x1F916;
    }
  }

  lemma RobotDecoded()
    ensures Cp1252Decode([0xF0, 0x9F, 0xA4, 0x96]) == "\U{F0}\U{178}\U{A4}\U{2013}"
  {
    assert Cp1252Decode([0x96]) == "\U{2013}";
    assert Cp1252Decode([0xA4, 0x96]) == "\U{A4}\U{2013}";
    assert Cp1252Decode([0x9F, 0xA4, 0x96]) == "\U{178}\U{A4}\U{2013}";
    assert Cp1252Decode([0xF0, 0x9F, 0xA4, 0x96]) == "\U{F0}\U{178}\U{A4}\U{2013}";
  }

  lemma CloudMojibake()
    ensures Mojibake("\U{2601}\U{FE0F}") == "\U{E2}\U{2DC}\U{EF}\U{B8}"
  {
    CloudBytes();
    CloudDecoded();
  }

  lemma CloudBytes()
    ensures Utf8Encode("\U{2601}\U{FE0F}") == [0xE2, 0x98, 0x81, 0xEF, 0xB8, 0x8F]
  {
    assert "\U{2601}"[0] as int == 0x2601;
    assert Utf8("\U{2601}"[0]) == [0xE2, 0x98, 0x81];
    assert "\U{FE0F}"[0] as int == 0xFE0F;
    assert Utf8("\U{FE0F}"[0]) == [0xEF, 0xB8, 0x8F];
    assert "\U{2601}\U{FE0F}"[1..] == "\U{FE0F}";
  }

  lemma CloudDecoded()
    ensures Cp1252Decode([0xE2, 0x98, 0x81, 0xEF, 0xB8, 0x8F]) == "\U{E2}\U{2DC}\U{EF}\U{B8}"
  {
    SelectorDecoded();
    assert Cp1252Decode([0x81, 0xEF, 0xB8, 0x8F]) == "\U{EF}\U{B8}";
    assert Cp1252Decode([0x98, 0x81, 0xEF, 0xB8, 0x8F]) == "\U{2DC}\U{EF}\U{B8}";
    assert Cp1252Decode([0xE2, 0x98, 0x81, 0xEF, 0xB8, 0x8F]) == "\U{E2}\U{2DC}\U{EF}\U{B8}";
  }

  lemma LockMojibake()
    ensures Mojibake("\U{1F512}") == "\U{F0}\U{178}\U{201D}\U{2019}"
  {
    LockBytes();
    LockDecoded();
  }

  lemma LockBytes()
    ensures Utf8Encode("\U{1F512}") == [0xF0, 0x9F, 0x94, 0x92]
  {
    Utf8Single("\U{1F512}");
    assert Utf8("\U{1F512}"[0]) == [0xF0, 0x9F, 0x94, 0x92] by {
      assert "\U{1F512}"[0] as int == 0x1F512;
    }
  }

  lemma LockTailDecoded()
    ensures Cp1252Decode([0x94, 0x92]) == "\U{201D}\U{2019}"
  {
    assert Cp1252Decode([0x92]) == "\U{2019}";
  }

  lemma LockDecoded()
    ensures Cp1252Decode([0xF0, 0x9F, 0x94, 0x92]) == "\U{F0}\U{178}\U{201D}\U{2019}"
  {
    LockTailDecoded();
    assert Cp1252Decode([0x9F, 0x94, 0x92]) == "\U{178}\U{201D}\U{2019}";
    assert Cp1252Decode([0xF0, 0x9F, 0x94, 0x92]) == "\U{F0}\U{178}\U{201D}\U{2019}";
  }

  lemma ShieldMojibake()
    ensures Mojibake("\U{1F6E1}\U{FE0F}") == "\U{F0}\U{178}\U{203A}\U{A1}\U{EF}\U{B8}"
  {
    ShieldBytes();
    ShieldDecoded();
  }

  lemma ShieldBytes()
    ensures Utf8Encode("\U{1F6E1}\U{FE0F}") == [0xF0, 0x9F, 0x9B, 0xA1, 0xEF, 0xB8, 0x8F]
  {
    assert "\U{1F6E1}"[0] as int == 0x1F6E1;
    assert Utf8("\U{1F6E1}"[0]) == [0xF0, 0x9F, 0x9B, 0xA1];
    assert "\U{FE0F}"[0] as int == 0xFE0F;
    assert Utf8("\U{FE0F}"[0]) == [0xEF, 0xB8, 0x8F];
    assert "\U{1F6E1}\U{FE0F}"[1..] == "\U{FE0F}";
  }

  lemma ShieldTailDecoded()
    ensures Cp1252Decode([0xA1, 0xEF, 0xB8, 0x8F]) == "\U{A1}\U{EF}\U{B8}"
  {
    SelectorDecoded();
  }

  /** The bytes of VARIATION SELECTOR-16 read back: its last byte is
      undefined and dropped. */
  lemma SelectorDecoded()
    ensures Cp1252Decode([0xEF, 0xB8, 0x8F]) == "\U{EF}\U{B8}"
  {
    assert Cp1252Decode([0x8F]) == "";
    assert Cp1252Decode([0xB8, 0x8F]) == "\U{B8}";
  }

  lemma ShieldDecoded()
    ensures Cp1252Decode([0xF0, 0x9F, 0x9B, 0xA1, 0xEF, 0xB8, 0x8F]) == "\U{F0}\U{178}\U{203A}\U{A1}\U{EF}\U{B8}"
  {
    ShieldTailDecoded();
    assert Cp1252Decode([0x9B, 0xA1, 0xEF, 0xB8, 0x8F]) == "\U{203A}\U{A1}\U{EF}\U{B8}";
    assert Cp1252Decode([0x9F, 0x9B, 0xA1, 0xEF, 0xB8, 0x8F]) == "\U{178}\U{203A}\U{A1}\U{EF}\U{B8}";
    assert Cp1252Decode([0xF0, 0x9F, 0x9B, 0xA1, 0xEF, 0xB8, 0x8F]) == "\U{F0}\U{178}\U{203A}\U{A1}\U{EF}\U{B8}";
  }

  /** A pictograph: the Miscellaneous Symbols block or the supplementary
      emoji blocks. */
  predicate IsPictograph(c: char) {
    (0x2600 <= c as int <= 0x27BF) || (0x1F300 <= c as int <= 0x1FAFF)
  }

  /** Every intended entry opens with a pictograph, and the three target
      topics get three different ones. */
  lemma EmojiForIsPictograph(topic: Option<string>)
    ensures IsPictograph(EmojiFor(topic)[0])
    ensures forall i, j :: 0 <= i < j < |TargetCategories| ==>
      EmojiFor(Some(TargetCategories[i])) != EmojiFor(Some(TargetCategories[j]))
  {
  }

  /** The discrepancy: every as-written entry opens with a Latin letter
      ('ð' or 'â'), not with a pictograph, so no post shows the emoji meant. */
  lemma EmojiAsWrittenIsWrong(topic: Option<string>)
    ensures !IsPictograph(EmojiAsWritten(topic)[0])
    ensures EmojiAsWritten(topic) != EmojiFor(topic)
  {
    EmojiForIsPictograph(topic);
  }

  // ----- hashtags -----

  /** The hashtag list before `.filter(Boolean)`: a topic tag is present only
      for its own topic. */
  function TagSlots(topic: Option<string>): seq<Option<string>> {
    [Some("#CyberSecurity"), Some("#InfoSec"),
     if topic == Some("AI Security") then Some("#AISecurity") else None,
     if topic == Some("Cloud Security") then Some("#CloudSecurity") else None,
     if topic == Some("Privacy") then Some("#Privacy") else None,
     Some("#ThreatIntelligence")]
  }

  /** `.filter(Boolean)`: the present tags, in order. */
  function Present(slots: seq<Option<string>>): (r: seq<string>)
    ensures |r| <= |slots|
    ensures forall t :: t in r <==> Some(t) in slots && t != ""
  {
    if slots == [] then []
    else
      var rest := Present(slots[1..]);
      if Truthy(slots[0]) then [slots[0].value] + rest else rest
  }

  /** `.filter(Boolean)` keeps the slots' order: the kept tags, as slots,
      are a subsequence of the slots. */
  lemma {:induction false} PresentKeepsOrder(slots: seq<Option<string>>)
    ensures IsSubsequence(Slots(Present(slots)), slots)
  {
    if slots != [] {
      var rest := Present(slots[1..]);
      PresentKeepsOrder(slots[1..]);
      if Truthy(slots[0]) {
        var r := [slots[0].value] + rest;
        assert Present(slots) == r;
        assert Slots(r)[0] == slots[0];
        assert Slots(r)[1..] == Slots(rest);
      } else {
        assert Present(slots) == rest;
        SubsequenceOfTail(Slots(rest), slots);
      }
    }
  }

  /** The tags as the slots that hold them. */
  function Slots(tags: seq<string>): (r: seq<Option<string>>)
    ensures |r| == |tags| && forall k :: 0 <= k < |tags| ==> r[k] == Some(tags[k])
  {
    seq(|tags|, k requires 0 <= k < |tags| => Some(tags[k]))
  }

  function TagList(topic: Option<string>): seq<string> {
    Present(TagSlots(topic))
  }

  /** The hashtag line. */
  function Hashtags(topic: Option<string>): string {
    Join(TagList(topic), " ")
  }

  /** The tag of a target topic, or nothing. */
  function TopicTag(topic: Option<string>): seq<string> {
    if topic == Some("AI Security") then ["#AISecurity"]
    else if topic == Some("Cloud Security") then ["#CloudSecurity"]
    else if topic == Some("Privacy") then ["#Privacy"]
    else []
  }

  /** `.filter(Boolean)` distributes over concatenation. */
  lemma {:induction false} PresentAppend(x: seq<Option<string>>, y: seq<Option<string>>)
    ensures Present(x + y) == Present(x) + Present(y)
  {
    if x == [] {
      assert x + y == y;
    } else {
      assert (x + y)[0] == x[0];
      assert (x + y)[1..] == x[1..] + y;
      PresentAppend(x[1..], y);
      if Truthy(x[0]) {
        assert Present(x + y) == [x[0].value] + Present(x[1..] + y);
      } else {
        assert Present(x + y) == Present(x[1..] + y);
      }
    }
  }

  /** The slot of a topic tag: the topic's tag if it is a target, else null. */
  function TopicSlots(topic: Option<string>): seq<Option<string>> {
    [if topic == Some("AI Security") then Some("#AISecurity") else None,
     if topic == Some("Cloud Security") then Some("#CloudSecurity") else None,
     if topic == Some("Privacy") then Some("#Privacy") else None]
  }

  lemma TopicSlotsPresent(topic: Option<string>)
    ensures Present(TopicSlots(topic)) == TopicTag(topic)
  {
    var slots := TopicSlots(topic);
    assert slots == [slots[0]] + [slots[1]] + [slots[2]];
    PresentAppend([slots[0]] + [slots[1]], [slots[2]]);
    PresentAppend([slots[0]], [slots[1]]);
  }

  /** After `.filter(Boolean)`: the two general tags, the topic's tag if it
      has one, and '#ThreatIntelligence'. */
  lemma TagListShape(topic: Option<string>)
    ensures TagList(topic) == ["#CyberSecurity", "#InfoSec"] + TopicTag(topic) + ["#ThreatIntelligence"]
  {
    var general: seq<Option<string>> := [Some("#CyberSecurity"), Some("#InfoSec")];
    var last: seq<Option<string>> := [Some("#ThreatIntelligence")];
    assert TagSlots(topic) == general + TopicSlots(topic) + last;
    PresentAppend(general + TopicSlots(topic), last);
    PresentAppend(general, TopicSlots(topic));
    TopicSlotsPresent(topic);
    PresentGeneral();
    PresentLast();
  }

  lemma PresentGeneral()
    ensures Present([Some("#CyberSecurity"), Some("#InfoSec")]) == ["#CyberSecurity", "#InfoSec"]
  {
    var s: seq<Option<string>> := [Some("#CyberSecurity"), Some("#InfoSec")];
    assert s[1..][1..] == [];
  }

  lemma PresentLast()
    ensures Present([Some("#ThreatIntelligence")]) == ["#ThreatIntelligence"]
  {
    var s: seq<Option<string>> := [Some("#ThreatIntelligence")];
    assert s[1..] == [];
  }

  /** The three general tags are always there. */
  lemma TagListGeneral(topic: Option<string>)
    ensures "#CyberSecurity" in TagList(topic) && "#InfoSec" in TagList(topic)
    ensures "#ThreatIntelligence" in TagList(topic)
  {
    TagListShape(topic);
    GeneralTagsIn(TagList(topic), TopicTag(topic));
  }

  lemma GeneralTagsIn(tags: seq<string>, middle: seq<string>)
    requires tags == ["#CyberSecurity", "#InfoSec"] + middle + ["#ThreatIntelligence"]
    ensures "#CyberSecurity" in tags && "#InfoSec" in tags && "#ThreatIntelligence" in tags
  {
    assert tags[0] == "#CyberSecurity" && tags[1] == "#InfoSec";
    assert tags[|tags| - 1] == "#ThreatIntelligence";
  }

  /** A topic tag is there iff the article has that topic. */
  lemma TagListTopicTag(topic: Option<string>)
    ensures "#AISecurity" in TagList(topic) <==> topic == Some("AI Security")
    ensures "#CloudSecurity" in TagList(topic) <==> topic == Some("Cloud Security")
    ensures "#Privacy" in TagList(topic) <==> topic == Some("Privacy")
  {
    TagsDiffer();
    var tags := ["#CyberSecurity", "#InfoSec", "#AISecurity", "#CloudSecurity", "#Privacy", "#ThreatIntelligence"];
    TopicTagMember(topic, tags[2]);
    TopicTagMember(topic, tags[3]);
    TopicTagMember(topic, tags[4]);
    TopicTagOf(topic);
  }

  lemma TopicTagOf(topic: Option<string>)
    ensures "#AISecurity" in TopicTag(topic) <==> topic == Some("AI Security")
    ensures "#CloudSecurity" in TopicTag(topic) <==> topic == Some("Cloud Security")
    ensures "#Privacy" in TopicTag(topic) <==> topic == Some("Privacy")
  {
    TagsDiffer();
  }

  /** A tag other than the three general ones is in the list iff it is the
      topic's tag. */
  lemma TopicTagMember(topic: Option<string>, tag: string)
    requires tag != "#CyberSecurity" && tag != "#InfoSec" && tag != "#ThreatIntelligence"
    ensures tag in TagList(topic) <==> tag in TopicTag(topic)
  {
    TagListShape(topic);
    MiddleTagsIn(TagList(topic), TopicTag(topic), tag);
  }

  lemma MiddleTagsIn(tags: seq<string>, middle: seq<string>, tag: string)
    requires tags == ["#CyberSecurity", "#InfoSec"] + middle + ["#ThreatIntelligence"]
    requires tag != "#CyberSecurity" && tag != "#InfoSec" && tag != "#ThreatIntelligence"
    ensures tag in tags <==> tag in middle
  {
  }

  /** A target topic adds exactly one tag to the three general ones; any
      other topic adds none. */
  lemma TagListLength(topic: Option<string>)
    ensures |TagList(topic)| == if topic.Some? && topic.value in TargetCategories then 4 else 3
  {
    TagListShape(topic);
  }

  /** The six tags are pairwise different. */
  lemma TagsDiffer()
    ensures var tags := ["#CyberSecurity", "#InfoSec", "#AISecurity", "#CloudSecurity", "#Privacy", "#ThreatIntelligence"];
      forall i, j :: 0 <= i < j < |tags| ==> tags[i] != tags[j]
  {
    var tags := ["#CyberSecurity", "#InfoSec", "#AISecurity", "#CloudSecurity", "#Privacy", "#ThreatIntelligence"];
    assert tags[0][2] == 'y' && tags[3][2] == 'l';
    assert forall i :: 0 <= i < |tags| ==> |tags[i]| > 2;
    assert tags[0][1] == 'C' && tags[1][1] == 'I' && tags[2][1] == 'A' && tags[3][1] == 'C'
      && tags[4][1] == 'P' && tags[5][1] == 'T';
  }

  /** The hashtag line holds every tag of the list. */
  lemma HashtagsContainTags(topic: Option<string>, tag: string)
    requires tag in TagList(topic)
    ensures Contains(Hashtags(topic), tag)
  {
    var tags := TagList(topic);
    var k :| 0 <= k < |tags| && tags[k] == tag;
    JoinContains(tags, " ", k);
  }

  // ----- the post -----

  /** The body line: `summary || description || ''`. */
  function Body(a: PosterArticle): (r: string)
    ensures Truthy(a.summary) ==> r == a.summary.value
    ensures !Truthy(a.summary) && Truthy(a.description) ==> r == a.description.value
    ensures !Truthy(a.summary) && !Truthy(a.description) ==> r == ""
  {
    Or(a.summary, Or(a.description, ""))
  }

  /** The template of the post, over its six parts. */
  function PostText(emoji: string, title: string, body: string, url: string, source: string, hashtags: string): string {
    emoji + " " + title + "\n\n" + body + "\n\nRead more: " + url + "\n\nSource: " + source + "\n\n" + hashtags
  }

  /** `createPostContent`, with the intended emoji. */
  function CreatePostContent(a: PosterArticle): string {
    PostText(EmojiFor(a.topic), Interpolate(a.title), Body(a), Interpolate(a.url),
             Interpolate(a.source), Hashtags(a.topic))
  }

  /** The post opens with its emoji. */
  lemma PostTextOpensWith(emoji: string, title: string, body: string, url: string, source: string, hashtags: string)
    ensures var text := PostText(emoji, title, body, url, source, hashtags);
      |emoji| <= |text| && text[..|emoji|] == emoji
  {
    var rest := " " + title + "\n\n" + body + "\n\nRead more: " + url + "\n\nSource: " + source + "\n\n" + hashtags;
    assert PostText(emoji, title, body, url, source, hashtags) == emoji + rest;
  }

  /** The post holds "Read more: " and the url, then the source line. */
  lemma PostTextLinks(emoji: string, title: string, body: string, url: string, source: string, hashtags: string)
    ensures var text := PostText(emoji, title, body, url, source, hashtags);
      && Contains(text, "Read more: " + url)
      && Contains(text, "\n\nSource: " + source + "\n\n")
  {
    var lead := emoji + " " + title + "\n\n" + body + "\n\n";
    var link := "Read more: " + url;
    var sourceLine := "\n\nSource: " + source + "\n\n";
    var text := PostText(emoji, title, body, url, source, hashtags);
    assert text == lead + link + (sourceLine + hashtags);
    ContainsMiddle(lead, link, sourceLine + hashtags);
    assert text == (lead + link) + sourceLine + hashtags;
    ContainsMiddle(lead + link, sourceLine, hashtags);
  }

  /** The post ends with the hashtag line. */
  lemma PostTextEndsWithTags(emoji: string, title: string, body: string, url: string, source: string, hashtags: string,
                             tag: string)
    requires Contains(hashtags, tag)
    ensures Contains(PostText(emoji, title, body, url, source, hashtags), tag)
  {
    var front := emoji + " " + title + "\n\n" + body + "\n\nRead more: " + url + "\n\nSource: " + source + "\n\n";
    assert PostText(emoji, title, body, url, source, hashtags) == front + hashtags;
    ContainsAfter(front, hashtags, tag);
  }

  /** The post opens with the topic's emoji, links the article ("Read more: "
      followed by the url, or by "undefined" when the url is missing), names
      its source, and carries every hashtag of the list. */
  lemma PostContentCorrect(a: PosterArticle)
    ensures var text := CreatePostContent(a);
      && |EmojiFor(a.topic)| <= |text| && text[..|EmojiFor(a.topic)|] == EmojiFor(a.topic)
      && Contains(text, "Read more: " + Interpolate(a.url))
      && Contains(text, "\n\nSource: " + Interpolate(a.source) + "\n\n")
      && (forall tag :: tag in TagList(a.topic) ==> Contains(text, tag))
  {
    var e, t, b, u, src, h := EmojiFor(a.topic), Interpolate(a.title), Body(a), Interpolate(a.url),
      Interpolate(a.source), Hashtags(a.topic);
    PostTextOpensWith(e, t, b, u, src, h);
    PostTextLinks(e, t, b, u, src, h);
    forall tag | tag in TagList(a.topic) ensures Contains(CreatePostContent(a), tag) {
      HashtagsContainTags(a.topic, tag);
      PostTextEndsWithTags(e, t, b, u, src, h, tag);
    }
  }
}
