/** The aggregator's two text cleaners (lambda-function/index.js):
    `cleanText` for titles and `cleanHTML` for summaries. */
module Sanitize {
  import opened Js
  import opened Text
  import opened Seqs

  /** The characters `cleanText` keeps: printable ASCII, 0x20 to 0x7E. */
  predicate Printable(c: char) {
    0x20 <= c as int <= 0x7E
  }

  /** Not matched by `/[\u0000-\u001F\u007F-\u009F]/`. */
  predicate NotControl(c: char) {
    !(c as int <= 0x1F || 0x7F <= c as int <= 0x9F)
  }

  /** Not matched by `/[^\x00-\x7F]/`. */
  predicate IsAscii(c: char) {
    c as int <= 0x7F
  }

  /** `cleanText`: a falsy input gives ""; otherwise the control characters
      and then every non-ASCII character are removed, and the result is
      trimmed. What is left is printable ASCII with no space at either end,
      taken from the input in order. */
  function CleanText(text: Option<string>): (r: string)
    ensures forall i :: 0 <= i < |r| ==> Printable(r[i])
    ensures Trimmed(r)
    ensures !Truthy(text) ==> r == ""
    ensures Truthy(text) ==> IsSubsequence(r, text.value)
    ensures Truthy(text) ==> r == Trim(Filter(text.value, Printable))
  {
    if !Truthy(text) then ""
    else
      CleanedTitle(text.value);
      Trim(AsciiOnly(text.value))
  }

  /** The two character filters of `cleanText`, in order. */
  function AsciiOnly(s: string): (r: string)
    ensures forall i :: 0 <= i < |r| ==> Printable(r[i])
    ensures IsSubsequence(r, s)
    ensures r == Filter(s, Printable)
  {
    var kept := Filter(Filter(s, NotControl), IsAscii);
    ControlThenAsciiIsPrintable(s);
    assert forall i :: 0 <= i < |kept| ==> Printable(kept[i]) by {
      forall i | 0 <= i < |kept| ensures Printable(kept[i]) {
        assert kept[i] in kept;
      }
    }
    FilterIsSubsequence(s, NotControl);
    FilterIsSubsequence(Filter(s, NotControl), IsAscii);
    SubsequenceTransitive(kept, Filter(s, NotControl), s);
    kept
  }

  /** Removing the control characters and then the non-ASCII ones keeps
      exactly the printable characters: the two passes are one filter. */
  lemma {:induction false} ControlThenAsciiIsPrintable(s: string)
    ensures Filter(Filter(s, NotControl), IsAscii) == Filter(s, Printable)
  {
    if s != [] {
      ControlThenAsciiIsPrintable(s[1..]);
      assert NotControl(s[0]) && IsAscii(s[0]) <==> Printable(s[0]);
      if NotControl(s[0]) {
        assert Filter(s, NotControl) == [s[0]] + Filter(s[1..], NotControl);
        assert Filter(s, NotControl)[1..] == Filter(s[1..], NotControl);
      }
    }
  }

  /** What `cleanText` promises, shown for the filtered and trimmed text. */
  lemma CleanedTitle(s: string)
    ensures var r := Trim(AsciiOnly(s));
      (forall i :: 0 <= i < |r| ==> Printable(r[i])) && IsSubsequence(r, s)
  {
    var kept := AsciiOnly(s);
    var r := Trim(kept);
    var at :| OccursAt(kept, r, at);
    PrintableSlice(kept, r, at);
    SubsequenceTransitive(r, kept, s);
  }

  /** A slice of printable text is printable and a subsequence of it. */
  lemma PrintableSlice(kept: string, r: string, at: int)
    requires OccursAt(kept, r, at)
    requires forall i :: 0 <= i < |kept| ==> Printable(kept[i])
    ensures (forall i :: 0 <= i < |r| ==> Printable(r[i])) && IsSubsequence(r, kept)
  {
    forall i | 0 <= i < |r| ensures Printable(r[i]) {
      assert r[i] == kept[at + i];
    }
    SliceIsSubsequence(kept, at, at + |r|);
  }

  /** A slice is a subsequence. */
  lemma {:induction false} SliceIsSubsequence<T>(s: seq<T>, i: nat, j: nat)
    requires i <= j <= |s|
    ensures IsSubsequence(s[i..j], s)
    decreases |s|
  {
    if i < j {
      if i == 0 {
        SliceIsSubsequence(s[1..], 0, j - 1);
        assert s[1..][0..j - 1] == s[0..j][1..];
      } else {
        SliceIsSubsequence(s[1..], i - 1, j - 1);
        assert s[1..][i - 1..j - 1] == s[i..j];
        SubsequenceOfTail(s[i..j], s);
      }
    }
  }

  /** Printable text with no space at either end is left as it is. */
  lemma CleanTextOfClean(s: string)
    requires forall i :: 0 <= i < |s| ==> Printable(s[i])
    requires Trimmed(s)
    ensures CleanText(Some(s)) == s
  {
    if s != "" {
      FilterKeepsAll(s, NotControl);
      FilterKeepsAll(s, IsAscii);
      assert AsciiOnly(s) == s;
      TrimOfTrimmed(s);
    }
  }

  /** Cleaning a title twice is cleaning it once. */
  lemma CleanTextIdempotent(text: Option<string>)
    ensures CleanText(Some(CleanText(text))) == CleanText(text)
  {
    CleanTextOfClean(CleanText(text));
  }

  // ----- cleanHTML -----

  /** The index of the first `c` in `s`. */
  function IndexOf(s: string, c: char): (r: nat)
    requires c in s
    ensures r < |s| && s[r] == c && c !in s[..r]
  {
    if s[0] == c then 0 else IndexOf(s[1..], c) + 1
  }

  /** `s.replace(/<[^>]*>/g, '')`: from each '<' that has a '>' somewhere
      after it, everything up to and including the first such '>' is
      removed; a '<' with no '>' after it stays, and so does the rest. */
  function StripTags(s: string): (r: string)
    ensures forall i, j :: 0 <= i < j < |r| && r[i] == '<' ==> r[j] != '>'
    ensures forall c :: c in r ==> c in s
    decreases |s|
  {
    if s == [] then []
    else if s[0] == '<' && '>' in s then
      var close := IndexOf(s, '>');
      StripTags(s[close + 1..])
    else
      var rest := StripTags(s[1..]);
      assert s[0] == '<' ==> forall c :: c in rest ==> c != '>';
      [s[0]] + rest
  }

  /** `pat` occurs in `s` at index `i`, compared character by character
      from index `k` of `pat` on. */
  predicate MatchFrom(s: string, pat: string, i: nat, k: nat)
    decreases |pat| - k
  {
    k >= |pat| || (i + k < |s| && s[i + k] == pat[k] && MatchFrom(s, pat, i, k + 1))
  }

  /** `pat` occurs in `s` at index `i`. */
  predicate MatchesAt(s: string, pat: string, i: nat) {
    i + |pat| <= |s| && MatchFrom(s, pat, i, 0)
  }

  /** The replacement of `pat` by `rep` in `s` from index `i` on. */
  function ReplaceFrom(s: string, pat: string, rep: string, i: nat): string
    requires pat != [] && i <= |s|
    decreases |s| - i
  {
    if i == |s| then []
    else if MatchesAt(s, pat, i) then rep + ReplaceFrom(s, pat, rep, i + |pat|)
    else [s[i]] + ReplaceFrom(s, pat, rep, i + 1)
  }

  /** `s.replace(/pat/g, rep)` for a literal `pat`: occurrences are found
      left to right, without overlap, and the replacement is not rescanned. */
  function ReplaceAll(s: string, pat: string, rep: string): string
    requires pat != []
  {
    ReplaceFrom(s, pat, rep, 0)
  }

  /** The six entity replacements, in the source's order: `&nbsp;`, `&amp;`,
      `&lt;`, `&gt;`, `&quot;`, `&#39;`. */
  function DecodeEntities(s: string): string {
    var s1 := ReplaceAll(s, "&nbsp;", " ");
    var s2 := ReplaceAll(s1, "&amp;", "&");
    var s3 := ReplaceAll(s2, "&lt;", "<");
    var s4 := ReplaceAll(s3, "&gt;", ">");
    var s5 := ReplaceAll(s4, "&quot;", "\"");
    ReplaceAll(s5, "&#39;", "'")
  }

  /** No two white-space characters next to each other. */
  predicate NoDoubleSpace(s: string) {
    forall i :: 0 <= i < |s| - 1 ==> !(IsSpace(s[i]) && IsSpace(s[i + 1]))
  }

  /** The only white space is the plain space. */
  predicate OnlyPlainSpaces(s: string) {
    forall i :: 0 <= i < |s| ==> IsSpace(s[i]) ==> s[i] == ' '
  }

  /** `s.replace(/\s+/g, ' ')`: every run of white space becomes one space. */
  function CollapseSpace(s: string): (r: string)
    ensures NoDoubleSpace(r) && OnlyPlainSpaces(r)
    ensures s == [] <==> r == []
    ensures s != [] ==> (IsSpace(r[0]) <==> IsSpace(s[0]))
    decreases |s|
  {
    if s == [] then []
    else if IsSpace(s[0]) then
      var rest := CollapseSpace(TrimStart(s[1..]));
      [' '] + rest
    else
      [s[0]] + CollapseSpace(s[1..])
  }

  /** A slice of a string with no double space has none either. */
  lemma SliceKeepsSpacing(s: string, r: string, at: int)
    requires OccursAt(s, r, at) && NoDoubleSpace(s) && OnlyPlainSpaces(s)
    ensures NoDoubleSpace(r) && OnlyPlainSpaces(r)
  {
    assert forall i :: 0 <= i < |r| ==> r[i] == s[at + i];
  }

  /** Trimming a string with no double space leaves none. */
  lemma TrimKeepsSpacing(s: string)
    requires NoDoubleSpace(s) && OnlyPlainSpaces(s)
    ensures NoDoubleSpace(Trim(s)) && OnlyPlainSpaces(Trim(s))
  {
    var at :| OccursAt(s, Trim(s), at);
    SliceKeepsSpacing(s, Trim(s), at);
  }

  /** `cleanHTML`: a falsy input gives ""; otherwise tags are stripped, then
      entities decoded, then white-space runs collapsed, then the result is
      trimmed. The result has no white space at either end, no two
      white-space characters in a row, and no white space but ' '. */
  function CleanHTML(html: Option<string>): (r: string)
    ensures Trimmed(r) && NoDoubleSpace(r) && OnlyPlainSpaces(r)
    ensures !Truthy(html) ==> r == ""
  {
    if !Truthy(html) then ""
    else
      var collapsed := CollapseSpace(DecodeEntities(StripTags(html.value)));
      TrimKeepsSpacing(collapsed);
      Trim(collapsed)
  }

  /** Text without a '<' has no tag to strip. */
  lemma {:induction false} StripTagsNoOpen(s: string)
    requires '<' !in s
    ensures StripTags(s) == s
  {
    if s != [] {
      assert s == [s[0]] + s[1..];
      StripTagsNoOpen(s[1..]);
    }
  }

  /** Text without white space is left alone by the collapsing step. */
  lemma {:induction false} CollapseNoSpace(s: string)
    requires forall i :: 0 <= i < |s| ==> !IsSpace(s[i])
    ensures CollapseSpace(s) == s
  {
    if s != [] { CollapseNoSpace(s[1..]); }
  }

  /** The middle steps of `cleanHTML` on an escaped tag. */
  lemma DecodeEscapedTag()
    ensures DecodeEntities("&lt;b&gt;") == "<b>"
  {
    EscapedTagNbspKept();
    EscapedTagAmpKept();
    EscapedTagLtDecoded();
    EscapedTagGtDecoded();
    assert ReplaceAll("<b>", "&quot;", "\"") == "<b>";
    assert ReplaceAll("<b>", "&#39;", "'") == "<b>";
  }

  /** `&nbsp;` does not occur in the escaped tag. */
  lemma EscapedTagNbspKept()
    ensures ReplaceAll("&lt;b&gt;", "&nbsp;", " ") == "&lt;b&gt;"
  {
    assert ReplaceFrom("&lt;b&gt;", "&nbsp;", " ", 8) == ";";
    assert ReplaceFrom("&lt;b&gt;", "&nbsp;", " ", 7) == "t;";
    assert ReplaceFrom("&lt;b&gt;", "&nbsp;", " ", 6) == "gt;";
    assert ReplaceFrom("&lt;b&gt;", "&nbsp;", " ", 5) == "&gt;";
    assert ReplaceFrom("&lt;b&gt;", "&nbsp;", " ", 4) == "b&gt;";
    assert ReplaceFrom("&lt;b&gt;", "&nbsp;", " ", 3) == ";b&gt;";
    assert ReplaceFrom("&lt;b&gt;", "&nbsp;", " ", 2) == "t;b&gt;";
    assert ReplaceFrom("&lt;b&gt;", "&nbsp;", " ", 1) == "lt;b&gt;";
  }

  /** `&amp;` does not occur in the escaped tag. */
  lemma EscapedTagAmpKept()
    ensures ReplaceAll("&lt;b&gt;", "&amp;", "&") == "&lt;b&gt;"
  {
    assert ReplaceFrom("&lt;b&gt;", "&amp;", "&", 8) == ";";
    assert ReplaceFrom("&lt;b&gt;", "&amp;", "&", 7) == "t;";
    assert ReplaceFrom("&lt;b&gt;", "&amp;", "&", 6) == "gt;";
    assert ReplaceFrom("&lt;b&gt;", "&amp;", "&", 5) == "&gt;";
    assert ReplaceFrom("&lt;b&gt;", "&amp;", "&", 4) == "b&gt;";
    assert ReplaceFrom("&lt;b&gt;", "&amp;", "&", 3) == ";b&gt;";
    assert ReplaceFrom("&lt;b&gt;", "&amp;", "&", 2) == "t;b&gt;";
    assert ReplaceFrom("&lt;b&gt;", "&amp;", "&", 1) == "lt;b&gt;";
  }

  /** The escaped '<' of the tag is decoded. */
  lemma EscapedTagLtDecoded()
    ensures ReplaceAll("&lt;b&gt;", "&lt;", "<") == "<b&gt;"
  {
    assert ReplaceFrom("&lt;b&gt;", "&lt;", "<", 8) == ";";
    assert ReplaceFrom("&lt;b&gt;", "&lt;", "<", 7) == "t;";
    assert ReplaceFrom("&lt;b&gt;", "&lt;", "<", 6) == "gt;";
    assert ReplaceFrom("&lt;b&gt;", "&lt;", "<", 5) == "&gt;";
    assert ReplaceFrom("&lt;b&gt;", "&lt;", "<", 4) == "b&gt;";
  }

  /** Then its escaped '>' is decoded. */
  lemma EscapedTagGtDecoded()
    ensures ReplaceAll("<b&gt;", "&gt;", ">") == "<b>"
  {
    assert ReplaceFrom("<b&gt;", "&gt;", ">", 2) == ">";
    assert ReplaceFrom("<b&gt;", "&gt;", ">", 1) == "b>";
  }

  /** `&nbsp;` does not occur in the double-escaped '<'. */
  lemma DoubleEscapeNbspKept()
    ensures ReplaceAll("&amp;lt;", "&nbsp;", " ") == "&amp;lt;"
  {
    assert ReplaceFrom("&amp;lt;", "&nbsp;", " ", 7) == ";";
    assert ReplaceFrom("&amp;lt;", "&nbsp;", " ", 6) == "t;";
    assert ReplaceFrom("&amp;lt;", "&nbsp;", " ", 5) == "lt;";
    assert ReplaceFrom("&amp;lt;", "&nbsp;", " ", 4) == ";lt;";
    assert ReplaceFrom("&amp;lt;", "&nbsp;", " ", 3) == "p;lt;";
    assert ReplaceFrom("&amp;lt;", "&nbsp;", " ", 2) == "mp;lt;";
    assert ReplaceFrom("&amp;lt;", "&nbsp;", " ", 1) == "amp;lt;";
  }

  /** Its `&amp;` is decoded, leaving `&lt;`. */
  lemma DoubleEscapeAmpDecoded()
    ensures ReplaceAll("&amp;lt;", "&amp;", "&") == "&lt;"
  {
    assert ReplaceFrom("&amp;lt;", "&amp;", "&", 7) == ";";
    assert ReplaceFrom("&amp;lt;", "&amp;", "&", 6) == "t;";
    assert ReplaceFrom("&amp;lt;", "&amp;", "&", 5) == "lt;";
  }

  /** The middle steps of `cleanHTML` on a double-escaped '<'. */
  lemma DecodeDoubleEscape()
    ensures DecodeEntities("&amp;lt;") == "<"
  {
    DoubleEscapeNbspKept();
    DoubleEscapeAmpDecoded();
    assert ReplaceAll("&lt;", "&lt;", "<") == "<";
    assert ReplaceAll("<", "&gt;", ">") == "<";
    assert ReplaceAll("<", "&quot;", "\"") == "<";
    assert ReplaceAll("<", "&#39;", "'") == "<";
  }

  /** Neither example contains a tag. */
  lemma EscapedTagHasNoTag()
    ensures StripTags("&lt;b&gt;") == "&lt;b&gt;"
  {
    StripTagsNoOpen("&lt;b&gt;");
  }

  lemma DoubleEscapeHasNoTag()
    ensures StripTags("&amp;lt;") == "&amp;lt;"
  {
    StripTagsNoOpen("&amp;lt;");
  }

  /** Neither decoded example contains white space. */
  lemma TagHasNoSpace()
    ensures CollapseSpace("<b>") == "<b>"
  {
    CollapseNoSpace("<b>");
  }

  lemma LessThanHasNoSpace()
    ensures CollapseSpace("<") == "<"
  {
    CollapseNoSpace("<");
  }

  /** Tags are stripped before entities are decoded, so an escaped tag
      survives as a tag. */
  lemma EscapedTagSurvives()
    ensures CleanHTML(Some("&lt;b&gt;")) == "<b>"
  {
    EscapedTagHasNoTag();
    DecodeEscapedTag();
    TagHasNoSpace();
    TrimOfTrimmed("<b>");
    var h := "&lt;b&gt;";
    assert Truthy(Some(h));
    assert CleanHTML(Some(h)) == Trim(CollapseSpace(DecodeEntities(StripTags(h))));
  }

  /** `&amp;` is decoded before `&lt;`, so a double-escaped '<' comes out as '<'. */
  lemma DoubleEscapeDecodedTwice()
    ensures CleanHTML(Some("&amp;lt;")) == "<"
  {
    DoubleEscapeHasNoTag();
    DecodeDoubleEscape();
    LessThanHasNoSpace();
    TrimOfTrimmed("<");
    var h := "&amp;lt;";
    assert Truthy(Some(h));
    assert CleanHTML(Some(h)) == Trim(CollapseSpace(DecodeEntities(StripTags(h))));
  }
}
