# Cybersecurity news hub — a Dafny model

This project models the logic of a small cybersecurity news service. It has three parts.

- **The aggregator** (`lambda-function/index.js`) fetches eight RSS feeds and the r/netsec front page. It maps every item to an article:
  - it cleans titles and strips HTML from summaries;
  - it assigns a topic by keyword;
  - it writes a "time ago" label.
  It then drops articles whose normalised titles collide, sorts the rest newest first and answers with at most fifty.
- **The LinkedIn poster** (`lambda-linkedin-poster/index.js`) fetches the aggregator's articles and keeps the ones in three target topics that a DynamoDB table has not yet recorded as posted. It then picks up to three of them, one per topic first, newest first. It writes a post per article with a topic emoji and hashtags, and records each success in the table.
- **The dashboard** (`src/App.jsx` and the components `NewsFilter`, `Settings`, `NewsFeed` and `Hero`):
  - it filters articles by enabled source, selected topic and a search query, then sorts them;
  - it keeps a set of read articles;
  - it reveals the feed twenty articles at a time;
  - it lets the user toggle topics and sources.

The modules follow the program:

| module (file) | models |
|---|---|
| `Js` (js.dfy) | JavaScript truthiness, `a \|\| b` and template interpolation of possibly missing strings |
| `Text` (text.dfy) | ASCII `toLowerCase`, `includes`, `trim` and number formatting |
| `Seqs` (seqs.dfy) | `filter` and the stable descending sort that `Array.prototype.sort` performs with a numeric comparator |
| `Sanitize` (sanitize.dfy) | `cleanText` and `cleanHTML` |
| `Categorizer` (categorizer.dfy) | `categorizeArticle` and its keyword table |
| `Elapsed` (elapsed.dfy) | `getTimeAgo` and the dashboard's `formatTime` |
| `Ingest` (ingest.dfy) | `fetchRSSFeeds` and `fetchRedditPosts` over given fetch results |
| `Aggregate` (aggregate.dfy) | the aggregator's deduplication, ranking and response |
| `PostLedger` (ledger.dfy) | the DynamoDB table of posted articles: `isArticlePosted`, `markArticleAsPosted` |
| `PostContent` (post_content.dfy) | `createPostContent`: emoji, hashtags, post text |
| `Selector` (selector.dfy) | `selectArticlesToPost` |
| `Publisher` (publisher.dfy) | the poster's handler and its posting loop |
| `FeedView` (feed_view.dfy) | the dashboard's state and `processedArticles` |
| `ListToggle`, `TopicFilter`, `SourceSettings` | the topic picker and the source settings |
| `NewsFeedView` (news_feed.dfy) | the article grid: paging, truncation, colours, read marks |

The model has no network and no clock. Every fetch result, post outcome and table lookup failure is a parameter, and so is the current time in milliseconds.

## Model

| member | source | states |
|---|---|---|
| Text.Trim | lambda-function/index.js:72 | the result has no leading or trailing whitespace and is a contiguous slice of the input, and everything cut off before and after it is whitespace |
| Text.TrimOfTrimmed | lambda-function/index.js:72 | trimming a string without surrounding whitespace gives it back |
| Sanitize.CleanText | lambda-function/index.js:75-81 | a cleaned title is exactly the input's printable ASCII characters, in order, trimmed; it has no surrounding spaces, is drawn in order from the input, and is empty for a missing or empty input |
| Sanitize.CleanTextIdempotent | lambda-function/index.js:75-81 | cleaning a cleaned title changes nothing |
| Sanitize.CleanTextOfClean | lambda-function/index.js:75-81 | a printable, trimmed title passes through unchanged |
| Sanitize.StripTags | lambda-function/index.js:64 | after tag removal no `<` is followed later by a `>`, and no new character appears |
| Sanitize.CollapseSpace | lambda-function/index.js:71 | whitespace runs become one plain space; emptiness and a leading space are preserved |
| Sanitize.ControlThenAsciiIsPrintable | lambda-function/index.js:78-79 | the two removal passes, control characters then non-ASCII, together keep exactly the printable ASCII characters |
| Sanitize.CleanHTML | lambda-function/index.js:61-73 | the summary text is trimmed, has no doubled or non-plain whitespace, and is empty for a missing input |
| Sanitize.EscapedTagSurvives | lambda-function/index.js:64-68 | entities are decoded after tags are stripped, so an escaped `&lt;b&gt;` comes out as a literal `<b>` tag |
| Sanitize.DoubleEscapeDecodedTwice | lambda-function/index.js:66-67 | `&amp;` is decoded before `&lt;`, so `&amp;lt;` becomes `<` |
| Categorizer.FirstMatchFrom | lambda-function/index.js:41-45 | the index found is the first table entry at or after the start whose keyword occurs in the text |
| Categorizer.CategorizeArticle | lambda-function/index.js:39-47 | the topic is a table topic or "General Security" |
| Categorizer.FirstMatchLoop | lambda-function/index.js:40-46 | the loop over the table returns `Classify`: the first matching entry's topic, else "General Security" |
| Categorizer.ClassifyIsFirstMatch | lambda-function/index.js:39-47 | the topic is that of the first entry with a matching keyword, and "General Security" exactly when none matches |
| Categorizer.EarlierEntryWins | lambda-function/index.js:41-45 | any entry with a matching keyword bounds the chosen entry from above |
| Categorizer.TopicNamesDistinct | lambda-function/index.js:24-37 | no two table entries share a topic name |
| Categorizer.PasswordBeatsPhishing | lambda-function/index.js:24-37 | "password" selects "Password Security", even when phishing words also occur |
| Categorizer.VulnerabilityNeverVulnerabilities | lambda-function/index.js:24-37 | the earlier "Updates" entry (line 32) lists "vulnerability" itself, so text containing it is never filed under the later "Vulnerabilities" entry |
| Elapsed.Seconds | lambda-function/index.js:52 | floor division of the millisecond difference by 1000 |
| Elapsed.TimeAgo | lambda-function/index.js:49-59 | the band boundaries (60 s, 1 h, 1 day, 1 week), with each count the floor of seconds by the band's unit |
| Elapsed.TimeAgoMonotone | lambda-function/index.js:49-59 | an older date never gets a more recent label |
| Elapsed.FormatTime | src/components/Hero.jsx:4-13 | "Never" exactly for no refresh, "Just now" exactly under a minute, and the date exactly from one day on |
| Elapsed.HeroAgreesBelowOneDay | src/components/Hero.jsx:4-13 | below a day the header's label equals the aggregator's; from a day to a week the header shows a date where the aggregator counts days |
| Ingest.MapItem | lambda-function/index.js:104-113 | for one feed item: the id `source-now-index`, a cleaned printable title, a summary that is the cleaned snippet, else content, else summary, else "Security news update from " and the source, cut to 250 characters, the item's link, else its guid, else "#", the feed title or source name, the parsed date or now, the keyword topic, and the time label |
| Ingest.MapFeed | lambda-function/index.js:96-119 | at most eight articles from one feed; a failed feed or one without items contributes nothing |
| Ingest.FetchRSSFeeds | lambda-function/index.js:83-130 | the loop's result is the feeds' contributions in feed order, flattened, at most 8 × 8 = 64 articles |
| Ingest.RssSummariesBounded | lambda-function/index.js:107 | every RSS summary is at most 250 characters |
| Ingest.FailedFeedIsolated | lambda-function/index.js:115-127 | a failing feed removes only its own contribution |
| Ingest.MapPost | lambda-function/index.js:158-167 | a Reddit post becomes an r/netsec article with its cleaned title, its url, `created_utc` in milliseconds, the title's topic and a score/comments blurb |
| Ingest.RedditBlurbIsClean | lambda-function/index.js:163 | the blurb survives `cleanText` unchanged |
| Ingest.RedditArticles | lambda-function/index.js:132-183 | at most five articles, all from r/netsec; a failed request, a non-JSON body or a missing listing gives none |
| Ingest.RedditArticlesFromLinkPosts | lambda-function/index.js:150-168 | the articles are the first five link posts, mapped in order |
| Aggregate.DedupKey | lambda-function/index.js:221-223 | the key is at most 100 characters, all lower-case ASCII letters or digits |
| Aggregate.CaseIgnored | lambda-function/index.js:221 | titles differing only in case share a key |
| Aggregate.PunctuationIgnored | lambda-function/index.js:222 | a punctuation character does not change the key |
| Aggregate.Deduplicate | lambda-function/index.js:217-229 | the loop's result equals the first-occurrence filter on keys |
| Aggregate.KeepIfNew | lambda-function/index.js:224-227 | one loop step keeps an article exactly when its key is new, and adds the key to the seen set |
| Aggregate.DedupSnoc | lambda-function/index.js:217-229 | appending an article appends it to the deduplicated list exactly when its key has not been seen |
| Aggregate.DedupKeys | lambda-function/index.js:217-229 | the result has distinct keys, loses no key, and has one article per key |
| Aggregate.DedupInOrder | lambda-function/index.js:217-229 | the result is a subsequence of the input |
| Aggregate.DedupKeepsFirst | lambda-function/index.js:217-229 | each kept article is the first one with its key |
| Aggregate.TopArticlesCorrect | lambda-function/index.js:231-232 | the response has min(50, distinct keys) articles, newest first, drawn from the deduplicated list, each first of its key, and no deduplicated article left out is newer than one kept |
| Aggregate.TopAreNewest | lambda-function/index.js:231-232 | the fifty kept are the newest: no deduplicated article left out is newer than one kept |
| Aggregate.ResponseBounded | lambda-function/index.js:231-232 | at most fifty articles, with distinct keys |
| Aggregate.Handler | lambda-function/index.js:185-255 | OPTIONS gets the preflight answer; any other method gets the top articles with their count and the RSS and Reddit counts |
| PostLedger.RecordFor | lambda-linkedin-poster/index.js:92-110 | the stored item: the title, the time, and "Unknown" for a missing topic or source |
| PostLedger.Marked | lambda-linkedin-poster/index.js:92-110 | a successful write stores the record under the url; a failed write or a missing url leaves the table as it was |
| PostLedger.MarkedThenPosted | lambda-linkedin-poster/index.js:75-110 | after a successful write the url reads as posted |
| PostLedger.MarkedKeepsOthers | lambda-linkedin-poster/index.js:92-110 | a write changes no other url's record |
| PostLedger.Ledger.IsArticlePosted | lambda-linkedin-poster/index.js:75-89 | posted exactly when the url is present, its lookup succeeds and it has a record; a failing lookup reads as not posted |
| PostLedger.Ledger.MarkArticleAsPosted | lambda-linkedin-poster/index.js:92-110 | the table becomes `Marked` of the old table; the failing lookups are unchanged |
| PostContent.EmojiFor | lambda-linkedin-poster/index.js:165-169 | never empty; the shield exactly when the topic is absent or not one of the three target topics, which each get their own emoji |
| PostContent.EmojiForIsPictograph | lambda-linkedin-poster/index.js:165-169 | each intended emoji starts with a pictograph, and the three topics get different ones |
| PostContent.EmojiAsWrittenIsMojibake | lambda-linkedin-poster/index.js:165-169 | the literals in the file are exactly the intended emoji's UTF-8 bytes read as Windows-1252 |
| PostContent.EmojiAsWrittenIsWrong | lambda-linkedin-poster/index.js:165-169 | the emoji as written starts with a Latin letter, not a pictograph, for every topic |
| PostContent.Present | lambda-linkedin-poster/index.js:178 | `filter(Boolean)`: exactly the present, non-empty tags are kept |
| PostContent.PresentKeepsOrder | lambda-linkedin-poster/index.js:178 | the kept tags appear in slot order: they form a subsequence of the slots |
| PostContent.TagListShape | lambda-linkedin-poster/index.js:171-178 | the tags are #CyberSecurity and #InfoSec, then the topic's tag if any, then #ThreatIntelligence |
| PostContent.TagListTopicTag | lambda-linkedin-poster/index.js:173-175 | each topic tag appears exactly when the article has that topic |
| PostContent.TagListLength | lambda-linkedin-poster/index.js:171-178 | four tags for a target topic, three otherwise |
| PostContent.HashtagsContainTags | lambda-linkedin-poster/index.js:178 | every tag occurs in the joined hashtag line |
| PostContent.Body | lambda-linkedin-poster/index.js:182 | the summary, else the description, else the empty text |
| PostContent.PostContentCorrect | lambda-linkedin-poster/index.js:164-191 | the post opens with the topic's emoji and contains "Read more: " with the url, the source line and every tag |
| Selector.SelectArticlesToPost | lambda-linkedin-poster/index.js:113-161 | the three loops compute `Selection`: target filter, ledger filter, newest-first ranking, then the two picking passes |
| Selector.Unposted | lambda-linkedin-poster/index.js:121-128 | the ledger loop keeps, in order, exactly the articles the ledger does not show as posted |
| Selector.FirstPass | lambda-linkedin-poster/index.js:144-150 | the first loop computes `Pass1`, the one-per-topic picks |
| Selector.SecondPass | lambda-linkedin-poster/index.js:153-158 | the second loop computes `Pass2` from the first pass's picks |
| Selector.Pass1Correct | lambda-linkedin-poster/index.js:144-150 | the first pass picks, in rank order, distinct positions, each the first article of a topic not yet used, at most three |
| Selector.Pass2Correct | lambda-linkedin-poster/index.js:153-158 | the second pass keeps the first pass's picks as its prefix, never repeats a position, stops at three, and picks every position when it ends with fewer |
| Selector.Pass2AddsInOrder | lambda-linkedin-poster/index.js:153-158 | the positions the second pass adds were not picked before and come in increasing rank order |
| Selector.Pass2SkipsOnlyChosen | lambda-linkedin-poster/index.js:153-158 | a position the second pass leaves out was already picked, or three are picked and it ranks after every added one |
| Selector.ChosenFacts | lambda-linkedin-poster/index.js:141-160 | the chosen positions are distinct and in range, at most three; the first pass's picks lead, then unpicked positions follow in rank order, and a position left out ranks after all of them and only when three are chosen |
| Selector.ChosenAlternatingTopics | lambda-linkedin-poster/index.js:141-160 | for four ranked articles with topics A B A B the picks are the first, second and third |
| Selector.SelectionAlternatingTopics | lambda-linkedin-poster/index.js:113-161 | four unposted target-topic articles, newest first, with topics A B A B, yield the first three |
| Selector.RankedKeepsSortedCandidates | lambda-linkedin-poster/index.js:115-137 | unposted target-topic articles already newest first are ranked as given |
| Selector.RankedCorrect | lambda-linkedin-poster/index.js:133-137 | the ranking is a newest-first permutation of the unposted target-topic articles |
| Selector.SelectionSize | lambda-linkedin-poster/index.js:141-160 | exactly min(3, number of candidates) articles are selected |
| Selector.SelectionTargetUnposted | lambda-linkedin-poster/index.js:115-128 | every selected article is one of the input, in a target topic, and not recorded as posted |
| Selector.SelectionOnePerTopicFirst | lambda-linkedin-poster/index.js:144-150 | the first pass's picks open the selection; each is the newest candidate of its topic, and no two share a topic |
| Publisher.ResultOf | lambda-linkedin-poster/index.js:281-298 | success exactly when the post call succeeds; a failure carries the error message |
| Publisher.Results | lambda-linkedin-poster/index.js:279-300 | one result per selected article, in order |
| Publisher.PublishAll | lambda-linkedin-poster/index.js:279-300 | the loop's results are `Results`; the table gains a record for each success whose write goes through |
| Publisher.Handler | lambda-linkedin-poster/index.js:241-320 | a missing token and a failed fetch answer 500 with the message and write nothing; an empty selection answers "No new articles" with the target categories; otherwise 200 with the posted and failed counts |
| Publisher.CountsAddUp | lambda-linkedin-poster/index.js:304-305 | posted plus failed equals the number of attempts |
| Publisher.RunBounded | lambda-linkedin-poster/index.js:279-305 | a run attempts at most three posts |
| Publisher.SuccessIsRecorded | lambda-linkedin-poster/index.js:284-290 | a success with a working write makes the url read as posted |
| Publisher.OthersUntouched | lambda-linkedin-poster/index.js:279-300 | a url keeps its record, or its absence, when every article carrying it failed to post or had its write fail; so in a mixed run a failed post's url is untouched, and urls not selected keep their records |
| Publisher.AllFailedWritesNothing | lambda-linkedin-poster/index.js:292-298 | when every post fails the table is unchanged |
| Publisher.NotPostedTwice | lambda-linkedin-poster/index.js:113-128 | an article posted and recorded in one run is not selected by a later run |
| FeedView.Dashboard.constructor | src/App.jsx:33-43 | the initial state: no articles, no topics, empty query, newest first, nothing read, all nine sources |
| FeedView.Dashboard.MarkAsRead | src/App.jsx:168-170 | the link joins the read set, nothing read is forgotten, marking a link already read changes nothing, and no other field changes |
| FeedView.Dashboard.ProcessedArticles | src/App.jsx:186-256 | the function's source loop and stages, run on every render, compute `Processed` of the state |
| FeedView.BySource | src/App.jsx:189-203 | the source loop keeps, in order, exactly the articles `SourceStage` keeps (all of them when every source is enabled) |
| FeedView.SourceAllowed | src/App.jsx:194-203 | the pattern loop answers exactly `SourceOk` |
| FeedView.FilteredMembers | src/App.jsx:186-237 | an article is shown exactly when it is in the input and passes the source, topic and search tests, and input order is kept |
| FeedView.ProcessedPermutesFiltered | src/App.jsx:240-253 | sorting only reorders the filtered articles |
| FeedView.AllSourcesSkipFilter | src/App.jsx:190 | with nine or more enabled sources nothing is filtered by source |
| FeedView.DateModesSorted | src/App.jsx:241-246 | "date-desc" is newest first and "date-asc" oldest first |
| FeedView.CollatedModesSorted | src/App.jsx:247-250 | "source" and "title" are ordered by the collation |
| FeedView.OtherModeKeepsOrder | src/App.jsx:240-253 | an unknown sort mode leaves the filtered order |
| FeedView.UndatedKeepOrder | src/App.jsx:241-246 | articles without `pubDate` stay in their input order under both date modes |
| FeedView.UnknownSourceIdIsItsOwnPattern | src/App.jsx:197 | an id with no pattern entry matches its own name |
| FeedView.KeywordInCategoryKeeps | src/App.jsx:212-226 | a selected topic's keyword in the category keeps the article |
| ListToggle.RemoveAll | src/components/NewsFilter.jsx:31 | removes every occurrence of the id and keeps the other ids in order with their counts |
| ListToggle.Toggle | src/components/Settings.jsx:28-36 | `toggleSource` (and `toggleTopic`, which is the same code): a present id is removed with every repeat, keeping the others in order and count; an absent one is appended |
| ListToggle.ToggleFlips | src/components/NewsFilter.jsx:29-35 | `toggleTopic` (and `toggleSource`): toggling flips the id's membership and no other's |
| ListToggle.ToggleTwice | src/components/NewsFilter.jsx:29-35 | toggling an absent id twice restores the list |
| ListToggle.RemoveAbsent | src/components/Settings.jsx:31 | removing an absent id changes nothing |
| TopicFilter.ShowAllTopics | src/components/NewsFilter.jsx:37-41 | "All" leaves the selection in the all-selected state |
| TopicFilter.AllSelectedFiltersNothing | src/App.jsx:207 | with no topic selected the topic filter keeps everything |
| TopicFilter.TopicIdsDistinct | src/components/NewsFilter.jsx:4-27 | no two topic buttons share an id |
| TopicFilter.TopicsMatchKeywordTable | src/App.jsx:14-30 | the buttons offer exactly the dashboard's keyword table, in order |
| SourceSettings.EnableAll | src/components/Settings.jsx:134-139 | every source id, in table order |
| SourceSettings.DisableAll | src/components/Settings.jsx:140-145 | no source |
| SourceSettings.SourceIdsDistinct | src/components/Settings.jsx:38-48 | nine sources with distinct ids |
| SourceSettings.EnableAllShowsEverything | src/components/Settings.jsx:134-139 | enabling all switches the source filter off and restores the initial list |
| SourceSettings.DisableAllHidesEverything | src/components/Settings.jsx:140-145 | disabling all hides every article |
| SourceSettings.EverySourceHasPatterns | src/App.jsx:173-183 | each settings id has its own pattern entry, in the same order |
| SourceSettings.SortLexCorrect | src/components/Settings.jsx:18 | the default sort gives an ascending permutation |
| SourceSettings.PresentSources | src/components/Settings.jsx:17 | exactly the non-empty source names of the articles |
| SourceSettings.Unique | src/components/Settings.jsx:17 | no repeats and the same members |
| SourceSettings.ActualSourcesCorrect | src/components/Settings.jsx:15-19 | none without articles; otherwise each non-empty source name once, ascending |
| NewsFeedView.NextVisible | src/components/NewsFeed.jsx:35-39 | a load grows the window by a page, capped at the list length, and only while it is short |
| NewsFeedView.LoadsReachEnd | src/components/NewsFeed.jsx:35-39 | enough loads reveal the whole list |
| NewsFeedView.Shown | src/components/NewsFeed.jsx:134 | the shown count is the smaller of window and length |
| NewsFeedView.Rendered | src/components/NewsFeed.jsx:147 | the grid shows a prefix of that length |
| NewsFeedView.FeedWindow.constructor | src/components/NewsFeed.jsx:7 | the window starts at twenty |
| NewsFeedView.FeedWindow.LoadMore | src/components/NewsFeed.jsx:35-39 | the window becomes `NextVisible` of the old window |
| NewsFeedView.FeedWindow.ArticlesChanged | src/components/NewsFeed.jsx:64-66 | a new article count resets the window to twenty |
| NewsFeedView.Truncate | src/components/NewsFeed.jsx:186-191 | short descriptions are kept; longer ones are cut to 150 characters plus "..." |
| NewsFeedView.DescriptionShown | src/components/NewsFeed.jsx:186 | the paragraph appears exactly for a non-empty description |
| NewsFeedView.TruncateIdempotent | src/components/NewsFeed.jsx:186-191 | shortening twice equals shortening once |
| NewsFeedView.ColorLookup | src/components/NewsFeed.jsx:87-97 | found exactly when a key matches, with that key's colour |
| NewsFeedView.CategoryColorCorrect | src/components/NewsFeed.jsx:86-98 | grey exactly for an unlisted category, otherwise the listed colour |
| NewsFeedView.AggregatorArticle | lambda-function/index.js:104-113 | the aggregator's article shape carries a `url` and no `link` |
| NewsFeedView.OneClickMarksAllAsWritten | src/components/NewsFeed.jsx:148 | as written, opening one aggregator article marks another, different one read |
| NewsFeedView.ReadKey | src/components/NewsFeed.jsx:148 | corrected key: the link, else the url |
| NewsFeedView.ClickMarksOnlyItself | src/components/NewsFeed.jsx:148 | with the corrected key an opened article reads as read, others with other keys are unaffected, and distinct urls give distinct keys |
| NewsFeedView.HandleArticleClick | src/components/NewsFeed.jsx:68-70 | the corrected click of "## Findings" (keyed by `ReadKey`, the link else the url, where the source passes `article.link`): the key joins the read set, the article then reads as read, and articles, sources, topics, query and sort order are unchanged |

## Left out

- Network access, the 8 s and 5 s fetch timeouts, the RSS parser and the LinkedIn and DynamoDB clients are not modelled. Their outcomes are parameters: `FeedResult`, `RedditResponse`, `FetchOutcome`, `Attempt` and the ledger's set of failing lookups.
- The clock: "now" is a millisecond parameter. Date strings are either already parsed to milliseconds or marked invalid.
- MapItem: requires a parseable or absent `pubDate`. An invalid one makes `toISOString` throw inside the feed's callback, and the feed's catch turns that feed into no articles; `Ingest.MapFeed` models this, so only the per-item function carries the requirement.
- Locale date strings (`toLocaleDateString`) are not computed: the label texts take the date text as a parameter.
- `Text.Lower`: lower-casing covers ASCII letters only; JavaScript's full Unicode case mapping is not modelled.
- Strings are sequences of code points. JavaScript's UTF-16 indexing in `substring`, `slice` and `sort` differs from this only for characters outside the Basic Multilingual Plane.
- `FeedView.CollatedModesSorted`: `localeCompare` is an abstract function from a string to its rank (`collate`), not the ICU collation.
- `null` and `undefined` are both `None`. Object-key lookups that would hit prototype members are not modelled.
- The poster's 2-second pause between posts and its console logging are not modelled.
- The shape of the LinkedIn share request (`postToLinkedIn`) is not modelled beyond the post text.
- Dashboard persistence is not modelled: loading and saving state in `localStorage` (App.jsx:50-165), including the JSON round trip of the read set.
- Not modelled from the dashboard: the React rendering, the intersection observer, share dialogs, the API-endpoint field and save button in Settings, and the clear-cache button.
- `fetchNews` in App.jsx is not modelled beyond the article list it stores.
- `PostLedger.Ledger.MarkArticleAsPosted`: a DynamoDB failure (for example an item without a title) is the `writeFails` flag, not derived from the item.

## Findings

| source | as written | input that shows it | evidently intended | confidence | as-written member | corrected member |
|---|---|---|---|---|---|---|
| lambda-linkedin-poster/index.js:165-169 | the emoji literals are the UTF-8 bytes of 🤖 ☁️ 🔒 🛡️ decoded as Windows-1252 (`ðŸ¤–` …) | any selected article, e.g. topic "AI Security" | posts open with the pictograph emoji | high (not executed) | PostContent.EmojiAsWrittenIsWrong | PostContent.EmojiForIsPictograph |
| src/components/NewsFeed.jsx:148,180 | the read mark and the click use `article.link`, but the aggregator's articles carry `url` and no `link`, so every article's key is `undefined` | two aggregator articles with different urls; open the first | opening an article marks only that article read | medium (not executed) | NewsFeedView.OneClickMarksAllAsWritten | NewsFeedView.ClickMarksOnlyItself |
