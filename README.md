# JavaScript Air episode page, modelled in Dafny

A model of the logic in the podcast site's episode page,
`src/pages/episode/index.js`. The page is a React component. What it does
beyond markup comes down to five things, and each one is modelled as a pure
function with proved properties:

- **show notes**: `hasShowNotes` says whether any guest, the host or any
  panelist has a link, a tip or a pick;
- **page description**: `getPageDescription` rewrites the line breaks of
  the markdown-rendered description in three global replacements around
  the sentinel `DOUBLE_NEW_LINE`, then trims the text, strips its tags and
  adds the prefix `Episode <n> of the live JavaScript broadcast podcast. `;
- **head tags**: `getHeadTags` gives the fourteen `<meta>` tags for search
  engines, Open Graph and Twitter;
- **past and future layouts**: `PastEpisodeStuff` and `FutureEpisodeStuff`
  choose which sections a past or an upcoming episode shows, and in what
  order;
- **the page**: `EpisodePage` puts these together and picks the layout
  from `past`.

Files:

- `js_strings.dfy` (module `JsString`) models the JavaScript built-ins the
  page uses. `ReplaceAll` is a global `replace` with a literal pattern: a
  left-to-right, non-overlapping scan. `Trim` is `String.prototype.trim`,
  using ECMAScript's set of whitespace and line-terminator characters.
  `Decimal` is how a year number is written into an attribute.
- `page_description.dfy` (module `Description`) holds the three passes as
  written (`NormaliseLineBreaks`). It proves them equal to a one-pass
  reference, `CollapseNewlines`: a paragraph break (two line feeds, matched
  left to right) stays, a lone line feed becomes a space, and a literal
  `DOUBLE_NEW_LINE` in the text becomes a paragraph break. The proof
  relies on one fact about the sentinel: after its first letter it has no
  `D`, no space and no line feed. So the third pass can only match
  sentinels that the first pass inserted or that the text already held.
- `episode_view.dfy` (module `EpisodeView`) holds the episode data, show
  notes, the section lists, the head tags and the page.

Foreign code is passed in as a parameter, as a total function on strings.
`renderMarkdown` stands for `marked(deindent(…))`. `stripTags` stands for
the `striptags` library. The copyright year stands for
`new Date().getFullYear()` and is passed as a number.

JavaScript truthiness of `podbeanId` and `youTubeId` is modelled as "present
and not the empty string" (`Truthy`).

## Model

| member | source | states |
|---|---|---|
| `JsString.ReplaceAll` | src/pages/episode/index.js:55-57 | a global `replace` whose pattern is one literal string, scanned left to right without overlaps (stated by the three lemmas below) |
| `JsString.ReplaceAllNoMatch` | src/pages/episode/index.js:55-57 | a global replace changes nothing when the pattern never occurs in the text |
| `JsString.ReplaceAllSkip` | src/pages/episode/index.js:55-57 | characters that cannot start a match are copied, and the scan goes on after them |
| `JsString.ReplaceAllFront` | src/pages/episode/index.js:55-57 | a match at the front is replaced, and the scan resumes after the match (so matches never overlap) |
| `JsString.IsWhitespace` | src/pages/episode/index.js:58 | the characters `trim` removes: ECMAScript WhiteSpace and LineTerminator |
| `JsString.TrimStart` | src/pages/episode/index.js:58 | the result is the suffix of the input that starts at its first non-whitespace character; everything dropped is whitespace |
| `JsString.TrimEnd` | src/pages/episode/index.js:58 | the result is the prefix of the input that ends at its last non-whitespace character; everything dropped is whitespace |
| `JsString.Trim` | src/pages/episode/index.js:58 | the result has no whitespace at either end, and the input is the result with only whitespace before and after it |
| `JsString.TrimSplits` | src/pages/episode/index.js:58 | what the trim keeps and the whitespace it drops at the front and at the back make up the input |
| `JsString.TrimUnique` | src/pages/episode/index.js:58 | the trim of a trimmed text wrapped in whitespace is exactly that text |
| `JsString.TrimOfTrimmed` | src/pages/episode/index.js:58 | a text with no whitespace at either end is its own trim |
| `JsString.TrimIdempotent` | src/pages/episode/index.js:58 | trimming twice gives the same result as trimming once |
| `JsString.Decimal` | src/pages/episode/index.js:171 | the year is written as a non-empty string of decimal digits with no leading zero |
| `JsString.DecimalRoundTrip` | src/pages/episode/index.js:171 | reading the digits back gives the year again |
| `Description.NormaliseLineBreaks` | src/pages/episode/index.js:54-58 | the three replacements and the trim, as written, equal the trimmed one-pass reference; the result has no whitespace at either end |
| `Description.FirstTwoPasses` | src/pages/episode/index.js:55-56 | the first two passes turn each paragraph break (matched left to right) into the sentinel and each remaining line feed into a space |
| `Description.SentinelFormPrefix` | src/pages/episode/index.js:55-57 | after the first two passes, a leading text with no `D`, space or line feed can only have been copied from the input; so a sentinel cannot be formed across an inserted one |
| `Description.ThirdPass` | src/pages/episode/index.js:57 | the third pass turns the text left by the first two passes into the one-pass reference |
| `Description.NormalisationIsCollapse` | src/pages/episode/index.js:54-57 | the three passes together compute `CollapseNewlines` for every input |
| `Description.CollapseSteps` | src/pages/episode/index.js:55-57 | one scan step: a paragraph break stays, a literal sentinel becomes a paragraph break, a lone line feed becomes a space, and any other character except `D` is kept |
| `Description.CollapseLeavesNoLoneNewline` | src/pages/episode/index.js:55-57 | no lone line feed is left: every line feed in the output is part of an aligned pair |
| `Description.CollapseKeepsPlaces` | src/pages/episode/index.js:55-57 | without a literal sentinel, the length is kept, every non-line-feed character stays where it was, and every line feed becomes a line feed or a space at the same place |
| `Description.CollapsePairsPlaces` | src/pages/episode/index.js:55-57 | without a literal sentinel, a line feed stays a line feed exactly when the left-to-right pairing of its run gives it a partner (an odd number of line feeds before it, or an even number and a line feed after it), and becomes a space otherwise |
| `Description.RunShift` | src/pages/episode/index.js:55-57 | the run of line feeds before a position, counted in a suffix, plus the run before the suffix when it reaches back that far |
| `Description.NoNewlinesOnlyTrimmed` | src/pages/episode/index.js:54-58 | a text without line feeds and without a literal sentinel is only trimmed |
| `Description.ThreeNewlines` | src/pages/episode/index.js:55-57 | three line feeds in a row become a paragraph break followed by a space |
| `Description.CollapseBeforeSentinel` | src/pages/episode/index.js:55-57 | no match can straddle the front of a sentinel: the text in front of it is collapsed on its own |
| `Description.SentinelSplits` | src/pages/episode/index.js:55-57 | for every text on either side, a literal `DOUBLE_NEW_LINE` becomes a paragraph break and each side is collapsed on its own |
| `Description.LiteralSentinel` | src/pages/episode/index.js:54-58 | with no line feed, no further sentinel and no outer whitespace on either side, `a + DOUBLE_NEW_LINE + b` normalises to `a`, a paragraph break, `b` |
| `Description.DescriptionPrefix` | src/pages/episode/index.js:59 | the text `Episode <n> of the live JavaScript broadcast podcast. ` |
| `Description.GetPageDescription` | src/pages/episode/index.js:53-60 | the description starts with `Episode <n> of the live JavaScript broadcast podcast. `, and the rest is the stripped, trimmed one-pass normalisation of the HTML |
| `Description.PlainDescription` | src/pages/episode/index.js:53-60 | for HTML with no line feed, no sentinel and no outer whitespace (such as `<p>Hi</p>`), the description is the prefix followed by the stripped HTML |
| `EpisodeView.Truthy` | src/pages/episode/index.js:67-103 | the truthiness test on an id: present and not the empty string |
| `EpisodeView.Participants` | src/pages/episode/index.js:189 | guests, then the host, then the panelists, in one list |
| `EpisodeView.SomeContributes` | src/pages/episode/index.js:190-193 | `.some(p => links.length + tips.length + picks.length > 0)` is true exactly when some person has a non-empty links, tips or picks list |
| `EpisodeView.HasShowNotes` | src/pages/episode/index.js:187-194 | true exactly when some person in guests, then host, then panelists has a link, a tip or a pick |
| `EpisodeView.HasShowNotesByRole` | src/pages/episode/index.js:188-193 | the same condition, stated per role: a guest, the host or a panelist contributes |
| `EpisodeView.HostTipGivesShowNotes` | src/pages/episode/index.js:187-193 | a host whose only contribution is `tips = ["a"]` is enough for show notes |
| `EpisodeView.NoContributionsNoShowNotes` | src/pages/episode/index.js:187-193 | when all lists of all people are empty there are no show notes |
| `EpisodeView.PastEpisodeSections` | src/pages/episode/index.js:62-90 | the past layout has three sections plus one for each truthy media id, and always ends with sponsors, show notes and transcript, in that order |
| `EpisodeView.PastAudioRule` | src/pages/episode/index.js:66-73 | the audio player is shown iff the Podbean id is truthy; when shown it comes first and gets that id |
| `EpisodeView.PastVideoRule` | src/pages/episode/index.js:74-81 | the video player is shown iff the YouTube id is truthy; when shown it comes after any audio, right before the fixed sections, and gets that id |
| `EpisodeView.PastMediaOnly` | src/pages/episode/index.js:65-88 | everything before the three fixed sections is audio or video; a past episode shows no live video and no Twitter feed |
| `EpisodeView.FutureEpisodeSections` | src/pages/episode/index.js:97-145 | the future layout has one section, plus four for a truthy YouTube id, plus one when there are show notes; the sponsors always come last |
| `EpisodeView.FutureLiveRule` | src/pages/episode/index.js:102-132 | the live video and both Twitter feeds (widgets 675885424049393664 and 675879000950988805) are shown iff the YouTube id is truthy; when shown they come first, in that order, followed by the widget script |
| `EpisodeView.FutureNotesAndSponsors` | src/pages/episode/index.js:133-142 | show notes are shown iff `hasShowNotes`, and then right before the sponsors; sponsors appear exactly once, last; an upcoming episode shows no audio, recorded video or transcript |
| `EpisodeView.SponsorsAlwaysShown` | src/pages/episode/index.js:82-142 | sponsors appear in both the past and the future layout |
| `EpisodeView.EpisodeUrl` | src/pages/episode/index.js:163 | the site address followed by the episode's page path |
| `EpisodeView.ImageUrl` | src/pages/episode/index.js:164 | the episode URL followed by `/screenshot.png` |
| `EpisodeView.HeadTags` | src/pages/episode/index.js:160-185 | there are always exactly fourteen tags |
| `EpisodeView.HeadTagNamesFacts` | src/pages/episode/index.js:168-183 | the fourteen attribute names are pairwise different; the Open Graph ones start with `og:`, the Twitter ones with `twitter:` |
| `EpisodeView.HeadTagsOrder` | src/pages/episode/index.js:166-184 | whatever the episode, the keys are g1..g5, f1..f5, t1..t4 in this order, each with its fixed name; exactly the five Open Graph tags use `property` |
| `EpisodeView.HeadTagsLayout` | src/pages/episode/index.js:166-184 | tags f1..f5 are named `og:…`, tags t1..t4 `twitter:…`, and no two tags share a name |
| `EpisodeView.ContentOfDistinct` | src/pages/episode/index.js:166-184 | when names are distinct, looking a tag up by its name finds that tag's content |
| `EpisodeView.HeadTagsAgree` | src/pages/episode/index.js:162-184 | `og:image` and `twitter:image` are both the episode URL followed by `/screenshot.png`; `og:url` is the episode URL; the three descriptions equal the page description; the three titles equal the stripped title; the copyright is the year; the Twitter card names the episode number; author, application name and Open Graph type are the fixed texts `JavaScript Air`, `JavaScript Air Podcast` and `podcast` |
| `EpisodeView.EpisodePage` | src/pages/episode/index.js:23-45 | the document title is the site name `JavaScript Air`, a vertical bar, and the episode title; the description and the head tags are both computed from the rendered markdown of the episode's description; the `description` tag equals the page description, which starts with the prefix; the body is the header bar, the episode header, then the past or the future layout, chosen by `past` alone; sponsors always appear |

## Left out

- JSX, React rendering, `PropTypes`, and the aphrodite `StyleSheet`/`css` calls (lines 47-51, 92-95, 147-158). They are presentation only. Each child component appears as one `Section` value. The ids, the hangout URL, the transcript and the Twitter widget props are carried. Some props are dropped: the `episode` given to `Header` (lines 34-36) and to `ShowNotes` (lines 85, 137), the `nextEpisode` and `sponsors` (see below), and the `label="Watch Live"` of the live `VideoSection` (line 110). The live video is told apart from the recorded one by its own `Section` constructor instead.
- The `<hr />` divider in front of each group is a markup detail. It is not part of the section list.
- `marked`, `deindent` and `striptags` (lines 25, 59, 165) are foreign libraries. They are function parameters, and the model assumes nothing about them.
- `new Date().getFullYear()` (line 171) reads the clock. The year is a parameter.
- `nextEpisode` and `sponsors` are only passed through to `HeaderBar` and `SponsorsSection`. Those components are not part of this model, and neither are `Header`, `AudioSection`, `VideoSection`, `ShowNotes`, `TranscriptSection`, `TwitterFeed` or `TwitterWidgetScript`.
- JavaScript strings are UTF-16, while Dafny's `string` holds Unicode scalar values. Nothing in this page depends on the difference.
- Malformed data is not modelled. A missing `guests` or `panelists` makes the spread in `hasShowNotes` (line 189) fail at render time. A missing `host` fails only when `.some` reaches it, that is when no guest contributes (lines 190-191). Ids are typed as strings, and a numeric id, which the source would test for truthiness and render, is not modelled. The model's types rule such data out.
- `EpisodeView.HeadTags`: its own contract states only the count. The order, names and kinds are stated by `HeadTagsOrder` and `HeadTagsLayout`, and the contents by `HeadTagsAgree`.
- `EpisodeView.PastEpisodeSections` and `EpisodeView.FutureEpisodeSections`: their own contracts state only the length and the fixed last sections. The presence and order rules are stated by the `PastAudioRule`, `PastVideoRule`, `PastMediaOnly`, `FutureLiveRule` and `FutureNotesAndSponsors` lemmas beside them.
- `Description.PlainDescription`: an example such as `getPageDescription(5, …)` with a one-line `<p>Hi</p>` is stated for every input of that shape, not evaluated on the literal, and it depends on what the tag stripper returns.
