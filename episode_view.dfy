/** The episode page (`EpisodePage` and its helpers): which sections the
    page shows and in what order, whether an episode has show notes, and
    the metadata tags given to search engines and social previews. Markup,
    styles and the child components are not modelled; each child appears as
    one `Section` value. The ids, the hangout URL, the transcript and the
    Twitter widget props are carried; the episode, the next episode and the
    sponsors handed to the header bar, the episode header, the show notes
    and the sponsors section are dropped. */
module EpisodeView {
  import opened JsString
  import opened Description

  datatype Option<T> = None | Some(value: T)

  /** A guest, the host or a panelist; the page only asks whether their
      lists of links, tips and picks are empty. */
  datatype Person = Person(links: seq<string>, tips: seq<string>, picks: seq<string>)

  /** The fields of an episode the page reads. Optional fields are `None`
      when the data leaves them out. */
  datatype Episode = Episode(
    numberDisplay: string,
    title: string,
    description: string,
    past: bool,
    podbeanId: Option<string>,
    youTubeId: Option<string>,
    hangoutUrl: Option<string>,
    transcriptHTML: Option<string>,
    guests: seq<Person>,
    host: Person,
    panelists: seq<Person>,
    page: string)

  /** JavaScript truthiness of an optional string field: present and not
      the empty string. */
  predicate Truthy(field: Option<string>) {
    field.Some? && field.value != ""
  }

  // ---------------------------------------------------------------------
  // hasShowNotes

  function NoteCount(p: Person): nat {
    |p.links| + |p.tips| + |p.picks|
  }

  /** The person has at least one link, tip or pick. */
  predicate Contributes(p: Person) {
    p.links != [] || p.tips != [] || p.picks != []
  }

  /** `[...guests, host, ...panelists]` */
  function Participants(e: Episode): seq<Person> {
    e.guests + [e.host] + e.panelists
  }

  /** `people.some(p => links.length + tips.length + picks.length > 0)`:
      true exactly when some person in the list contributes something. */
  function SomeContributes(people: seq<Person>): (r: bool)
    ensures r <==> exists i :: 0 <= i < |people| && Contributes(people[i])
  {
    people != [] && (NoteCount(people[0]) > 0 || SomeContributes(people[1..]))
  }

  /** `hasShowNotes(episodeData)`: some guest, the host or some panelist has
      a non-empty list of links, tips or picks. */
  function HasShowNotes(e: Episode): (r: bool)
    ensures r <==> exists p :: p in Participants(e) && Contributes(p)
  {
    SomeContributes(Participants(e))
  }

  /** Show notes exist exactly when a guest, the host or a panelist
      contributes; where a person stands in the list does not matter. */
  lemma HasShowNotesByRole(e: Episode)
    ensures HasShowNotes(e) <==>
      (exists g :: g in e.guests && Contributes(g))
      || Contributes(e.host)
      || (exists q :: q in e.panelists && Contributes(q))
  {
    var ps := Participants(e);
    assert forall p :: p in ps <==> p in e.guests || p == e.host || p in e.panelists;
  }

  /** A host with a single tip is enough for show notes. */
  lemma HostTipGivesShowNotes(e: Episode)
    requires e.host.tips == ["a"]
    ensures HasShowNotes(e)
  {
    assert e.host in Participants(e);
  }

  /** When every list of every person is empty there are no show notes. */
  lemma NoContributionsNoShowNotes(e: Episode)
    requires forall g :: g in e.guests ==> g.links == [] && g.tips == [] && g.picks == []
    requires e.host.links == [] && e.host.tips == [] && e.host.picks == []
    requires forall q :: q in e.panelists ==> q.links == [] && q.tips == [] && q.picks == []
    ensures !HasShowNotes(e)
  {
    HasShowNotesByRole(e);
  }

  // ---------------------------------------------------------------------
  // Sections

  /** The child components the page shows. The media, transcript and Twitter
      sections carry the props they are given; the others carry none, as
      their props (the episode, the next episode, the sponsors) are not
      modelled. */
  datatype Section =
    | HeaderBar
    | EpisodeHeader
    | Audio(podbeanId: string)
    | Video(youTubeId: string)
    | VideoLive(youTubeId: string, hangoutUrl: Option<string>)
    | TwitterFeed(widgetId: string, linkTo: string, prompt: string)
    | TwitterWidgetScript
    | Sponsors
    | ShowNotes
    | Transcript(transcriptHTML: Option<string>)

  /** The two Twitter widgets promoted before a live episode. */
  const HashtagWidgetId: string := "675885424049393664"
  const QuestionWidgetId: string := "675879000950988805"
  const HashtagFeed: Section :=
    TwitterFeed(HashtagWidgetId, "https://twitter.com/hashtag/JavaScriptAir", "Tweet about #JavaScriptAir")
  const QuestionFeed: Section :=
    TwitterFeed(QuestionWidgetId, "https://twitter.com/hashtag/jsAirQuestion", "Ask a #jsAirQuestion")

  /** Kinds of section the layout rules speak about. */
  predicate IsAudio(x: Section) { x.Audio? }
  predicate IsVideo(x: Section) { x.Video? }
  predicate IsLive(x: Section) { x.VideoLive? || x.TwitterFeed? || x.TwitterWidgetScript? }
  predicate IsTranscript(x: Section) { x.Transcript? }

  predicate ShowsAudio(s: seq<Section>) { exists k :: 0 <= k < |s| && IsAudio(s[k]) }
  predicate ShowsVideo(s: seq<Section>) { exists k :: 0 <= k < |s| && IsVideo(s[k]) }
  predicate ShowsLive(s: seq<Section>) { exists k :: 0 <= k < |s| && IsLive(s[k]) }
  predicate ShowsTranscript(s: seq<Section>) { exists k :: 0 <= k < |s| && IsTranscript(s[k]) }

  /** `PastEpisodeStuff`: the audio player when there is a Podbean id, the
      video player when there is a YouTube id, then sponsors, show notes
      and the transcript, which are always there and always last. */
  function PastEpisodeSections(e: Episode): (r: seq<Section>)
    ensures |r| == 3 + (if Truthy(e.podbeanId) then 1 else 0) + (if Truthy(e.youTubeId) then 1 else 0)
    ensures r[|r| - 3..] == [Sponsors, ShowNotes, Transcript(e.transcriptHTML)]
  {
    var audio := if Truthy(e.podbeanId) then [Audio(e.podbeanId.value)] else [];
    var video := if Truthy(e.youTubeId) then [Video(e.youTubeId.value)] else [];
    audio + video + [Sponsors, ShowNotes, Transcript(e.transcriptHTML)]
  }

  /** The audio player is shown iff the Podbean id is truthy, and then it
      comes first and gets that id. */
  lemma PastAudioRule(e: Episode)
    ensures var r := PastEpisodeSections(e);
      && (ShowsAudio(r) <==> Truthy(e.podbeanId))
      && (forall k :: 0 <= k < |r| && r[k].Audio? ==> k == 0 && e.podbeanId == Some(r[k].podbeanId))
  {
    var r := PastEpisodeSections(e);
    var rest := (if Truthy(e.youTubeId) then [Video(e.youTubeId.value)] else [])
      + [Sponsors, ShowNotes, Transcript(e.transcriptHTML)];
    assert forall k :: 0 <= k < |rest| ==> !rest[k].Audio?;
    if Truthy(e.podbeanId) {
      assert r == [Audio(e.podbeanId.value)] + rest;
      assert IsAudio(r[0]);
    } else {
      assert r == rest;
    }
  }

  /** The video player is shown iff the YouTube id is truthy, and then it
      comes right before the three fixed sections, after any audio, and
      gets that id. */
  lemma PastVideoRule(e: Episode)
    ensures var r := PastEpisodeSections(e);
      && (ShowsVideo(r) <==> Truthy(e.youTubeId))
      && (forall k :: 0 <= k < |r| && r[k].Video? ==> k == |r| - 4 && e.youTubeId == Some(r[k].youTubeId))
  {
    var r := PastEpisodeSections(e);
    var audio := if Truthy(e.podbeanId) then [Audio(e.podbeanId.value)] else [];
    var tail := [Sponsors, ShowNotes, Transcript(e.transcriptHTML)];
    assert forall k :: 0 <= k < |audio| ==> !audio[k].Video?;
    if Truthy(e.youTubeId) {
      assert r == audio + [Video(e.youTubeId.value)] + tail;
      assert IsVideo(r[|audio|]);
    } else {
      assert r == audio + tail;
    }
  }

  /** Everything before the three fixed sections is audio or video, and a
      past episode shows nothing live. */
  lemma PastMediaOnly(e: Episode)
    ensures var r := PastEpisodeSections(e);
      && (forall k :: 0 <= k < |r| - 3 ==> IsAudio(r[k]) || IsVideo(r[k]))
      && !ShowsLive(r)
  {
  }

  /** `FutureEpisodeStuff`: when there is a YouTube id, the live video with
      the hangout link and the two Twitter feeds with their script; then
      the show notes when there are any; and the sponsors, always last. */
  function FutureEpisodeSections(e: Episode): (r: seq<Section>)
    ensures |r| == 1 + (if Truthy(e.youTubeId) then 4 else 0) + (if HasShowNotes(e) then 1 else 0)
    ensures r[|r| - 1] == Sponsors
  {
    var live := if Truthy(e.youTubeId)
      then [VideoLive(e.youTubeId.value, e.hangoutUrl), HashtagFeed, QuestionFeed, TwitterWidgetScript]
      else [];
    var notes := if HasShowNotes(e) then [ShowNotes] else [];
    live + notes + [Sponsors]
  }

  /** The live video and both Twitter feeds are shown iff the YouTube id
      is truthy, and then they come first, in that order, followed by the
      widget script. */
  lemma FutureLiveRule(e: Episode)
    ensures var r := FutureEpisodeSections(e);
      && (Truthy(e.youTubeId) <==> HashtagFeed in r)
      && (Truthy(e.youTubeId) <==> QuestionFeed in r)
      && (Truthy(e.youTubeId) <==> ShowsLive(r))
      && (Truthy(e.youTubeId) ==>
            r[0] == VideoLive(e.youTubeId.value, e.hangoutUrl) && r[1] == HashtagFeed && r[2] == QuestionFeed
            && r[3] == TwitterWidgetScript)
  {
    var r := FutureEpisodeSections(e);
    var rest := (if HasShowNotes(e) then [ShowNotes] else []) + [Sponsors];
    assert forall k :: 0 <= k < |rest| ==> !IsLive(rest[k]);
    if Truthy(e.youTubeId) {
      var live := [VideoLive(e.youTubeId.value, e.hangoutUrl), HashtagFeed, QuestionFeed, TwitterWidgetScript];
      assert r == live + rest;
      assert IsLive(r[0]);
    } else {
      assert r == rest;
    }
  }

  /** The show notes are shown iff `hasShowNotes`, and then right before
      the sponsors; the sponsors exactly once, last; and an upcoming episode shows no audio, no recorded video
      and no transcript. */
  lemma FutureNotesAndSponsors(e: Episode)
    ensures var r := FutureEpisodeSections(e);
      && (forall k :: 0 <= k < |r| - 1 ==> r[k] != Sponsors)
      && (ShowNotes in r <==> HasShowNotes(e))
      && (HasShowNotes(e) ==> r[|r| - 2] == ShowNotes)
      && !ShowsAudio(r) && !ShowsVideo(r) && !ShowsTranscript(r)
  {
    var r := FutureEpisodeSections(e);
    var live := if Truthy(e.youTubeId)
      then [VideoLive(e.youTubeId.value, e.hangoutUrl), HashtagFeed, QuestionFeed, TwitterWidgetScript]
      else [];
    assert forall k :: 0 <= k < |live| ==> IsLive(live[k]);
    if HasShowNotes(e) {
      assert r == live + [ShowNotes, Sponsors];
    } else {
      assert r == live + [Sponsors];
    }
  }

  /** The sponsors are shown for every episode, past or future. */
  lemma SponsorsAlwaysShown(e: Episode)
    ensures Sponsors in PastEpisodeSections(e) && Sponsors in FutureEpisodeSections(e)
  {
    var p, f := PastEpisodeSections(e), FutureEpisodeSections(e);
    assert p[|p| - 3] == Sponsors;
    assert f[|f| - 1] == Sponsors;
  }

  // ---------------------------------------------------------------------
  // getHeadTags

  datatype AttrKind = Name | Property

  /** `<meta key=… name|property=… content=… />` */
  datatype MetaTag = MetaTag(key: string, kind: AttrKind, attrName: string, content: string)

  const HeadTagKeys: seq<string> :=
    ["g1", "g2", "g3", "g4", "g5", "f1", "f2", "f3", "f4", "f5", "t1", "t2", "t3", "t4"]

  /** The `name` (Google, Twitter) or `property` (Open Graph) of each tag,
      in order. */
  const HeadTagNames: seq<string> :=
    ["description", "keywords", "author", "copyright", "application-name",
     "og:title", "og:type", "og:image", "og:url", "og:description",
     "twitter:card", "twitter:title", "twitter:description", "twitter:image"]

  /** `https://javascriptair.com${episode.page}` */
  function EpisodeUrl(page: string): string {
    "https://javascriptair.com" + page
  }

  /** `${episodeUrl}/screenshot.png` */
  function ImageUrl(page: string): string {
    EpisodeUrl(page) + "/screenshot.png"
  }

  /** No two tags share an attribute name. */
  predicate DistinctNames(tags: seq<MetaTag>) {
    forall i, j :: 0 <= i < j < |tags| ==> tags[i].attrName != tags[j].attrName
  }

  /** `getHeadTags(episode, descriptionHTMLString)`; `year` stands for
      `new Date().getFullYear()`. Always fourteen tags. */
  function HeadTags(e: Episode, html: string, stripTags: string -> string, year: nat): (r: seq<MetaTag>)
    ensures |r| == |HeadTagKeys| == |HeadTagNames| == 14
  {
    var description := GetPageDescription(e.numberDisplay, html, stripTags);
    var episodeUrl := EpisodeUrl(e.page);
    var image := ImageUrl(e.page);
    var title := stripTags(e.title);
    [
      MetaTag("g1", Name, "description", description),
      MetaTag("g2", Name, "keywords", title),
      MetaTag("g3", Name, "author", "JavaScript Air"),
      MetaTag("g4", Name, "copyright", Decimal(year)),
      MetaTag("g5", Name, "application-name", "JavaScript Air Podcast"),
      MetaTag("f1", Property, "og:title", title),
      MetaTag("f2", Property, "og:type", "podcast"),
      MetaTag("f3", Property, "og:image", image),
      MetaTag("f4", Property, "og:url", episodeUrl),
      MetaTag("f5", Property, "og:description", description),
      MetaTag("t1", Name, "twitter:card", "JavaScript Air episode " + e.numberDisplay),
      MetaTag("t2", Name, "twitter:title", title),
      MetaTag("t3", Name, "twitter:description", description),
      MetaTag("t4", Name, "twitter:image", image)
    ]
  }

  /** The fixed names are pairwise different; the five Open Graph names
      start with `og:` and the last four with `twitter:`. */
  lemma HeadTagNamesFacts()
    ensures forall i, j :: 0 <= i < j < |HeadTagNames| ==> HeadTagNames[i] != HeadTagNames[j]
    ensures forall k :: 5 <= k < 10 ==> StartsWith(HeadTagNames[k], "og:")
    ensures forall k :: 10 <= k < 14 ==> StartsWith(HeadTagNames[k], "twitter:")
  {
    forall i, j | 0 <= i < j < |HeadTagNames| ensures HeadTagNames[i] != HeadTagNames[j] {
      assert i == 0 || i == 1 || i == 2 || i == 3 || i == 4 || i == 5 || i == 6
        || i == 7 || i == 8 || i == 9 || i == 10 || i == 11 || i == 12;
      assert j == 1 || j == 2 || j == 3 || j == 4 || j == 5 || j == 6 || j == 7
        || j == 8 || j == 9 || j == 10 || j == 11 || j == 12 || j == 13;
    }
    forall k | 5 <= k < 14
      ensures k < 10 ==> StartsWith(HeadTagNames[k], "og:")
      ensures 10 <= k ==> StartsWith(HeadTagNames[k], "twitter:")
    {
      assert k == 5 || k == 6 || k == 7 || k == 8 || k == 9 || k == 10 || k == 11 || k == 12 || k == 13;
    }
  }

  /** Whatever the episode, the tags come keyed g1..g5, f1..f5, t1..t4 with
      the fixed names, and the five Open Graph tags, and only they, use
      `property`. */
  lemma HeadTagsOrder(e: Episode, html: string, stripTags: string -> string, year: nat)
    ensures var r := HeadTags(e, html, stripTags, year);
      && (forall k :: 0 <= k < |r| ==> r[k].key == HeadTagKeys[k] && r[k].attrName == HeadTagNames[k])
      && (forall k :: 0 <= k < |r| ==> (r[k].kind == Property <==> 5 <= k < 10))
  {
    var r := HeadTags(e, html, stripTags, year);
    forall k | 0 <= k < |r|
      ensures r[k].key == HeadTagKeys[k] && r[k].attrName == HeadTagNames[k]
      ensures r[k].kind == Property <==> 5 <= k < 10
    {
      assert k == 0 || k == 1 || k == 2 || k == 3 || k == 4 || k == 5 || k == 6
        || k == 7 || k == 8 || k == 9 || k == 10 || k == 11 || k == 12 || k == 13;
    }
  }

  /** The Open Graph names start with `og:`, the last four with `twitter:`,
      and no name is used twice. */
  lemma HeadTagsLayout(e: Episode, html: string, stripTags: string -> string, year: nat)
    ensures var r := HeadTags(e, html, stripTags, year);
      && (forall k :: 5 <= k < 10 ==> StartsWith(r[k].attrName, "og:"))
      && (forall k :: 10 <= k < 14 ==> StartsWith(r[k].attrName, "twitter:"))
      && DistinctNames(r)
  {
    HeadTagsOrder(e, html, stripTags, year);
    HeadTagNamesFacts();
  }

  /** What a crawler reads for an attribute name: the content of the first
      tag with that name, if any. */
  function ContentOf(tags: seq<MetaTag>, attrName: string): (r: Option<string>)
    ensures r.Some? <==> exists k :: 0 <= k < |tags| && tags[k].attrName == attrName
  {
    if tags == [] then None
    else if tags[0].attrName == attrName then Some(tags[0].content)
    else ContentOf(tags[1..], attrName)
  }

  /** With distinct names, every tag is the one a crawler finds by its name. */
  lemma {:induction false} ContentOfDistinct(tags: seq<MetaTag>, k: nat)
    requires DistinctNames(tags) && k < |tags|
    ensures ContentOf(tags, tags[k].attrName) == Some(tags[k].content)
    decreases k
  {
    if k > 0 {
      assert tags[0].attrName != tags[k].attrName;
      assert tags[1..][k - 1] == tags[k];
      ContentOfDistinct(tags[1..], k - 1);
    }
  }

  /** The Open Graph and Twitter images are the episode URL followed by
      `/screenshot.png`, the Open Graph URL is the episode URL, the three
      descriptions are the page description, the three titles are the
      tag-stripped episode title, the copyright is the year, the Twitter
      card names the episode, and the author, application name and Open
      Graph type are the fixed texts. */
  lemma HeadTagsAgree(e: Episode, html: string, stripTags: string -> string, year: nat)
    ensures var r := HeadTags(e, html, stripTags, year);
      var description := Some(GetPageDescription(e.numberDisplay, html, stripTags));
      var title := Some(stripTags(e.title));
      && ContentOf(r, "og:image") == ContentOf(r, "twitter:image") == Some(EpisodeUrl(e.page) + "/screenshot.png")
      && ContentOf(r, "og:url") == Some("https://javascriptair.com" + e.page)
      && ContentOf(r, "description") == ContentOf(r, "og:description") == ContentOf(r, "twitter:description") == description
      && ContentOf(r, "keywords") == ContentOf(r, "og:title") == ContentOf(r, "twitter:title") == title
      && ContentOf(r, "copyright") == Some(Decimal(year))
      && ContentOf(r, "twitter:card") == Some("JavaScript Air episode " + e.numberDisplay)
      && ContentOf(r, "author") == Some("JavaScript Air")
      && ContentOf(r, "application-name") == Some("JavaScript Air Podcast")
      && ContentOf(r, "og:type") == Some("podcast")
  {
    var r := HeadTags(e, html, stripTags, year);
    HeadTagsLayout(e, html, stripTags, year);
    ContentOfDistinct(r, 0);
    ContentOfDistinct(r, 1);
    ContentOfDistinct(r, 2);
    ContentOfDistinct(r, 3);
    ContentOfDistinct(r, 4);
    ContentOfDistinct(r, 5);
    ContentOfDistinct(r, 6);
    ContentOfDistinct(r, 7);
    ContentOfDistinct(r, 8);
    ContentOfDistinct(r, 9);
    ContentOfDistinct(r, 10);
    ContentOfDistinct(r, 11);
    ContentOfDistinct(r, 12);
    ContentOfDistinct(r, 13);
  }

  // ---------------------------------------------------------------------
  // EpisodePage

  /** What `Page` is given: the document title, the description, the head
      tags and the body's sections in order. */
  datatype PageDoc = PageDoc(title: string, description: string, headTags: seq<MetaTag>, body: seq<Section>)

  /** `EpisodePage({episode, nextEpisode, sponsors})`. `renderMarkdown`
      stands for `marked(deindent(…))`, `stripTags` for `striptags`, and
      `year` for the current year; the next episode and the sponsors are
      passed through to child components and not modelled. The description
      and the head tags both come from the episode's rendered markdown, and
      the `description` tag is the page description. The body is the
      header bar and the episode header, then the past or the future
      layout, chosen by `past` alone. */
  function EpisodePage(e: Episode, renderMarkdown: string -> string, stripTags: string -> string, year: nat): (doc: PageDoc)
    ensures doc.title == "JavaScript Air | " + e.title
    ensures doc.description == GetPageDescription(e.numberDisplay, renderMarkdown(e.description), stripTags)
    ensures doc.headTags == HeadTags(e, renderMarkdown(e.description), stripTags, year)
    ensures StartsWith(doc.description, DescriptionPrefix(e.numberDisplay))
    ensures ContentOf(doc.headTags, "description") == Some(doc.description)
    ensures |doc.body| >= 3 && doc.body[..2] == [HeaderBar, EpisodeHeader]
    ensures doc.body[2..] == if e.past then PastEpisodeSections(e) else FutureEpisodeSections(e)
    ensures Sponsors in doc.body
  {
    var html := renderMarkdown(e.description);
    var headTags := HeadTags(e, html, stripTags, year);
    HeadTagsLayout(e, html, stripTags, year);
    ContentOfDistinct(headTags, 0);
    SponsorsAlwaysShown(e);
    var sections := if e.past then PastEpisodeSections(e) else FutureEpisodeSections(e);
    var body := [HeaderBar, EpisodeHeader] + sections;
    assert body[2..] == sections;
    assert forall x :: x in sections ==> x in body;
    PageDoc("JavaScript Air | " + e.title, GetPageDescription(e.numberDisplay, html, stripTags), headTags, body)
  }
}
