/**
  `createVideoNode(url)`: the ordered chain of provider tests and the embed
  element each branch builds. The jQuery element is modelled as a record: the
  wrapper `<div>` holds exactly one media element (`Clip`), whose tag, `src`,
  size, other attributes and classes are the fields of `Media`.
 */
module Recognition {
  import opened Wrappers
  import opened Text
  import YouTubePattern
  import opened ProviderPatterns

  datatype Provider = YouTube | Instagram | Vine | Vimeo | Dailymotion | Youku | RawFile

  datatype Tag = IFrame | Video

  /** The media element: `<iframe>` or `<video>`, with its attributes and classes. */
  datatype Media = Media(
    provider: Provider,
    tag: Tag,
    src: string,
    width: nat,
    height: nat,
    attrs: map<string, string>,
    classes: seq<string>)

  /** `<div class="note-video-clip-wrapper">` around the one media element. */
  datatype Clip = Clip(wrapperClass: string, media: Media)

  const WrapperClass := "note-video-clip-wrapper"
  const ClipClass := "note-video-clip"

  /** `frameborder="0"`, which every iframe gets. */
  const IFrameAttrs: map<string, string> := map["frameborder" := "0"]

  /** `webkitallowfullscreen mozallowfullscreen allowfullscreen` (boolean attributes). */
  const FullscreenAttrs: map<string, string> :=
    IFrameAttrs["webkitallowfullscreen" := ""]["mozallowfullscreen" := ""]["allowfullscreen" := ""]

  /** The order in which the branches of the chain are tried. */
  const Precedence: seq<Provider> := [YouTube, Instagram, Vine, Vimeo, Dailymotion, Youku, RawFile]

  // ------------------------------------------------------------------------
  // One branch each: its test (as the source writes it) and the element it builds.

  function YouTubeMedia(u: string): (r: Option<Media>)
    ensures r.Some? ==> r.value.provider == YouTube
  {
    var id := YouTubePattern.YouTubeId(u);
    if id.Some? && |id.value| == 11 then
      Some(Media(YouTube, IFrame, "//www.youtube.com/embed/" + id.value, 640, 360, IFrameAttrs, []))
    else None
  }

  function InstagramMedia(u: string): (r: Option<Media>)
    ensures r.Some? ==> r.value.provider == Instagram
  {
    var whole := InstagramMatchText(u);
    if whole.Some? && |whole.value| > 0 then
      var attrs := IFrameAttrs["scrolling" := "no"]["allowtransparency" := "true"];
      Some(Media(Instagram, IFrame, "https://instagram.com/p/" + InstagramCode(u).value + "/embed/", 612, 710, attrs, []))
    else None
  }

  function VineMedia(u: string): (r: Option<Media>)
    ensures r.Some? ==> r.value.provider == Vine
  {
    var whole := VineMatch(u);
    if whole.Some? && |whole.value| > 0 then
      Some(Media(Vine, IFrame, whole.value + "/embed/simple", 600, 600, IFrameAttrs, ["vine-embed"]))
    else None
  }

  function VimeoMedia(u: string): (r: Option<Media>)
    ensures r.Some? ==> r.value.provider == Vimeo
  {
    var id := VimeoId(u);
    if id.Some? && |id.value| > 0 then
      Some(Media(Vimeo, IFrame, "//player.vimeo.com/video/" + id.value, 640, 360, FullscreenAttrs, []))
    else None
  }

  function DailymotionMedia(u: string): (r: Option<Media>)
    ensures r.Some? ==> r.value.provider == Dailymotion
  {
    var id := DailymotionId(u);
    if id.Some? && |id.value| > 0 then
      Some(Media(Dailymotion, IFrame, "//www.dailymotion.com/embed/video/" + id.value, 640, 360, IFrameAttrs, []))
    else None
  }

  function YoukuMedia(u: string): (r: Option<Media>)
    ensures r.Some? ==> r.value.provider == Youku
  {
    var id := YoukuId(u);
    if id.Some? && |id.value| > 0 then
      Some(Media(Youku, IFrame, "//player.youku.com/embed/" + id.value, 510, 498, FullscreenAttrs, []))
    else None
  }

  function RawFileMedia(u: string): (r: Option<Media>)
    ensures r.Some? ==> r.value.provider == RawFile
  {
    if Mp4Match(u) || OggMatch(u) || WebmMatch(u) then
      Some(Media(RawFile, Video, u, 640, 360, map["controls" := ""], []))
    else None
  }

  /** `addClass('note-video-clip')` on the media element, then the wrapper around it. */
  function Wrap(m: Media): (c: Clip)
    ensures c.wrapperClass == WrapperClass
    ensures c.media.(classes := m.classes) == m
    ensures c.media.classes == m.classes + [ClipClass]
  {
    Clip(WrapperClass, m.(classes := m.classes + [ClipClass]))
  }

  /**
    The chain of `createVideoNode`: the first branch whose test passes builds
    the element; `None` is the source's `return false`.
   */
  function CreateVideoNode(url: string): (r: Option<Clip>)
    ensures r.Some? ==> r.value.wrapperClass == WrapperClass && ClipClass in r.value.media.classes
  {
    var media :=
      if YouTubeMedia(url).Some? then YouTubeMedia(url)
      else if InstagramMedia(url).Some? then InstagramMedia(url)
      else if VineMedia(url).Some? then VineMedia(url)
      else if VimeoMedia(url).Some? then VimeoMedia(url)
      else if DailymotionMedia(url).Some? then DailymotionMedia(url)
      else if YoukuMedia(url).Some? then YoukuMedia(url)
      else RawFileMedia(url);
    match media
    case Some(m) => Some(Wrap(m))
    case None => None
  }

  // ------------------------------------------------------------------------
  // The provider table as data, and the chain's agreement with it.

  /** What the branch of provider `Precedence[k]` would build. */
  function Candidate(u: string, k: nat): (r: Option<Media>)
    requires k < |Precedence|
    ensures r.Some? ==> r.value.provider == Precedence[k]
  {
    if k == 0 then YouTubeMedia(u)
    else if k == 1 then InstagramMedia(u)
    else if k == 2 then VineMedia(u)
    else if k == 3 then VimeoMedia(u)
    else if k == 4 then DailymotionMedia(u)
    else if k == 5 then YoukuMedia(u)
    else RawFileMedia(u)
  }

  /** The first branch from `k` on that applies, or `|Precedence|` when none does. */
  function FirstApplicable(u: string, k: nat): (f: nat)
    requires k <= |Precedence|
    ensures k <= f <= |Precedence|
    ensures f < |Precedence| ==> Candidate(u, f).Some?
    ensures forall j :: k <= j < f ==> Candidate(u, j).None?
    decreases |Precedence| - k
  {
    if k == |Precedence| then k
    else if Candidate(u, k).Some? then k
    else FirstApplicable(u, k + 1)
  }

  /** The table's reading of the chain: the first provider whose branch applies builds the element. */
  function TableResult(u: string): (r: Option<Clip>)
    ensures r.None? <==> forall k :: 0 <= k < |Precedence| ==> Candidate(u, k).None?
    ensures r.Some? ==> r.value.media.provider in Precedence
  {
    var f := FirstApplicable(u, 0);
    if f < |Precedence| then Some(Wrap(Candidate(u, f).value)) else None
  }

  /** First match wins: the if/else chain of the source agrees with the ordered table. */
  lemma {:induction false} FirstMatchWins(u: string)
    ensures CreateVideoNode(u) == TableResult(u)
  {
    var f0 := FirstApplicable(u, 0);
    var f1 := FirstApplicable(u, 1);
    var f2 := FirstApplicable(u, 2);
    var f3 := FirstApplicable(u, 3);
    var f4 := FirstApplicable(u, 4);
    var f5 := FirstApplicable(u, 5);
    var f6 := FirstApplicable(u, 6);
  }

  /**
    Precedence: the url is embedded as provider `Precedence[k]` exactly when that
    branch applies and no earlier one does; later branches have no effect.
   */
  lemma RecognisedAs(u: string, k: nat)
    requires k < |Precedence|
    ensures var r := CreateVideoNode(u);
      (r.Some? && r.value.media.provider == Precedence[k])
      <==> (Candidate(u, k).Some? && forall j :: 0 <= j < k ==> Candidate(u, j).None?)
  {
    FirstMatchWins(u);
    TableAs(u, k);
  }

  /** `RecognisedAs`, stated of the ordered table. */
  lemma TableAs(u: string, k: nat)
    requires k < |Precedence|
    ensures var r := TableResult(u);
      (r.Some? && r.value.media.provider == Precedence[k])
      <==> (Candidate(u, k).Some? && forall j :: 0 <= j < k ==> Candidate(u, j).None?)
  {
    var f := FirstApplicable(u, 0);
    if f < |Precedence| {
      assert TableResult(u).value.media.provider == Precedence[f];
      if Precedence[f] == Precedence[k] {
        PrecedenceDistinct(f, k);
      }
    }
  }

  /** No provider appears twice in the chain. */
  lemma PrecedenceDistinct(i: nat, j: nat)
    requires i < |Precedence| && j < |Precedence| && Precedence[i] == Precedence[j]
    ensures i == j
  {
  }

  /** Failure: nothing is built exactly when no branch applies. */
  lemma NotRecognised(u: string)
    ensures CreateVideoNode(u).None? <==> forall k :: 0 <= k < |Precedence| ==> Candidate(u, k).None?
  {
    FirstMatchWins(u);
  }

  // ------------------------------------------------------------------------
  // What the branches embed.

  /** The url is embedded, and as provider `p`. */
  predicate EmbeddedAs(u: string, p: Provider) {
    CreateVideoNode(u).Some? && CreateVideoNode(u).value.media.provider == p
  }

  /** The suffixes the three raw-file patterns accept. */
  const RawSuffixes: seq<string> := ["mp4", "m4v", "ogg", "ogv", "webm"]

  /** An embedded url carries the element of the branch that applied first. */
  lemma Chosen(u: string)
    ensures CreateVideoNode(u).Some? ==>
      var f := FirstApplicable(u, 0);
      f < |Precedence| && CreateVideoNode(u).value == Wrap(Candidate(u, f).value)
      && CreateVideoNode(u).value.media.provider == Precedence[f]
  {
    FirstMatchWins(u);
  }

  /** Embedded as `Precedence[k]`: the element is the one that branch builds. */
  lemma ChosenAs(u: string, k: nat)
    requires k < |Precedence| && EmbeddedAs(u, Precedence[k])
    ensures Candidate(u, k).Some? && CreateVideoNode(u).value == Wrap(Candidate(u, k).value)
  {
    Chosen(u);
    var f := FirstApplicable(u, 0);
    assert forall j :: 0 <= j < |Precedence| && j != k ==> Precedence[j] != Precedence[k];
    assert f == k;
  }

  /**
    The YouTube branch applies exactly to the urls of the pattern's language,
    and embeds the 11 characters that follow the recognised path.
   */
  lemma YouTubeEmbed(u: string)
    ensures EmbeddedAs(u, YouTube) <==> exists p :: IsYouTubeUrlAt(u, p)
    ensures EmbeddedAs(u, YouTube) ==>
      && YouTubePattern.YouTubeMatch(u).Some?
      && var m, p := CreateVideoNode(u).value.media, YouTubePattern.YouTubeMatch(u).value;
      && IsYouTubeUrlAt(u, p)
      && m == Media(YouTube, IFrame, "//www.youtube.com/embed/" + u[p..p + 11], 640, 360, IFrameAttrs, [ClipClass])
  {
    RecognisedAs(u, 0);
    assert EmbeddedAs(u, YouTube) <==> YouTubeMedia(u).Some?;
    assert YouTubeMedia(u).Some? <==> YouTubePattern.YouTubeMatch(u).Some?;
    if p :| IsYouTubeUrlAt(u, p) {
      YouTubePattern.YouTubeMatchComplete(u, p);
    }
    YouTubePattern.YouTubeMatchSound(u);
    if EmbeddedAs(u, YouTube) {
      ChosenAs(u, 0);
      var p := YouTubePattern.YouTubeMatch(u).value;
      assert IsYouTubeUrlAt(u, p);
    }
  }

  /** `YouTubePattern.IsYouTubeUrl`, with the room for the id it implies written out. */
  predicate IsYouTubeUrlAt(u: string, p: nat) {
    p + 11 <= |u| && YouTubePattern.IsYouTubeUrl(u, p)
  }

  /**
    A url written as scheme, `www.`, one of the fixed paths, an 11-character id
    and a tail without white space is embedded as that id, whatever follows it.
   */
  lemma YouTubeFormEmbedded(scheme: string, www: string, path: string, id: string, tail: string)
    requires YouTubePattern.IsScheme(scheme) && YouTubePattern.IsWww(www) && YouTubePattern.IsFixedPath(path)
    requires |id| == 11 && All(id, 0, 11, IsIdChar) && All(tail, 0, |tail|, IsNonWhitespace)
    ensures CreateVideoNode(scheme + www + path + id + tail)
      == Some(Clip(WrapperClass, Media(YouTube, IFrame, "//www.youtube.com/embed/" + id, 640, 360, IFrameAttrs, [ClipClass])))
  {
    var u := scheme + www + path + id + tail;
    YouTubePattern.YouTubeFixedForm(scheme, www, path, id, tail);
    var m := Media(YouTube, IFrame, "//www.youtube.com/embed/" + id, 640, 360, IFrameAttrs, []);
    assert YouTubeMedia(u) == Some(m);
    assert Candidate(u, 0) == Some(m);
    FirstMatchWins(u);
    assert FirstApplicable(u, 0) == 0;
    assert Wrap(m) == Clip(WrapperClass, m.(classes := [ClipClass]));
  }

  /** A YouTube-shaped url whose id is shorter than 11 characters is left to the later branches. */
  lemma YouTubeShortIdFallsThrough(scheme: string, www: string, path: string, id: string)
    requires YouTubePattern.IsScheme(scheme) && YouTubePattern.IsWww(www) && YouTubePattern.IsFixedPath(path)
    requires |id| < 11
    ensures !EmbeddedAs(scheme + www + path + id, YouTube)
    ensures CreateVideoNode(scheme + www + path + id) == TableResult(scheme + www + path + id)
    ensures FirstApplicable(scheme + www + path + id, 0) > 0
  {
    var u := scheme + www + path + id;
    YouTubePattern.YouTubeShortIdRejected(scheme, www, path, id);
    assert Candidate(u, 0).None?;
    RecognisedAs(u, 0);
    FirstMatchWins(u);
  }

  /**
    A raw file is embedded verbatim: a `<video controls>` whose source is the
    url itself, and only urls ending in one of the five suffixes with at least
    two characters before it get there.
   */
  lemma RawFileEmbed(u: string)
    ensures EmbeddedAs(u, RawFile) ==>
      var m := CreateVideoNode(u).value.media;
      && m == Media(RawFile, Video, u, 640, 360, map["controls" := ""], [ClipClass])
      && exists k :: 0 <= k < |RawSuffixes| && RawFileWith(u, RawSuffixes[k])
  {
    if EmbeddedAs(u, RawFile) {
      ChosenAs(u, 6);
      if RawFileWith(u, "mp4") {
        assert RawFileWith(u, RawSuffixes[0]);
      } else if RawFileWith(u, "m4v") {
        assert RawFileWith(u, RawSuffixes[1]);
      } else if RawFileWith(u, "ogg") {
        assert RawFileWith(u, RawSuffixes[2]);
      } else if RawFileWith(u, "ogv") {
        assert RawFileWith(u, RawSuffixes[3]);
      } else {
        assert RawFileWith(u, RawSuffixes[4]);
      }
    }
  }

  /**
    The elements the branches build: the `frameborder="0"` every iframe gets,
    the size of each provider's player, and the provider-specific attributes
    and class. The shared `note-video-clip` class is always the last class.
   */
  lemma EmbedShape(u: string)
    ensures CreateVideoNode(u).Some? ==>
      var m := CreateVideoNode(u).value.media;
      && m.classes == (if m.provider == Vine then ["vine-embed", ClipClass] else [ClipClass])
      && (m.provider != RawFile ==> m.tag == IFrame && "frameborder" in m.attrs && m.attrs["frameborder"] == "0")
      && ((m.provider == Vimeo || m.provider == Youku) <==> "allowfullscreen" in m.attrs)
      && (m.provider == Instagram ==> (m.width, m.height) == (612, 710) && m.attrs["scrolling"] == "no" && m.attrs["allowtransparency"] == "true")
      && (m.provider == Vine ==> (m.width, m.height) == (600, 600))
      && (m.provider == Youku ==> (m.width, m.height) == (510, 498))
      && (m.provider in {YouTube, Vimeo, Dailymotion, RawFile} ==> (m.width, m.height) == (640, 360))
  {
    if CreateVideoNode(u).Some? {
      Chosen(u);
      var f := FirstApplicable(u, 0);
      CandidateShape(u, f);
    }
  }

  /** `EmbedShape` for the element one branch builds. */
  lemma CandidateShape(u: string, k: nat)
    requires k < |Precedence| && Candidate(u, k).Some?
    ensures var m := Candidate(u, k).value;
      && m.classes == (if m.provider == Vine then ["vine-embed"] else [])
      && (m.provider != RawFile ==> m.tag == IFrame && "frameborder" in m.attrs && m.attrs["frameborder"] == "0")
      && ((m.provider == Vimeo || m.provider == Youku) <==> "allowfullscreen" in m.attrs)
      && (m.provider == Instagram ==> (m.width, m.height) == (612, 710) && m.attrs["scrolling"] == "no" && m.attrs["allowtransparency"] == "true")
      && (m.provider == Vine ==> (m.width, m.height) == (600, 600))
      && (m.provider == Youku ==> (m.width, m.height) == (510, 498))
      && (m.provider in {YouTube, Vimeo, Dailymotion, RawFile} ==> (m.width, m.height) == (640, 360))
  {
  }

  /** The Instagram source: capture group 1, a non-empty run that is all id characters after its first. */
  lemma InstagramSource(u: string)
    requires EmbeddedAs(u, Instagram)
    ensures var code := InstagramCode(u);
      && code.Some? && |code.value| >= 1 && All(code.value, 1, |code.value|, IsIdChar)
      && CreateVideoNode(u).value.media.src == "https://instagram.com/p/" + code.value + "/embed/"
  {
    ChosenAs(u, 1);
    assert InstagramMatchText(u).Some?;
  }

  /**
    The Vine source: the whole match, then `/embed/simple`. `VineMatchText`
    says which text of the url the whole match is.
   */
  lemma VineSource(u: string)
    requires EmbeddedAs(u, Vine)
    ensures var whole := VineMatch(u);
      && whole.Some? && |whole.value| > 12 && whole.value[..12] == "//vine.co/v/" && All(whole.value, 12, |whole.value|, IsAlnum)
      && CreateVideoNode(u).value.media.src == whole.value + "/embed/simple"
  {
    ChosenAs(u, 2);
  }

  /** The Vimeo source: capture group 3, a run of digits. */
  lemma VimeoSource(u: string)
    requires EmbeddedAs(u, Vimeo)
    ensures var id := VimeoId(u);
      && id.Some? && |id.value| >= 1 && All(id.value, 0, |id.value|, IsDigit)
      && CreateVideoNode(u).value.media.src == "//player.vimeo.com/video/" + id.value
  {
    ChosenAs(u, 3);
  }

  /** The Dailymotion source: capture group 2, a run without `_`. */
  lemma DailymotionSource(u: string)
    requires EmbeddedAs(u, Dailymotion)
    ensures var id := DailymotionId(u);
      && id.Some? && |id.value| >= 1 && All(id.value, 0, |id.value|, IsNotUnderscore)
      && CreateVideoNode(u).value.media.src == "//www.dailymotion.com/embed/video/" + id.value
  {
    ChosenAs(u, 4);
  }

  /** The Youku source: capture group 1, a run of word characters. */
  lemma YoukuSource(u: string)
    requires EmbeddedAs(u, Youku)
    ensures var id := YoukuId(u);
      && id.Some? && |id.value| >= 1 && All(id.value, 0, |id.value|, IsWordChar)
      && CreateVideoNode(u).value.media.src == "//player.youku.com/embed/" + id.value
  {
    ChosenAs(u, 5);
  }
}
