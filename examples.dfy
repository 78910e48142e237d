/**
  Urls worked through the whole chain of `createVideoNode`: YouTube and Vimeo
  urls, a raw `.webm` file, a url no branch recognises, the empty url that
  Enter submits from an empty field, and a url two branches would accept.
 */
module RecognitionExamples {
  import opened Wrappers
  import opened Text
  import opened ProviderPatterns
  import opened Recognition
  import Dialog

  // ------------------------------------------------------------------------
  // Branches that cannot apply to a url.

  /** Without a `g` there is no `instagram.com/p/` in the url. */
  lemma InstagramAbsent(u: string)
    requires 'g' !in u
    ensures InstagramMedia(u).None?
  {
    NoLitWithout(u, "www.instagram.com/p/", 'g');
    NoLitWithout(u, "//instagram.com/p/", 'g');
    LeftmostNone(u, 0, InstagramAt);
  }

  /** Without `//vine.co/v/` in the url the Vine branch does not apply. */
  lemma VineAbsent(u: string)
    requires forall k :: !LitAt(u, k, "//vine.co/v/")
    ensures VineMedia(u).None?
  {
    LeftmostNone(u, 0, VineAt);
  }

  /** Without `vimeo.com/` in the url the Vimeo branch does not apply. */
  lemma VimeoAbsent(u: string)
    requires forall k :: !LitAt(u, k, "vimeo.com/")
    ensures VimeoMedia(u).None?
  {
    LeftmostNone(u, 0, VimeoAt);
  }

  /** Without a `y` there is no `dailymotion` and no `youku` in the url. */
  lemma DailymotionYoukuAbsent(u: string)
    requires 'y' !in u
    ensures DailymotionMedia(u).None? && YoukuMedia(u).None?
  {
    NoLitWithout(u, "dailymotion", 'y');
    NoLitWithout(u, "//v.youku.com/v_show/id_", 'y');
    forall i | 0 <= i <= |u|
      ensures DailymotionFrom(u, i).None?
    {
      if i < |u| {
        RightmostNoneIf<nat>(u, i, RunEnd(u, i, IsDot), DailymotionAt);
      }
    }
    LeftmostNone(u, 0, DailymotionFrom);
    LeftmostNone(u, 0, YoukuAt);
  }

  /** A url that starts with `https://` and then neither `www.` nor `youtu` is not a YouTube url. */
  lemma YouTubeAbsent(u: string)
    requires |u| > 8 && u[..8] == "https://" && u[8] != 'w' && u[8] != 'y'
    ensures YouTubeMedia(u).None?
  {
    SliceLitAt(u, 0, 8, "https://");
    NotLitAt(u, 8, "www.", 0);
    NotLitAt(u, 8, "youtu.be/", 0);
    NotLitAt(u, 8, "youtube.com/", 0);
  }

  // ------------------------------------------------------------------------
  // The chain, once the branches that apply are known.

  /** Only the Vimeo branch of the first four applies: the Vimeo player is embedded. */
  lemma PicksVimeo(u: string, id: string)
    requires YouTubeMedia(u).None? && InstagramMedia(u).None? && VineMedia(u).None? && VimeoId(u) == Some(id)
    ensures CreateVideoNode(u)
      == Some(Clip(WrapperClass, Media(Vimeo, IFrame, "//player.vimeo.com/video/" + id, 640, 360, FullscreenAttrs, [ClipClass])))
  {
    var m := Media(Vimeo, IFrame, "//player.vimeo.com/video/" + id, 640, 360, FullscreenAttrs, []);
    assert VimeoMedia(u) == Some(m);
    assert Wrap(m) == Clip(WrapperClass, m.(classes := [ClipClass]));
  }

  /** No provider branch applies but a raw-file pattern does: the url is played as it is. */
  lemma PicksRawFile(u: string)
    requires YouTubeMedia(u).None? && InstagramMedia(u).None? && VineMedia(u).None?
    requires VimeoMedia(u).None? && DailymotionMedia(u).None? && YoukuMedia(u).None?
    requires Mp4Match(u) || OggMatch(u) || WebmMatch(u)
    ensures CreateVideoNode(u) == Some(Clip(WrapperClass, Media(RawFile, Video, u, 640, 360, map["controls" := ""], [ClipClass])))
  {
    var m := Media(RawFile, Video, u, 640, 360, map["controls" := ""], []);
    assert RawFileMedia(u) == Some(m);
    assert Wrap(m) == Clip(WrapperClass, m.(classes := [ClipClass]));
  }

  /** No branch applies: `false`. */
  lemma PicksNothing(u: string)
    requires YouTubeMedia(u).None? && InstagramMedia(u).None? && VineMedia(u).None?
    requires VimeoMedia(u).None? && DailymotionMedia(u).None? && YoukuMedia(u).None?
    requires !EndsWith(u, "mp4") && !EndsWith(u, "m4v") && !EndsWith(u, "ogg") && !EndsWith(u, "ogv") && !EndsWith(u, "webm")
    ensures CreateVideoNode(u).None?
  {
  }

  // ------------------------------------------------------------------------
  // YouTube.

  /** A watch url is embedded as its 11-character id. */
  lemma WatchUrl(id: string)
    requires id == "dQw4w9WgXcQ"
    ensures CreateVideoNode("https://www.youtube.com/watch?v=" + id)
      == Some(Clip(WrapperClass, Media(YouTube, IFrame, "//www.youtube.com/embed/" + id, 640, 360, IFrameAttrs, [ClipClass])))
  {
    assert All(id, 0, 11, IsIdChar);
    assert "https://" + "www." + "youtube.com/watch?v=" + id + "" == "https://www.youtube.com/watch?v=" + id;
    YouTubeFormEmbedded("https://", "www.", "youtube.com/watch?v=", id, "");
  }

  /**
    Precedence: `youtu.be/<id>.mp4` is also accepted by the raw-file pattern,
    but the YouTube branch is tried first and wins.
   */
  lemma YouTubeBeforeRawFile(id: string)
    requires |id| == 11 && All(id, 0, 11, IsIdChar)
    ensures Mp4Match("youtu.be/" + id + ".mp4")
    ensures CreateVideoNode("youtu.be/" + id + ".mp4")
      == Some(Clip(WrapperClass, Media(YouTube, IFrame, "//www.youtube.com/embed/" + id, 640, 360, IFrameAttrs, [ClipClass])))
  {
    var u := "youtu.be/" + id + ".mp4";
    assert All(".mp4", 0, 4, IsNonWhitespace);
    assert "" + "" + "youtu.be/" + id + ".mp4" == u;
    YouTubeFormEmbedded("", "", "youtu.be/", id, ".mp4");
    ShortMp4(id);
  }

  /** `youtu.be/<id>.mp4` ends in `mp4` and holds no line terminator. */
  lemma ShortMp4(id: string)
    requires |id| == 11 && All(id, 0, 11, IsIdChar)
    ensures Mp4Match("youtu.be/" + id + ".mp4")
  {
    var u := "youtu.be/" + id + ".mp4";
    assert All(u, 0, |u|, IsDot) by {
      forall k | 0 <= k < |u| ensures IsDot(u[k]) {
        if 9 <= k < 20 { assert u[k] == id[k - 9]; }
      }
    }
    assert u[|u| - 3..] == "mp4";
    assert RawFileWith(u, "mp4");
  }

  // ------------------------------------------------------------------------
  // Vimeo.

  /** Where the parts of `https://vimeo.com/<digits>` sit, and the letters it lacks. */
  lemma VimeoFormChars(digits: string)
    requires |digits| >= 1 && All(digits, 0, |digits|, IsDigit)
    ensures var u := "https://vimeo.com/" + digits;
      && u[..8] == "https://" && u[8] == 'v' && 'g' !in u && 'n' !in u
      && (forall k :: 0 <= k < 6 ==> u[k] != '/')
      && u[6..8] == "//" && u[8..18] == "vimeo.com/" && u[18..] == digits
  {
    var p := "https://vimeo.com/";
    var u := p + digits;
    forall k | 0 <= k < |u| ensures u[k] != 'g' && u[k] != 'n' {
      if k >= 18 { assert u[k] == digits[k - 18]; assert IsDigit(digits[k - 18]); }
      else { assert u[k] == p[k]; }
    }
    assert u[..18] == p;
  }

  /** The Vimeo pattern captures exactly the digits. */
  lemma VimeoFormId(digits: string)
    requires |digits| >= 1 && All(digits, 0, |digits|, IsDigit)
    ensures VimeoId("https://vimeo.com/" + digits) == Some(digits)
  {
    var u := "https://vimeo.com/" + digits;
    VimeoFormChars(digits);
    forall k | 0 <= k < 6
      ensures VimeoAt(u, k).None?
    {
      NotLitAt(u, k, "//", 0);
    }
    LeftmostSkip(u, 0, 6, VimeoAt);
    NotLitAt(u, 8, "player.", 0);
    SliceLitAt(u, 6, 8, "//");
    SliceLitAt(u, 8, 18, "vimeo.com/");
    assert !IsLower(u[18]) by { assert u[18] == digits[0]; }
    RunEndIs(u, 18, 18, IsLower);
    assert SegmentsEnd(u, 18) == 18;
    assert All(u, 18, |u|, IsDigit) by {
      forall k | 18 <= k < |u| ensures IsDigit(u[k]) { assert u[k] == u[18..][k - 18]; }
    }
    RunEndIs(u, 18, |u|, IsDigit);
    assert VimeoAt(u, 6) == Some((18, |u|));
    assert Leftmost(u, 6, VimeoAt) == Some((6, (18, |u|)));
    assert u[18..|u|] == digits;
  }

  /** `https://vimeo.com/<digits>` is embedded as the Vimeo player for that number. */
  lemma VimeoForm(digits: string)
    requires |digits| >= 1 && All(digits, 0, |digits|, IsDigit)
    ensures CreateVideoNode("https://vimeo.com/" + digits)
      == Some(Clip(WrapperClass, Media(Vimeo, IFrame, "//player.vimeo.com/video/" + digits, 640, 360, FullscreenAttrs, [ClipClass])))
  {
    var u := "https://vimeo.com/" + digits;
    VimeoFormChars(digits);
    YouTubeAbsent(u);
    InstagramAbsent(u);
    NoLitWithout(u, "//vine.co/v/", 'n');
    VineAbsent(u);
    VimeoFormId(digits);
    PicksVimeo(u, digits);
  }

  /** A Vimeo url is embedded as its number, with the fullscreen attributes. */
  lemma VimeoUrl(digits: string)
    requires digits == "76979871"
    ensures CreateVideoNode("https://vimeo.com/" + digits)
      == Some(Clip(WrapperClass, Media(Vimeo, IFrame, "//player.vimeo.com/video/" + digits, 640, 360, FullscreenAttrs, [ClipClass])))
  {
    assert All(digits, 0, |digits|, IsDigit);
    VimeoForm(digits);
  }

  // ------------------------------------------------------------------------
  // A raw file, an unknown url and the empty url.

  /**
    The facts about the literal `https://example.com/clip.webm` that `WebmUrl`
    needs. They are proved apart from the chain so that the prover does not
    unroll the literal inside `CreateVideoNode`.
   */
  lemma WebmLiteral(u: string)
    requires u == "https://example.com/clip.webm"
    ensures |u| > 8 && u[..8] == "https://" && u[8] == 'e'
    ensures 'g' !in u && 'y' !in u
  {
  }

  /** The other two letters it lacks, apart for the same reason. */
  lemma WebmLiteralLetters(u: string)
    requires u == "https://example.com/clip.webm"
    ensures 'n' !in u && 'v' !in u
  {
  }

  /** Its tail, apart for the same reason: no line terminator, and the `webm` suffix. */
  lemma WebmLiteralTail(u: string)
    requires u == "https://example.com/clip.webm"
    ensures All(u, 0, |u|, IsDot) && EndsWith(u, "webm")
  {
  }

  /** A `.webm` url is played by a `<video controls>` whose source is the url itself. */
  lemma WebmUrl(name: string)
    requires name == "clip"
    ensures var u := "https://example.com/" + name + ".webm";
      CreateVideoNode(u) == Some(Clip(WrapperClass, Media(RawFile, Video, u, 640, 360, map["controls" := ""], [ClipClass])))
  {
    var u := "https://example.com/" + name + ".webm";
    assert u == "https://example.com/clip.webm";
    WebmLiteral(u);
    WebmLiteralLetters(u);
    WebmLiteralTail(u);
    YouTubeAbsent(u);
    InstagramAbsent(u);
    NoLitWithout(u, "//vine.co/v/", 'n');
    VineAbsent(u);
    NoLitWithout(u, "vimeo.com/", 'v');
    VimeoAbsent(u);
    DailymotionYoukuAbsent(u);
    PicksRawFile(u);
  }

  /** The literal `https://example.com/not-a-video` that no branch recognises. */
  const Unknown: string := "https://example.com/not-a-video"

  /**
    Its head, the letters it lacks and its tail, which matches none of the
    raw-file suffixes; proved apart from the chain for the same reason as
    `WebmLiteral`.
   */
  lemma UnknownLiteral(u: string)
    requires u == Unknown
    ensures |u| > 8 && u[..8] == "https://" && u[8] == 'e' && 'g' !in u && 'y' !in u
    ensures !EndsWith(u, "mp4") && !EndsWith(u, "m4v") && !EndsWith(u, "ogg") && !EndsWith(u, "ogv") && !EndsWith(u, "webm")
  {
  }

  /** The only `//` is followed by `e`, never by `vine.co/v/`. */
  lemma UnknownNoVine(u: string)
    requires u == Unknown
    ensures forall k :: !LitAt(u, k, "//vine.co/v/")
  {
    assert forall k :: 0 <= k < |u| && u[k] == '/' ==> k + 1 < |u| && (k == 6 || u[k + 1] != '/');
    forall k: nat
      ensures !LitAt(u, k, "//vine.co/v/")
    {
      if k < |u| && u[k] == '/' {
        NotLitAt(u, k, "//vine.co/v/", if k == 6 then 2 else 1);
      } else {
        NotLitAt(u, k, "//vine.co/v/", 0);
      }
    }
  }

  /** The only `v` is followed by `id`, never by `imeo.com/`. */
  lemma UnknownNoVimeo(u: string)
    requires u == Unknown
    ensures forall k :: !LitAt(u, k, "vimeo.com/")
  {
    assert forall k :: 0 <= k < |u| && u[k] == 'v' ==> k + 2 < |u| && u[k + 2] != 'm';
    forall k: nat
      ensures !LitAt(u, k, "vimeo.com/")
    {
      if k < |u| && u[k] == 'v' {
        NotLitAt(u, k, "vimeo.com/", 2);
      } else {
        NotLitAt(u, k, "vimeo.com/", 0);
      }
    }
  }

  /** A url that no branch recognises builds nothing. */
  lemma UnknownUrl(name: string)
    requires name == "not-a-video"
    ensures CreateVideoNode("https://example.com/" + name).None?
  {
    var u := "https://example.com/" + name;
    assert u == Unknown;
    UnknownLiteral(u);
    YouTubeAbsent(u);
    InstagramAbsent(u);
    UnknownNoVine(u);
    VineAbsent(u);
    UnknownNoVimeo(u);
    VimeoAbsent(u);
    DailymotionYoukuAbsent(u);
    PicksNothing(u);
  }

  /** The empty url, which Enter submits from an empty field, builds nothing. */
  lemma EmptyUrl(u: string)
    requires u == ""
    ensures CreateVideoNode(u).None?
  {
    InstagramAbsent(u);
    VineAbsent(u);
    VimeoAbsent(u);
    DailymotionYoukuAbsent(u);
  }

  /** A session that submits an unrecognised url inserts nothing. */
  lemma UnknownUrlSession(d: Dialog.State, selected: string, name: string)
    requires Dialog.Inv(d) && !d.open && name == "not-a-video"
    ensures var url := "https://example.com/" + name;
      var r := Dialog.Run(d, [Dialog.Show(selected), Dialog.Shown, Dialog.Input(url), Dialog.Click, Dialog.Hidden]);
      r.log == d.log + [Dialog.SaveRange, Dialog.ShowDialog, Dialog.HideDialog, Dialog.RestoreRange]
  {
    var url := "https://example.com/" + name;
    UnknownUrl(name);
    Dialog.SubmitScenario(d, selected, url);
    assert Dialog.Inserted(url) == [];
  }
}
