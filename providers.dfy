/**
  The unanchored provider patterns of `createVideoNode` (Instagram, Vine, Vimeo,
  Dailymotion, Youku) and the three anchored raw-file patterns.

  An unanchored pattern is tried at every start position from the left; the
  first position where it matches is the match (`Leftmost`). Each `...At`
  function below is the pattern tried at one start position, following the
  backtracking order of the pattern's quantifiers.
 */
module ProviderPatterns {
  import opened Wrappers
  import opened Text

  // ------------------------------------------------------------------------
  // Instagram: (?:www\.|\/\/)instagram\.com\/p\/(.[a-zA-Z0-9_-]*)

  /** The pattern at start `i`; yields the start of capture group 1. */
  function InstagramAt(u: string, i: nat): (r: Option<nat>)
    ensures r.Some? ==> i + 18 <= r.value < |u| && IsDot(u[r.value])
    ensures r.Some? ==>
      (LitAt(u, i, "www.instagram.com/p/") && r.value == i + 20) || (LitAt(u, i, "//instagram.com/p/") && r.value == i + 18)
  {
    var j := if LitAt(u, i, "www.instagram.com/p/") then i + 20
             else if LitAt(u, i, "//instagram.com/p/") then i + 18
             else 0;
    if 0 < j < |u| && IsDot(u[j]) then Some(j) else None
  }

  /** Capture group 1: any one character, then the greedy run of `[a-zA-Z0-9_-]`. */
  function InstagramCode(u: string): (r: Option<string>)
    ensures r.Some? ==> |r.value| >= 1 && IsDot(r.value[0]) && All(r.value, 1, |r.value|, IsIdChar)
  {
    match Leftmost<nat>(u, 0, InstagramAt)
    case Some((_, j)) =>
      var e := RunEnd(u, j + 1, IsIdChar);
      assert forall k :: 1 <= k < e - j ==> u[j..e][k] == u[j + k];
      Some(u[j..e])
    case None => None
  }

  /** The whole match, `match[0]`: from `www.` or `//` to the end of capture group 1. */
  function InstagramMatchText(u: string): (r: Option<string>)
    ensures r.Some? ==> |r.value| >= 19
    ensures r.Some? <==> InstagramCode(u).Some?
  {
    match Leftmost<nat>(u, 0, InstagramAt)
    case Some((i, j)) => Some(u[i..RunEnd(u, j + 1, IsIdChar)])
    case None => None
  }

  /** The capture ends where the id characters end: what follows it is not one. */
  lemma InstagramCodeMaximal(u: string)
    ensures var m := Leftmost<nat>(u, 0, InstagramAt);
      m.None? <==> InstagramCode(u).None?
    ensures var m := Leftmost<nat>(u, 0, InstagramAt);
      m.Some? ==>
        var i, j, c := m.value.0, m.value.1, InstagramCode(u).value;
        && (LitAt(u, i, "www.instagram.com/p/") || LitAt(u, i, "//instagram.com/p/"))
        && j + |c| <= |u| && u[j..j + |c|] == c
        && (j + |c| == |u| || !IsIdChar(u[j + |c|]))
  {
    var m := Leftmost<nat>(u, 0, InstagramAt);
    if m.Some? {
      var i, j := m.value.0, m.value.1;
      assert InstagramAt(u, i) == Some(j);
      var e := RunEnd(u, j + 1, IsIdChar);
      assert InstagramCode(u) == Some(u[j..e]);
    }
  }

  /**
    The pattern matches at `i` exactly when one of the host literals is there
    and a character other than a line terminator follows it.
   */
  lemma InstagramAtIff(u: string, i: nat)
    ensures InstagramAt(u, i).Some? <==>
      || (LitAt(u, i, "www.instagram.com/p/") && i + 20 < |u| && IsDot(u[i + 20]))
      || (LitAt(u, i, "//instagram.com/p/") && i + 18 < |u| && IsDot(u[i + 18]))
  {
    if LitAt(u, i, "www.instagram.com/p/") {
      LitAtChar(u, i, "www.instagram.com/p/", 0);
      NotLitAt(u, i, "//instagram.com/p/", 0);
    }
  }

  // ------------------------------------------------------------------------
  // Vine: \/\/vine\.co\/v\/([a-zA-Z0-9]+)

  /** The pattern at start `i`; yields the end of the whole match. */
  function VineAt(u: string, i: nat): (r: Option<nat>)
    ensures r.Some? <==> LitAt(u, i, "//vine.co/v/") && i + 12 < |u| && IsAlnum(u[i + 12])
    ensures r.Some? ==> i + 13 <= r.value <= |u| && All(u, i + 12, r.value, IsAlnum)
    ensures r.Some? ==> r.value == |u| || !IsAlnum(u[r.value])
  {
    if LitAt(u, i, "//vine.co/v/") && i + 12 < |u| && IsAlnum(u[i + 12])
    then Some(RunEnd(u, i + 12, IsAlnum))
    else None
  }

  /** The whole match, `match[0]`: `//vine.co/v/` and the greedy run of letters and digits. */
  function VineMatch(u: string): (r: Option<string>)
    ensures r.Some? ==> |r.value| >= 13 && r.value[..12] == "//vine.co/v/" && All(r.value, 12, |r.value|, IsAlnum)
  {
    match Leftmost<nat>(u, 0, VineAt)
    case Some((i, e)) =>
      assert u[i..e][..12] == u[i..i + 12];
      assert forall k :: 12 <= k < e - i ==> u[i..e][k] == u[i + k];
      Some(u[i..e])
    case None => None
  }

  /**
    `match[0]` is the url's own text from the leftmost `//vine.co/v/` to the
    end of the run of letters and digits after it.
   */
  lemma VineMatchText(u: string)
    ensures var m := Leftmost<nat>(u, 0, VineAt);
      && (VineMatch(u).Some? <==> m.Some?)
      && (m.Some? ==>
        && LitAt(u, m.value.0, "//vine.co/v/") && m.value.0 + 12 < m.value.1 <= |u|
        && All(u, m.value.0 + 12, m.value.1, IsAlnum) && (m.value.1 == |u| || !IsAlnum(u[m.value.1]))
        && VineMatch(u).value == u[m.value.0..m.value.1])
  {
  }

  // ------------------------------------------------------------------------
  // Vimeo: \/\/(player\.)?vimeo\.com\/([a-z]*\/)*(\d+)[?]?.*

  /** The language of `([a-z]*\/)*`: letters and slashes, empty or ending in a slash. */
  predicate IsSegments(s: string) {
    All(s, 0, |s|, IsLowerOrSlash) && (s == [] || s[|s| - 1] == '/')
  }

  /** `([a-z]*\/)*` from `p`, greedy: as many `letters/` groups as there are. */
  function SegmentsEnd(u: string, p: nat): (r: nat)
    requires p <= |u|
    ensures p <= r <= |u| && IsSegments(u[p..r])
    decreases |u| - p
  {
    var e := RunEnd(u, p, IsLower);
    if e < |u| && u[e] == '/' then
      var r := SegmentsEnd(u, e + 1);
      SegmentsCons(u, p, e, r);
      r
    else p
  }

  /** A group `letters/` in front of groups is groups. */
  lemma SegmentsCons(u: string, p: nat, e: nat, r: nat)
    requires p <= e < r <= |u| && All(u, p, e, IsLower) && u[e] == '/' && IsSegments(u[e + 1..r])
    ensures IsSegments(u[p..r])
  {
    var s, t := u[p..r], u[e + 1..r];
    forall k | 0 <= k < |s|
      ensures IsLowerOrSlash(s[k])
    {
      if p + k > e {
        assert s[k] == t[p + k - e - 1];
      } else {
        assert s[k] == u[p + k];
      }
    }
    if r > e + 1 {
      assert s[|s| - 1] == t[|t| - 1];
    } else {
      assert s[|s| - 1] == u[e];
    }
  }

  /** After `vimeo.com/`, where the optional `player.` was taken if present. */
  function VimeoHostEnd(u: string, i: nat): nat {
    if LitAt(u, i + 2, "player.") then i + 19 else i + 12
  }

  /** The pattern at start `i`; yields capture group 3 as the range of its digits. */
  function VimeoAt(u: string, i: nat): (m: Option<(nat, nat)>)
    ensures m.Some? ==> m.value.0 < m.value.1 <= |u| && All(u, m.value.0, m.value.1, IsDigit)
  {
    var p := VimeoHostEnd(u, i);
    if LitAt(u, i, "//") && LitAt(u, p - 10, "vimeo.com/") then
      var r := SegmentsEnd(u, p);
      if r < |u| && IsDigit(u[r]) then Some((r, RunEnd(u, r, IsDigit))) else None
    else None
  }

  /** Capture group 3: the video number. */
  function VimeoId(u: string): (r: Option<string>)
    ensures r.Some? ==> |r.value| >= 1 && All(r.value, 0, |r.value|, IsDigit)
  {
    match Leftmost(u, 0, VimeoAt)
    case Some((_, (r, d))) =>
      assert forall k :: 0 <= k < d - r ==> u[r..d][k] == u[r + k];
      Some(u[r..d])
    case None => None
  }

  /**
    The greedy `([a-z]*\/)*` never has to give a group back: the only split of
    the text into groups followed by a digit is the one the greedy loop takes.
   */
  lemma {:induction false} SegmentsEndUnique(u: string, p: nat, r: nat)
    requires p <= r < |u| && IsSegments(u[p..r]) && IsDigit(u[r])
    ensures SegmentsEnd(u, p) == r
    decreases r - p
  {
    if p == r {
      RunEndIs(u, p, p, IsLower);
    } else {
      var e := RunEnd(u, p, IsLower);
      SegmentsFirstGroup(u, p, r);
      SegmentsEndUnique(u, e + 1, r);
    }
  }

  /** The first slash of non-empty groups ends the first group; the rest are groups again. */
  lemma SegmentsFirstGroup(u: string, p: nat, r: nat)
    requires p < r <= |u| && IsSegments(u[p..r])
    ensures var e := RunEnd(u, p, IsLower);
      e < r && u[e] == '/' && IsSegments(u[e + 1..r])
  {
    var s := u[p..r];
    var e := RunEnd(u, p, IsLower);
    assert s[|s| - 1] == u[r - 1];
    assert !IsLower(u[r - 1]);
    assert u[e] == s[e - p];
    var t := u[e + 1..r];
    forall k | 0 <= k < |t|
      ensures IsLowerOrSlash(t[k])
    {
      assert t[k] == s[k + e + 1 - p];
    }
    if |t| > 0 {
      assert t[|t| - 1] == s[|s| - 1];
    }
  }

  /** The pattern at `i` in the language's own terms: it matches exactly when the groups are followed by a digit. */
  lemma VimeoAtChar(u: string, i: nat, r: nat)
    requires LitAt(u, i, "//") && LitAt(u, VimeoHostEnd(u, i) - 10, "vimeo.com/")
    requires VimeoHostEnd(u, i) <= r < |u| && IsSegments(u[VimeoHostEnd(u, i)..r]) && IsDigit(u[r])
    ensures VimeoAt(u, i) == Some((r, RunEnd(u, r, IsDigit)))
  {
    SegmentsEndUnique(u, VimeoHostEnd(u, i), r);
  }

  /** The converse of `VimeoAtChar`: a match at `i` has the host, the groups and the digit run there. */
  lemma VimeoAtSound(u: string, i: nat)
    ensures VimeoAt(u, i).Some? ==>
      var h, r, d := VimeoHostEnd(u, i), VimeoAt(u, i).value.0, VimeoAt(u, i).value.1;
      && LitAt(u, i, "//") && LitAt(u, h - 10, "vimeo.com/")
      && h <= r < |u| && IsSegments(u[h..r]) && IsDigit(u[r])
      && d == RunEnd(u, r, IsDigit)
  {
  }

  // ------------------------------------------------------------------------
  // Dailymotion: .+dailymotion.com\/(video|hub)\/([^_]+)[^#]*(#video=([^_&]+))?

  /**
    `dailymotion.com\/(video|hub)\/([^_]+)` at `k` (the `.` in `dailymotion.com`
    is unescaped and matches any character); yields the start of capture group 2.
    What follows capture group 2 can always match the empty text.
   */
  function DailymotionAt(u: string, k: nat): (r: Option<nat>)
    ensures r.Some? ==> k + 20 <= r.value < |u| && IsNotUnderscore(u[r.value])
    ensures r.Some? ==> r.value == (if LitAt(u, k + 16, "video/") then k + 22 else k + 20)
    ensures r.Some? ==>
      && LitAt(u, k, "dailymotion") && LitAt(u, k + 12, "com/")
      && (LitAt(u, k + 16, "video/") || LitAt(u, k + 16, "hub/"))
  {
    if LitAt(u, k, "dailymotion") && k + 11 < |u| && IsDot(u[k + 11]) && LitAt(u, k + 12, "com/") then
      var v := if LitAt(u, k + 16, "video/") then k + 22
               else if LitAt(u, k + 16, "hub/") then k + 20
               else 0;
      if 0 < v < |u| && IsNotUnderscore(u[v]) then Some(v) else None
    else None
  }

  /**
    The provider text matches at `k` exactly when `dailymotion`, one character,
    `com/`, then `video/` or `hub/` are there and a character other than `_`
    follows.
   */
  lemma DailymotionAtIff(u: string, k: nat)
    ensures DailymotionAt(u, k).Some? <==>
      && LitAt(u, k, "dailymotion") && k + 11 < |u| && IsDot(u[k + 11]) && LitAt(u, k + 12, "com/")
      && (|| (LitAt(u, k + 16, "video/") && k + 22 < |u| && IsNotUnderscore(u[k + 22]))
          || (LitAt(u, k + 16, "hub/") && k + 20 < |u| && IsNotUnderscore(u[k + 20])))
  {
    if LitAt(u, k + 16, "video/") {
      LitAtChar(u, k + 16, "video/", 0);
      NotLitAt(u, k + 16, "hub/", 0);
    }
  }

  /** The pattern at start `i`: the greedy `.+` gives characters back from the right. */
  function DailymotionFrom(u: string, i: nat): (m: Option<(nat, nat)>)
    ensures m.Some? ==> m.value.1 < |u|
  {
    if i < |u| then Rightmost<nat>(u, i, RunEnd(u, i, IsDot), DailymotionAt) else None
  }

  /** Capture group 2: the greedy run of characters other than `_`. */
  function DailymotionId(u: string): (r: Option<string>)
    ensures r.Some? ==> |r.value| >= 1 && All(r.value, 0, |r.value|, IsNotUnderscore)
  {
    match Leftmost<(nat, nat)>(u, 0, DailymotionFrom)
    case Some((_, (_, v))) =>
      var e := RunEnd(u, v, IsNotUnderscore);
      assert forall k :: 0 <= k < e - v ==> u[v..e][k] == u[v + k];
      Some(u[v..e])
    case None => None
  }

  /**
    On a url without line terminators the greedy `.+` makes the LAST provider
    text with at least one character before it the one whose id is captured,
    and without such a text there is no match.
   */
  lemma DailymotionLast(u: string)
    requires All(u, 0, |u|, IsDot)
    ensures var last := Rightmost<nat>(u, 0, |u|, DailymotionAt);
      last.None? <==> DailymotionId(u).None?
    ensures var last := Rightmost<nat>(u, 0, |u|, DailymotionAt);
      last.Some? ==>
        var v := last.value.1;
        DailymotionId(u) == Some(u[v..RunEnd(u, v, IsNotUnderscore)])
  {
    if |u| > 0 {
      RunEndIs(u, 0, |u|, IsDot);
    }
    if Rightmost<nat>(u, 0, |u|, DailymotionAt).Some? {
      assert DailymotionFrom(u, 0).Some?;
    } else {
      forall i | 0 <= i <= |u|
        ensures DailymotionFrom(u, i).None?
      {
        if i < |u| {
          RightmostNone(u, i, RunEnd(u, i, IsDot));
        }
      }
      LeftmostNone(u, 0, DailymotionFrom);
    }
  }

  /** No provider text in `(0, |u|]` leaves none in any `(i, hi]` with `hi <= |u|`. */
  lemma RightmostNone(u: string, i: nat, hi: nat)
    requires hi <= |u| && Rightmost<nat>(u, 0, |u|, DailymotionAt).None?
    ensures Rightmost<nat>(u, i, hi, DailymotionAt).None?
  {
  }

  // ------------------------------------------------------------------------
  // Youku: \/\/v\.youku\.com\/v_show\/id_(\w+)=*\.html

  /** The pattern at start `i`; yields capture group 1 as a range. */
  function YoukuAt(u: string, i: nat): (m: Option<(nat, nat)>)
    ensures m.Some? ==> m.value.0 < m.value.1 <= |u| && All(u, m.value.0, m.value.1, IsWordChar)
  {
    if LitAt(u, i, "//v.youku.com/v_show/id_") then
      var j := i + 24;
      var w := RunEnd(u, j, IsWordChar);
      if j < w && LitAt(u, RunEnd(u, w, IsEquals), ".html") then Some((j, w)) else None
    else None
  }

  /** Capture group 1: the video id. */
  function YoukuId(u: string): (r: Option<string>)
    ensures r.Some? ==> |r.value| >= 1 && All(r.value, 0, |r.value|, IsWordChar)
  {
    match Leftmost(u, 0, YoukuAt)
    case Some((_, (j, w))) =>
      assert forall k :: 0 <= k < w - j ==> u[j..w][k] == u[j + k];
      Some(u[j..w])
    case None => None
  }

  /**
    `(\w+)=*\.html` has one way to match: whatever split of the text into
    word characters, `=` signs and `.html` exists, it is the greedy one.
   */
  lemma YoukuAtChar(u: string, i: nat, w: nat, e: nat)
    requires LitAt(u, i, "//v.youku.com/v_show/id_") && i + 24 < w <= e && e + 5 <= |u|
    requires All(u, i + 24, w, IsWordChar) && All(u, w, e, IsEquals) && LitAt(u, e, ".html")
    ensures YoukuAt(u, i) == Some((i + 24, w))
  {
    LitAtChar(u, e, ".html", 0);
    if w < e {
      RunEndIs(u, i + 24, w, IsWordChar);
    } else {
      RunEndIs(u, i + 24, w, IsWordChar);
    }
    RunEndIs(u, w, e, IsEquals);
  }

  /** The converse of `YoukuAtChar`: a match at `i` is the prefix, a maximal word run, `=` signs and `.html`. */
  lemma YoukuAtSound(u: string, i: nat)
    ensures YoukuAt(u, i).Some? ==>
      var j, w := YoukuAt(u, i).value.0, YoukuAt(u, i).value.1;
      var e := RunEnd(u, w, IsEquals);
      && LitAt(u, i, "//v.youku.com/v_show/id_") && j == i + 24 && j < w
      && All(u, j, w, IsWordChar) && (w == |u| || !IsWordChar(u[w]))
      && All(u, w, e, IsEquals) && LitAt(u, e, ".html")
  {
  }

  // ------------------------------------------------------------------------
  // Raw files: ^.+.(mp4|m4v)$   ^.+.(ogg|ogv)$   ^.+.(webm)$

  /** `^.+.` then the suffix: at least two characters before it and no line terminator anywhere. */
  predicate RawFileWith(u: string, suffix: string) {
    |u| >= |suffix| + 2 && All(u, 0, |u|, IsDot) && EndsWith(u, suffix)
  }

  predicate Mp4Match(u: string) {
    RawFileWith(u, "mp4") || RawFileWith(u, "m4v")
  }

  predicate OggMatch(u: string) {
    RawFileWith(u, "ogg") || RawFileWith(u, "ogv")
  }

  predicate WebmMatch(u: string) {
    RawFileWith(u, "webm")
  }
}
