/**
  The YouTube pattern of `createVideoNode`:

    ^(?:https?:\/\/)?(?:www\.)?(?:youtu\.be\/|youtube\.com\/(?:embed\/|v\/|watch\?v=|watch\?.+&v=))((\w|-){11})(?:\S+)?$

  It is anchored at both ends. The optional scheme and `www.` are never given
  back by backtracking (without them the next character could not start
  `youtu`), so the only choice the engine revisits is the path alternative, and
  inside `watch\?.+&v=` the greedy `.+`, which settles on the LAST `&v=` that
  works. `YouTubeMatch` returns the position of the 11-character id.
 */
module YouTubePattern {
  import opened Wrappers
  import opened Text

  /** After `(?:https?:\/\/)?`. */
  function SchemeEnd(u: string): nat {
    if LitAt(u, 0, "https://") then 8 else if LitAt(u, 0, "http://") then 7 else 0
  }

  /** After `(?:www\.)?`. */
  function WwwEnd(u: string, p: nat): nat {
    if LitAt(u, p, "www.") then p + 4 else p
  }

  /** `((\w|-){11})(?:\S+)?$` at `p`: 11 id characters, then only non-white space to the end. */
  predicate IdTailAt(u: string, p: nat) {
    p + 11 <= |u| && All(u, p, p + 11, IsIdChar) && All(u, p + 11, |u|, IsNonWhitespace)
  }

  /** `&v=` followed by a valid id and tail, at `k`; yields the id position. */
  function AmpVAt(u: string, k: nat): Option<nat> {
    if LitAt(u, k, "&v=") && IdTailAt(u, k + 3) then Some(k + 3) else None
  }

  /** The path alternatives after `youtube.com/`, tried in the order the pattern lists them. */
  function LongPathMatch(u: string, q: nat): (r: Option<nat>)
    requires q <= |u|
    ensures r.Some? ==> q < r.value && IdTailAt(u, r.value)
  {
    if LitAt(u, q, "embed/") then (if IdTailAt(u, q + 6) then Some(q + 6) else None)
    else if LitAt(u, q, "v/") then (if IdTailAt(u, q + 2) then Some(q + 2) else None)
    else if LitAt(u, q, "watch?v=") && IdTailAt(u, q + 8) then Some(q + 8)
    else if LitAt(u, q, "watch?") then
      match Rightmost<nat>(u, q + 6, RunEnd(u, q + 6, IsDot), AmpVAt)
      case Some((_, p)) => Some(p)
      case None => None
    else None
  }

  /** The match as the engine finds it: the position of capture group 1. */
  function YouTubeMatch(u: string): (r: Option<nat>)
    ensures r.Some? ==> IdTailAt(u, r.value)
  {
    YouTubeMatchAt(u, WwwEnd(u, SchemeEnd(u)))
  }

  /** Capture group 1: the video id, always exactly 11 characters long. */
  function YouTubeId(u: string): (r: Option<string>)
    ensures r.Some? ==> |r.value| == 11 && All(r.value, 0, 11, IsIdChar)
  {
    match YouTubeMatch(u)
    case Some(p) => YouTubeMatchSound(u); Some(u[p..p + 11])
    case None => None
  }

  // ------------------------------------------------------------------------
  // The language of the pattern, stated without any search order.

  /** `watch\?.+&v=` after `youtube.com/`. */
  predicate IsWatchAmpPath(s: string) {
    |s| >= 22 && s[..18] == "youtube.com/watch?" && s[|s| - 3..] == "&v=" && All(s, 18, |s| - 3, IsDot)
  }

  /** `youtu\.be\/|youtube\.com\/(?:embed\/|v\/|watch\?v=|watch\?.+&v=)` */
  predicate IsYouTubePath(s: string) {
    s == "youtu.be/" || s == "youtube.com/embed/" || s == "youtube.com/v/"
    || s == "youtube.com/watch?v=" || IsWatchAmpPath(s)
  }

  /** `(?:www\.)?` then a path. */
  predicate IsYouTubeHostPath(s: string) {
    IsYouTubePath(s) || (|s| >= 4 && s[..4] == "www." && IsYouTubePath(s[4..]))
  }

  /** Everything the pattern accepts before the id. */
  predicate IsYouTubePrefix(s: string) {
    IsYouTubeHostPath(s)
    || (|s| >= 7 && s[..7] == "http://" && IsYouTubeHostPath(s[7..]))
    || (|s| >= 8 && s[..8] == "https://" && IsYouTubeHostPath(s[8..]))
  }

  /** The url is accepted by the pattern with the id starting at `p`. */
  predicate IsYouTubeUrl(u: string, p: nat) {
    p <= |u| && IsYouTubePrefix(u[..p]) && IdTailAt(u, p)
  }

  // ------------------------------------------------------------------------
  // Soundness and completeness of the search against the language.

  /** Every path begins with the `y` of `youtu`. */
  lemma PathFirstChar(t: string)
    ensures IsYouTubePath(t) ==> |t| > 0 && t[0] == 'y'
  {
    if IsWatchAmpPath(t) {
      assert t[0] == t[..18][0];
    }
  }

  /** A host-and-path begins with `w` or `y`, never with the `h` of a scheme. */
  lemma HostPathFirstChar(t: string)
    requires IsYouTubeHostPath(t)
    ensures |t| > 0 && (t[0] == 'w' || t[0] == 'y')
  {
    if IsYouTubePath(t) {
      PathFirstChar(t);
    } else {
      assert t[0] == t[..4][0];
    }
  }

  /** The `watch\?.+&v=` alternative, with the `&v=` the greedy `.+` settles on at `k`. */
  lemma WatchAmpSound(u: string, q: nat, k: nat)
    requires 12 <= q && q + 6 < k && k + 3 <= |u|
    requires LitAt(u, q - 12, "youtube.com/") && LitAt(u, q, "watch?") && LitAt(u, k, "&v=")
    requires All(u, q + 6, k, IsDot)
    ensures IsWatchAmpPath(u[q - 12..k + 3])
  {
    var s := u[q - 12..k + 3];
    LitAtConcat(u, q - 12, "youtube.com/", "watch?");
    assert s[..18] == u[q - 12..q + 6];
    assert s[|s| - 3..] == u[k..k + 3];
    forall j | 18 <= j < |s| - 3
      ensures IsDot(s[j])
    {
      assert s[j] == u[q - 12 + j];
    }
  }

  /** What `LongPathMatch` accepts after `youtube.com/` is a path of the pattern's language. */
  lemma LongPathSound(u: string, q: nat)
    requires 12 <= q <= |u| && LitAt(u, q - 12, "youtube.com/")
    ensures LongPathMatch(u, q).Some? ==>
      var r := LongPathMatch(u, q).value;
      q <= r <= |u| && IsYouTubePath(u[q - 12..r]) && IdTailAt(u, r)
  {
    if LongPathMatch(u, q).Some? {
      var r := LongPathMatch(u, q).value;
      if LitAt(u, q, "embed/") {
        LitAtConcat(u, q - 12, "youtube.com/", "embed/");
      } else if LitAt(u, q, "v/") {
        LitAtConcat(u, q - 12, "youtube.com/", "v/");
      } else if LitAt(u, q, "watch?v=") && IdTailAt(u, q + 8) {
        LitAtConcat(u, q - 12, "youtube.com/", "watch?v=");
      } else {
        var m := Rightmost<nat>(u, q + 6, RunEnd(u, q + 6, IsDot), AmpVAt);
        assert m.Some? && m.value.1 == r;
        WatchAmpSettled(u, q, m.value.0, r);
      }
    }
  }

  /** The `&v=` at `k` that the give-back search settles on after `watch?` closes a `watch\?.+&v=` path. */
  lemma WatchAmpSettled(u: string, q: nat, k: nat, r: nat)
    requires 12 <= q <= |u| && LitAt(u, q - 12, "youtube.com/") && LitAt(u, q, "watch?")
    requires q + 6 < k <= RunEnd(u, q + 6, IsDot) && AmpVAt(u, k) == Some(r)
    ensures q <= r <= |u| && IsYouTubePath(u[q - 12..r]) && IdTailAt(u, r)
  {
    assert r == k + 3 && LitAt(u, k, "&v=");
    WatchAmpSound(u, q, k);
  }

  /** The search finds only urls of the pattern's language. */
  lemma YouTubeMatchSound(u: string)
    ensures YouTubeMatch(u).Some? ==> IsYouTubeUrl(u, YouTubeMatch(u).value)
  {
    if YouTubeMatch(u).Some? {
      var r := YouTubeMatch(u).value;
      var sc := SchemeEnd(u);
      var p := WwwEnd(u, sc);
      if LitAt(u, p, "youtu.be/") {
        assert u[p..r] == "youtu.be/";
      } else {
        LongPathSound(u, p + 12);
      }
      assert IsYouTubePath(u[p..r]);
      var t := u[sc..r];
      if p == sc + 4 {
        assert t[..4] == u[sc..sc + 4] && t[4..] == u[p..r];
      } else {
        assert t == u[p..r];
      }
      assert IsYouTubeHostPath(t);
      var w := u[..r];
      if sc == 8 {
        assert w[..8] == u[..8] && w[8..] == t;
      } else if sc == 7 {
        assert w[..7] == u[..7] && w[7..] == t;
      } else {
        assert w == t;
      }
    }
  }

  /** Every path other than `youtu.be/` begins with `youtube.com/`. */
  lemma LongPathHead(s: string)
    requires IsYouTubePath(s) && s != "youtu.be/"
    ensures |s| >= 13 && s[..12] == "youtube.com/"
  {
    if IsWatchAmpPath(s) {
      assert s[..12] == s[..18][..12];
    }
  }

  /** Completeness after `youtube.com/`: a listed alternative followed by an id is found. */
  lemma LongPathComplete(u: string, q: nat, p: nat)
    requires 12 <= q <= p <= |u| && LitAt(u, q - 12, "youtube.com/")
    requires IsYouTubePath(u[q - 12..p]) && IdTailAt(u, p)
    ensures LongPathMatch(u, q).Some?
  {
    var s := u[q - 12..p];
    LongPathHead(s);
    var t := s[12..];
    assert t == u[q..p];
    assert u[q] == t[0];
    if t == "embed/" {
      SliceLitAt(u, q, p, "embed/");
    } else if t == "v/" {
      NotLitAt(u, q, "embed/", 0);
      SliceLitAt(u, q, p, "v/");
    } else if !(LitAt(u, q, "watch?v=") && IdTailAt(u, q + 8)) {
      assert t != "watch?v=" by {
        if t == "watch?v=" { SliceLitAt(u, q, p, "watch?v="); }
      }
      assert IsWatchAmpPath(s);
      WatchAmpComplete(u, q, p);
    } else {
      NotLitAt(u, q, "embed/", 0);
      NotLitAt(u, q, "v/", 0);
    }
  }

  /** The `watch\?.+&v=` alternative: the `&v=` before the id is one the greedy search can settle on. */
  lemma WatchAmpComplete(u: string, q: nat, p: nat)
    requires 12 <= q <= p <= |u| && IsWatchAmpPath(u[q - 12..p]) && IdTailAt(u, p)
    ensures !LitAt(u, q, "embed/") && !LitAt(u, q, "v/") && LitAt(u, q, "watch?")
    ensures Rightmost<nat>(u, q + 6, RunEnd(u, q + 6, IsDot), AmpVAt).Some?
  {
    WatchAmpParts(u, q, p);
    NotLitAt(u, q, "embed/", 0);
    NotLitAt(u, q, "v/", 0);
    var k := p - 3;
    assert AmpVAt(u, k) == Some(p);
    RunEndCovers(u, q + 6, k, IsDot);
    RightmostSome<nat>(u, q + 6, RunEnd(u, q + 6, IsDot), k, AmpVAt);
  }

  /** Where the parts of a `watch\?.+&v=` path sit in the url. */
  lemma WatchAmpParts(u: string, q: nat, p: nat)
    requires 12 <= q <= p <= |u| && IsWatchAmpPath(u[q - 12..p])
    ensures q + 6 < p - 3 && LitAt(u, q, "watch?") && u[q] == 'w' && LitAt(u, p - 3, "&v=")
    ensures All(u, q + 6, p - 3, IsDot)
  {
    var s := u[q - 12..p];
    var h := s[..18];
    assert h == u[q - 12..q + 6];
    assert u[q..q + 6] == h[12..];
    assert u[q] == h[12];
    assert u[p - 3..p] == s[|s| - 3..];
    forall j | q + 6 <= j < p - 3
      ensures IsDot(u[j])
    {
      assert u[j] == s[j - (q - 12)];
    }
  }

  /** The path layer of completeness: a path of the language followed by an id is found. */
  lemma PathComplete(u: string, pp: nat, p: nat)
    requires pp <= p <= |u| && IsYouTubePath(u[pp..p]) && IdTailAt(u, p)
    ensures YouTubeMatchAt(u, pp).Some?
  {
    var s := u[pp..p];
    if s == "youtu.be/" {
      SliceLitAt(u, pp, p, "youtu.be/");
    } else {
      LongPathHead(s);
      assert u[pp..pp + 12] == s[..12];
      assert u[pp + 5] == s[5];
      NotLitAt(u, pp, "youtu.be/", 5);
      LongPathComplete(u, pp + 12, p);
    }
  }

  /** The match from the position after the optional scheme and `www.`. */
  function YouTubeMatchAt(u: string, p: nat): (r: Option<nat>)
    ensures r.Some? ==> p < r.value && IdTailAt(u, r.value)
  {
    if LitAt(u, p, "youtu.be/") then (if IdTailAt(u, p + 9) then Some(p + 9) else None)
    else if LitAt(u, p, "youtube.com/") then LongPathMatch(u, p + 12)
    else None
  }

  /** `watch\?v=` is tried before `watch\?.+&v=`: when it works, its id is the one taken. */
  lemma WatchVFirst(u: string)
    requires var pp := WwwEnd(u, SchemeEnd(u));
      LitAt(u, pp, "youtube.com/") && LitAt(u, pp + 12, "watch?v=") && IdTailAt(u, pp + 20)
    ensures YouTubeMatch(u) == Some(WwwEnd(u, SchemeEnd(u)) + 20)
  {
    var pp := WwwEnd(u, SchemeEnd(u));
    LitAtChar(u, pp, "youtube.com/", 5);
    NotLitAt(u, pp, "youtu.be/", 5);
    LitAtChar(u, pp + 12, "watch?v=", 0);
    NotLitAt(u, pp + 12, "embed/", 0);
    NotLitAt(u, pp + 12, "v/", 0);
  }

  /**
    Otherwise, after `watch?` the greedy `.+` settles on the LAST `&v=` that is
    followed by a valid id and tail: no later `&v=` works.
   */
  lemma WatchAmpLast(u: string)
    requires var pp := WwwEnd(u, SchemeEnd(u));
      && LitAt(u, pp, "youtube.com/") && LitAt(u, pp + 12, "watch?")
      && !(LitAt(u, pp + 12, "watch?v=") && IdTailAt(u, pp + 20))
    ensures YouTubeMatch(u).Some? ==>
      var r := YouTubeMatch(u).value;
      && WwwEnd(u, SchemeEnd(u)) + 21 <= r && AmpVAt(u, r - 3) == Some(r)
      && forall k :: r - 3 < k ==> AmpVAt(u, k).None?
  {
    var q := WwwEnd(u, SchemeEnd(u)) + 12;
    WatchRoute(u);
    AmpVLast(u, q + 6);
    var m := Rightmost<nat>(u, q + 6, RunEnd(u, q + 6, IsDot), AmpVAt);
    assert YouTubeMatch(u) == if m.Some? then Some(m.value.1) else None;
  }

  /** After `youtube.com/watch?` without a working `watch?v=`, the match is the give-back search's. */
  lemma WatchRoute(u: string)
    requires var pp := WwwEnd(u, SchemeEnd(u));
      && LitAt(u, pp, "youtube.com/") && LitAt(u, pp + 12, "watch?")
      && !(LitAt(u, pp + 12, "watch?v=") && IdTailAt(u, pp + 20))
    ensures var q := WwwEnd(u, SchemeEnd(u)) + 12;
      && q + 6 <= |u|
      && YouTubeMatch(u) == match Rightmost<nat>(u, q + 6, RunEnd(u, q + 6, IsDot), AmpVAt)
         case Some((_, p)) => Some(p)
         case None => None
  {
    WatchHead(u, WwwEnd(u, SchemeEnd(u)));
  }

  /** `youtube.com/watch?` at `pp` rules out `youtu.be/`, `embed/` and `v/`. */
  lemma WatchHead(u: string, pp: nat)
    requires LitAt(u, pp, "youtube.com/") && LitAt(u, pp + 12, "watch?")
    ensures !LitAt(u, pp, "youtu.be/") && !LitAt(u, pp + 12, "embed/") && !LitAt(u, pp + 12, "v/")
  {
    LitAtChar(u, pp, "youtube.com/", 5);
    NotLitAt(u, pp, "youtu.be/", 5);
    LitAtChar(u, pp + 12, "watch?", 0);
    NotLitAt(u, pp + 12, "embed/", 0);
    NotLitAt(u, pp + 12, "v/", 0);
  }

  /** The `&v=` the give-back search settles on is the last one followed by a valid id and tail. */
  lemma AmpVLast(u: string, lo: nat)
    requires lo <= |u|
    ensures var m := Rightmost<nat>(u, lo, RunEnd(u, lo, IsDot), AmpVAt);
      m.Some? ==>
        && lo < m.value.0 && m.value.1 == m.value.0 + 3 && AmpVAt(u, m.value.0) == Some(m.value.1)
        && forall k :: m.value.0 < k ==> AmpVAt(u, k).None?
  {
    var hi := RunEnd(u, lo, IsDot);
    var m := Rightmost<nat>(u, lo, hi, AmpVAt);
    if m.Some? {
      var k0, r := m.value.0, m.value.1;
      assert r == k0 + 3 && LitAt(u, k0, "&v=") && IdTailAt(u, r);
      forall k | k0 < k
        ensures AmpVAt(u, k).None?
      {
        if hi < k && AmpVAt(u, k).Some? {
          // the `.+` stopped at a line terminator, yet none follows the settled `&v=`
          assert hi < |u| && !IsDot(u[hi]);
          if hi < r {
            LitAtChar(u, k0, "&v=", hi - k0);
          }
          assert false;
        }
      }
    }
  }

  /** Every url of the pattern's language is found by the search. */
  lemma YouTubeMatchComplete(u: string, p: nat)
    requires IsYouTubeUrl(u, p)
    ensures YouTubeMatch(u).Some?
  {
    var sc := SchemeEnd(u);
    SchemeComplete(u, p);
    var t := u[sc..p];
    var pp := WwwEnd(u, sc);
    WwwComplete(u, sc, p);
    PathComplete(u, pp, p);
  }

  /** The scheme the engine takes is the one the url was written with. */
  lemma SchemeComplete(u: string, p: nat)
    requires IsYouTubeUrl(u, p)
    ensures SchemeEnd(u) <= p && IsYouTubeHostPath(u[SchemeEnd(u)..p])
  {
    var w := u[..p];
    if |w| >= 8 && w[..8] == "https://" && IsYouTubeHostPath(w[8..]) {
      HttpsComplete(u, p);
    } else if |w| >= 7 && w[..7] == "http://" && IsYouTubeHostPath(w[7..]) {
      HttpComplete(u, p);
    } else {
      NoSchemeComplete(u, p);
    }
  }

  lemma HttpsComplete(u: string, p: nat)
    requires 8 <= p <= |u| && u[..8] == "https://" && IsYouTubeHostPath(u[8..p])
    ensures SchemeEnd(u) == 8
  {
  }

  lemma HttpComplete(u: string, p: nat)
    requires 7 <= p <= |u| && u[..p][..7] == "http://" && IsYouTubeHostPath(u[..p][7..])
    ensures SchemeEnd(u) == 7 && u[7..p] == u[..p][7..]
  {
    var w := u[..p];
    HostPathFirstChar(w[7..]);
    assert u[..7] == w[..7] && u[7] == w[7..][0];
    NotLitAt(u, 0, "https://", 4);
  }

  lemma NoSchemeComplete(u: string, p: nat)
    requires p <= |u| && IsYouTubeHostPath(u[..p])
    ensures SchemeEnd(u) == 0
  {
    var w := u[..p];
    HostPathFirstChar(w);
    assert u[0] == w[0];
    NotLitAt(u, 0, "https://", 0);
    NotLitAt(u, 0, "http://", 0);
  }

  /** The `www.` the engine takes is the one the url was written with. */
  lemma WwwComplete(u: string, sc: nat, p: nat)
    requires sc <= p <= |u| && IsYouTubeHostPath(u[sc..p])
    ensures WwwEnd(u, sc) <= p && IsYouTubePath(u[WwwEnd(u, sc)..p])
  {
    var t := u[sc..p];
    PathFirstChar(t);
    if LitAt(u, sc, "www.") {
      assert t[..4] == "www." && t[0] == 'w';
      assert u[sc + 4..p] == t[4..];
    } else if |t| >= 4 {
      assert u[sc..sc + 4] == t[..4];
    }
  }

  // ------------------------------------------------------------------------
  // The url forms written out.

  predicate IsScheme(scheme: string) {
    scheme == "" || scheme == "http://" || scheme == "https://"
  }

  predicate IsWww(www: string) {
    www == "" || www == "www."
  }

  /** The four paths with a fixed text (every path but `watch?<...>&v=`). */
  predicate IsFixedPath(path: string) {
    path == "youtu.be/" || path == "youtube.com/embed/" || path == "youtube.com/v/" || path == "youtube.com/watch?v="
  }

  lemma FixedSchemeEnd(u: string, scheme: string, rest: string)
    requires IsScheme(scheme) && u == scheme + rest && |rest| > 0 && (rest[0] == 'w' || rest[0] == 'y')
    ensures SchemeEnd(u) == |scheme|
  {
    assert u[..|scheme|] == scheme;
    if scheme == "https://" {
      SliceLitAt(u, 0, 8, "https://");
    } else if scheme == "http://" {
      SliceLitAt(u, 0, 7, "http://");
      assert u[4] == scheme[4];
      NotLitAt(u, 0, "https://", 4);
    } else {
      assert u[0] == rest[0];
      NotLitAt(u, 0, "https://", 0);
      NotLitAt(u, 0, "http://", 0);
    }
  }

  lemma FixedWwwEnd(u: string, b: nat, www: string, rest: string)
    requires IsWww(www) && b + |www| + |rest| == |u| && u[b..] == www + rest && |rest| > 0 && rest[0] == 'y'
    ensures WwwEnd(u, b) == b + |www|
  {
    if www == "www." {
      assert u[b..b + 4] == u[b..][..4];
    } else {
      assert u[b] == u[b..][0];
      NotLitAt(u, b, "www.", 0);
    }
  }

  /** After a fixed path the id is the 11 characters written there: `watch?v=` is tried before `watch?.+&v=`. */
  lemma FixedPathMatch(u: string, c: nat, path: string)
    requires IsFixedPath(path) && c + |path| <= |u| && u[c..c + |path|] == path && IdTailAt(u, c + |path|)
    ensures YouTubeMatchAt(u, c) == Some(c + |path|)
  {
    var q := c + 12;
    if path == "youtu.be/" {
      SliceLitAt(u, c, c + 9, "youtu.be/");
    } else {
      assert u[c..c + 12] == path[..12];
      SliceLitAt(u, c, c + 12, "youtube.com/");
      assert u[c + 5] == path[5];
      NotLitAt(u, c, "youtu.be/", 5);
      assert u[q..c + |path|] == path[12..];
      assert u[q] == path[12];
      if path == "youtube.com/embed/" {
        SliceLitAt(u, q, q + 6, "embed/");
      } else if path == "youtube.com/v/" {
        NotLitAt(u, q, "embed/", 0);
        SliceLitAt(u, q, q + 2, "v/");
      } else {
        NotLitAt(u, q, "embed/", 0);
        NotLitAt(u, q, "v/", 0);
        SliceLitAt(u, q, q + 8, "watch?v=");
      }
    }
  }

  /** Every fixed path begins with the `y` of `youtu`. */
  lemma FixedPathFirst(path: string)
    requires IsFixedPath(path)
    ensures |path| > 0 && path[0] == 'y'
  {
  }

  /** The scheme and `www.` the engine skips are the ones written; the path follows them. */
  lemma FixedPrefix(scheme: string, www: string, path: string, rest: string)
    requires IsScheme(scheme) && IsWww(www) && IsFixedPath(path)
    ensures var u, c := scheme + www + path + rest, |scheme| + |www|;
      WwwEnd(u, SchemeEnd(u)) == c && c + |path| <= |u| && u[c..c + |path|] == path
  {
    var u := scheme + www + path + rest;
    var b := |scheme|;
    var pr := path + rest;
    var wr := www + pr;
    FixedPathFirst(path);
    WwwRestFirst(www, pr);
    Concat4(scheme, www, path, rest);
    FixedSchemeEnd(u, scheme, wr);
    FixedWwwEnd(u, b, www, pr);
  }

  lemma WwwRestFirst(www: string, pr: string)
    requires IsWww(www) && |pr| > 0 && pr[0] == 'y'
    ensures var wr := www + pr; |wr| > 0 && (wr[0] == 'w' || wr[0] == 'y')
  {
    if www == "" { assert www + pr == pr; }
  }

  /** How the four parts of `a + b + c + d` sit in it. */
  lemma Concat4(a: string, b: string, c: string, d: string)
    ensures var u := a + b + c + d;
      && u == a + (b + (c + d))
      && u[|a|..] == b + (c + d)
      && u[|a| + |b|..] == c + d
      && u[|a| + |b|..|a| + |b| + |c|] == c
  {
    var u := a + b + c + d;
    assert u[|a| + |b|..|a| + |b| + |c|] == u[|a| + |b|..][..|c|];
  }

  /**
    Any scheme, `www.` and fixed path, then 11 id characters and a tail without
    white space: the id found is exactly the 11 characters after the path. A
    longer id is therefore cut to its first 11 characters (the rest is tail).
   */
  lemma YouTubeFixedForm(scheme: string, www: string, path: string, id: string, tail: string)
    requires IsScheme(scheme) && IsWww(www) && IsFixedPath(path)
    requires |id| == 11 && All(id, 0, 11, IsIdChar) && All(tail, 0, |tail|, IsNonWhitespace)
    ensures YouTubeId(scheme + www + path + id + tail) == Some(id)
  {
    var u := scheme + www + path + id + tail;
    var c := |scheme| + |www|;
    var p := c + |path|;
    var it := id + tail;
    assert u == scheme + www + path + it;
    FixedPrefix(scheme, www, path, it);
    assert u[p..] == it;
    assert IdTailAt(u, p) by {
      IdTailSlice(u, p, id, tail);
    }
    assert u[p..p + 11] == id by {
      assert u[p..p + 11] == u[p..][..11];
    }
    FixedPathMatch(u, c, path);
  }

  /** An id and a tail written at `p` make the url end in an id and a tail there. */
  lemma IdTailSlice(u: string, p: nat, id: string, tail: string)
    requires p <= |u| && u[p..] == id + tail
    requires |id| == 11 && All(id, 0, 11, IsIdChar) && All(tail, 0, |tail|, IsNonWhitespace)
    ensures IdTailAt(u, p)
  {
    forall k | p <= k < p + 11 ensures IsIdChar(u[k]) {
      assert u[k] == u[p..][k - p] == id[k - p];
    }
    forall k | p + 11 <= k < |u| ensures IsNonWhitespace(u[k]) {
      assert u[k] == u[p..][k - p] == tail[k - p - 11];
    }
  }

  /** Fewer than 11 characters after a fixed path leave every alternative without an id. */
  lemma FixedPathShort(u: string, c: nat, path: string)
    requires IsFixedPath(path) && c + |path| <= |u| < c + |path| + 11 && u[c..c + |path|] == path
    ensures YouTubeMatchAt(u, c).None?
  {
    var q := c + 12;
    if path == "youtu.be/" {
      SliceLitAt(u, c, c + 9, "youtu.be/");
    } else {
      assert u[c..c + 12] == path[..12];
      assert u[c + 5] == path[5];
      NotLitAt(u, c, "youtu.be/", 5);
      assert u[q..c + |path|] == path[12..];
      assert u[q] == path[12];
      if path == "youtube.com/embed/" {
        SliceLitAt(u, q, q + 6, "embed/");
      } else if path == "youtube.com/v/" {
        NotLitAt(u, q, "embed/", 0);
        SliceLitAt(u, q, q + 2, "v/");
      } else {
        NotLitAt(u, q, "embed/", 0);
        NotLitAt(u, q, "v/", 0);
        assert u[q..q + 6] == u[q..c + |path|][..6] == "watch?";
        SliceLitAt(u, q, q + 6, "watch?");
        var e := RunEnd(u, q + 6, IsDot);
        forall k | q + 6 < k <= e
          ensures AmpVAt(u, k).None?
        {
        }
        RightmostNoneIf<nat>(u, q + 6, e, AmpVAt);
      }
    }
  }

  /** An id shorter than 11 characters at the end of the url is not a YouTube url. */
  lemma YouTubeShortIdRejected(scheme: string, www: string, path: string, id: string)
    requires IsScheme(scheme) && IsWww(www) && IsFixedPath(path) && |id| < 11
    ensures YouTubeMatch(scheme + www + path + id).None?
  {
    FixedPrefix(scheme, www, path, id);
    FixedPathShort(scheme + www + path + id, |scheme| + |www|, path);
  }
}
