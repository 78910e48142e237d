# summernote video dialog — a Dafny model

This project models the core of summernote's video dialog,
`src/js/base/module/VideoDialog.js`. It has two parts.

- **`createVideoNode(url)`** is the recognition engine. It tries the providers
  in a fixed order: YouTube, Instagram, Vine, Vimeo, Dailymotion, Youku, then a
  raw `mp4`/`m4v`/`ogg`/`ogv`/`webm` file. The first branch whose regular
  expression matches builds an `<iframe>` or a `<video controls>` element. The
  element gets the class `note-video-clip` and is wrapped in a
  `<div class="note-video-clip-wrapper">`. When no branch matches, the result
  is `false` (here `None`).
- **The dialog controller**: `show`, `showVideoDialog` and `bindEnterKey`. One
  session saves the selection range and shows the dialog. The shown handler
  pre-fills the field and binds the `input`, `click` and `keypress` handlers.
  A click resolves the deferred with the field's value. The hidden handler
  unbinds `input` and `click` and rejects the deferred if it is still pending.
  On resolution the controller hides the dialog, restores the range and inserts
  the node if the url is recognised. On rejection it only restores the range.

Files:

- `text.dfy` (module `Text`): JavaScript regular-expression character classes
  (`.`, `\s`, `\S`, `\w`, `\d`), greedy runs, and the leftmost-start and
  give-back-from-the-right search orders of a backtracking engine.
- `youtube.dfy` (module `YouTubePattern`): the anchored YouTube pattern. It is
  written both as a search in the engine's order and as the language the
  pattern accepts, with soundness and completeness lemmas linking the two.
- `providers.dfy` (module `ProviderPatterns`): the Instagram, Vine, Vimeo,
  Dailymotion and Youku patterns and the three raw-file patterns, each as a
  hand-written matcher in the engine's backtracking order.
- `recognition.dfy` (module `Recognition`): the branch chain, the element each
  branch builds, the same chain as an ordered provider table, and the
  precedence and element-shape lemmas.
- `dialog.dfy` (module `Dialog`): the controller as a value-level state machine
  (`State`, `Step`, `Run`) with lemmas about whole sessions. The class
  `VideoDialog` holds the same state in fields and updates it in place. Each of
  its event methods is proved to have the effect `Step` gives.
- `examples.dfy` (module `RecognitionExamples`): concrete urls worked through
  the whole chain.
- `wrappers.dfy` (module `Wrappers`): `Option`.

Where the code does something other than its provider list and its dialog
suggest, the model follows the code:

- **YouTube id length.** The YouTube pattern's `(?:\S+)?` absorbs whatever
  follows the 11 id characters. So an id written with more than 11 characters
  is not rejected: its first 11 characters are embedded (`YouTubeFixedForm`
  with a non-empty tail). Shorter ids never match (`YouTubeShortIdRejected`).
- **Dailymotion fragment.** The Dailymotion id is `[^_]+`. A `#video=...`
  fragment after the id is therefore part of the embedded id, not dropped.
- **Unescaped dots.** The `.` before `com` in the Dailymotion pattern and the
  `.` before the raw-file suffixes are not escaped. So `xxmp4` counts as an
  mp4 file, and `//www.dailymotionXcom/video/x` as a Dailymotion url.
- **Enter submits regardless.** `$btn.trigger('click')` runs the bound click
  handler even while the button is disabled. So Enter resolves the deferred
  even with an empty field (`EmptyUrl`: nothing is inserted then). A mouse
  click on a disabled button does nothing.
- **Button state carries over.** Pre-filling the field with `val(text)` does
  not fire `input`. The button keeps the state it had at the end of the
  previous session, and is disabled in the first session.
- **`keypress` is never unbound.** Each session binds one more `keypress`
  handler on the field. Enter then triggers several clicks, but resolution is
  idempotent, so the outcome is the same.

## Model

| member | source | states |
|---|---|---|
| Text.Leftmost | src/js/base/module/VideoDialog.js:55-68 | an unanchored `url.match` tries start positions from the left: the result is a start where the pattern matches and it fails at every earlier start; none means it fails everywhere |
| Text.Rightmost | src/js/base/module/VideoDialog.js:64 | a greedy `.+` gives characters back from the right: the result is the largest end that works and no larger one does; none means none works |
| YouTubePattern.YouTubeMatch | src/js/base/module/VideoDialog.js:52 | the match, as the id position: 11 id characters start there and only non-white space follows them to the end |
| YouTubePattern.LongPathMatch | src/js/base/module/VideoDialog.js:52 | after `youtube.com/` the alternatives `embed/`, `v/`, `watch?v=`, `watch?.+&v=` are tried in that order; a match is followed by 11 id characters and a tail without white space |
| YouTubePattern.WatchVFirst | src/js/base/module/VideoDialog.js:52 | when `watch?v=` is followed by a valid id and tail, that id is the one taken, even if a later `&v=` would also work |
| YouTubePattern.WatchAmpLast | src/js/base/module/VideoDialog.js:52 | otherwise, after `watch?` the greedy `.+` settles on the LAST `&v=` followed by a valid id and tail |
| YouTubePattern.YouTubeId | src/js/base/module/VideoDialog.js:52-53 | capture group 1 of the YouTube pattern is always exactly 11 characters, each a word character or `-` |
| YouTubePattern.YouTubeMatchSound | src/js/base/module/VideoDialog.js:52 | every id position the search finds lies in a url the pattern accepts: optional scheme, optional `www.`, one of the five paths, 11 id characters, no white space after |
| YouTubePattern.YouTubeMatchComplete | src/js/base/module/VideoDialog.js:52 | every url the pattern accepts, at any id position, is found by the search (no missed match through the search order) |
| YouTubePattern.YouTubeFixedForm | src/js/base/module/VideoDialog.js:52-53 | scheme, `www.`, a fixed path (`youtu.be/`, `embed/`, `v/`, `watch?v=`), an 11-character id and any tail without white space: the captured id is exactly that id |
| YouTubePattern.YouTubeShortIdRejected | src/js/base/module/VideoDialog.js:52 | with an id shorter than 11 characters and nothing after it, the pattern does not match |
| ProviderPatterns.InstagramAt | src/js/base/module/VideoDialog.js:55 | at one start: `www.instagram.com/p/` or `//instagram.com/p/`, then capture group 1 begins right after it, inside the url, at a character that is not a line terminator |
| ProviderPatterns.InstagramCode | src/js/base/module/VideoDialog.js:55-56 | capture group 1 is one arbitrary non-line-terminator character followed only by `[a-zA-Z0-9_-]` characters |
| ProviderPatterns.InstagramMatchText | src/js/base/module/VideoDialog.js:55-56 | `match[0]` exists exactly when capture group 1 does and is at least 19 characters long, so the branch's non-empty test always passes |
| ProviderPatterns.InstagramAtIff | src/js/base/module/VideoDialog.js:55 | the pattern matches at one start if and only if `www.instagram.com/p/` or `//instagram.com/p/` is there and a character other than a line terminator follows it |
| ProviderPatterns.InstagramCodeMaximal | src/js/base/module/VideoDialog.js:55 | the match starts at a host literal, the capture is the text at its start, and it stops only at the end of the url or at a character outside `[a-zA-Z0-9_-]` |
| ProviderPatterns.VineAt | src/js/base/module/VideoDialog.js:58 | the pattern matches at one start if and only if `//vine.co/v/` is there followed by a letter or digit; the match then ends where that run of letters and digits ends |
| ProviderPatterns.VineMatch | src/js/base/module/VideoDialog.js:58-59 | `match[0]` is `//vine.co/v/` followed by one or more letters and digits |
| ProviderPatterns.VineMatchText | src/js/base/module/VideoDialog.js:58-59 | `match[0]` exists exactly when the pattern matches at some start, and is the url's own text from the leftmost `//vine.co/v/` to the end of the whole run of letters and digits after it |
| ProviderPatterns.SegmentsEnd | src/js/base/module/VideoDialog.js:61 | the greedy `([a-z]*\/)*` consumes text made of lower-case letters and slashes that is empty or ends in a slash |
| ProviderPatterns.VimeoAt | src/js/base/module/VideoDialog.js:61 | at one start the capture is a non-empty range of digits |
| ProviderPatterns.VimeoId | src/js/base/module/VideoDialog.js:61-62 | capture group 3 is a non-empty run of digits |
| ProviderPatterns.SegmentsEndUnique | src/js/base/module/VideoDialog.js:61 | any split of the text into `letters/` groups followed by a digit is the one the greedy iteration takes, so it never backtracks |
| ProviderPatterns.VimeoAtChar | src/js/base/module/VideoDialog.js:61 | after `//`, an optional `player.` and `vimeo.com/`, groups followed by a digit make the pattern match at that start, capturing the whole digit run |
| ProviderPatterns.VimeoAtSound | src/js/base/module/VideoDialog.js:61 | conversely, a match at one start has `//`, the optional `player.`, `vimeo.com/`, `letters/` groups and a digit there, and captures the whole digit run |
| ProviderPatterns.DailymotionAt | src/js/base/module/VideoDialog.js:64 | at one position: `dailymotion`, any character, `com/`, then `video/` or `hub/`; capture group 2 begins right after `video/` or `hub/`, inside the url, at a character other than `_` |
| ProviderPatterns.DailymotionAtIff | src/js/base/module/VideoDialog.js:64 | the provider text matches at one position if and only if `dailymotion`, a character that is not a line terminator, `com/`, then `video/` or `hub/` are there and a character other than `_` follows |
| ProviderPatterns.DailymotionFrom | src/js/base/module/VideoDialog.js:64 | a match from one start places capture group 2 inside the url |
| ProviderPatterns.DailymotionId | src/js/base/module/VideoDialog.js:64-65 | capture group 2 is a non-empty run of characters other than `_` |
| ProviderPatterns.DailymotionLast | src/js/base/module/VideoDialog.js:64 | on a url without line terminators, the captured id is the one after the LAST provider text that has a character before it; without such a text there is no match |
| ProviderPatterns.YoukuAt | src/js/base/module/VideoDialog.js:67 | at one start the capture is a non-empty range of word characters |
| ProviderPatterns.YoukuId | src/js/base/module/VideoDialog.js:67-68 | capture group 1 is a non-empty run of word characters |
| ProviderPatterns.YoukuAtChar | src/js/base/module/VideoDialog.js:67 | any split of the text into word characters, `=` signs and `.html` after `//v.youku.com/v_show/id_` is the match, capturing the word characters |
| ProviderPatterns.YoukuAtSound | src/js/base/module/VideoDialog.js:67 | conversely, a match at one start is the prefix, a whole run of word characters (the capture), `=` signs and `.html` |
| ProviderPatterns.RawFileWith | src/js/base/module/VideoDialog.js:76-81 | `^.+.` then a suffix then the end: at least two characters before the suffix and no line terminator anywhere |
| ProviderPatterns.Mp4Match | src/js/base/module/VideoDialog.js:76-77 | the url ends in `mp4` or `m4v` as `RawFileWith` reads it |
| ProviderPatterns.OggMatch | src/js/base/module/VideoDialog.js:79-80 | the url ends in `ogg` or `ogv` as `RawFileWith` reads it |
| ProviderPatterns.WebmMatch | src/js/base/module/VideoDialog.js:82-83 | the url ends in `webm` as `RawFileWith` reads it |
| Recognition.YouTubeMedia | src/js/base/module/VideoDialog.js:86-91 | the YouTube branch builds a YouTube element |
| Recognition.InstagramMedia | src/js/base/module/VideoDialog.js:92-98 | the Instagram branch builds an Instagram element |
| Recognition.VineMedia | src/js/base/module/VideoDialog.js:99-104 | the Vine branch builds a Vine element |
| Recognition.VimeoMedia | src/js/base/module/VideoDialog.js:105-109 | the Vimeo branch builds a Vimeo element |
| Recognition.DailymotionMedia | src/js/base/module/VideoDialog.js:110-114 | the Dailymotion branch builds a Dailymotion element |
| Recognition.YoukuMedia | src/js/base/module/VideoDialog.js:115-120 | the Youku branch builds a Youku element |
| Recognition.RawFileMedia | src/js/base/module/VideoDialog.js:121-124 | the raw-file branch builds a raw-file element |
| Recognition.Wrap | src/js/base/module/VideoDialog.js:130-133 | the media element gets `note-video-clip` after its own classes, nothing else of it changes, and it is wrapped in a `note-video-clip-wrapper` |
| Recognition.CreateVideoNode | src/js/base/module/VideoDialog.js:130-133 | every node built is a `note-video-clip-wrapper` whose media element carries `note-video-clip` |
| Recognition.Candidate | src/js/base/module/VideoDialog.js:86-124 | the `k`-th branch of the provider table builds an element of provider `Precedence[k]` |
| Recognition.FirstApplicable | src/js/base/module/VideoDialog.js:86-128 | the first branch from `k` on that applies: it applies, and no branch between `k` and it does |
| Recognition.TableResult | src/js/base/module/VideoDialog.js:86-128 | the ordered provider table's result: nothing exactly when no row applies, otherwise an element of a provider in the table |
| Recognition.FirstMatchWins | src/js/base/module/VideoDialog.js:86-128 | the if/else chain builds exactly what the first applicable row of the ordered provider table builds |
| Recognition.RecognisedAs | src/js/base/module/VideoDialog.js:86-128 | a url is embedded as provider `k` if and only if branch `k` applies and no earlier branch does |
| Recognition.TableAs | src/js/base/module/VideoDialog.js:86-128 | the same if-and-only-if, stated of the ordered table |
| Recognition.NotRecognised | src/js/base/module/VideoDialog.js:125-128 | nothing is built if and only if no branch applies |
| Recognition.Chosen | src/js/base/module/VideoDialog.js:86-133 | a built node is the wrapped element of the first applicable branch, and its provider is that branch's |
| Recognition.ChosenAs | src/js/base/module/VideoDialog.js:86-133 | a node embedded as provider `k` is the wrapped element that branch `k` builds |
| Recognition.YouTubeEmbed | src/js/base/module/VideoDialog.js:52-53 | embedded as YouTube if and only if the YouTube pattern accepts the url; the element is a 640×360 iframe of `//www.youtube.com/embed/` plus the 11 characters after the path, with `frameborder="0"` |
| Recognition.YouTubeFormEmbedded | src/js/base/module/VideoDialog.js:86-91 | every fixed-path YouTube url with an 11-character id is embedded as that id, whatever tail without white space follows |
| Recognition.YouTubeShortIdFallsThrough | src/js/base/module/VideoDialog.js:86 | a YouTube-shaped url with a short id is not embedded as YouTube; the later branches decide it |
| Recognition.RawFileEmbed | src/js/base/module/VideoDialog.js:76-83 | a raw-file embed is a 640×360 `<video controls>` whose source is the url verbatim, and the url ends in one of the five suffixes with at least two characters before it |
| Recognition.EmbedShape | src/js/base/module/VideoDialog.js:86-133 | classes (`vine-embed` only for Vine, then `note-video-clip`), `frameborder="0"` on every iframe, fullscreen attributes exactly for Vimeo and Youku, each provider's size, Instagram's `scrolling` and `allowtransparency` |
| Recognition.CandidateShape | src/js/base/module/VideoDialog.js:86-124 | the same shape for the element of any one branch, before the shared class is added |
| Recognition.InstagramSource | src/js/base/module/VideoDialog.js:92-98 | an Instagram embed's source is `https://instagram.com/p/` + capture group 1 + `/embed/` |
| Recognition.VineSource | src/js/base/module/VideoDialog.js:99-104 | a Vine embed's source is the whole match (`//vine.co/v/` and letters and digits, the url's own text as `VineMatchText` states) + `/embed/simple` |
| Recognition.VimeoSource | src/js/base/module/VideoDialog.js:105-109 | a Vimeo embed's source is `//player.vimeo.com/video/` + the digits of capture group 3 |
| Recognition.DailymotionSource | src/js/base/module/VideoDialog.js:110-114 | a Dailymotion embed's source is `//www.dailymotion.com/embed/video/` + capture group 2 |
| Recognition.YoukuSource | src/js/base/module/VideoDialog.js:115-120 | a Youku embed's source is `//player.youku.com/embed/` + capture group 1 |
| Dialog.Step | src/js/base/module/VideoDialog.js:41-198 | one event never removes a logged host call or a `keypress` handler; the shown and input events make no host call and leave the deferred as it is |
| Dialog.Run | src/js/base/module/VideoDialog.js:136-198 | a sequence of events, those the dialog layer cannot deliver dropped, never removes a logged call or a `keypress` handler |
| Dialog.Inserted | src/js/base/module/VideoDialog.js:145-150 | at most one `insertNode`, made exactly when the url is recognised |
| Dialog.StepInv | src/js/base/module/VideoDialog.js:162-198 | every deliverable event keeps the listener bookkeeping consistent: `input` and `click` are bound exactly between shown and hidden |
| Dialog.SettlesOnce | src/js/base/module/VideoDialog.js:181-193 | once resolved or rejected, no event but a new `show()` changes the outcome or makes a host call |
| Dialog.ButtonTracksInput | src/js/base/module/VideoDialog.js:170-172 | with the handler bound, the button is enabled if and only if the field is non-empty, and a click on an emptied field does nothing |
| Dialog.HiddenUnbinds | src/js/base/module/VideoDialog.js:187-194 | hidden unbinds `input` and `click`, keeps every `keypress` handler, and cancels exactly a pending session |
| Dialog.StepInSession | src/js/base/module/VideoDialog.js:167-185 | any event other than `show()` and hidden keeps a session's log to `saveRange`, `showDialog` and, once resolved, the calls of the `then` callback |
| Dialog.RunInSession | src/js/base/module/VideoDialog.js:167-185 | the same for any sequence of such events |
| Dialog.SessionOutcome | src/js/base/module/VideoDialog.js:136-198 | a whole session either resolves (`saveRange`, `showDialog`, `hideDialog`, `restoreRange`, then `insertNode` exactly when recognised) or cancels (`saveRange`, `showDialog`, `restoreRange`); `input` and `click` end unbound and one more `keypress` handler is bound |
| Dialog.HiddenEndsSession | src/js/base/module/VideoDialog.js:139-153 | the hidden event closes a session in progress: resolved, with `hideDialog`, `restoreRange` and the insert when recognised, or cancelled, with `restoreRange` only; `input` and `click` unbound, one more `keypress` handler kept |
| Dialog.SessionCalls | src/js/base/module/VideoDialog.js:139-153 | a session calls `restoreRange` exactly once and `insertNode` at most once, and only for a resolved, recognised url |
| Dialog.ResolvedCounts | src/js/base/module/VideoDialog.js:139-150 | a resolved session's calls hold one `restoreRange` and at most one insert, made only for a recognised url |
| Dialog.CancelledCounts | src/js/base/module/VideoDialog.js:151-153 | a cancelled session's calls hold one `restoreRange` and no insert |
| Dialog.SubmitScenario | src/js/base/module/VideoDialog.js:136-198 | show, shown, typing a non-empty url, click, hidden: resolved with that url, and the host calls are the submission's |
| Dialog.CancelScenario | src/js/base/module/VideoDialog.js:136-198 | show, shown, hidden: cancelled; only `saveRange`, `showDialog`, `restoreRange`; handlers unbound except `keypress` |
| Dialog.VideoDialog.constructor | src/js/base/module/VideoDialog.js:16-34 | after `initialize()`: empty field, disabled button, nothing bound, no session |
| Dialog.VideoDialog.Show | src/js/base/module/VideoDialog.js:136-139 | `show()` captures the selected text, logs `saveRange` and `showDialog`, and opens a pending session, as `Step` gives |
| Dialog.VideoDialog.Shown | src/js/base/module/VideoDialog.js:167-185 | the shown handler pre-fills the field and binds one `input`, `click` and `keypress` handler each, as `Step` gives |
| Dialog.VideoDialog.Input | src/js/base/module/VideoDialog.js:170-172 | each bound `input` handler sets the button from the field's emptiness, as `Step` gives |
| Dialog.VideoDialog.ResolveWithValue | src/js/base/module/VideoDialog.js:139-150 | resolving a pending deferred runs the `then` callback: `hideDialog`, `restoreRange`, `insertNode` when recognised; otherwise nothing changes |
| Dialog.VideoDialog.DispatchClick | src/js/base/module/VideoDialog.js:178-182 | every bound click handler resolves with the field's value |
| Dialog.VideoDialog.Click | src/js/base/module/VideoDialog.js:178-182 | a mouse click does nothing on a disabled button and resolves otherwise, as `Step` gives |
| Dialog.VideoDialog.EnterKey | src/js/base/module/VideoDialog.js:41-48 | every bound `keypress` handler triggers the click handlers, even on a disabled button, as `Step` gives |
| Dialog.VideoDialog.Hidden | src/js/base/module/VideoDialog.js:187-194 | the hidden handler unbinds `input` and `click` and rejects a pending deferred, whose `fail` callback restores the range, as `Step` gives |
| RecognitionExamples.InstagramAbsent | src/js/base/module/VideoDialog.js:55 | a url without `g` does not reach the Instagram branch |
| RecognitionExamples.VineAbsent | src/js/base/module/VideoDialog.js:58 | a url without `//vine.co/v/` does not reach the Vine branch |
| RecognitionExamples.VimeoAbsent | src/js/base/module/VideoDialog.js:61 | a url without `vimeo.com/` does not reach the Vimeo branch |
| RecognitionExamples.DailymotionYoukuAbsent | src/js/base/module/VideoDialog.js:64-67 | a url without `y` reaches neither the Dailymotion nor the Youku branch |
| RecognitionExamples.YouTubeAbsent | src/js/base/module/VideoDialog.js:52 | `https://` followed by neither `w` nor `y` is not a YouTube url |
| RecognitionExamples.PicksVimeo | src/js/base/module/VideoDialog.js:105-109 | when only Vimeo among the first four branches applies, the Vimeo player for the captured number is embedded |
| RecognitionExamples.PicksRawFile | src/js/base/module/VideoDialog.js:121-124 | when no provider applies and a raw-file pattern does, the url itself is played |
| RecognitionExamples.PicksNothing | src/js/base/module/VideoDialog.js:125-128 | when no branch applies, `false` |
| RecognitionExamples.WatchUrl | src/js/base/module/VideoDialog.js:86-91 | `https://www.youtube.com/watch?v=dQw4w9WgXcQ` is embedded as `//www.youtube.com/embed/dQw4w9WgXcQ` |
| RecognitionExamples.YouTubeBeforeRawFile | src/js/base/module/VideoDialog.js:86-124 | `youtu.be/<id>.mp4` matches the mp4 pattern too, but the YouTube branch wins |
| RecognitionExamples.ShortMp4 | src/js/base/module/VideoDialog.js:76 | `youtu.be/<id>.mp4` matches the mp4 pattern |
| RecognitionExamples.VimeoFormId | src/js/base/module/VideoDialog.js:61 | the Vimeo pattern captures exactly the digits of `https://vimeo.com/<digits>` |
| RecognitionExamples.VimeoForm | src/js/base/module/VideoDialog.js:105-109 | every `https://vimeo.com/<digits>` is embedded as `//player.vimeo.com/video/<digits>` with the fullscreen attributes |
| RecognitionExamples.VimeoUrl | src/js/base/module/VideoDialog.js:105-109 | `https://vimeo.com/76979871` is embedded as `//player.vimeo.com/video/76979871` |
| RecognitionExamples.WebmUrl | src/js/base/module/VideoDialog.js:121-124 | `https://example.com/clip.webm` is played by a `<video controls>` whose source is that url |
| RecognitionExamples.UnknownUrl | src/js/base/module/VideoDialog.js:125-128 | `https://example.com/not-a-video` builds nothing |
| RecognitionExamples.EmptyUrl | src/js/base/module/VideoDialog.js:125-128 | the empty url, which Enter can submit, builds nothing |
| RecognitionExamples.UnknownUrlSession | src/js/base/module/VideoDialog.js:139-150 | submitting an unrecognised url hides the dialog and restores the range, and inserts nothing |

## Left out

- `initialize()` markup and `destroy()`: the dialog's HTML, its i18n labels
  and its removal are presentation. The constructor models only the state
  `initialize()` leaves: an empty field and a disabled button.
- jQuery and the DOM: elements are records (`Clip`, `Media`). Attribute order
  and jQuery's string-valued `width`/`height` are not modelled; sizes are
  numbers.
- `editor.getSelectedText` is a parameter of `Show`. `editor.saveRange`,
  `restoreRange`, `insertNode` and the dialog layer's `showDialog`/`hideDialog`
  are entries in a call log. Their effects on the editor are not modelled.
- `triggerEvent('dialog.shown')` and the autofocus on non-touch platforms
  (`env.isSupportTouch`) change nothing the controller decides, so they are
  left out.
- The two Tencent (`v.qq.com`) patterns are matched by the source but never
  used in a branch, so they are left out.
- Keys other than Enter in the url field do nothing, so they are not events.
- Asynchrony: the deferred's `then`/`fail` callbacks run within the event that
  settles it. Delivery order is given by the event sequence.
- Dialog.VideoDialog.Show: requires the previous session's dialog to be
  hidden. The source does not guard a second `show()` while a session is open,
  and what the dialog layer then does is not part of this model; `Run` drops
  such an event. A hidden event before the shown event is likewise not
  delivered.
- Characters: a JavaScript string is UTF-16 code units, and here a string is
  a sequence of Unicode scalar values. A character outside the Basic
  Multilingual Plane counts as one character here but as two code units to
  the `.` of the source. This matters only where a `.` of a pattern meets
  such a character.
- RecognitionExamples: the concrete urls are passed as parameters fixed by
  `requires`. This keeps the prover from unrolling long literals.
