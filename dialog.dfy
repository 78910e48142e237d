/**
  The dialog controller of `VideoDialog`: `show`, `showVideoDialog` and
  `bindEnterKey`. One session runs from `show()` to the dialog's hidden event:

    show()   saves the selection range, creates a deferred (pending), registers
             one-shot shown/hidden handlers and shows the dialog;
    shown    puts the selected text in the url field and binds an `input`
             handler (the submit button is enabled exactly when the field is
             non-empty), a `click` handler on the button (resolves the deferred
             with the field's value) and a `keypress` handler on the field
             (Enter triggers a click on the button);
    hidden   unbinds the `input` and `click` handlers (never `keypress`) and
             rejects the deferred if it is still pending.

  On resolution the controller hides the dialog, restores the range and inserts
  the recognised node if there is one; on rejection it restores the range.

  `State` is the controller's state as a value and `Step` the effect of one
  event; the class `VideoDialog` holds the same state in fields and has one
  method per event, each proved to have the effect `Step` describes.
 */
module Dialog {
  import opened Wrappers
  import Recognition

  /** The deferred of the latest session: `Idle` before the first one, `Cancelled` once rejected. */
  datatype Phase = Idle | Awaiting | Resolved(url: string) | Cancelled

  /** A call the controller makes into the editor or the dialog layer, in the order made. */
  datatype HostCall = SaveRange | ShowDialog | HideDialog | RestoreRange | InsertNode(node: Recognition.Clip)

  /** What drives the controller: the user's command, the dialog layer's events and the user's input. */
  datatype Event =
    | Show(selected: string)   // `show()`, with the editor's selected text
    | Shown                    // the dialog's shown event
    | Input(text: string)      // the user edits the url field, which then holds `text`
    | Click                    // a mouse click on the submit button
    | EnterKey                 // Enter pressed in the url field
    | Hidden                   // the dialog's hidden event

  datatype State = State(
    phase: Phase,
    open: bool,                // the session's hidden handler has not fired yet
    shownPending: bool,        // the session's shown handler has not fired yet
    text: string,              // the selected text `show` captured, put in the field when shown
    value: string,             // the url field's value
    buttonEnabled: bool,       // the submit button is not disabled
    inputHandlers: nat,        // `input` handlers bound on the url field
    clickHandlers: nat,        // `click` handlers bound on the submit button
    keypressHandlers: nat,     // `keypress` handlers bound on the url field
    log: seq<HostCall>)

  /** After `initialize()`: an empty field, a disabled button, nothing bound, nothing called. */
  const Initial: State := State(Idle, false, false, "", "", false, 0, 0, 0, [])

  /** The consistency of the listener bookkeeping with the session's progress. */
  predicate Inv(d: State) {
    && (d.shownPending ==> d.open)
    && (d.open ==> d.phase.Awaiting? || d.phase.Resolved?)
    && (!d.open ==> !d.phase.Awaiting?)
    && (if d.open && !d.shownPending then d.inputHandlers == 1 && d.clickHandlers == 1
        else d.inputHandlers == 0 && d.clickHandlers == 0)
  }

  /**
    The events the dialog layer can deliver in a state. A second `show()` while
    a session is open is left unspecified by the source; it is excluded here.
    The field and the button can be used only while the dialog is open, and the
    hidden event follows the shown event.
   */
  predicate Enabled(d: State, e: Event) {
    match e
    case Show(_) => !d.open
    case Shown => d.shownPending
    case Hidden => d.open && !d.shownPending
    case _ => d.open
  }

  /** The calls made by the deferred's `then` callback for a submitted url. */
  function OnResolved(url: string): seq<HostCall> {
    [HideDialog, RestoreRange] + Inserted(url)
  }

  /** `insertNode` exactly when `createVideoNode` recognises the url. */
  function Inserted(url: string): (r: seq<HostCall>)
    ensures |r| <= 1
    ensures r != [] <==> Recognition.CreateVideoNode(url).Some?
  {
    match Recognition.CreateVideoNode(url)
    case Some(node) => [InsertNode(node)]
    case None => []
  }

  /** `deferred.resolve(value)`: effective only while pending, and the `then` callback runs. */
  function Resolve(d: State, url: string): State {
    if d.phase == Awaiting then d.(phase := Resolved(url), log := d.log + OnResolved(url)) else d
  }

  /** The effect of one event. */
  function Step(d: State, e: Event): (r: State)
    ensures d.log <= r.log
    ensures d.keypressHandlers <= r.keypressHandlers
    ensures e.Shown? || e.Input? ==> r.log == d.log && r.phase == d.phase
  {
    match e
    case Show(selected) =>
      d.(phase := Awaiting, open := true, shownPending := true, text := selected,
         log := d.log + [SaveRange, ShowDialog])
    case Shown =>
      d.(shownPending := false, value := d.text,
         inputHandlers := d.inputHandlers + 1, clickHandlers := d.clickHandlers + 1,
         keypressHandlers := d.keypressHandlers + 1)
    case Input(s) =>
      d.(value := s, buttonEnabled := if d.inputHandlers > 0 then s != "" else d.buttonEnabled)
    case Click =>
      // a disabled button receives no click
      if d.buttonEnabled && d.clickHandlers > 0 then Resolve(d, d.value) else d
    case EnterKey =>
      // `trigger('click')` runs the bound click handlers even on a disabled button
      if d.keypressHandlers > 0 && d.clickHandlers > 0 then Resolve(d, d.value) else d
    case Hidden =>
      var pending := d.phase == Awaiting;
      d.(open := false, inputHandlers := 0, clickHandlers := 0,
         phase := if pending then Cancelled else d.phase,
         log := d.log + if pending then [RestoreRange] else [])
  }

  /** A sequence of events; one the dialog layer cannot deliver in the state reached is dropped. */
  function Run(d: State, es: seq<Event>): (r: State)
    ensures d.log <= r.log
    ensures d.keypressHandlers <= r.keypressHandlers
    decreases |es|
  {
    if es == [] then d
    else Run(if Enabled(d, es[0]) then Step(d, es[0]) else d, es[1..])
  }

  // ------------------------------------------------------------------------
  // Properties of single events.

  /** Every event the dialog layer can deliver keeps the listener bookkeeping consistent. */
  lemma StepInv(d: State, e: Event)
    requires Inv(d) && Enabled(d, e)
    ensures Inv(Step(d, e))
  {
  }

  /**
    The deferred settles at most once: once resolved or rejected, no event but
    a new `show()` changes the outcome, and no further host call is made.
   */
  lemma SettlesOnce(d: State, e: Event)
    requires Inv(d) && Enabled(d, e) && !e.Show? && !d.phase.Awaiting?
    ensures Step(d, e).phase == d.phase && Step(d, e).log == d.log
  {
  }

  /** With its handler bound, the submit button is enabled exactly when the field is non-empty. */
  lemma ButtonTracksInput(d: State, s: string)
    requires Inv(d) && d.open && !d.shownPending
    ensures Step(d, Input(s)).buttonEnabled <==> s != ""
    ensures Step(Step(d, Input("")), Click) == Step(d, Input(""))
  {
  }

  /** Hiding unbinds `input` and `click`, never `keypress`, and rejects only a pending deferred. */
  lemma HiddenUnbinds(d: State)
    requires Inv(d) && Enabled(d, Hidden)
    ensures var r := Step(d, Hidden);
      && r.inputHandlers == 0 && r.clickHandlers == 0 && r.keypressHandlers == d.keypressHandlers
      && (r.phase == Cancelled <==> d.phase == Awaiting)
  {
  }

  // ------------------------------------------------------------------------
  // Whole sessions.

  /**
    A session in progress that started from log `base` with `k0` keypress
    handlers: the log holds `saveRange` and `showDialog` and, once the deferred
    resolved with `url`, the calls of the `then` callback for that url.
   */
  predicate InSession(d: State, base: seq<HostCall>, k0: nat) {
    && Inv(d) && d.open
    && d.keypressHandlers == (if d.shownPending then k0 else k0 + 1)
    && match d.phase
       case Awaiting => d.log == base + [SaveRange, ShowDialog]
       case Resolved(url) => d.log == base + [SaveRange, ShowDialog] + OnResolved(url)
       case _ => false
  }

  /** One event inside a session keeps it in progress. */
  lemma StepInSession(d: State, e: Event, base: seq<HostCall>, k0: nat)
    requires InSession(d, base, k0) && Enabled(d, e) && !e.Show? && !e.Hidden?
    ensures InSession(Step(d, e), base, k0)
  {
    if e.Click? || e.EnterKey? {
      var r := Step(d, e);
      if d.phase == Awaiting && r != d {
        assert r.log == base + [SaveRange, ShowDialog] + OnResolved(d.value);
      }
    }
  }

  /** Events other than `show()` and the hidden event keep a session in progress. */
  lemma {:induction false} RunInSession(d: State, mid: seq<Event>, base: seq<HostCall>, k0: nat)
    requires InSession(d, base, k0)
    requires forall i :: 0 <= i < |mid| ==> !mid[i].Show? && !mid[i].Hidden?
    ensures InSession(Run(d, mid), base, k0)
    decreases |mid|
  {
    if mid != [] {
      var d' := if Enabled(d, mid[0]) then Step(d, mid[0]) else d;
      if Enabled(d, mid[0]) {
        StepInSession(d, mid[0], base, k0);
      }
      RunInSession(d', mid[1..], base, k0);
    }
  }

  /** Running `a + b` is running `a`, then `b`. */
  lemma {:induction false} RunAppend(d: State, a: seq<Event>, b: seq<Event>)
    ensures Run(d, a + b) == Run(Run(d, a), b)
    decreases |a|
  {
    if a != [] {
      var d' := if Enabled(d, a[0]) then Step(d, a[0]) else d;
      assert (a + b)[0] == a[0] && (a + b)[1..] == a[1..] + b;
      assert Run(d, a + b) == Run(d', a[1..] + b);
      assert Run(d, a) == Run(d', a[1..]);
      RunAppend(d', a[1..], b);
    } else {
      assert a + b == b;
    }
  }

  /**
    The outcome of one whole session, `show()`, any use of the dialog, then the
    hidden event after the dialog was shown. Either it was submitted: the
    dialog is hidden, the range restored once and the node inserted at most
    once, exactly when the submitted url is recognised; or it was cancelled:
    the range is restored once and nothing is inserted. Either way the `input`
    and `click` handlers are gone and one more `keypress` handler is bound.
   */
  lemma SessionOutcome(d: State, selected: string, mid: seq<Event>)
    requires Inv(d) && !d.open
    requires forall i :: 0 <= i < |mid| ==> !mid[i].Show? && !mid[i].Hidden?
    requires !Run(d, [Show(selected)] + mid).shownPending
    ensures var r := Run(d, [Show(selected)] + mid + [Hidden]);
      && Inv(r) && !r.open && r.inputHandlers == 0 && r.clickHandlers == 0
      && r.keypressHandlers == d.keypressHandlers + 1
      && match r.phase
         case Cancelled => r.log == d.log + [SaveRange, ShowDialog, RestoreRange]
         case Resolved(url) => r.log == d.log + [SaveRange, ShowDialog, HideDialog, RestoreRange] + Inserted(url)
         case _ => false
  {
    var d1 := Step(d, Show(selected));
    assert Run(d, [Show(selected)]) == d1;
    assert InSession(d1, d.log, d.keypressHandlers);
    RunInSession(d1, mid, d.log, d.keypressHandlers);
    RunAppend(d, [Show(selected)], mid);
    var d2 := Run(d, [Show(selected)] + mid);
    assert d2 == Run(d1, mid);
    RunAppend(d, [Show(selected)] + mid, [Hidden]);
    assert Run(d2, [Hidden]) == Step(d2, Hidden);
    HiddenEndsSession(d2, d.log, d.keypressHandlers);
  }

  /** The hidden event closes a session in progress: resolved with its calls, or cancelled with `restoreRange`. */
  lemma HiddenEndsSession(s: State, base: seq<HostCall>, k0: nat)
    requires InSession(s, base, k0) && !s.shownPending
    ensures var r := Step(s, Hidden);
      && Inv(r) && !r.open && r.inputHandlers == 0 && r.clickHandlers == 0
      && r.keypressHandlers == k0 + 1
      && match r.phase
         case Cancelled => r.log == base + [SaveRange, ShowDialog, RestoreRange]
         case Resolved(url) => r.log == base + [SaveRange, ShowDialog, HideDialog, RestoreRange] + Inserted(url)
         case _ => false
  {
    if s.phase.Resolved? {
      assert OnResolved(s.phase.url) == [HideDialog, RestoreRange] + Inserted(s.phase.url);
    }
  }

  /** A submitted session calls `restoreRange` exactly once and `insertNode` at most once. */
  lemma SessionCalls(d: State, selected: string, mid: seq<Event>)
    requires Inv(d) && !d.open
    requires forall i :: 0 <= i < |mid| ==> !mid[i].Show? && !mid[i].Hidden?
    requires !Run(d, [Show(selected)] + mid).shownPending
    ensures |d.log| <= |Run(d, [Show(selected)] + mid + [Hidden]).log|
    ensures var r := Run(d, [Show(selected)] + mid + [Hidden]);
      var calls := r.log[|d.log|..];
      && Count(calls, RestoreRange) == 1
      && CountInserts(calls) <= 1
      && (CountInserts(calls) == 1 ==> r.phase.Resolved? && Recognition.CreateVideoNode(r.phase.url).Some?)
  {
    SessionOutcome(d, selected, mid);
    var r := Run(d, [Show(selected)] + mid + [Hidden]);
    var calls := r.log[|d.log|..];
    if r.phase.Resolved? {
      assert calls == [SaveRange, ShowDialog, HideDialog, RestoreRange] + Inserted(r.phase.url);
      ResolvedCounts(r.phase.url);
    } else {
      assert calls == [SaveRange, ShowDialog, RestoreRange];
      CancelledCounts();
    }
  }

  /** The calls of a submitted session: one `restoreRange`, and an insert only for a recognised url. */
  lemma ResolvedCounts(url: string)
    ensures var calls := [SaveRange, ShowDialog, HideDialog, RestoreRange] + Inserted(url);
      && Count(calls, RestoreRange) == 1
      && CountInserts(calls) <= 1
      && (CountInserts(calls) == 1 ==> Recognition.CreateVideoNode(url).Some?)
  {
    var pre := [SaveRange, ShowDialog, HideDialog, RestoreRange];
    CountAppend(pre, Inserted(url), RestoreRange);
    assert Count(pre, RestoreRange) == 1 && CountInserts(pre) == 0;
    if Inserted(url) != [] {
      assert Inserted(url) == [InsertNode(Recognition.CreateVideoNode(url).value)];
    }
  }

  /** The calls of a cancelled session: one `restoreRange` and no insert. */
  lemma CancelledCounts()
    ensures Count([SaveRange, ShowDialog, RestoreRange], RestoreRange) == 1
    ensures CountInserts([SaveRange, ShowDialog, RestoreRange]) == 0
  {
  }

  /** How often `c` occurs in `log`. */
  function Count(log: seq<HostCall>, c: HostCall): nat {
    if log == [] then 0 else (if log[0] == c then 1 else 0) + Count(log[1..], c)
  }

  /** How many `insertNode` calls `log` holds. */
  function CountInserts(log: seq<HostCall>): nat {
    if log == [] then 0 else (if log[0].InsertNode? then 1 else 0) + CountInserts(log[1..])
  }

  lemma {:induction false} CountAppend(a: seq<HostCall>, b: seq<HostCall>, c: HostCall)
    ensures Count(a + b, c) == Count(a, c) + Count(b, c)
    ensures CountInserts(a + b) == CountInserts(a) + CountInserts(b)
    decreases |a|
  {
    if a != [] {
      assert (a + b)[0] == a[0] && (a + b)[1..] == a[1..] + b;
      CountAppend(a[1..], b, c);
    } else {
      assert a + b == b;
    }
  }

  /** Show, type a url, click: one `insertNode` with the recognised node, if it is recognised. */
  lemma SubmitScenario(d: State, selected: string, url: string)
    requires Inv(d) && !d.open && url != ""
    ensures var r := Run(d, [Show(selected), Shown, Input(url), Click, Hidden]);
      && r.phase == Resolved(url)
      && r.log == d.log + [SaveRange, ShowDialog, HideDialog, RestoreRange] + Inserted(url)
      && !r.open && r.inputHandlers == 0 && r.clickHandlers == 0
  {
    var es := [Show(selected), Shown, Input(url), Click, Hidden];
    var d1 := Step(d, Show(selected));
    var d2 := Step(d1, Shown);
    var d3 := Step(d2, Input(url));
    var d4 := Resolve(d3, url);
    var d5 := Step(d4, Hidden);
    assert d3.value == url && d3.buttonEnabled && d3.clickHandlers == 1 && d3.phase == Awaiting;
    assert Step(d3, Click) == d4;
    assert Run(d, es) == Run(d1, es[1..]);
    assert es[1..] == [Shown, Input(url), Click, Hidden];
    assert Run(d1, [Shown, Input(url), Click, Hidden]) == Run(d2, [Input(url), Click, Hidden]);
    assert Run(d2, [Input(url), Click, Hidden]) == Run(d3, [Click, Hidden]);
    assert Run(d3, [Click, Hidden]) == Run(d4, [Hidden]);
    assert Run(d4, [Hidden]) == d5;
  }

  /** Show, then hide without submitting: the range is restored once and nothing is inserted. */
  lemma CancelScenario(d: State, selected: string)
    requires Inv(d) && !d.open
    ensures var r := Run(d, [Show(selected), Shown, Hidden]);
      && r.phase == Cancelled
      && r.log == d.log + [SaveRange, ShowDialog, RestoreRange]
      && !r.open && r.inputHandlers == 0 && r.clickHandlers == 0
      && r.keypressHandlers == d.keypressHandlers + 1
  {
    var es := [Show(selected), Shown, Hidden];
    assert es[1..] == [Shown, Hidden];
    assert es[1..][1..] == [Hidden];
    var d2 := Step(Step(d, Show(selected)), Shown);
    assert Run(d2, [Hidden]) == Step(d2, Hidden);
  }

  // ------------------------------------------------------------------------
  // The controller as an object whose handlers update it in place.

  class VideoDialog {
    var phase: Phase
    var open: bool
    var shownPending: bool
    var text: string
    var value: string
    var buttonEnabled: bool
    var inputHandlers: nat
    var clickHandlers: nat
    var keypressHandlers: nat
    var log: seq<HostCall>

    /** The fields as a `State`. */
    function Model(): State
      reads this
    {
      State(phase, open, shownPending, text, value, buttonEnabled, inputHandlers, clickHandlers, keypressHandlers, log)
    }

    ghost predicate Valid()
      reads this
    {
      Inv(Model())
    }

    /** `initialize()`: the dialog with an empty field and a disabled submit button. */
    constructor ()
      ensures Valid() && Model() == Initial
    {
      phase, open, shownPending := Idle, false, false;
      text, value, buttonEnabled := "", "", false;
      inputHandlers, clickHandlers, keypressHandlers := 0, 0, 0;
      log := [];
    }

    /** `show()`: save the range, open a pending deferred, show the dialog. */
    method Show(selected: string)
      requires Valid() && !open
      modifies this
      ensures Valid() && Model() == Step(old(Model()), Event.Show(selected))
    {
      text := selected;
      log := log + [SaveRange];
      phase := Awaiting;
      open, shownPending := true, true;
      log := log + [ShowDialog];
    }

    /** The shown handler: pre-fill the field, bind `input`, `click` and (through `bindEnterKey`) `keypress`. */
    method Shown()
      requires Valid() && shownPending
      modifies this
      ensures Valid() && Model() == Step(old(Model()), Event.Shown)
    {
      shownPending := false;
      value := text;
      inputHandlers := inputHandlers + 1;
      clickHandlers := clickHandlers + 1;
      keypressHandlers := keypressHandlers + 1;
    }

    /** The user edits the field; each bound `input` handler toggles the button. */
    method Input(s: string)
      requires Valid() && open
      modifies this
      ensures Valid() && Model() == Step(old(Model()), Event.Input(s))
    {
      value := s;
      var k := 0;
      while k < inputHandlers
        invariant 0 <= k <= inputHandlers
        invariant Model() == old(Model()).(value := s, buttonEnabled := if k > 0 then s != "" else old(buttonEnabled))
      {
        buttonEnabled := value != "";
        k := k + 1;
      }
    }

    /** The click handler: `deferred.resolve(value)`, and the `then` callback if it was pending. */
    method ResolveWithValue()
      requires Valid() && open
      modifies this
      ensures Valid() && Model() == Resolve(old(Model()), old(value))
    {
      if phase == Awaiting {
        var url := value;
        phase := Resolved(url);
        log := log + [HideDialog];
        log := log + [RestoreRange];
        var node := Recognition.CreateVideoNode(url);
        if node.Some? {
          log := log + [InsertNode(node.value)];
        }
      }
    }

    /** Dispatch a click to every bound click handler. */
    method DispatchClick()
      requires Valid() && open
      modifies this
      ensures Valid() && Model() == if old(clickHandlers) > 0 then Resolve(old(Model()), old(value)) else old(Model())
    {
      var c := 0;
      var n := clickHandlers;
      while c < n
        invariant 0 <= c <= n && n == clickHandlers
        invariant Valid() && open
        invariant Model() == if c > 0 then Resolve(old(Model()), old(value)) else old(Model())
      {
        ResolveWithValue();
        c := c + 1;
      }
    }

    /** A mouse click on the button: nothing when it is disabled. */
    method Click()
      requires Valid() && open
      modifies this
      ensures Valid() && Model() == Step(old(Model()), Event.Click)
    {
      if buttonEnabled {
        DispatchClick();
      }
    }

    /** Enter in the field: every bound `keypress` handler triggers a click on the button. */
    method EnterKey()
      requires Valid() && open
      modifies this
      ensures Valid() && Model() == Step(old(Model()), Event.EnterKey)
    {
      var k := 0;
      var n := keypressHandlers;
      while k < n
        invariant 0 <= k <= n && n == keypressHandlers
        invariant Valid() && open
        invariant Model() == if k > 0 && clickHandlers > 0 then Resolve(old(Model()), old(value)) else old(Model())
      {
        DispatchClick();
        k := k + 1;
      }
    }

    /** The hidden handler: unbind `input` and `click`, reject a pending deferred and restore the range. */
    method Hidden()
      requires Valid() && open && !shownPending
      modifies this
      ensures Valid() && Model() == Step(old(Model()), Event.Hidden)
    {
      open := false;
      inputHandlers := 0;
      clickHandlers := 0;
      if phase == Awaiting {
        phase := Cancelled;
        log := log + [RestoreRange];
      }
    }
  }
}
