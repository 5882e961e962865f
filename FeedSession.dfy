/**
 * The frame gate and out-of-range controller of LiveFeedActivity, as
 * values: the state it shares with LiveFeedViewModel (the paused flag and
 * the error count), whether the manual-entry dialog and the read selector
 * are open, the text shown in the result view, and a record of the calls
 * made into the view-model and of what was put on screen. One function per
 * callback of the activity gives the state after it.
 *
 * LiveFeedViewModel itself is not part of this model: its methods are
 * recorded as calls (`Call`), and its posts to the activity's observers
 * are the inputs of the observer functions. The only effects of the
 * view-model assumed here are that setPaused sets the paused flag and
 * resetError sets the error count to 0.
 */
module FeedSession {

  /** More reported errors than this open the manual-entry dialog. */
  const ERROR_CEILING: int := 150

  /** A call from the activity into LiveFeedViewModel. */
  datatype Call =
    | ProcessImage
    | SetReadManual(value: string)
    | IncrementListPlace
    | EnterRead
    | NextRead
    | SetListPlace(position: int)
    | ResetError

  /** Something the activity puts on screen. */
  datatype Shown =
    | ResultText(text: string)
    | ManualEntryDialog
    | ReadSelector
    | ReadDetails(place: int)

  datatype Session = Session(
    paused: bool,
    errorCount: int,
    dialogOpen: bool,
    selectorOpen: bool,
    resultText: string,
    calls: seq<Call>,
    shown: seq<Shown>)

  /**
   * An activity just created over a view-model whose paused flag and error
   * count are `paused` and `errorCount`: no dialog or selector is open and
   * nothing has been called or shown yet. ViewModelProvider hands a
   * recreated activity the view-model its predecessor left behind.
   */
  function Attached(text: string, paused: bool, errorCount: int): Session
  {
    Session(paused, errorCount, false, false, text, [], [])
  }

  /** The first activity over a new view-model: not paused, no errors. */
  function Initial(text: string): Session
  {
    Attached(text, false, 0)
  }

  /** viewModel.resetError(). */
  function WithErrorReset(s: Session): Session
  {
    s.(errorCount := 0, calls := s.calls + [ResetError])
  }

  /** The analyzer of bindPreview: a frame is closed unseen while paused, else processed. */
  function Analyze(s: Session): Session
  {
    if s.paused then s else s.(calls := s.calls + [ProcessImage])
  }

  /**
   * The error-count observer and handleErrorCount: the view-model posted
   * `count`; above the ceiling the feed pauses, the manual-entry dialog
   * opens and the count is reset.
   */
  function HandleErrorCount(s: Session, count: int): Session
  {
    var s' := s.(errorCount := count);
    if count > ERROR_CEILING then
      WithErrorReset(s'.(paused := true, dialogOpen := true, shown := s'.shown + [ManualEntryDialog]))
    else s'
  }

  /** The result-text observer: the view is rewritten only when the text differs. */
  function ShowResultText(s: Session, text: string): Session
  {
    if text != s.resultText then s.(resultText := text, shown := s.shown + [ResultText(text)]) else s
  }

  /** The detection observer: a true flag enters the read. */
  function HandleDetected(s: Session, detected: bool): Session
  {
    if detected then s.(calls := s.calls + [EnterRead]) else s
  }

  /** The list-place observer: show the entry at `place`, then reset the error count. */
  function HandleListPlace(s: Session, place: int): Session
  {
    WithErrorReset(s.(shown := s.shown + [ReadDetails(place)]))
  }

  /** The "next" button. */
  function ClickNext(s: Session): Session
  {
    WithErrorReset(s.(calls := s.calls + [NextRead]))
  }

  /** The dismiss listener of the manual-entry dialog. */
  function DismissManual(s: Session): Session
  {
    s.(paused := false, dialogOpen := false)
  }

  /**
   * The positive button of the manual-entry dialog: a non-empty entry is
   * recorded and the list advanced; either way the feed resumes. The
   * dialog then dismisses itself, which runs the dismiss listener.
   */
  function ConfirmManual(s: Session, entered: string): Session
  {
    var s' := if entered != "" then s.(calls := s.calls + [SetReadManual(entered), IncrementListPlace]) else s;
    DismissManual(s'.(paused := false))
  }

  /** The negative button, followed by the dialog's own dismissal. */
  function CancelManual(s: Session): Session
  {
    DismissManual(s.(paused := false))
  }

  /** showReadSelector: pause and open the bottom sheet. */
  function ShowReadSelector(s: Session): Session
  {
    s.(paused := true, selectorOpen := true, shown := s.shown + [ReadSelector])
  }

  /** The bottom sheet's dismiss listener. */
  function DismissReadSelector(s: Session): Session
  {
    s.(paused := false, selectorOpen := false)
  }

  /** An entry of the read selector is chosen: jump to it and dismiss the sheet. */
  function PickRead(s: Session, position: int): Session
  {
    DismissReadSelector(s.(calls := s.calls + [SetListPlace(position)]))
  }

  /** Every callback of the controller, as an event. */
  datatype Event =
    | Frame
    | ErrorCountPosted(count: int)
    | ResultTextPosted(text: string)
    | DetectedPosted(detected: bool)
    | ListPlacePosted(place: int)
    | NextClicked
    | ManualConfirmed(entered: string)
    | ManualCancelled
    | ManualDismissed
    | SelectorOpened
    | ReadPicked(position: int)
    | SelectorDismissed

  function Step(s: Session, e: Event): Session
  {
    match e
    case Frame => Analyze(s)
    case ErrorCountPosted(count) => HandleErrorCount(s, count)
    case ResultTextPosted(text) => ShowResultText(s, text)
    case DetectedPosted(detected) => HandleDetected(s, detected)
    case ListPlacePosted(place) => HandleListPlace(s, place)
    case NextClicked => ClickNext(s)
    case ManualConfirmed(entered) => ConfirmManual(s, entered)
    case ManualCancelled => CancelManual(s)
    case ManualDismissed => DismissManual(s)
    case SelectorOpened => ShowReadSelector(s)
    case ReadPicked(position) => PickRead(s, position)
    case SelectorDismissed => DismissReadSelector(s)
  }

  /** The state after the events, in order. */
  function Run(s: Session, events: seq<Event>): Session
    decreases |events|
  {
    if events == [] then s else Run(Step(s, events[0]), events[1..])
  }

  lemma {:induction false} RunAppend(s: Session, a: seq<Event>, b: seq<Event>)
    ensures Run(s, a + b) == Run(Run(s, a), b)
    decreases |a|
  {
    if a == [] {
      assert a + b == b;
    } else {
      assert (a + b)[0] == a[0];
      assert (a + b)[1..] == a[1..] + b;
      RunAppend(Step(s, a[0]), a[1..], b);
    }
  }

  /** How many times `x` occurs in `xs`. */
  function Count<T(==)>(xs: seq<T>, x: T): nat
    decreases |xs|
  {
    if xs == [] then 0 else (if xs[0] == x then 1 else 0) + Count(xs[1..], x)
  }

  lemma {:induction false} CountAppend<T>(a: seq<T>, b: seq<T>, x: T)
    ensures Count(a + b, x) == Count(a, x) + Count(b, x)
    decreases |a|
  {
    if a == [] {
      assert a + b == b;
    } else {
      assert (a + b)[0] == a[0];
      assert (a + b)[1..] == a[1..] + b;
      CountAppend(a[1..], b, x);
    }
  }

  // ---------------------------------------------------------------------
  // The frame gate
  // ---------------------------------------------------------------------

  /** n camera frames in a row. */
  function Frames(n: nat): (es: seq<Event>)
    ensures |es| == n
  {
    if n == 0 then [] else [Frame] + Frames(n - 1)
  }

  /** While paused, no number of frames reaches processing or changes anything. */
  lemma {:induction false} PausedDropsFrames(s: Session, n: nat)
    requires s.paused
    ensures Run(s, Frames(n)) == s
    decreases n
  {
    if n > 0 {
      assert Frames(n)[0] == Frame && Frames(n)[1..] == Frames(n - 1);
      PausedDropsFrames(s, n - 1);
    }
  }

  /** While not paused, every frame is handed to processImage, one call each. */
  lemma {:induction false} ActiveProcessesFrames(s: Session, n: nat)
    requires !s.paused
    ensures Run(s, Frames(n)) == s.(calls := s.calls + seq(n, _ => ProcessImage))
    decreases n
  {
    if n > 0 {
      assert Frames(n)[0] == Frame && Frames(n)[1..] == Frames(n - 1);
      var s' := Analyze(s);
      ActiveProcessesFrames(s', n - 1);
      assert s'.calls + seq(n - 1, _ => ProcessImage) == s.calls + seq(n, _ => ProcessImage);
    }
  }

  /** Opening the read selector stops the feed until the sheet is dismissed. */
  lemma SelectorBlocksFrames(s: Session, n: nat)
    ensures Run(ShowReadSelector(s), Frames(n)) == ShowReadSelector(s)
  {
  }

  // ---------------------------------------------------------------------
  // The error ceiling
  // ---------------------------------------------------------------------

  /** The state right after the ceiling is crossed. */
  function Escalated(s: Session): Session
  {
    s.(paused := true, dialogOpen := true, errorCount := 0,
       calls := s.calls + [ResetError], shown := s.shown + [ManualEntryDialog])
  }

  /** A count at or below the ceiling only updates the count; one above it escalates. */
  lemma ErrorCountPolicy(s: Session, count: int)
    ensures count <= ERROR_CEILING ==> HandleErrorCount(s, count) == s.(errorCount := count)
    ensures count > ERROR_CEILING ==> HandleErrorCount(s, count) == Escalated(s)
  {
  }

  /** The view-model posting the counts from, from + 1, ..., from + n - 1. */
  function Posts(from: int, n: nat): (es: seq<Event>)
    ensures |es| == n
    decreases n
  {
    if n == 0 then [] else [ErrorCountPosted(from)] + Posts(from + 1, n - 1)
  }

  lemma {:induction false} PostsSnoc(from: int, n: nat)
    ensures Posts(from, n + 1) == Posts(from, n) + [ErrorCountPosted(from + n)]
    decreases n
  {
    if n > 0 {
      PostsSnoc(from + 1, n - 1);
    }
  }

  /** Counting up without passing the ceiling escalates nothing: only the count moves. */
  lemma {:induction false} ClimbBelowCeiling(s: Session, n: nat)
    requires s.errorCount + n <= ERROR_CEILING
    ensures Run(s, Posts(s.errorCount + 1, n)) == s.(errorCount := s.errorCount + n)
    decreases n
  {
    if n > 0 {
      var es := Posts(s.errorCount + 1, n);
      assert es[0] == ErrorCountPosted(s.errorCount + 1);
      assert es[1..] == Posts(s.errorCount + 2, n - 1);
      var s' := s.(errorCount := s.errorCount + 1);
      assert Step(s, es[0]) == s';
      ClimbBelowCeiling(s', n - 1);
    }
  }

  /**
   * Counting up one error at a time from at most the ceiling: the dialog
   * opens exactly once, at the first count above the ceiling, and the
   * count is back at 0.
   */
  lemma {:induction false} ClimbCrossesOnce(s: Session)
    requires s.errorCount <= ERROR_CEILING
    ensures var n := ERROR_CEILING - s.errorCount;
      var r := Run(s, Posts(s.errorCount + 1, n + 1));
      && r == Escalated(s)
      && Count(r.shown, ManualEntryDialog) == Count(s.shown, ManualEntryDialog) + 1
  {
    var n := ERROR_CEILING - s.errorCount;
    PostsSnoc(s.errorCount + 1, n);
    RunAppend(s, Posts(s.errorCount + 1, n), [ErrorCountPosted(ERROR_CEILING + 1)]);
    ClimbBelowCeiling(s, n);
    var before := s.(errorCount := ERROR_CEILING);
    assert Run(before, [ErrorCountPosted(ERROR_CEILING + 1)]) == Step(before, ErrorCountPosted(ERROR_CEILING + 1));
    CountAppend(s.shown, [ManualEntryDialog], ManualEntryDialog);
  }

  // ---------------------------------------------------------------------
  // The manual-entry dialog
  // ---------------------------------------------------------------------

  /**
   * Confirming records a non-empty entry and advances the list; an empty
   * entry records nothing. Both close the dialog and resume the feed.
   */
  lemma ConfirmOutcomes(s: Session, entered: string)
    ensures var r := ConfirmManual(s, entered);
      && !r.paused && !r.dialogOpen
      && (entered != "" ==> r.calls == s.calls + [SetReadManual(entered), IncrementListPlace])
      && (entered == "" ==> r.calls == s.calls)
      && r.errorCount == s.errorCount && r.shown == s.shown
  {
  }

  /** Cancelling or dismissing always resumes, and repeating the unpausing is harmless. */
  lemma UnpauseIdempotent(s: Session)
    ensures !CancelManual(s).paused && !DismissManual(s).paused
    ensures DismissManual(DismissManual(s)) == DismissManual(s)
    ensures DismissManual(CancelManual(s)) == CancelManual(s)
    ensures CancelManual(s) == DismissManual(s)
  {
  }

  /**
   * 151 invalid detections from a fresh start open the dialog once;
   * entering "1234" records it, advances the list, and resumes with the
   * count at 0.
   */
  lemma OutOfRangeScenario(text: string)
    ensures var r := Run(Initial(text), Posts(1, ERROR_CEILING + 1) + [ManualConfirmed("1234")]);
      && r.calls == [ResetError, SetReadManual("1234"), IncrementListPlace]
      && r.shown == [ManualEntryDialog]
      && !r.paused && !r.dialogOpen && r.errorCount == 0
  {
    var s := Initial(text);
    ClimbCrossesOnce(s);
    RunAppend(s, Posts(1, ERROR_CEILING + 1), [ManualConfirmed("1234")]);
    assert Run(Escalated(s), [ManualConfirmed("1234")]) == ConfirmManual(Escalated(s), "1234");
  }

  // ---------------------------------------------------------------------
  // Observers and buttons
  // ---------------------------------------------------------------------

  /**
   * After a text is delivered it is on screen; the view is rewritten once
   * exactly when the text differs, and re-delivering it changes nothing.
   */
  lemma ResultTextOverwrittenOnChange(s: Session, text: string)
    ensures var r := ShowResultText(s, text);
      && r.resultText == text
      && (text == s.resultText <==> r == s)
      && ShowResultText(r, text) == r
      && Count(r.shown, ResultText(text)) == Count(s.shown, ResultText(text)) + (if text != s.resultText then 1 else 0)
  {
    if text != s.resultText {
      CountAppend(s.shown, [ResultText(text)], ResultText(text));
    }
  }

  /** A true detection flag enters the read exactly once; false calls nothing. */
  lemma DetectedEntersOnce(s: Session, detected: bool)
    ensures var r := HandleDetected(s, detected);
      && Count(r.calls, EnterRead) == Count(s.calls, EnterRead) + (if detected then 1 else 0)
      && (!detected ==> r == s)
  {
    if detected {
      CountAppend(s.calls, [EnterRead], EnterRead);
    }
  }

  /** "Next" asks for the next read and then resets the error count. */
  lemma NextResetsErrors(s: Session)
    ensures ClickNext(s).calls == s.calls + [NextRead, ResetError]
    ensures ClickNext(s).errorCount == 0
    ensures ClickNext(s).paused == s.paused
  {
  }

  /** Whatever moves the list place, its observer resets the error count. */
  lemma ListPlaceResetsErrors(s: Session, place: int)
    ensures HandleListPlace(s, place).errorCount == 0
    ensures HandleListPlace(s, place).calls == s.calls + [ResetError]
  {
  }

  /** Opening the selector pauses; choosing an entry jumps to it and resumes. */
  lemma SelectorOutcomes(s: Session, position: int)
    ensures ShowReadSelector(s).paused && ShowReadSelector(s).selectorOpen
    ensures var r := PickRead(ShowReadSelector(s), position);
      && r.calls == s.calls + [SetListPlace(position)]
      && !r.paused && !r.selectorOpen
    ensures !DismissReadSelector(s).paused
  {
  }

  // ---------------------------------------------------------------------
  // An invariant of every run
  // ---------------------------------------------------------------------

  /** Only an open dialog or selector pauses the feed. */
  predicate PausedOnlyByDialog(s: Session)
  {
    s.paused ==> s.dialogOpen || s.selectorOpen
  }

  lemma StepKeepsPausedOnlyByDialog(s: Session, e: Event)
    requires PausedOnlyByDialog(s)
    ensures PausedOnlyByDialog(Step(s, e))
  {
  }

  /**
   * From a fresh activity, frames are dropped only while the manual-entry
   * dialog or the read selector is open.
   */
  lemma {:induction false} RunKeepsPausedOnlyByDialog(s: Session, events: seq<Event>)
    requires PausedOnlyByDialog(s)
    ensures PausedOnlyByDialog(Run(s, events))
    decreases |events|
  {
    if events != [] {
      StepKeepsPausedOnlyByDialog(s, events[0]);
      RunKeepsPausedOnlyByDialog(Step(s, events[0]), events[1..]);
    }
  }

  lemma FreshActivityPausedOnlyByDialog(text: string, events: seq<Event>)
    ensures var r := Run(Initial(text), events);
      r.paused ==> r.dialogOpen || r.selectorOpen
  {
    RunKeepsPausedOnlyByDialog(Initial(text), events);
  }

  /**
   * An activity recreated over a view-model left paused (its predecessor
   * was destroyed with a dialog or the selector open) shows neither, yet
   * drops every frame; opening and dismissing the selector resumes it.
   */
  lemma RecreatedWhilePaused(text: string, errorCount: int, n: nat)
    ensures var s := Attached(text, true, errorCount);
      && !PausedOnlyByDialog(s)
      && Run(s, Frames(n)) == s
      && !Run(s, [SelectorOpened, SelectorDismissed]).paused
  {
    PausedDropsFrames(Attached(text, true, errorCount), n);
  }
}
