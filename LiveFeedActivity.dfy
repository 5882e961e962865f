/**
 * LiveFeedActivity's controller as an object: the fields its callbacks
 * update in place, one method per callback, each tied to the transition
 * function of FeedSession that it implements.
 */
module LiveFeed {
  import opened FeedSession

  class LiveFeedActivity {
    /** The view-model's paused flag, read by the analyzer. */
    var paused: bool
    /** The view-model's error count, as last posted to the observer. */
    var errorCount: int
    /** Whether the manual-entry dialog is showing. */
    var dialogOpen: bool
    /** Whether the read-selector bottom sheet is showing. */
    var selectorOpen: bool
    /** The text of dataResultText. */
    var resultText: string
    /** Calls made into the view-model, oldest first. */
    var calls: seq<Call>
    /** What was put on screen, oldest first. */
    var shown: seq<Shown>

    function State(): Session
      reads this
    {
      Session(paused, errorCount, dialogOpen, selectorOpen, resultText, calls, shown)
    }

    /**
     * onCreate over the view-model ViewModelProvider returns, whose paused
     * flag and error count are `vmPaused` and `vmErrorCount` (false and 0
     * for a new view-model, whatever a destroyed predecessor left otherwise).
     */
    constructor (initialText: string, vmPaused: bool, vmErrorCount: int)
      ensures State() == Attached(initialText, vmPaused, vmErrorCount)
    {
      paused, errorCount := vmPaused, vmErrorCount;
      dialogOpen, selectorOpen := false, false;
      resultText := initialText;
      calls, shown := [], [];
    }

    /** viewModel.resetError(). */
    method ResetErrors()
      modifies this
      ensures State() == WithErrorReset(old(State()))
    {
      calls := calls + [ResetError];
      errorCount := 0;
    }

    /** viewModel.setPaused(p). */
    method SetPaused(p: bool)
      modifies this
      ensures State() == old(State()).(paused := p)
    {
      paused := p;
    }

    /** The image analyzer: returns whether the frame went on to processImage. */
    method Analyze() returns (processed: bool)
      modifies this
      ensures State() == FeedSession.Analyze(old(State()))
      ensures processed == !old(paused)
    {
      if paused {
        processed := false;
        return;
      }
      calls := calls + [ProcessImage];
      processed := true;
    }

    /** The error-count observer, calling handleErrorCount. */
    method HandleErrorCount(count: int)
      modifies this
      ensures State() == FeedSession.HandleErrorCount(old(State()), count)
    {
      errorCount := count;
      if count > ERROR_CEILING {
        SetPaused(true);
        ShowNumberInputDialog();
        ResetErrors();
      }
    }

    /** showNumberInputDialog: the manual-entry dialog is built and shown. */
    method ShowNumberInputDialog()
      modifies this
      ensures State() == old(State()).(dialogOpen := true, shown := old(shown) + [ManualEntryDialog])
    {
      dialogOpen := true;
      shown := shown + [ManualEntryDialog];
    }

    /** The dialog's positive button, then its automatic dismissal. */
    method ConfirmManual(entered: string)
      modifies this
      ensures State() == FeedSession.ConfirmManual(old(State()), entered)
    {
      if entered != "" {
        calls := calls + [SetReadManual(entered)];
        calls := calls + [IncrementListPlace];
      }
      SetPaused(false);
      DismissManual();
    }

    /** The dialog's negative button, then its automatic dismissal. */
    method CancelManual()
      modifies this
      ensures State() == FeedSession.CancelManual(old(State()))
    {
      SetPaused(false);
      DismissManual();
    }

    /** The dialog's dismiss listener. */
    method DismissManual()
      modifies this
      ensures State() == FeedSession.DismissManual(old(State()))
    {
      dialogOpen := false;
      SetPaused(false);
    }

    /** The result-text observer. */
    method ShowResultText(text: string)
      modifies this
      ensures State() == FeedSession.ShowResultText(old(State()), text)
    {
      if text != resultText {
        resultText := text;
        shown := shown + [ResultText(text)];
      }
    }

    /** The detection observer. */
    method HandleDetected(detected: bool)
      modifies this
      ensures State() == FeedSession.HandleDetected(old(State()), detected)
    {
      if detected {
        calls := calls + [EnterRead];
      }
    }

    /** The list-place observer. */
    method HandleListPlace(place: int)
      modifies this
      ensures State() == FeedSession.HandleListPlace(old(State()), place)
    {
      shown := shown + [ReadDetails(place)];
      ResetErrors();
    }

    /** The "next" button. */
    method ClickNext()
      modifies this
      ensures State() == FeedSession.ClickNext(old(State()))
    {
      calls := calls + [NextRead];
      ResetErrors();
    }

    /** The "select read" button. */
    method ShowReadSelector()
      modifies this
      ensures State() == FeedSession.ShowReadSelector(old(State()))
    {
      SetPaused(true);
      selectorOpen := true;
      shown := shown + [ReadSelector];
    }

    /** A click on an entry of the read selector, then the sheet's dismissal. */
    method PickRead(position: int)
      modifies this
      ensures State() == FeedSession.PickRead(old(State()), position)
    {
      calls := calls + [SetListPlace(position)];
      DismissReadSelector();
    }

    /** The bottom sheet's dismiss listener. */
    method DismissReadSelector()
      modifies this
      ensures State() == FeedSession.DismissReadSelector(old(State()))
    {
      selectorOpen := false;
      SetPaused(false);
    }
  }

  /**
   * Usage example, no part of the app: 151 errors in a row open the manual-entry
   * dialog once, frames are dropped while it is open, and confirming
   * "1234" records it and resumes the feed.
   */
  method OutOfRangeWalkthrough()
  {
    var a := new LiveFeedActivity("", false, 0);
    var i := 0;
    while i < ERROR_CEILING
      invariant 0 <= i <= ERROR_CEILING
      invariant a.State() == Initial("").(errorCount := i)
    {
      i := i + 1;
      a.HandleErrorCount(i);
    }
    a.HandleErrorCount(ERROR_CEILING + 1);
    assert a.paused && a.dialogOpen && a.errorCount == 0 && a.shown == [ManualEntryDialog];
    var processed := a.Analyze();
    assert !processed;
    a.ConfirmManual("1234");
    assert a.calls == [ResetError, SetReadManual("1234"), IncrementListPlace];
    assert !a.paused && !a.dialogOpen;
  }
}
