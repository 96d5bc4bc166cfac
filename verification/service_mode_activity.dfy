/** The decisions of `ServiceModeActivity`: entering and leaving service mode
    as the activity starts and stops, what a click on a displayed line does,
    what the back key does, and what the menu and the input dialog do. Each
    callback is a function from the activity's state and the service's replies
    to the next state, the remote calls made and the dialogs shown. */
module ServiceModeActivity {
  import opened JavaText
  import opened Remote
  import opened LineClassifier
  import opened KeySending

  /** The key sent when the back button is pressed in service mode. */
  const BackKey: CodeUnit := Unit('\\')

  /** The dialogs the activity can show. */
  datatype Dialog = ServiceUnavailable | InputDialog

  /** The two items of the options menu, and any other item id. */
  datatype MenuItem = MenuInput | MenuQuit | OtherItem

  /** The activity's state: `mInServiceMode`, whether `mPhoneService` is
      non-null, the lines the list shows, and whether `finish()` was called. */
  datatype Screen = Screen(inServiceMode: bool, hasService: bool, lines: seq<JString>, finishing: bool)

  /** What one callback did: the state after it, the remote calls it made in
      order, and the dialogs it showed. */
  datatype Step = Step(screen: Screen, calls: seq<RemoteCall>, dialogs: seq<Dialog>)

  /** A callback either returns, or dereferences a null `mPhoneService` and
      lets the `NullPointerException` escape. */
  datatype Outcome = Continue(step: Step) | NullPointer

  /** A freshly created activity. */
  const Initial: Screen := Screen(false, false, [], false)

  /** The activity's invariant: it is in service mode only while it holds the service. */
  predicate Consistent(s: Screen) {
    s.inServiceMode ==> s.hasService
  }

  /** The calls of `onStart` when the service is found and answers. */
  const StartCalls: seq<RemoteCall> :=
    [RegisterEventHandler, EnterServiceMode(TestManual, SubEnter), UnregisterEventHandler]

  /** `onStart`: a fresh, empty list; then look the service up (`found`), register
      the event handler and ask to enter service mode. Any failure shows the
      "service unavailable" dialog and drops the service; a refusal also
      unregisters the handler. `replies` answers register, enter, unregister. */
  function OnStart(s: Screen, found: bool, replies: Replies): (r: Step)
    ensures r.screen.lines == [] && r.screen.finishing == s.finishing
    // The service is kept exactly when it was found, registration went through
    // and entering service mode returned true.
    ensures r.screen.hasService <==> found && replies(0).Returned? && replies(1) == Returned(true)
    ensures r.screen.hasService ==> r.screen.inServiceMode
    // The flag changes only when the enter call returned.
    ensures r.screen.inServiceMode
              == if found && replies(0).Returned? && replies(1).Returned? then replies(1).value else s.inServiceMode
    // The unavailable dialog shows exactly when the service was not kept.
    ensures r.dialogs == if r.screen.hasService then [] else [ServiceUnavailable]
    // The calls are register, enter and unregister, cut short by the first thrown call;
    // unregister is called only after a refusal.
    ensures |r.calls| <= |StartCalls| && r.calls == StartCalls[..|r.calls|]
    ensures r.calls == [] <==> !found
    ensures |r.calls| == 1 <==> found && replies(0).Thrown?
    ensures |r.calls| == 3 <==> found && replies(0).Returned? && replies(1) == Returned(false)
    ensures !s.inServiceMode ==> Consistent(r.screen)
  {
    var cleared := s.(lines := []);
    var dropped := cleared.(hasService := false);
    if !found then Step(dropped, [], [ServiceUnavailable])
    else if replies(0).Thrown? then Step(dropped, StartCalls[..1], [ServiceUnavailable])
    else match replies(1)
      case Thrown => Step(dropped, StartCalls[..2], [ServiceUnavailable])
      case Returned(entered) =>
        if entered then Step(cleared.(inServiceMode := true, hasService := true), StartCalls[..2], [])
        // Unregistering may throw as well; either way the dialog shows once and the service is dropped.
        else Step(dropped.(inServiceMode := false), StartCalls, [ServiceUnavailable])
  }

  /** `onStop`: in service mode, exit it and unregister the handler (a thrown
      exit skips the unregister; both exceptions are swallowed), then clear
      both fields. `replies` answers exit, unregister. */
  function OnStop(s: Screen, replies: Replies): (r: Outcome)
    ensures r.NullPointer? <==> s.inServiceMode && !s.hasService
    // Out of service mode nothing happens.
    ensures !s.inServiceMode ==> r == Continue(Step(s, [], []))
    // In service mode it always ends out of service mode and without the service,
    // whatever the calls did.
    ensures s.inServiceMode && r.Continue? ==>
              && r.step.screen == s.(inServiceMode := false, hasService := false)
              && r.step.dialogs == []
              && r.step.calls == [ExitServiceMode(TestManual)]
                                 + (if replies(0).Thrown? then [] else [UnregisterEventHandler])
  {
    if !s.inServiceMode then Continue(Step(s, [], []))
    else if !s.hasService then NullPointer
    else
      var calls := if replies(0).Thrown? then [ExitServiceMode(TestManual)]
                   else [ExitServiceMode(TestManual), UnregisterEventHandler];
      Continue(Step(s.(inServiceMode := false, hasService := false), calls, []))
  }

  /** `onBackPressed`: in service mode the back key goes to the service and the
      screen closes only if that send fails; otherwise the screen closes.
      `replies` answers the key send. */
  function OnBackPressed(s: Screen, replies: Replies): (r: Outcome)
    ensures r.NullPointer? <==> s.inServiceMode && !s.hasService
    ensures r.Continue? ==> r.step.dialogs == [] && r.step.screen.(finishing := s.finishing) == s
    ensures s.inServiceMode && r.Continue? ==>
              && r.step.calls == [SendServiceKeyCode(BackKey)]
              && (r.step.screen.finishing <==> s.finishing || !Succeeded(replies(0)))
    ensures !s.inServiceMode ==> r.Continue? && r.step.calls == [] && r.step.screen.finishing
  {
    if s.inServiceMode then
      if !s.hasService then NullPointer
      else Continue(Step(s.(finishing := s.finishing || !Succeeded(replies(0))), [SendServiceKeyCode(BackKey)], []))
    else
      Continue(Step(s.(finishing := true), [], []))
  }

  /** Sends one key for a click; an absent service counts as a failed send. */
  function SendKey(s: Screen, key: CodeUnit, replies: Replies): (r: Step)
    ensures r.dialogs == [] && r.screen.(finishing := s.finishing) == s
    ensures r.calls == if s.hasService then [SendServiceKeyCode(key)] else []
    ensures r.screen.finishing <==> s.finishing || !s.hasService || !Succeeded(replies(0))
  {
    if !s.hasService then Step(s.(finishing := true), [], [])
    else Step(s.(finishing := s.finishing || !Succeeded(replies(0))), [SendServiceKeyCode(key)], [])
  }

  /** `onItemClick` on the line at `position`: a key line sends its key, an
      input line opens the input dialog, any other line is only logged.
      `replies` answers the key send. */
  function ItemClick(s: Screen, position: nat, replies: Replies): (r: Step)
    requires position < |s.lines|
    // Only the finishing flag can change.
    ensures r.screen.(finishing := s.finishing) == s
    // A key line for `c` sends exactly `c` and closes the screen only if that fails.
    ensures forall c :: KeyPatternCaptures(s.lines[position], c) ==>
              r == SendKey(s, c, replies)
    // An input line, which is never also a key line, opens the input dialog and nothing else.
    ensures !KeyPatternFinds(s.lines[position]) && InputPatternFinds(s.lines[position]) ==>
              r == Step(s, [], [InputDialog])
    // Any other line changes nothing.
    ensures !KeyPatternFinds(s.lines[position]) && !InputPatternFinds(s.lines[position]) ==>
              r == Step(s, [], [])
  {
    match Classify(s.lines[position])
    case Key(c) => SendKey(s, c, replies)
    case Input => Step(s, [], [InputDialog])
    case Other => Step(s, [], [])
  }

  /** `onItemClick` as written: a key line dereferences `mPhoneService`
      without a null check. */
  function ItemClickAsWritten(s: Screen, position: nat, replies: Replies): (r: Outcome)
    requires position < |s.lines|
    ensures r.NullPointer? <==> KeyPatternFinds(s.lines[position]) && !s.hasService
    ensures r.Continue? ==> r.step == ItemClick(s, position, replies)
  {
    if Classify(s.lines[position]).Key? && !s.hasService then NullPointer
    else Continue(ItemClick(s, position, replies))
  }

  /** `handleServiceDisplay`: the list shows the lines the service reported. */
  function ServiceDisplay(s: Screen, lines: seq<JString>): (r: Step)
    ensures r.screen.lines == lines && r.screen.(lines := s.lines) == s
    ensures r.calls == [] && r.dialogs == []
  {
    Step(s.(lines := lines), [], [])
  }

  /** `handleServiceCompleted`: the service ended service mode, so the screen closes. */
  function ServiceCompleted(s: Screen): (r: Step)
    ensures r.screen.finishing && r.screen.(finishing := s.finishing) == s
    ensures r.calls == [] && r.dialogs == []
  {
    Step(s.(finishing := true), [], [])
  }

  /** `onOptionsItemSelected`: "input" opens the input dialog, "quit" closes the screen. */
  function OptionsItemSelected(s: Screen, item: MenuItem): (r: Step)
    ensures r.calls == [] && r.screen.(finishing := s.finishing) == s
    ensures r.dialogs == (if item == MenuInput then [InputDialog] else [])
    ensures r.screen.finishing <==> s.finishing || item == MenuQuit
  {
    match item
    case MenuInput => Step(s, [], [InputDialog])
    case MenuQuit => Step(s.(finishing := true), [], [])
    case OtherItem => Step(s, [], [])
  }

  /** The input dialog's "done" action: `sendString` on the typed text. An
      absent service counts as a failed send (see `InputDoneAsWritten`). */
  function InputDone(s: Screen, text: JString, replies: Replies): (r: Step)
    ensures r.dialogs == [] && r.screen.(finishing := s.finishing) == s
    // The calls send exactly the keys `sendString` sends.
    ensures r.calls == KeyCalls(SendString(s.hasService, text, replies).keys)
    // The calls send a prefix of the text, or all of it and then the confirm key.
    ensures |r.calls| <= |text| + 1
    ensures forall i | 0 <= i < |r.calls| ::
              r.calls[i] == SendServiceKeyCode(if i < |text| then text[i] else ConfirmKey)
    ensures r.screen.finishing <==> s.finishing || SendString(s.hasService, text, replies).finish
  {
    var sent := SendString(s.hasService, text, replies);
    Step(s.(finishing := s.finishing || sent.finish), KeyCalls(sent.keys), [])
  }

  /** The input dialog's "done" action as written: `sendString` dereferences
      `mPhoneService` at its first send without a null check. */
  function InputDoneAsWritten(s: Screen, text: JString, replies: Replies): (r: Outcome)
    ensures r.NullPointer? <==> !s.hasService && |text| > 0
    ensures r.Continue? ==> r.step == InputDone(s, text, replies)
  {
    if !s.hasService && |text| > 0 then NullPointer
    else Continue(InputDone(s, text, replies))
  }

  /** The invariant holds from creation on: `onStart` on a stopped activity
      establishes it, and every other callback keeps it. */
  lemma ConsistentThroughout(s: Screen, found: bool, position: nat, text: JString,
                             lines: seq<JString>, item: MenuItem, replies: Replies)
    ensures Consistent(Initial)
    ensures !s.inServiceMode ==> Consistent(OnStart(s, found, replies).screen)
    ensures Consistent(s) ==> OnStop(s, replies).Continue? && Consistent(OnStop(s, replies).step.screen)
    ensures Consistent(s) ==> OnBackPressed(s, replies).Continue? && Consistent(OnBackPressed(s, replies).step.screen)
    ensures Consistent(s) && position < |s.lines| ==> Consistent(ItemClick(s, position, replies).screen)
    ensures Consistent(s) ==> Consistent(ServiceDisplay(s, lines).screen)
    ensures Consistent(s) ==> Consistent(ServiceCompleted(s).screen)
    ensures Consistent(s) ==> Consistent(OptionsItemSelected(s, item).screen)
    ensures Consistent(s) ==> Consistent(InputDone(s, text, replies).screen)
  {
  }

  /** When the service cannot be found, `onStart` shows the unavailable dialog
      but leaves the screen open, with its menu, and without a service; the
      menu's "input" item still opens the input dialog, and confirming a
      non-empty text there throws. */
  lemma UnavailableServiceLeavesInputReachable(replies: Replies)
    ensures var started := OnStart(Initial, false, replies);
      && started.dialogs == [ServiceUnavailable]
      && !started.screen.hasService
      && !started.screen.finishing
      && OptionsItemSelected(started.screen, MenuInput).dialogs == [InputDialog]
      && InputDoneAsWritten(OptionsItemSelected(started.screen, MenuInput).screen, Str("1"), replies).NullPointer?
  {
  }

  /** When registration went through but entering service mode threw, the
      handler stays registered while the service is dropped: display events
      can still fill the list, and a click on a key line then dereferences the
      null service. */
  lemma ThrownEnterLeavesKeyClickThrowing(replies: Replies, lines: seq<JString>, position: nat)
    requires replies(0).Returned? && replies(1).Thrown?
    requires position < |lines| && KeyPatternFinds(lines[position])
    ensures var started := OnStart(Initial, true, replies);
      && started.calls == [RegisterEventHandler, EnterServiceMode(TestManual, SubEnter)]
      && ItemClickAsWritten(ServiceDisplay(started.screen, lines).screen, position, replies).NullPointer?
  {
  }
}
