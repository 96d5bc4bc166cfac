# FreeRIL service-mode screen, modelled in Dafny

The service-mode screen of FreeRIL shows the text lines that the phone's
service mode reports and forwards single-character key codes to the remote
phone service. Almost all of it is Android UI wiring. This project models the
decisions `ServiceModeActivity` takes:

- **Line classifier.** A click on a displayed line is decided by two patterns
  anchored at the start of the line. `^ *\[(.)\] ` marks a key line, and the
  captured character is the key to send. `^ *Input ` marks a line asking for
  free text, which opens the input dialog. Any other line is only logged.
- **Key sending (`sendString`).** Typed text goes out one UTF-16 code unit at a
  time and stops at the first failure. Then `S` confirms, but only when every
  unit went through. Any failure closes the screen.
- **Lifecycle.** `onStart` finds the service, registers the event handler and
  enters service mode. `onStop` leaves service mode. `onBackPressed` sends `\`
  in service mode. The menu and the input dialog's "done" action are included.
  These operate on the state `mInServiceMode`, `mPhoneService`, the displayed
  lines and `finish()`.

Files, one module each:

- `java_text.dfy` (`JavaText`): a Java string as UTF-16 code units. It also
  holds what the regex `.` and ` *` consume.
- `line_classifier.dfy` (`LineClassifier`): the two patterns, written as a
  reference "some prefix of spaces, then…" definition. The computed classifier
  is proved equal to it.
- `remote.dfy` (`Remote`): replies of the remote service, the calls the
  activity makes, and the two service-mode constants it uses.
- `key_sending.dfy` (`KeySending`): `sendString` as a function. It also has the
  source's loop statement by statement, proved to agree with the function.
- `service_mode_activity.dfy` (`ServiceModeActivity`): the callbacks, each a
  function from state and replies to the next state, the remote calls made and
  the dialogs shown.

Everything the remote service does is an oracle. A `Replies` value answers the
i-th remote call of one callback with either "returned b" or "threw
`RemoteException`". `ServiceManager.getService` becomes a boolean parameter
(`found`). Java strings are sequences of UTF-16 code units, so a supplementary
character is two units. `sendString` sends both units. The regex `.` consumes
both as one code point, and the key sent is the first unit.

Android's `java.util.regex` runs on ICU. There, `.` refuses these line
terminators: U+000A through U+000D, U+0085, U+2028 and U+2029. The model uses
that set. OpenJDK's `.` accepts U+000B and U+000C.

## Model

| member | source | states |
|---|---|---|
| `JavaText.LeadingSpaces` | src/org/freeril/servicemode/ServiceModeActivity.java:46-47 | the greedy ` *` at the start of a line consumes a run of spaces that is not followed by another space |
| `JavaText.SpacePrefixIsLeadingRun` | src/org/freeril/servicemode/ServiceModeActivity.java:46-47 | a prefix of spaces followed by a non-space is exactly the leading run, so ` *` has one way to let `[` or `I` follow |
| `JavaText.CodePointWidth` | src/org/freeril/servicemode/ServiceModeActivity.java:46 | a code point takes one or two units; a two-unit code point is a surrogate pair, and a code point never ends between the high and low halves of a pair |
| `JavaText.DotWidth` | src/org/freeril/servicemode/ServiceModeActivity.java:46 | `.` fails exactly at end of input or on a line terminator; otherwise it consumes exactly one whole code point, so a match never splits a surrogate pair |
| `LineClassifier.KeyMatchAfterLeadingSpaces` | src/org/freeril/servicemode/ServiceModeActivity.java:46 | every match of the key pattern puts `[` right after the leading spaces |
| `LineClassifier.InputMatchAfterLeadingSpaces` | src/org/freeril/servicemode/ServiceModeActivity.java:47 | every match of the input pattern puts `Input ` right after the leading spaces |
| `LineClassifier.ClassifyMatchesPatterns` | src/org/freeril/servicemode/ServiceModeActivity.java:46-47 | each pattern holds exactly when its tail matches at the end of the leading spaces, and that fixes the captured key |
| `LineClassifier.PatternsExclusive` | src/org/freeril/servicemode/ServiceModeActivity.java:81-94 | no line matches both patterns, so testing the key pattern first never shadows an input line |
| `LineClassifier.Classify` | src/org/freeril/servicemode/ServiceModeActivity.java:78-99 | a line is Key(c) exactly when the key pattern matches and captures c; it is Input exactly when only the input pattern matches, and Other exactly when neither matches |
| `LineClassifier.KeyLineExample` | src/org/freeril/servicemode/ServiceModeActivity.java:46 | `  [1] Debug` is a key line for `1` |
| `LineClassifier.InputLineExample` | src/org/freeril/servicemode/ServiceModeActivity.java:47 | ` Input code` is an input line |
| `LineClassifier.SurrogateKeyExample` | src/org/freeril/servicemode/ServiceModeActivity.java:46 | a bracketed surrogate pair is one captured code point, and its first unit is the key |
| `LineClassifier.LineTerminatorExample` | src/org/freeril/servicemode/ServiceModeActivity.java:46 | a bracketed line feed is not a key line |
| `KeySending.SendEach` | src/org/freeril/servicemode/ServiceModeActivity.java:173-178 | the loop makes at least one call and never more calls than there are units left |
| `KeySending.SendEachStopsAtFirstFailure` | src/org/freeril/servicemode/ServiceModeActivity.java:173-178 | the loop sends the input's units in order and every call before the last one succeeded; it reports success exactly when it reached the end and the last call succeeded, and otherwise the last call failed |
| `KeySending.SendString` | src/org/freeril/servicemode/ServiceModeActivity.java:169-189 | the keys are a prefix of the input, or all of it and then `S`; sending stops right after the first failure; `S` is sent exactly when the input is non-empty and every unit went through; the screen closes exactly when a send failed or threw, the input was empty, or there was no service |
| `KeySending.EmptyInputClosesScreen` | src/org/freeril/servicemode/ServiceModeActivity.java:170-188 | an empty input sends nothing, not even `S`, and closes the screen |
| `KeySending.SendInputLoop` | src/org/freeril/servicemode/ServiceModeActivity.java:170-178 | the `for` loop with `successful` starting `false` computes the same keys and success as `SendEach`, and throws on a null service exactly when the input is non-empty |
| `KeySending.SendStringAsWritten` | src/org/freeril/servicemode/ServiceModeActivity.java:169-189 | the method as written throws `NullPointerException` exactly when the service is null and the input non-empty; otherwise it agrees with `SendString` |
| `ServiceModeActivity.OnStart` | src/org/freeril/servicemode/ServiceModeActivity.java:102-131 | the list is emptied; the service is kept exactly when it was found, registration returned and entering returned true; the flag changes only if entering returned; the unavailable dialog shows exactly when the service is dropped; the calls are register, enter, unregister, cut at the first exception (one call exactly when register threw); unregister happens only after a refusal |
| `ServiceModeActivity.OnStop` | src/org/freeril/servicemode/ServiceModeActivity.java:135-149 | out of service mode it changes nothing; in service mode it always ends with the flag false and no service, even if exit or unregister throw; a thrown exit skips unregister |
| `ServiceModeActivity.OnBackPressed` | src/org/freeril/servicemode/ServiceModeActivity.java:152-167 | in service mode it sends exactly `\` and closes the screen only if that send fails; out of service mode it closes the screen and sends nothing |
| `ServiceModeActivity.SendKey` | src/org/freeril/servicemode/ServiceModeActivity.java:82-93 | one key call; the screen closes exactly when the call failed or threw, or there is no service |
| `ServiceModeActivity.ItemClick` | src/org/freeril/servicemode/ServiceModeActivity.java:75-100 | a key line for c sends exactly c and closes the screen only on failure; an input line opens the input dialog; any other line sends nothing, shows nothing and does not close the screen |
| `ServiceModeActivity.ItemClickAsWritten` | src/org/freeril/servicemode/ServiceModeActivity.java:81-93 | the click as written throws exactly on a key line with no service; otherwise it agrees with `ItemClick` |
| `ServiceModeActivity.ServiceDisplay` | src/org/freeril/servicemode/ServiceModeActivity.java:57-65 | the list shows exactly the reported lines; nothing else changes |
| `ServiceModeActivity.ServiceCompleted` | src/org/freeril/servicemode/ServiceModeActivity.java:53-55 | the screen closes and nothing else changes |
| `ServiceModeActivity.OptionsItemSelected` | src/org/freeril/servicemode/ServiceModeActivity.java:198-213 | "input" opens the input dialog, "quit" closes the screen, and no remote call is made |
| `ServiceModeActivity.InputDone` | src/org/freeril/servicemode/InputDialogFragment.java:54-65 | the calls are exactly the key sends of `sendString` (a prefix of the typed text cut right after the first failure, or all of it and then `S`); the screen closes as `sendString` decides; a missing service counts as a failed send |
| `ServiceModeActivity.InputDoneAsWritten` | src/org/freeril/servicemode/InputDialogFragment.java:54-65 | the done action as written throws `NullPointerException` exactly when the service is null and the text non-empty; otherwise it agrees with `InputDone` |
| `ServiceModeActivity.ConsistentThroughout` | src/org/freeril/servicemode/ServiceModeActivity.java:105-167 | being in service mode implies holding the service: `onStart` on a stopped activity establishes this, every other callback keeps it, and then `onStop` and `onBackPressed` never throw |
| `ServiceModeActivity.UnavailableServiceLeavesInputReachable` | src/org/freeril/servicemode/ServiceModeActivity.java:105-108 | an unfound service shows the dialog but leaves the screen open without a service; the menu still opens the input dialog, and confirming `1` there throws |
| `ServiceModeActivity.ThrownEnterLeavesKeyClickThrowing` | src/org/freeril/servicemode/ServiceModeActivity.java:110-130 | if registration works and entering throws, the service is dropped; a later click on a reported key line then throws |

## Left out

- Android plumbing is not modelled: views, adapters, the `Handler.post`
  hand-off, menu inflation, `setContentView` and `Log`. Displayed lines are a
  state field, and a display event replaces them in one step.
- Showing a dialog is recorded as a `Dialog` value; its view code is not
  modelled. `InputDialogFragment` matters only through its "done" action,
  which calls `sendString` (`InputDone`). The unavailable dialog has no
  behaviour of its own.
- The remote `IPhoneService`/`IEventHandler` and the modem protocol behind
  them are not modelled. Each call's reply comes from an oracle, and
  `ServiceManager.getService` is a boolean. Binder threading is not modelled.
- The order in which Android calls the callbacks is not modelled.
  `ConsistentThroughout` states what holds when `onStart` runs on a stopped
  activity, the only way Android calls it.
- `ServiceModeCommands.java` is not modelled apart from `SM_TYPE_TEST_MANUAL`
  and `SM_TYPE_SUB_ENTER`. It is a table of constants with no behaviour.
- General Java regular expressions are not modelled. Only the two fixed
  patterns are, as predicates over code units.
- `finish()` is a sticky flag. What Android does after it is out of scope.

## Findings

| source | as written | input that shows it | evidently intended | confidence | as-written member | corrected member |
|---|---|---|---|---|---|---|
| src/org/freeril/servicemode/ServiceModeActivity.java:169-189 | `sendString` calls `mPhoneService.sendServiceKeyCode` without a null check and catches only `RemoteException` | the service is not found at start (`:105-108`); the unavailable dialog leaves the screen open; the user picks "input" from the menu (`:201-203`), types `1` and confirms: `NullPointerException` | the missing service counts as a failed send and the screen closes, like every other service failure | medium; not executed | `KeySending.SendStringAsWritten`, `ServiceModeActivity.InputDoneAsWritten` | `KeySending.SendString`, `ServiceModeActivity.InputDone` |
| src/org/freeril/servicemode/ServiceModeActivity.java:81-93 | `onItemClick` sends the key through `mPhoneService` without a null check | registration returns but `enterServiceMode` throws (`:110-130`). The handler stays registered while `mPhoneService` is null. A later display event shows a key line, and clicking it throws `NullPointerException` | the missing service counts as a failed send and the screen closes | low; not executed | `ServiceModeActivity.ItemClickAsWritten` | `ServiceModeActivity.ItemClick` |
