# Share-intent relay of the NirvanaHQ task adder's Android activity

The Android host activity `MainActivity` receives "share" intents from other
apps and relays them to the Flutter UI. It keeps one pending-payload slot,
`sharedText`, and two scratch fields, `pageTitle` and `pageUrl`. Each of the three starts out null.

- `handleIntent` acts only on an intent whose action is `ACTION_SEND` and whose type is exactly `"text/plain"`.
  - It copies the `EXTRA_TEXT` extra into `pageUrl` and the `EXTRA_SUBJECT` extra into `pageTitle`.
  - When a URL is present, it replaces the slot with `{title, url}`. The title is `""` when there is no subject.
- Both `onCreate` and `onNewIntent` pass their intent to `handleIntent`.
- The bridge's method-call handler answers `getSharedText` with the slot and then sets the slot to null.
  Every other method name gets `notImplemented`.

The project has three modules:

- `ShareRelay` (`share_relay.dfy`) holds the state and the intent as datatypes.
  - `AfterIntent` and `OnCall` give the two operations as functions on the state.
  - `Deposit` is an independent reference for what a share puts in the slot.
  - One lemma per behaviour of a single call.
- `Activity` (`main_activity.dfy`) holds the class `MainActivity`.
  - Its three fields are updated in place by `HandleIntent`, `OnCreate`, `OnNewIntent` and `OnMethodCall`.
  - Each method is proved to move `Snapshot()` exactly as `AfterIntent` or `OnCall` says.
  - Three client methods build a fresh activity and prove end-to-end scenarios from those contracts alone.
- `RelayTraces` (`relay_traces.dfy`) runs the relay over any sequence of events (shares and bridge calls) and proves by induction:
  - last write wins;
  - read-once delivery;
  - every delivered payload was shared;
  - the scratch fields never reach the UI.

`handleIntent` checks only that `EXTRA_TEXT` is non-null
(`MainActivity.kt:37`, `:42`), so an empty string is accepted as a URL, with or
without a subject. The model adds no non-empty-URL invariant;
`ShareRelay.EmptyUrlAccepted` states this.

## Model

| member | source | states |
|---|---|---|
| ShareRelay.AfterIntentDeposits | android/app/src/main/kotlin/com/example/nirvanahq_task_adder_flutter/MainActivity.kt:26-52 | handleIntent agrees with the reference `Deposit`: the slot takes the deposit if there is one and is kept otherwise; every SEND text/plain intent copies both extras into the scratch fields, whether or not it deposits; any other intent changes nothing |
| ShareRelay.NonSendIsNoOp | android/app/src/main/kotlin/com/example/nirvanahq_task_adder_flutter/MainActivity.kt:27-28 | an action other than ACTION_SEND, or none, leaves all three fields unchanged |
| ShareRelay.NonTextPlainIsNoOp | android/app/src/main/kotlin/com/example/nirvanahq_task_adder_flutter/MainActivity.kt:29 | a SEND whose type is not exactly "text/plain" leaves all three fields unchanged |
| ShareRelay.SubjectAndTextDeposit | android/app/src/main/kotlin/com/example/nirvanahq_task_adder_flutter/MainActivity.kt:31-41 | with subject and text present, the slot becomes {title: subject, url: text} and the scratch fields hold both extras |
| ShareRelay.TextOnlyDeposit | android/app/src/main/kotlin/com/example/nirvanahq_task_adder_flutter/MainActivity.kt:42-47 | with text present and subject absent, the slot becomes {title: "", url: text} |
| ShareRelay.MissingTextKeepsSlot | android/app/src/main/kotlin/com/example/nirvanahq_task_adder_flutter/MainActivity.kt:31-48 | with the text absent the slot is neither replaced nor cleared, while pageUrl becomes null and pageTitle the incoming subject |
| ShareRelay.EmptyUrlAccepted | android/app/src/main/kotlin/com/example/nirvanahq_task_adder_flutter/MainActivity.kt:37-47 | an empty EXTRA_TEXT passes the null check and is stored as the URL, for every subject, with the subject or "" as title |
| ShareRelay.SecondShareReplacesFirst | android/app/src/main/kotlin/com/example/nirvanahq_task_adder_flutter/MainActivity.kt:41-47 | after two shares the slot holds the second share's payload whenever the second one deposits, whatever the first did |
| ShareRelay.GetSharedTextReadsAndClears | android/app/src/main/kotlin/com/example/nirvanahq_task_adder_flutter/MainActivity.kt:58-60 | getSharedText replies with the slot as it was before the call and leaves it null, the scratch fields untouched |
| ShareRelay.SecondReadIsNull | android/app/src/main/kotlin/com/example/nirvanahq_task_adder_flutter/MainActivity.kt:58-60 | a second getSharedText with nothing in between replies null |
| ShareRelay.OtherMethodNotImplemented | android/app/src/main/kotlin/com/example/nirvanahq_task_adder_flutter/MainActivity.kt:61-62 | any other method name is answered notImplemented, never a value, and the state is unchanged |
| Activity.MainActivity.constructor | android/app/src/main/kotlin/com/example/nirvanahq_task_adder_flutter/MainActivity.kt:12-14 | a new activity has sharedText, pageTitle and pageUrl all null |
| Activity.MainActivity.HandleIntent | android/app/src/main/kotlin/com/example/nirvanahq_task_adder_flutter/MainActivity.kt:26-52 | updating the fields in place yields exactly the state `AfterIntent` gives for the old state |
| Activity.MainActivity.OnCreate | android/app/src/main/kotlin/com/example/nirvanahq_task_adder_flutter/MainActivity.kt:16-19 | the launching intent is handled exactly as handleIntent handles it |
| Activity.MainActivity.OnNewIntent | android/app/src/main/kotlin/com/example/nirvanahq_task_adder_flutter/MainActivity.kt:21-24 | a new intent to the running activity is handled exactly as handleIntent handles it |
| Activity.MainActivity.OnMethodCall | android/app/src/main/kotlin/com/example/nirvanahq_task_adder_flutter/MainActivity.kt:57-64 | the reply and the new fields are exactly those `OnCall` gives for the old state |
| Activity.ShareThenReadTwice | android/app/src/main/kotlin/com/example/nirvanahq_task_adder_flutter/MainActivity.kt:16-19 | after a cold start by a share with subject and URL, the first getSharedText receives {title, url} and the second receives null |
| Activity.TwoSharesThenRead | android/app/src/main/kotlin/com/example/nirvanahq_task_adder_flutter/MainActivity.kt:21-24 | of two shares with no read in between, the read receives only the second, titled "" since it had no subject |
| Activity.IgnoredEventsKeepPending | android/app/src/main/kotlin/com/example/nirvanahq_task_adder_flutter/MainActivity.kt:28-62 | a URL-less share, a share of another type and an unknown method (answered notImplemented) leave the pending payload for the next getSharedText |
| RelayTraces.QuietTraceKeepsSlot | android/app/src/main/kotlin/com/example/nirvanahq_task_adder_flutter/MainActivity.kt:26-64 | a sequence of events none of which is a depositing share or a getSharedText leaves the slot as it was |
| RelayTraces.LastWriteWins | android/app/src/main/kotlin/com/example/nirvanahq_task_adder_flutter/MainActivity.kt:41-60 | after any sequence of events the slot holds what the last depositing share or getSharedText wrote; earlier shares are lost |
| RelayTraces.AtMostOnceDelivery | android/app/src/main/kotlin/com/example/nirvanahq_task_adder_flutter/MainActivity.kt:41-60 | over any sequence of events, replies carrying a payload number at most the depositing shares (SEND text/plain intents carrying EXTRA_TEXT), plus one for a payload pending at the start |
| RelayTraces.NoShareDeliversAtMostOnce | android/app/src/main/kotlin/com/example/nirvanahq_task_adder_flutter/MainActivity.kt:58-60 | without a depositing share, at most one call receives a payload, and none does if nothing was pending |
| RelayTraces.DeliveredWasShared | android/app/src/main/kotlin/com/example/nirvanahq_task_adder_flutter/MainActivity.kt:37-60 | every payload a call receives was pending at the start or was deposited by a share of the sequence |
| RelayTraces.ScratchFieldsNeverDelivered | android/app/src/main/kotlin/com/example/nirvanahq_task_adder_flutter/MainActivity.kt:31-60 | pageTitle and pageUrl never influence a reply or the slot: states with equal slots give equal replies on every sequence |

## Left out

- JSON serialisation. The source stores `JSONObject(...).toString()` in `sharedText`, and the escaping and field order belong to `org.json`. The slot holds the structured `Payload(title, url)` instead.
- The Flutter side. The engine, the `MethodChannel` and its binary messenger, the channel name constant and the `result` callback object are not modelled. A call is its method name, and the callback becomes the `Reply` value.
- The Android lifecycle. `super.onCreate`, `super.onNewIntent`, the `Bundle` and the `Intent` object are not modelled. An intent is its action, its type and its two string extras. Extras of any other kind are not modelled.
- Threading. Android delivers intents and the platform channel delivers calls one at a time on the main thread, so a run is a sequence of events.
- The consumer's (Dart/UI) behaviour is not part of this model.
