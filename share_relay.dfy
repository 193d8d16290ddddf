/**
  The share-intent relay of the Android host activity, as values.

  The activity keeps one pending-payload slot (`sharedText`) and two scratch
  fields (`pageTitle`, `pageUrl`). A share intent may fill the slot; the
  `getSharedText` bridge call reads the slot and empties it. This module gives
  the state as a datatype and the two operations as functions on it; the class
  in module Activity is proved to behave exactly as these functions say.
 */
module ShareRelay {

  datatype Option<+T> = None | Some(value: T) {
    /** The wrapped value, or `default` when there is none. */
    function GetOr(default: T): T {
      match this
      case Some(v) => v
      case None => default
    }
  }

  /** Intent.ACTION_SEND */
  const ACTION_SEND: string := "android.intent.action.SEND"
  /** The only MIME type the relay accepts. */
  const TEXT_PLAIN: string := "text/plain"
  /** The only method name the bridge channel answers. */
  const GET_SHARED_TEXT: string := "getSharedText"

  /** The JSON object {"title": ..., "url": ...} handed to the UI layer. */
  datatype Payload = Payload(title: string, url: string)

  /**
    The parts of an Android intent that the relay looks at: its action, its
    MIME type, and the EXTRA_TEXT and EXTRA_SUBJECT string extras. Every one
    of them may be absent (null).
   */
  datatype Intent = Intent(
    action: Option<string>,
    mimeType: Option<string>,
    extraText: Option<string>,
    extraSubject: Option<string>)

  /** The three mutable fields of the activity. */
  datatype State = State(
    sharedText: Option<Payload>,
    pageTitle: Option<string>,
    pageUrl: Option<string>)

  /** All three fields start out null. */
  const Initial: State := State(None, None, None)

  /** What the bridge sends back: `result.success(value)` or `result.notImplemented()`. */
  datatype Reply = Success(value: Option<Payload>) | NotImplemented

  /** The reply to a bridge call together with the state it leaves behind. */
  datatype Response = Response(reply: Reply, next: State)

  /** The guard of handleIntent: a SEND action carrying exactly "text/plain". */
  predicate IsTextShare(i: Intent) {
    i.action == Some(ACTION_SEND) && i.mimeType == Some(TEXT_PLAIN)
  }

  /**
    The state after handleIntent: a guarded no-op; otherwise both scratch
    fields take the extras, and the slot is replaced only when a URL is present.
   */
  function AfterIntent(s: State, i: Intent): State {
    if !IsTextShare(i) then s
    else
      var url := i.extraText;
      var title := i.extraSubject;
      var slot :=
        if title.Some? && url.Some? then Some(Payload(title.value, url.value))
        else if url.Some? then Some(Payload("", url.value))
        else s.sharedText;
      State(slot, title, url)
  }

  /** The reply and new state of one call on the bridge channel. */
  function OnCall(s: State, name: string): Response {
    if name == GET_SHARED_TEXT then Response(Success(s.sharedText), s.(sharedText := None))
    else Response(NotImplemented, s)
  }

  /**
    Reference definition of what a share deposits in the slot, stated without
    the three-way branch: a text share with a URL deposits that URL and the
    subject, the subject defaulting to the empty string; anything else deposits
    nothing.
   */
  function Deposit(i: Intent): (p: Option<Payload>)
    ensures p.Some? <==> IsTextShare(i) && i.extraText.Some?
  {
    if IsTextShare(i) && i.extraText.Some? then Some(Payload(i.extraSubject.GetOr(""), i.extraText.value))
    else None
  }

  // ---------------------------------------------------------------------------
  // handleIntent

  /** AfterIntent agrees with the reference: the slot takes the deposit, if any, and is otherwise kept. */
  lemma AfterIntentDeposits(s: State, i: Intent)
    ensures AfterIntent(s, i).sharedText == if Deposit(i).Some? then Deposit(i) else s.sharedText
    ensures IsTextShare(i) ==> AfterIntent(s, i).pageUrl == i.extraText && AfterIntent(s, i).pageTitle == i.extraSubject
    ensures !IsTextShare(i) ==> AfterIntent(s, i) == s
  {
  }

  /** An action other than SEND (or none) changes nothing. */
  lemma NonSendIsNoOp(s: State, i: Intent)
    requires i.action != Some(ACTION_SEND)
    ensures AfterIntent(s, i) == s
  {
  }

  /** A SEND whose type is not exactly "text/plain" (or is absent) changes nothing. */
  lemma NonTextPlainIsNoOp(s: State, i: Intent)
    requires i.action == Some(ACTION_SEND) && i.mimeType != Some(TEXT_PLAIN)
    ensures AfterIntent(s, i) == s
  {
  }

  /** Subject and text both present: the slot holds {title: subject, url: text}. */
  lemma SubjectAndTextDeposit(s: State, i: Intent, subject: string, text: string)
    requires IsTextShare(i) && i.extraSubject == Some(subject) && i.extraText == Some(text)
    ensures AfterIntent(s, i) == State(Some(Payload(subject, text)), Some(subject), Some(text))
  {
  }

  /** Text present, subject absent: the slot holds {title: "", url: text}. */
  lemma TextOnlyDeposit(s: State, i: Intent, text: string)
    requires IsTextShare(i) && i.extraSubject == None && i.extraText == Some(text)
    ensures AfterIntent(s, i) == State(Some(Payload("", text)), None, Some(text))
  {
  }

  /**
    Text absent: the slot is neither replaced nor cleared, yet both scratch
    fields are still overwritten, pageUrl with null.
   */
  lemma MissingTextKeepsSlot(s: State, i: Intent)
    requires IsTextShare(i) && i.extraText == None
    ensures AfterIntent(s, i) == State(s.sharedText, i.extraSubject, None)
  {
  }

  /**
    Only a null check guards the URL: an empty EXTRA_TEXT is stored as the URL,
    with or without a subject.
   */
  lemma EmptyUrlAccepted(s: State, subject: Option<string>)
    ensures AfterIntent(s, Intent(Some(ACTION_SEND), Some(TEXT_PLAIN), Some(""), subject)).sharedText
         == Some(Payload(subject.GetOr(""), ""))
  {
  }

  /** Last write wins: a second depositing share replaces the first, whatever was pending. */
  lemma SecondShareReplacesFirst(s: State, first: Intent, second: Intent)
    requires Deposit(second).Some?
    ensures AfterIntent(AfterIntent(s, first), second).sharedText == Deposit(second)
  {
  }

  // ---------------------------------------------------------------------------
  // the bridge call handler

  /** getSharedText answers with the slot as it was, then leaves it null; the scratch fields stay. */
  lemma GetSharedTextReadsAndClears(s: State)
    ensures OnCall(s, GET_SHARED_TEXT).reply == Success(s.sharedText)
    ensures OnCall(s, GET_SHARED_TEXT).next == State(None, s.pageTitle, s.pageUrl)
  {
  }

  /** A second getSharedText with no share in between answers null. */
  lemma SecondReadIsNull(s: State)
    ensures OnCall(OnCall(s, GET_SHARED_TEXT).next, GET_SHARED_TEXT).reply == Success(None)
  {
  }

  /** Any other method name is answered notImplemented, never with a value, and changes nothing. */
  lemma OtherMethodNotImplemented(s: State, name: string)
    requires name != GET_SHARED_TEXT
    ensures OnCall(s, name) == Response(NotImplemented, s)
  {
  }
}
