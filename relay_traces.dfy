/**
  Runs of the relay over a sequence of lifecycle events: share intents (from
  onCreate or onNewIntent, which handle them identically) and bridge calls,
  processed one at a time on the main thread. The lemmas here relate many
  calls: which share the UI finally receives, that nothing is delivered twice,
  that nothing is delivered that was not shared, and that the scratch fields
  never reach the UI.
 */
module RelayTraces {
  import opened ShareRelay

  datatype Event = Share(intent: Intent) | MethodCall(name: string)

  /** The final state and the replies to the bridge calls, in order. */
  datatype Outcome = Outcome(final: State, replies: seq<Reply>)

  function Run(s: State, evs: seq<Event>): Outcome
    decreases |evs|
  {
    if evs == [] then Outcome(s, [])
    else match evs[0]
      case Share(i) => Run(AfterIntent(s, i), evs[1..])
      case MethodCall(m) =>
        var r := OnCall(s, m);
        var rest := Run(r.next, evs[1..]);
        Outcome(rest.final, [r.reply] + rest.replies)
  }

  /** Events that set the slot: a depositing share, or a getSharedText that clears it. */
  predicate WritesSlot(e: Event) {
    match e
    case Share(i) => Deposit(i).Some?
    case MethodCall(m) => m == GET_SHARED_TEXT
  }

  /** What such an event leaves in the slot. */
  function Written(e: Event): Option<Payload>
    requires WritesSlot(e)
  {
    match e
    case Share(i) => Deposit(i)
    case MethodCall(_) => None
  }

  /** Number of depositing shares (SEND text/plain intents carrying EXTRA_TEXT) in a trace. */
  function Deposits(evs: seq<Event>): nat {
    if evs == [] then 0
    else (if evs[0].Share? && Deposit(evs[0].intent).Some? then 1 else 0) + Deposits(evs[1..])
  }

  /** Number of replies that carry a payload. */
  function Delivered(rs: seq<Reply>): nat {
    if rs == [] then 0
    else (if rs[0].Success? && rs[0].value.Some? then 1 else 0) + Delivered(rs[1..])
  }

  /** Some share in the trace deposits `p`. */
  predicate SharedIn(evs: seq<Event>, p: Payload) {
    exists j :: 0 <= j < |evs| && evs[j].Share? && Deposit(evs[j].intent) == Some(p)
  }

  /** A trace in which nothing writes the slot leaves it as it was. */
  lemma {:induction false} QuietTraceKeepsSlot(s: State, evs: seq<Event>)
    requires forall j :: 0 <= j < |evs| ==> !WritesSlot(evs[j])
    ensures Run(s, evs).final.sharedText == s.sharedText
    decreases |evs|
  {
    if evs != [] {
      match evs[0]
      case Share(i) =>
        AfterIntentDeposits(s, i);
        QuietTraceKeepsSlot(AfterIntent(s, i), evs[1..]);
      case MethodCall(m) =>
        QuietTraceKeepsSlot(OnCall(s, m).next, evs[1..]);
    }
  }

  /**
    Last write wins: the slot at the end of a trace holds what its last
    slot-writing event wrote; earlier shares are lost.
   */
  lemma {:induction false} LastWriteWins(s: State, evs: seq<Event>, k: nat)
    requires k < |evs| && WritesSlot(evs[k])
    requires forall j :: k < j < |evs| ==> !WritesSlot(evs[j])
    ensures Run(s, evs).final.sharedText == Written(evs[k])
    decreases |evs|
  {
    var next := match evs[0] case Share(i) => AfterIntent(s, i) case MethodCall(m) => OnCall(s, m).next;
    assert Run(s, evs).final == Run(next, evs[1..]).final;
    if k == 0 {
      if evs[0].Share? {
        AfterIntentDeposits(s, evs[0].intent);
      }
      QuietTraceKeepsSlot(next, evs[1..]);
    } else {
      LastWriteWins(next, evs[1..], k - 1);
    }
  }

  /**
    Read-once delivery: payloads reach the UI at most as often as shares
    deposited one, plus once for a payload already pending at the start.
   */
  lemma {:induction false} AtMostOnceDelivery(s: State, evs: seq<Event>)
    ensures Delivered(Run(s, evs).replies) <= Deposits(evs) + (if s.sharedText.Some? then 1 else 0)
    decreases |evs|
  {
    if evs != [] {
      match evs[0]
      case Share(i) =>
        AfterIntentDeposits(s, i);
        AtMostOnceDelivery(AfterIntent(s, i), evs[1..]);
      case MethodCall(m) =>
        var r := OnCall(s, m);
        AtMostOnceDelivery(r.next, evs[1..]);
        assert Run(s, evs).replies == [r.reply] + Run(r.next, evs[1..]).replies;
        assert ([r.reply] + Run(r.next, evs[1..]).replies)[1..] == Run(r.next, evs[1..]).replies;
    }
  }

  /** A trace without depositing shares delivers at most the payload pending at its start, once. */
  lemma NoShareDeliversAtMostOnce(s: State, evs: seq<Event>)
    requires Deposits(evs) == 0
    ensures Delivered(Run(s, evs).replies) <= 1
    ensures s.sharedText == None ==> Delivered(Run(s, evs).replies) == 0
  {
    AtMostOnceDelivery(s, evs);
  }

  /** Every payload the UI receives was pending at the start or deposited by a share of the trace. */
  lemma {:induction false} DeliveredWasShared(s: State, evs: seq<Event>, k: nat)
    requires k < |Run(s, evs).replies|
    requires Run(s, evs).replies[k].Success? && Run(s, evs).replies[k].value.Some?
    ensures s.sharedText == Run(s, evs).replies[k].value || SharedIn(evs, Run(s, evs).replies[k].value.value)
    decreases |evs|
  {
    var p := Run(s, evs).replies[k].value.value;
    match evs[0]
    case Share(i) =>
      var s' := AfterIntent(s, i);
      AfterIntentDeposits(s, i);
      DeliveredWasShared(s', evs[1..], k);
      if s'.sharedText == Some(p) && s.sharedText != Some(p) {
        assert evs[0].Share? && Deposit(evs[0].intent) == Some(p);
      } else if SharedIn(evs[1..], p) {
        var j :| 0 <= j < |evs[1..]| && evs[1..][j].Share? && Deposit(evs[1..][j].intent) == Some(p);
        assert evs[j + 1] == evs[1..][j];
      }
    case MethodCall(m) =>
      var r := OnCall(s, m);
      assert Run(s, evs).replies == [r.reply] + Run(r.next, evs[1..]).replies;
      if k > 0 {
        assert Run(s, evs).replies[k] == Run(r.next, evs[1..]).replies[k - 1];
        DeliveredWasShared(r.next, evs[1..], k - 1);
        if r.next.sharedText == Some(p) {
          assert s.sharedText == Some(p);
        } else {
          var j :| 0 <= j < |evs[1..]| && evs[1..][j].Share? && Deposit(evs[1..][j].intent) == Some(p);
          assert evs[j + 1] == evs[1..][j];
        }
      }
  }

  /**
    The scratch fields are write-only: two states that agree on the slot give
    the same replies and the same final slot on every trace.
   */
  lemma {:induction false} ScratchFieldsNeverDelivered(s: State, t: State, evs: seq<Event>)
    requires s.sharedText == t.sharedText
    ensures Run(s, evs).replies == Run(t, evs).replies
    ensures Run(s, evs).final.sharedText == Run(t, evs).final.sharedText
    decreases |evs|
  {
    if evs != [] {
      match evs[0]
      case Share(i) =>
        AfterIntentDeposits(s, i);
        AfterIntentDeposits(t, i);
        ScratchFieldsNeverDelivered(AfterIntent(s, i), AfterIntent(t, i), evs[1..]);
      case MethodCall(m) =>
        ScratchFieldsNeverDelivered(OnCall(s, m).next, OnCall(t, m).next, evs[1..]);
    }
  }
}
