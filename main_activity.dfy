/**
  The host activity as an object whose fields its handlers update in place.
  Each handler is proved to move the object's fields exactly as the value-level
  functions of module ShareRelay say; the scenario methods at the end are
  clients that use only those contracts.
 */
module Activity {
  import opened ShareRelay

  class MainActivity {
    /** The single pending payload (null when nothing is pending). */
    var sharedText: Option<Payload>
    /** Scratch copies of the extras of the last SEND text/plain intent, whether or not it deposited. */
    var pageTitle: Option<string>
    var pageUrl: Option<string>

    /** The fields of the activity as one value. */
    function Snapshot(): State
      reads this
    {
      State(sharedText, pageTitle, pageUrl)
    }

    /** A fresh activity has all three fields null. */
    constructor ()
      ensures Snapshot() == Initial
    {
      sharedText, pageTitle, pageUrl := None, None, None;
    }

    /** handleIntent: reads the SEND/text/plain extras and may replace the pending payload. */
    method HandleIntent(intent: Intent)
      modifies this
      ensures Snapshot() == AfterIntent(old(Snapshot()), intent)
    {
      if intent.action == Some(ACTION_SEND) {
        if intent.mimeType == Some(TEXT_PLAIN) {
          pageUrl := intent.extraText;
          pageTitle := intent.extraSubject;
          if pageTitle.Some? && pageUrl.Some? {
            sharedText := Some(Payload(pageTitle.value, pageUrl.value));
          } else if pageUrl.Some? {
            sharedText := Some(Payload("", pageUrl.value));
          }
        }
      }
    }

    /** Cold start: the launching intent goes through handleIntent. */
    method OnCreate(intent: Intent)
      modifies this
      ensures Snapshot() == AfterIntent(old(Snapshot()), intent)
    {
      HandleIntent(intent);
    }

    /** A new intent delivered to the running activity goes through the same handleIntent. */
    method OnNewIntent(intent: Intent)
      modifies this
      ensures Snapshot() == AfterIntent(old(Snapshot()), intent)
    {
      HandleIntent(intent);
    }

    /** The bridge's method-call handler: read-and-clear for getSharedText, notImplemented otherwise. */
    method OnMethodCall(name: string) returns (reply: Reply)
      modifies this
      ensures Response(reply, Snapshot()) == OnCall(old(Snapshot()), name)
    {
      if name == GET_SHARED_TEXT {
        reply := Success(sharedText);
        sharedText := None;
      } else {
        reply := NotImplemented;
      }
    }
  }

  /**
    Launched by a share carrying a subject and a URL, the UI's first
    getSharedText receives {title, url} and its second receives null.
   */
  method ShareThenReadTwice(title: string, url: string) returns (first: Reply, second: Reply)
    ensures first == Success(Some(Payload(title, url)))
    ensures second == Success(None)
  {
    var activity := new MainActivity();
    activity.OnCreate(Intent(Some(ACTION_SEND), Some(TEXT_PLAIN), Some(url), Some(title)));
    first := activity.OnMethodCall(GET_SHARED_TEXT);
    second := activity.OnMethodCall(GET_SHARED_TEXT);
  }

  /**
    Two shares with no read in between: the read returns only the second,
    with an empty title because the second carried no subject.
   */
  method TwoSharesThenRead(url1: string, title1: string, url2: string) returns (reply: Reply)
    ensures reply == Success(Some(Payload("", url2)))
  {
    var activity := new MainActivity();
    activity.OnCreate(Intent(Some(ACTION_SEND), Some(TEXT_PLAIN), Some(url1), Some(title1)));
    activity.OnNewIntent(Intent(Some(ACTION_SEND), Some(TEXT_PLAIN), Some(url2), None));
    reply := activity.OnMethodCall(GET_SHARED_TEXT);
  }

  /**
    A share without a URL, a share of another type and an unknown method
    leave an earlier payload pending: the unknown method is answered
    notImplemented, and the next getSharedText still gets the earlier payload.
   */
  method IgnoredEventsKeepPending(url: string, subject: string, other: string, mime: string)
    returns (unknown: Reply, reply: Reply)
    requires other != GET_SHARED_TEXT && mime != TEXT_PLAIN
    ensures unknown == NotImplemented
    ensures reply == Success(Some(Payload("", url)))
  {
    var activity := new MainActivity();
    activity.OnCreate(Intent(Some(ACTION_SEND), Some(TEXT_PLAIN), Some(url), None));
    activity.OnNewIntent(Intent(Some(ACTION_SEND), Some(TEXT_PLAIN), None, Some(subject)));
    activity.OnNewIntent(Intent(Some(ACTION_SEND), Some(mime), Some(subject), Some(subject)));
    unknown := activity.OnMethodCall(other);
    reply := activity.OnMethodCall(GET_SHARED_TEXT);
  }
}
