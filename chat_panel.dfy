/**
 * The decisions of frontend/src/ChatPanel.tsx: how a message's delivery
 * status and sender shape its bubble, header and time, the conversion of a
 * protobuf-style timestamp to epoch milliseconds, and the submit handler of
 * the input form. Date formatting and rendering are not modelled; a
 * formatted time is represented by the milliseconds it formats.
 */
module ChatPanel {
  import opened Wrappers
  import opened Types

  datatype MessageStatus = Pending | Confirmed | Error

  /**
   * A point in time as seconds and nanoseconds. The component reads
   * `chat.timestamp`, which the shared Chat type does not declare; here it
   * is carried beside the chat as an extension.
   */
  datatype Timestamp = Timestamp(seconds: int, nanoseconds: int)

  datatype ChatMessage = ChatMessage(chat: Chat, timestamp: Timestamp, status: MessageStatus, isSelf: bool)

  const NanosPerMilli: nat := 1_000_000

  /**
   * timestampToDate's arithmetic: whole seconds in milliseconds plus the
   * nanoseconds rounded down to whole milliseconds (Math.floor).
   */
  function TimestampToMillis(t: Timestamp): (ms: int)
    ensures (ms - t.seconds * 1000) * NanosPerMilli <= t.nanoseconds < (ms - t.seconds * 1000 + 1) * NanosPerMilli
  {
    t.seconds * 1000 + t.nanoseconds / NanosPerMilli
  }

  /** A timestamp whose nanoseconds lie within one second. */
  predicate Normal(t: Timestamp) {
    0 <= t.nanoseconds < 1_000_000_000
  }

  /** For a normal timestamp the sub-second part adds 0 to 999 milliseconds. */
  lemma SubSecondMillis(t: Timestamp)
    requires Normal(t)
    ensures t.seconds * 1000 <= TimestampToMillis(t) <= t.seconds * 1000 + 999
  {
  }

  /**
   * The conversion loses exactly the sub-millisecond part: from the
   * milliseconds the seconds and the whole milliseconds of a normal
   * timestamp are recovered.
   */
  lemma MillisRoundTrip(t: Timestamp)
    requires Normal(t)
    ensures TimestampToMillis(t) / 1000 == t.seconds
    ensures TimestampToMillis(t) % 1000 == t.nanoseconds / NanosPerMilli
  {
    var ms := TimestampToMillis(t);
    var sub := t.nanoseconds / NanosPerMilli;
    SubSecondMillis(t);
    assert ms == t.seconds * 1000 + sub && 0 <= sub < 1000;
  }

  /** Later normal timestamps never convert to earlier milliseconds. */
  lemma MillisMonotone(a: Timestamp, b: Timestamp)
    requires Normal(a) && Normal(b)
    requires a.seconds < b.seconds || (a.seconds == b.seconds && a.nanoseconds <= b.nanoseconds)
    ensures TimestampToMillis(a) <= TimestampToMillis(b)
  {
    SubSecondMillis(a);
    SubSecondMillis(b);
    if a.seconds == b.seconds {
      assert a.nanoseconds / NanosPerMilli <= b.nanoseconds / NanosPerMilli;
    }
  }

  /** The text in a message header's time element. */
  datatype TimeText = FormattedTime(millis: int) | Sending

  const SendingLabel := "Sending..."

  function TimeTextOf(m: ChatMessage): (t: TimeText)
    ensures t.FormattedTime? <==> m.status == Confirmed
    ensures t.FormattedTime? ==> t.millis == TimestampToMillis(m.timestamp)
  {
    if m.status == Confirmed then FormattedTime(TimestampToMillis(m.timestamp)) else Sending
  }

  /** The machine-readable dateTime attribute: the instant, only for confirmed messages. */
  function DateTimeAttr(m: ChatMessage): (attr: Option<int>)
    ensures attr.Some? <==> m.status == Confirmed
    ensures attr.Some? ==> attr.value == TimestampToMillis(m.timestamp)
  {
    if m.status == Confirmed then Some(TimestampToMillis(m.timestamp)) else None
  }

  /** The time label and the dateTime attribute always describe the same instant. */
  lemma TimeAndAttrAgree(m: ChatMessage)
    ensures TimeTextOf(m).FormattedTime? <==> DateTimeAttr(m).Some?
    ensures DateTimeAttr(m).Some? ==> DateTimeAttr(m).value == TimeTextOf(m).millis
  {
  }

  /** The "Delivery failed" note. */
  predicate ShowsDeliveryFailed(m: ChatMessage) {
    m.status == Error
  }

  /** Array.prototype.filter(Boolean) on class names: the empty ones are dropped, the order kept. */
  function DropEmpty(parts: seq<string>): (kept: seq<string>)
    ensures |kept| <= |parts|
    ensures forall i :: 0 <= i < |kept| ==> kept[i] != ""
    ensures forall x :: x in kept <==> x in parts && x != ""
  {
    if parts == [] then []
    else if parts[0] == "" then DropEmpty(parts[1..])
    else [parts[0]] + DropEmpty(parts[1..])
  }

  const PrimaryBubble := "chat-bubble-primary text-primary-content"
  const PendingBubble := "opacity-60"
  const ErrorBubble := "border border-error"

  /** The bubble's class list before it is joined with spaces. */
  function BubbleClasses(m: ChatMessage): seq<string> {
    DropEmpty(["chat-bubble",
               if m.isSelf then PrimaryBubble else "",
               if m.status == Pending then PendingBubble else "",
               if m.status == Error then ErrorBubble else ""])
  }

  /**
   * The bubble always has its base class; it has the primary style iff the
   * message is one's own, reduced opacity iff pending, an error border iff
   * failed; and it holds no empty entry.
   */
  lemma BubbleStyle(m: ChatMessage)
    ensures "chat-bubble" in BubbleClasses(m)
    ensures PrimaryBubble in BubbleClasses(m) <==> m.isSelf
    ensures PendingBubble in BubbleClasses(m) <==> m.status == Pending
    ensures ErrorBubble in BubbleClasses(m) <==> m.status == Error
    ensures "" !in BubbleClasses(m)
  {
    var parts := ["chat-bubble",
                  if m.isSelf then PrimaryBubble else "",
                  if m.status == Pending then PendingBubble else "",
                  if m.status == Error then ErrorBubble else ""];
    assert parts[0] == "chat-bubble";
    assert PrimaryBubble in parts <==> m.isSelf by {
      if m.isSelf { assert parts[1] == PrimaryBubble; }
    }
    assert PendingBubble in parts <==> m.status == Pending by {
      if m.status == Pending { assert parts[2] == PendingBubble; }
    }
    assert ErrorBubble in parts <==> m.status == Error by {
      if m.status == Error { assert parts[3] == ErrorBubble; }
    }
  }

  /** The row alignment: own messages at the end, others at the start. */
  function Alignment(m: ChatMessage): (classes: string)
    ensures classes == "chat chat-end" <==> m.isSelf
    ensures classes == "chat chat-start" <==> !m.isSelf
  {
    if m.isSelf then "chat chat-end" else "chat chat-start"
  }

  /** The header's sender: the name when there is one, even an empty one; "Anonymous" only for null. */
  function SenderName(chat: Chat): (name: string)
    ensures chat.user.name.Some? ==> name == chat.user.name.value
    ensures chat.user.name.None? ==> name == "Anonymous"
  {
    chat.user.name.GetOr("Anonymous")
  }

  /** Everything a message's row shows, as decisions. */
  datatype Bubble = Bubble(alignment: string, sender: string, time: TimeText, dateTime: Option<int>,
                           classes: seq<string>, content: string, deliveryFailed: bool)

  function BubbleOf(m: ChatMessage): Bubble {
    Bubble(Alignment(m), SenderName(m.chat), TimeTextOf(m), DateTimeAttr(m),
           BubbleClasses(m), m.chat.content, ShowsDeliveryFailed(m))
  }

  /** The message list: one row per message, in order, each showing its own content. */
  function Render(messages: seq<ChatMessage>): (rows: seq<Bubble>)
    ensures |rows| == |messages|
    ensures forall i :: 0 <= i < |messages| ==> rows[i] == BubbleOf(messages[i])
  {
    if messages == [] then [] else [BubbleOf(messages[0])] + Render(messages[1..])
  }

  /** The input form's state: the draft being typed. */
  class Composer {
    var draft: string

    constructor ()
      ensures draft == ""
    {
      draft := "";
    }

    /** The input's change handler. */
    method Type(text: string)
      modifies this
      ensures draft == text
    {
      draft := text;
    }

    /** The submit handler: the draft is handed on as it is, even empty, and then cleared. */
    method Submit() returns (sent: string)
      modifies this
      ensures sent == old(draft)
      ensures draft == ""
    {
      sent := draft;
      draft := "";
    }
  }
}
