/**
  The protocol event record the room reads and synthesises, the errors a
  transport request can end with, and the event-type and error-code names
  the room compares against.
*/
module Events {
  import opened Options
  import opened Json

  /** `Event.EVENT_TYPE_MESSAGE`. */
  const MessageType: string := "m.room.message"
  /** `Event.EVENT_TYPE_TYPING`. */
  const TypingType: string := "m.typing"
  /** The state event type that carries a room member record. */
  const MemberType: string := "m.room.member"
  /** `MatrixError.UNKNOWN`, the code the server answers a spent pagination token with. */
  const UnknownErrcode: string := "M_UNKNOWN"

  /** How a transport request can fail: the three error callbacks of `ApiCallback`. */
  datatype TransportError =
    | NetworkError(cause: string)
    | MatrixError(errcode: string)
    | UnexpectedError(cause: string)

  /**
    An event. `stateKey` is None for a non-state event. The last three fields
    are local bookkeeping for outgoing messages: `isUnsent` marks a local echo
    of a send that failed, `isSending` marks a record a resend pass has taken,
    and `unsentError` is the failure captured when the echo was made (the Java
    record keeps exceptions and Matrix errors in two fields; one suffices here).
  */
  datatype Event = Event(
    eventId: string,
    eventType: string,
    roomId: string,
    userId: string,
    stateKey: Option<string>,
    content: Content,
    originServerTs: nat,
    isUnsent: bool,
    isSending: bool,
    unsentError: Option<TransportError>)

  /** The decimal digit for 0 <= d < 10. */
  function Digit(d: nat): char
    requires d < 10
  {
    "0123456789"[d]
  }

  /** Java's decimal rendering of a non-negative `long`, as string concatenation produces it. */
  function Decimal(n: nat): (s: string)
    ensures |s| >= 1
    ensures n >= 10 ==> |s| >= 2
    decreases n
  {
    if n < 10 then [Digit(n)] else Decimal(n / 10) + [Digit(n % 10)]
  }

  /** Different timestamps are rendered differently. */
  lemma {:induction false} DecimalInjective(a: nat, b: nat)
    requires Decimal(a) == Decimal(b)
    ensures a == b
    decreases a
  {
    var s := Decimal(a);
    if a < 10 && b < 10 {
      assert "0123456789"[a] == s[0] == "0123456789"[b];
    } else if a >= 10 && b >= 10 {
      var pa, pb := Decimal(a / 10), Decimal(b / 10);
      assert s == pa + [Digit(a % 10)] && s == pb + [Digit(b % 10)];
      assert |pa| == |pb|;
      assert pa == s[..|s| - 1] == pb;
      DecimalInjective(a / 10, b / 10);
      assert "0123456789"[a % 10] == s[|s| - 1] == "0123456789"[b % 10];
    }
  }

  /** The identifier the room makes up for a local echo: room id, a dash, the timestamp. */
  function EchoId(roomId: string, ts: nat): (id: string)
    ensures |id| == |roomId| + 1 + |Decimal(ts)|
    ensures id[..|roomId|] == roomId && id[|roomId|] == '-' && id[|roomId| + 1..] == Decimal(ts)
  {
    roomId + "-" + Decimal(ts)
  }

  /** Two echoes of the same room get the same made-up identifier only when made at the same millisecond. */
  lemma EchoIdsDistinct(roomId: string, t1: nat, t2: nat)
    ensures EchoId(roomId, t1) == EchoId(roomId, t2) <==> t1 == t2
  {
    if EchoId(roomId, t1) == EchoId(roomId, t2) {
      var p := roomId + "-";
      assert Decimal(t1) == EchoId(roomId, t1)[|p|..];
      assert Decimal(t2) == EchoId(roomId, t2)[|p|..];
      DecimalInjective(t1, t2);
    }
  }
}
