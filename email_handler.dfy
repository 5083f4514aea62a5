/** The queue-triggered email function: renders a booking message as an email,
    hands it to the mail client once, and contains any send failure. */
module BookingEmail {
  import opened Wrappers
  import opened Text
  import opened BookingMessages

  const SubjectPrefix := "Status på bokningsnummer "
  const DefaultSender := "donotreply@example.com"

  /** "Status på bokningsnummer {BookingId}: {Action}" */
  function Subject(m: BookingMessage): string {
    SubjectPrefix + IntToString(m.BookingId) + ": " + m.Action
  }

  /** The opening of every body: "Hej {name},\n\nDin bokning är {action}." */
  function Greeting(m: BookingMessage): string {
    "Hej " + m.CustomerName + ",\n\nDin bokning är " + m.Action + "."
  }

  /** The line added for a reason: "\nReason: {reason}." */
  function ReasonLine(reason: string): string {
    "\nReason: " + reason + "."
  }

  /** The plain-text body: the greeting, followed by the reason line exactly
      when the message carries a reason (an empty reason included). */
  function Body(m: BookingMessage): (r: string)
    ensures Greeting(m) <= r
    ensures |r| > |Greeting(m)| <==> m.Reason.Some?
    ensures m.Reason.Some? ==> r[|Greeting(m)|..] == ReasonLine(m.Reason.value)
  {
    var text := Greeting(m);
    if m.Reason.Some? then text + ReasonLine(m.Reason.value) else text
  }

  /** The subject pins down the booking id and the action: two messages with
      the same subject concern the same booking and report the same action. */
  lemma {:induction false} SubjectIdentifiesBooking(m1: BookingMessage, m2: BookingMessage)
    requires Subject(m1) == Subject(m2)
    ensures m1.BookingId == m2.BookingId && m1.Action == m2.Action
  {
    var a, c := IntToString(m1.BookingId), IntToString(m2.BookingId);
    var p := |SubjectPrefix|;
    assert Subject(m1)[p..] == a + [':'] + (" " + m1.Action);
    assert Subject(m2)[p..] == c + [':'] + (" " + m2.Action);
    SplitAtFirst(':', a, " " + m1.Action, c, " " + m2.Action);
    IntToStringInjective(m1.BookingId, m2.BookingId);
    assert m1.Action == (" " + m1.Action)[1..];
  }

  /** The message the mail client is handed. */
  datatype EmailMessage = EmailMessage(From: string, To: string, Subject: string, PlainText: string)

  /** What the mail client reports for one send: a delivery status, or the
      exception it threw. */
  datatype SendOutcome = Delivered(status: string) | Failed(error: string)

  /** The function's observable steps: its log entries and its send attempts. */
  datatype Step =
    | ReceivedAt(time: int)
    | Received(bookingId: int, action: string)
    | SendAttempt(bookingId: int, email: EmailMessage)
    | Sent(bookingId: int, status: string)
    | SendError(bookingId: int, error: string)

  /** The number of send attempts in a trace. */
  function AttemptCount(t: seq<Step>): nat {
    if t == [] then 0 else (if t[0].SendAttempt? then 1 else 0) + AttemptCount(t[1..])
  }

  lemma {:induction false} AttemptCountAppend(a: seq<Step>, b: seq<Step>)
    ensures AttemptCount(a + b) == AttemptCount(a) + AttemptCount(b)
  {
    if a == [] {
      assert a + b == b;
    } else {
      AttemptCountAppend(a[1..], b);
      assert (a + b)[1..] == a[1..] + b;
    }
  }

  /** Every send attempt comes right after the two receipt entries for the same
      booking, and every send outcome right after the attempt it reports on. */
  ghost predicate Ordered(t: seq<Step>) {
    && (forall i :: 0 <= i < |t| && t[i].SendAttempt? ==>
          i >= 2 && t[i - 2].ReceivedAt? && t[i - 1].Received? && t[i - 1].bookingId == t[i].bookingId)
    && (forall i :: 0 <= i < |t| && (t[i].Sent? || t[i].SendError?) ==>
          i >= 1 && t[i - 1].SendAttempt? && t[i - 1].bookingId == t[i].bookingId)
  }

  /** One run's four steps, appended to an ordered trace, keep it ordered. */
  lemma OrderedAfterRun(t: seq<Step>, run: seq<Step>)
    requires Ordered(t) && |run| == 4
    requires run[0].ReceivedAt? && run[1].Received? && run[2].SendAttempt?
    requires run[3].Sent? || run[3].SendError?
    requires run[1].bookingId == run[2].bookingId == run[3].bookingId
    ensures Ordered(t + run)
  {
    var u := t + run;
    forall i | 0 <= i < |u| && u[i].SendAttempt?
      ensures i >= 2 && u[i - 2].ReceivedAt? && u[i - 1].Received? && u[i - 1].bookingId == u[i].bookingId
    {
      if i < |t| {
        assert u[i] == t[i] && u[i - 1] == t[i - 1] && u[i - 2] == t[i - 2];
      } else {
        assert i == |t| + 2;
      }
    }
    forall i | 0 <= i < |u| && (u[i].Sent? || u[i].SendError?)
      ensures i >= 1 && u[i - 1].SendAttempt? && u[i - 1].bookingId == u[i].bookingId
    {
      if i < |t| {
        assert u[i] == t[i] && u[i - 1] == t[i - 1];
      } else {
        assert i == |t| + 3;
      }
    }
  }

  /** The email function with its configured sender and what it has done so far. */
  class BookingEmailHandler {
    const from: string
    var trace: seq<Step>

    ghost predicate Valid()
      reads this
    {
      Ordered(trace)
    }

    /** The sender is the configured address, or the no-reply default when unset. */
    constructor (configuredFrom: Option<string>)
      ensures Valid() && trace == []
      ensures configuredFrom.Some? ==> from == configuredFrom.value
      ensures configuredFrom.None? ==> from == DefaultSender
    {
      from := configuredFrom.GetOr(DefaultSender);
      trace := [];
    }

    /** Run: log receipt, render, send once to the customer, and log the
        outcome; a failed send is logged and Run still completes. */
    method Run(message: BookingMessage, now: int, outcome: SendOutcome)
      requires Valid()
      modifies this
      ensures Valid()
      ensures trace == old(trace) + [
                ReceivedAt(now),
                Received(message.BookingId, message.Action),
                SendAttempt(message.BookingId,
                  EmailMessage(from, message.CustomerEmail, Subject(message), Body(message))),
                if outcome.Delivered? then Sent(message.BookingId, outcome.status)
                else SendError(message.BookingId, outcome.error)]
      ensures AttemptCount(trace) == AttemptCount(old(trace)) + 1
    {
      trace := trace + [ReceivedAt(now)];
      trace := trace + [Received(message.BookingId, message.Action)];
      var to := message.CustomerEmail;
      var subject := Subject(message);
      var text := Body(message);
      var email := EmailMessage(from, to, subject, text);
      trace := trace + [SendAttempt(message.BookingId, email)];
      match outcome {
        case Delivered(status) =>
          trace := trace + [Sent(message.BookingId, status)];
        case Failed(error) =>
          trace := trace + [SendError(message.BookingId, error)];
      }
      var run := trace[|old(trace)|..];
      assert old(trace) + run == trace;
      OrderedAfterRun(old(trace), run);
      AttemptCountAppend(old(trace), run);
      assert AttemptCount(run[2..]) == 1 + AttemptCount(run[3..]) && AttemptCount(run[3..][1..]) == 0;
    }
  }
}
