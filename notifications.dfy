/** The path of a booking notification from the controller's queue to the
    customer's inbox: what the email for each transition says. */
module Notifications {
  import opened Wrappers
  import opened BookingMessages
  import opened BookingEmail
  import opened BookingApi

  /** A new booking's notification carries the action "Created", the notes as
      reason, the requested dates and the time; its email names the customer
      and carries the notes as its reason line exactly when notes were given. */
  lemma CreatedEmail(id: int, request: CreateRequest, c: Customer, now: int)
    ensures var m := CreatedMessage(id, request, c, now);
            && m.BookingId == id && m.CustomerEmail == c.Email && m.CustomerName == c.FullName
            && m.Action == "Created" && m.Reason == request.Notes && m.At == Some(now)
            && m.StartDate == Some(request.StartDate) && m.EndDate == Some(request.EndDate)
            && Greeting(m) == "Hej " + c.FullName + ",\n\nDin bokning är Created."
            && (request.Notes.None? ==> Body(m) == Greeting(m))
            && (request.Notes.Some? ==> Body(m) == Greeting(m) + ReasonLine(request.Notes.value))
  {
  }

  /** A confirmation's notification carries the action "Confirmed" and the
      time, but no reason and no dates; its email has no reason line. */
  lemma ConfirmedEmail(id: int, c: Customer, now: int)
    ensures var m := ConfirmedMessage(id, c, now);
            && m.BookingId == id && m.CustomerEmail == c.Email && m.CustomerName == c.FullName
            && m.Action == "Confirmed" && m.Reason.None? && m.At == Some(now)
            && m.StartDate.None? && m.EndDate.None?
            && Body(m) == "Hej " + c.FullName + ",\n\nDin bokning är Confirmed."
  {
  }

  /** A reschedule's notification carries the action "Rescheduled", no
      reason, the new dates and the time; its email has no reason line. */
  lemma RescheduledEmail(id: int, request: RescheduleRequest, c: Customer, now: int)
    ensures var m := RescheduledMessage(id, request, c, now);
            && m.BookingId == id && m.CustomerEmail == c.Email && m.CustomerName == c.FullName
            && m.Action == "Rescheduled" && m.Reason.None? && m.At == Some(now)
            && m.StartDate == Some(request.StartDate) && m.EndDate == Some(request.EndDate)
            && Body(m) == "Hej " + c.FullName + ",\n\nDin bokning är Rescheduled."
  {
  }

  /** A cancellation's notification carries the action "Cancelled", the given
      reason and the time, but no dates; its email carries the reason, when one
      was given, as its reason line. */
  lemma CancelledEmail(id: int, reason: Option<string>, c: Customer, now: int)
    ensures var m := CancelledMessage(id, reason, c, now);
            && m.BookingId == id && m.CustomerEmail == c.Email && m.CustomerName == c.FullName
            && m.Action == "Cancelled" && m.Reason == reason && m.At == Some(now)
            && m.StartDate.None? && m.EndDate.None?
            && Greeting(m) == "Hej " + c.FullName + ",\n\nDin bokning är Cancelled."
            && (reason.None? ==> Body(m) == Greeting(m))
            && (reason.Some? ==> Body(m) == Greeting(m) + ReasonLine(reason.value))
  {
  }

  /** Emails reporting two different actions never share a subject, whichever
      bookings they concern. */
  lemma {:induction false} TransitionSubjectsDiffer(m1: BookingMessage, m2: BookingMessage)
    requires m1.Action != m2.Action
    ensures Subject(m1) != Subject(m2)
  {
    if Subject(m1) == Subject(m2) {
      SubjectIdentifiesBooking(m1, m2);
    }
  }
}
