/** The queued booking notification as the email function reads it. */
module BookingMessages {
  import opened Wrappers

  /** One queued notification. Timestamps are plain integers; a field the
      producer leaves out keeps the default of DefaultMessage. */
  datatype BookingMessage = BookingMessage(
    BookingId: int,
    Action: string,
    CustomerEmail: string,
    CustomerName: string,
    Reason: Option<string>,
    StartDate: Option<int>,
    EndDate: Option<int>,
    At: Option<int>)

  /** A freshly constructed message: id 0, the three required strings empty
      (never null), the reason and all three timestamps absent. */
  function DefaultMessage(): (m: BookingMessage)
    ensures m.BookingId == 0
    ensures m.Action == "" && m.CustomerEmail == "" && m.CustomerName == ""
    ensures m.Reason.None?
    ensures m.StartDate.None? && m.EndDate.None? && m.At.None?
  {
    BookingMessage(0, "", "", "", None, None, None, None)
  }
}
