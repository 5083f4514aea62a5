/** The booking controller's own decisions: which repository query a filter
    request runs, how a booking is projected for the client, and which
    notification each successful transition enqueues. The booking service that
    performs the transitions is not modelled: each action receives the
    service's answer as a parameter. */
module BookingApi {
  import opened Wrappers
  import opened Text
  import opened BookingMessages
  import FacilityCatalog

  /** The lifecycle states of a booking. */
  datatype BookingStatus = Pending | Confirmed | Cancelled

  /** `Enum.ToString()`: the member's name. */
  function StatusName(s: BookingStatus): (name: string)
    ensures ParseStatus(name) == Some(s)
  {
    match s
    case Pending => "Pending"
    case Confirmed => "Confirmed"
    case Cancelled => "Cancelled"
  }

  /** `Enum.Parse`: reads a status back from its name. */
  function ParseStatus(name: string): Option<BookingStatus> {
    if name == "Pending" then Some(Pending)
    else if name == "Confirmed" then Some(Confirmed)
    else if name == "Cancelled" then Some(Cancelled)
    else None
  }

  /** A customer as loaded with a booking; `FullName` is what `GetFullName()` returns. */
  datatype Customer = Customer(FirstName: string, LastName: string, Email: string, FullName: string)

  datatype BookingContract = BookingContract(Id: int)

  /** A booking with its optionally loaded customer, facility and contract. */
  datatype Booking = Booking(
    Id: int,
    CustomerId: int,
    FacilityId: int,
    StartDate: int,
    EndDate: int,
    NumberOfParticipants: int,
    Notes: Option<string>,
    Status: BookingStatus,
    TotalPrice: real,
    CreatedDate: int,
    ConfirmedDate: Option<int>,
    CancelledDate: Option<int>,
    Customer: Option<Customer>,
    Facility: Option<FacilityCatalog.Facility>,
    Contract: Option<BookingContract>)

  /** The booking as the API returns it. */
  datatype BookingResponse = BookingResponse(
    Id: int,
    CustomerId: int,
    FacilityId: int,
    StartDate: int,
    EndDate: int,
    NumberOfParticipants: int,
    Notes: string,
    Status: string,
    TotalPrice: real,
    CreatedDate: int,
    ConfirmedDate: Option<int>,
    CancelledDate: Option<int>,
    CustomerName: Option<string>,
    CustomerEmail: Option<string>,
    FacilityName: Option<string>,
    ContractId: Option<int>)

  /** ToDto: copies the booking's own fields, turns null notes into "", names
      the status, and flattens the related entities, each absent when the
      entity is not loaded. */
  function ToDto(b: Booking): (d: BookingResponse)
    ensures d.Id == b.Id && d.CustomerId == b.CustomerId && d.FacilityId == b.FacilityId
    ensures d.StartDate == b.StartDate && d.EndDate == b.EndDate
    ensures d.NumberOfParticipants == b.NumberOfParticipants && d.TotalPrice == b.TotalPrice
    ensures d.CreatedDate == b.CreatedDate && d.ConfirmedDate == b.ConfirmedDate
    ensures d.CancelledDate == b.CancelledDate
    ensures b.Notes.None? ==> d.Notes == ""
    ensures b.Notes.Some? ==> d.Notes == b.Notes.value
    ensures ParseStatus(d.Status) == Some(b.Status)
    ensures d.CustomerName.Some? <==> b.Customer.Some?
    ensures d.CustomerEmail.Some? <==> b.Customer.Some?
    ensures b.Customer.Some? ==>
              d.CustomerName == Some(Trim(b.Customer.value.FirstName + " " + b.Customer.value.LastName))
              && d.CustomerEmail == Some(b.Customer.value.Email)
    ensures b.Facility.Some? <==> d.FacilityName.Some?
    ensures b.Facility.Some? ==> d.FacilityName == Some(b.Facility.value.Name)
    ensures b.Contract.Some? <==> d.ContractId.Some?
    ensures b.Contract.Some? ==> d.ContractId == Some(b.Contract.value.Id)
  {
    BookingResponse(
      b.Id,
      b.CustomerId,
      b.FacilityId,
      b.StartDate,
      b.EndDate,
      b.NumberOfParticipants,
      b.Notes.GetOr(""),
      StatusName(b.Status),
      b.TotalPrice,
      b.CreatedDate,
      b.ConfirmedDate,
      b.CancelledDate,
      if b.Customer.Some? then Some(Trim(b.Customer.value.FirstName + " " + b.Customer.value.LastName)) else None,
      if b.Customer.Some? then Some(b.Customer.value.Email) else None,
      if b.Facility.Some? then Some(b.Facility.value.Name) else None,
      if b.Contract.Some? then Some(b.Contract.value.Id) else None)
  }

  /** The projected customer name carries no white space at either end, and it
      is empty exactly when both the first and the last name are blank. */
  lemma CustomerNameShape(b: Booking)
    requires b.Customer.Some?
    ensures var name := ToDto(b).CustomerName.value;
            name == [] || (!IsWhiteSpace(name[0]) && !IsWhiteSpace(name[|name| - 1]))
    ensures ToDto(b).CustomerName.value == [] <==>
              Blank(b.Customer.value.FirstName) && Blank(b.Customer.value.LastName)
  {
    BlankJoin(b.Customer.value.FirstName, b.Customer.value.LastName);
  }

  /** "First Last" is blank exactly when both names are. */
  lemma BlankJoin(first: string, last: string)
    ensures Blank(first + " " + last) <==> Blank(first) && Blank(last)
  {
    var full := first + " " + last;
    if Blank(full) {
      forall k | 0 <= k < |first| ensures IsWhiteSpace(first[k]) {
        assert full[k] == first[k];
      }
      forall k | 0 <= k < |last| ensures IsWhiteSpace(last[k]) {
        assert full[|first| + 1 + k] == last[k];
      }
    }
    if Blank(first) && Blank(last) {
      forall k | 0 <= k < |full| ensures IsWhiteSpace(full[k]) {
        if k < |first| {
          assert full[k] == first[k];
        } else if k > |first| {
          assert full[k] == last[k - |first| - 1];
        }
      }
    }
  }

  /** The repository query that a filter request runs. */
  datatype BookingQuery =
    | ByCustomer(customerId: int)
    | ByFacility(facilityId: int)
    | ByDateRange(from: int, to: int)
    | AllBookings

  /** GetFiltered's dispatch: the customer filter wins over the facility
      filter, which wins over the date range; the date range applies only when
      both ends are given; with none of these, every booking is listed. */
  function FilterQuery(customerId: Option<int>, facilityId: Option<int>, from: Option<int>, to: Option<int>)
    : (q: BookingQuery)
    ensures customerId.Some? ==> q == ByCustomer(customerId.value)
    ensures customerId.None? && facilityId.Some? ==> q == ByFacility(facilityId.value)
    ensures customerId.None? && facilityId.None? && from.Some? && to.Some? ==>
              q == ByDateRange(from.value, to.value)
    ensures q == AllBookings <==> customerId.None? && facilityId.None? && (from.None? || to.None?)
  {
    if customerId.Some? then ByCustomer(customerId.value)
    else if facilityId.Some? then ByFacility(facilityId.value)
    else if from.Some? && to.Some? then ByDateRange(from.value, to.value)
    else AllBookings
  }

  /** A given customer id makes every other filter irrelevant, and a date range
      with one end missing is the same as no filter at all. */
  lemma FilterPrecedence(c: int, f: Option<int>, from: Option<int>, to: Option<int>, d: int)
    ensures FilterQuery(Some(c), f, from, to) == FilterQuery(Some(c), None, None, None)
    ensures FilterQuery(None, None, Some(d), None) == FilterQuery(None, None, None, None)
    ensures FilterQuery(None, None, None, Some(d)) == FilterQuery(None, None, None, None)
  {
  }

  /** Projects every booking of a list, keeping the order. */
  function ToDtos(bs: seq<Booking>): (ds: seq<BookingResponse>)
    ensures |ds| == |bs|
    ensures forall k :: 0 <= k < |bs| ==> ds[k] == ToDto(bs[k])
  {
    if bs == [] then [] else [ToDto(bs[0])] + ToDtos(bs[1..])
  }

  /** GetFiltered: the projection of what the repository returns for the
      chosen query; `repository` stands for the repository's query methods. */
  function GetFiltered(
    repository: BookingQuery -> seq<Booking>,
    customerId: Option<int>, facilityId: Option<int>, from: Option<int>, to: Option<int>)
    : (r: seq<BookingResponse>)
    ensures var data := repository(FilterQuery(customerId, facilityId, from, to));
            |r| == |data| && forall k :: 0 <= k < |data| ==> r[k] == ToDto(data[k])
  {
    ToDtos(repository(FilterQuery(customerId, facilityId, from, to)))
  }

  /** The HTTP outcome of an action. `Raised` is an exception leaving the
      action for the host's error handling. */
  datatype ActionResult =
    | CreatedAt(id: int, body: BookingResponse)
    | OkEmpty
    | OkBody(body: BookingResponse)
    | NoContent
    | NotFound
    | Raised(failure: Failure)

  /** The exceptions an action can let escape. */
  datatype Failure =
    | ServiceFailed(error: ServiceError)
    | NullReference
    | QueueUnavailable

  /** The exceptions the booking service throws. */
  datatype ServiceError = NotFoundError | ValidationError | ConflictError | OtherError

  /** GetById: the projected booking, or NotFound when the repository has none. */
  function GetById(found: Option<Booking>): (r: ActionResult)
    ensures found.None? <==> r == NotFound
    ensures found.Some? ==> r == OkBody(ToDto(found.value))
  {
    if found.None? then NotFound else OkBody(ToDto(found.value))
  }

  datatype CreateRequest = CreateRequest(
    CustomerId: int, FacilityId: int, StartDate: int, EndDate: int,
    NumberOfParticipants: int, Notes: Option<string>)

  datatype RescheduleRequest = RescheduleRequest(StartDate: int, EndDate: int)

  datatype CancelRequest = CancelRequest(Reason: Option<string>)

  /** What `ConfirmAsync` gives back: its (ok, booking) pair, or an exception. */
  datatype ConfirmAnswer = ServiceReturned(ok: bool, booking: Option<Booking>) | ServiceThrew(error: ServiceError)

  /** The booking-service call an action makes. */
  datatype Operation =
    | CreateBooking(request: CreateRequest)
    | ConfirmBooking(id: int)
    | RescheduleBooking(id: int, dates: RescheduleRequest)
    | CancelBooking(id: int, reason: Option<string>)

  /** What the controller does, in order: each service call with the booking it
      succeeded for (None when it failed), and each enqueued notification. */
  datatype Step = ServiceCall(op: Operation, subject: Option<int>) | Enqueued(message: BookingMessage)

  /** The notification payloads; fields an action leaves out keep their defaults. */
  function CreatedMessage(bookingId: int, request: CreateRequest, c: Customer, now: int): BookingMessage {
    DefaultMessage().(
      BookingId := bookingId, Action := "Created", Reason := request.Notes,
      CustomerEmail := c.Email, CustomerName := c.FullName,
      StartDate := Some(request.StartDate), EndDate := Some(request.EndDate), At := Some(now))
  }

  function ConfirmedMessage(id: int, c: Customer, now: int): BookingMessage {
    DefaultMessage().(
      BookingId := id, Action := "Confirmed", At := Some(now),
      CustomerEmail := c.Email, CustomerName := c.FullName)
  }

  function RescheduledMessage(id: int, request: RescheduleRequest, c: Customer, now: int): BookingMessage {
    DefaultMessage().(
      BookingId := id, Action := "Rescheduled", Reason := None,
      StartDate := Some(request.StartDate), EndDate := Some(request.EndDate), At := Some(now),
      CustomerEmail := c.Email, CustomerName := c.FullName)
  }

  function CancelledMessage(id: int, reason: Option<string>, c: Customer, now: int): BookingMessage {
    DefaultMessage().(
      BookingId := id, Action := "Cancelled", Reason := reason, At := Some(now),
      CustomerEmail := c.Email, CustomerName := c.FullName)
  }

  /** The enqueued notifications of a trace, in order. */
  function Queue(t: seq<Step>): seq<BookingMessage> {
    if t == [] then []
    else (if t[0].Enqueued? then [t[0].message] else []) + Queue(t[1..])
  }

  lemma {:induction false} QueueAppend(a: seq<Step>, b: seq<Step>)
    ensures Queue(a + b) == Queue(a) + Queue(b)
  {
    if a == [] {
      assert a + b == b;
    } else {
      var head := if a[0].Enqueued? then [a[0].message] else [];
      QueueAppend(a[1..], b);
      assert (a + b)[1..] == a[1..] + b;
      assert (a + b)[0] == a[0];
      assert Queue(a + b) == head + Queue(a[1..] + b);
      assert Queue(a) == head + Queue(a[1..]);
    }
  }

  /** Every enqueued notification comes right after a service call that
      succeeded for the booking the notification is about. */
  ghost predicate EnqueueFollowsSuccess(t: seq<Step>) {
    forall i :: 0 <= i < |t| && t[i].Enqueued? ==>
      i > 0 && t[i - 1].ServiceCall? && t[i - 1].subject == Some(t[i].message.BookingId)
  }

  /** Appending one service call, possibly followed by a notification for the
      booking that call succeeded for, keeps the order and adds to the queue
      exactly that notification. */
  lemma AppendCall(t: seq<Step>, call: Step, next: seq<Step>)
    requires EnqueueFollowsSuccess(t)
    requires call.ServiceCall? && |next| <= 1
    requires next != [] ==> next[0].Enqueued? && call.subject == Some(next[0].message.BookingId)
    ensures EnqueueFollowsSuccess(t + [call] + next)
    ensures Queue(t + [call] + next) == Queue(t) + (if next == [] then [] else [next[0].message])
  {
    var u := t + [call] + next;
    forall i | 0 <= i < |u| && u[i].Enqueued?
      ensures i > 0 && u[i - 1].ServiceCall? && u[i - 1].subject == Some(u[i].message.BookingId)
    {
      if i < |t| {
        assert u[i] == t[i] && u[i - 1] == t[i - 1];
      } else {
        assert i == |t| + 1;
      }
    }
    QueueAppend(t, [call] + next);
    assert u == t + ([call] + next);
    assert ([call] + next)[1..] == next;
    assert Queue([call] + next) == Queue(next);
    if next != [] {
      assert next[1..] == [];
      assert Queue(next) == [next[0].message] + Queue([]);
    }
  }

  /** The controller with everything it has done so far. */
  class BookingController {
    var trace: seq<Step>

    ghost predicate Valid()
      reads this
    {
      EnqueueFollowsSuccess(trace)
    }

    constructor ()
      ensures Valid() && trace == []
    {
      trace := [];
    }

    /** Records a successful service call and, when the customer is loaded and
        the queue accepts, enqueues the notification built for that customer. */
    method Notify(op: Operation, id: int, customer: Option<Customer>, message: Customer -> BookingMessage, queueUp: bool)
      returns (failure: Option<Failure>)
      requires Valid()
      requires forall c :: message(c).BookingId == id
      modifies this
      ensures Valid()
      ensures customer.None? ==> failure == Some(NullReference)
      ensures customer.Some? && !queueUp ==> failure == Some(QueueUnavailable)
      ensures customer.Some? && queueUp ==> failure.None?
      ensures failure.None? ==> trace == old(trace) + [ServiceCall(op, Some(id)), Enqueued(message(customer.value))]
      ensures failure.Some? ==> trace == old(trace) + [ServiceCall(op, Some(id))]
      ensures Queue(trace) == Queue(old(trace)) + (if failure.None? then [message(customer.value)] else [])
    {
      var call := ServiceCall(op, Some(id));
      if customer.None? || !queueUp {
        AppendCall(trace, call, []);
        assert trace + [call] + [] == trace + [call];
        trace := trace + [call];
        failure := if customer.None? then Some(NullReference) else Some(QueueUnavailable);
      } else {
        var m := message(customer.value);
        AppendCall(trace, call, [Enqueued(m)]);
        trace := trace + [call] + [Enqueued(m)];
        failure := None;
      }
    }

    /** Records a service call that did not succeed; nothing is enqueued. */
    method Refused(op: Operation)
      requires Valid()
      modifies this
      ensures Valid()
      ensures trace == old(trace) + [ServiceCall(op, None)]
      ensures Queue(trace) == Queue(old(trace))
    {
      AppendCall(trace, ServiceCall(op, None), []);
      assert trace + [ServiceCall(op, None)] + [] == trace + [ServiceCall(op, None)];
      trace := trace + [ServiceCall(op, None)];
    }

    /** Create: calls the service; only after it returns a booking is one
        "Created" notification enqueued, carrying the request's notes as the
        reason and the requested dates. */
    method Create(request: CreateRequest, answer: Result<Booking, ServiceError>, now: int, queueUp: bool)
      returns (r: ActionResult)
      requires Valid()
      modifies this
      ensures Valid()
      ensures answer.Err? ==>
                r == Raised(ServiceFailed(answer.error))
                && trace == old(trace) + [ServiceCall(CreateBooking(request), None)]
      ensures r.CreatedAt? <==> answer.Ok? && answer.value.Customer.Some? && queueUp
      ensures r.CreatedAt? ==>
                r == CreatedAt(answer.value.Id, ToDto(answer.value))
                && trace == old(trace) + [
                     ServiceCall(CreateBooking(request), Some(answer.value.Id)),
                     Enqueued(CreatedMessage(answer.value.Id, request, answer.value.Customer.value, now))]
      ensures answer.Ok? && !r.CreatedAt? ==>
                trace == old(trace) + [ServiceCall(CreateBooking(request), Some(answer.value.Id))]
      ensures answer.Ok? && answer.value.Customer.None? ==> r == Raised(NullReference)
      ensures answer.Ok? && answer.value.Customer.Some? && !queueUp ==> r == Raised(QueueUnavailable)
      ensures |Queue(trace)| == |Queue(old(trace))| + (if r.CreatedAt? then 1 else 0)
    {
      var op := CreateBooking(request);
      if answer.Err? {
        Refused(op);
        return Raised(ServiceFailed(answer.error));
      }
      var booking := answer.value;
      var failure := Notify(op, booking.Id, booking.Customer,
                            c => CreatedMessage(booking.Id, request, c, now), queueUp);
      if failure.Some? {
        return Raised(failure.value);
      }
      r := CreatedAt(booking.Id, ToDto(booking));
    }

    /** Confirm: a not-ok answer is NotFound with nothing enqueued; an ok answer
        enqueues one "Confirmed" notification with no reason and no dates. */
    method Confirm(id: int, answer: ConfirmAnswer, now: int, queueUp: bool) returns (r: ActionResult)
      requires Valid()
      modifies this
      ensures Valid()
      ensures answer.ServiceThrew? ==>
                r == Raised(ServiceFailed(answer.error))
                && trace == old(trace) + [ServiceCall(ConfirmBooking(id), None)]
      ensures answer.ServiceReturned? && !answer.ok ==>
                r == NotFound && trace == old(trace) + [ServiceCall(ConfirmBooking(id), None)]
      ensures r == OkEmpty <==>
                answer.ServiceReturned? && answer.ok && answer.booking.Some?
                && answer.booking.value.Customer.Some? && queueUp
      ensures r == OkEmpty ==>
                trace == old(trace) + [
                  ServiceCall(ConfirmBooking(id), Some(id)),
                  Enqueued(ConfirmedMessage(id, answer.booking.value.Customer.value, now))]
      ensures answer.ServiceReturned? && answer.ok && r != OkEmpty ==>
                r.Raised? && trace == old(trace) + [ServiceCall(ConfirmBooking(id), Some(id))]
      ensures answer.ServiceReturned? && answer.ok && (answer.booking.None? || answer.booking.value.Customer.None?) ==>
                r == Raised(NullReference)
      ensures answer.ServiceReturned? && answer.ok && answer.booking.Some? && answer.booking.value.Customer.Some? && !queueUp ==>
                r == Raised(QueueUnavailable)
      ensures |Queue(trace)| == |Queue(old(trace))| + (if r == OkEmpty then 1 else 0)
    {
      var op := ConfirmBooking(id);
      match answer {
        case ServiceThrew(error) =>
          Refused(op);
          r := Raised(ServiceFailed(error));
        case ServiceReturned(ok, booking) =>
          if !ok {
            Refused(op);
            return NotFound;
          }
          var customer := if booking.Some? then booking.value.Customer else None;
          var failure := Notify(op, id, customer, c => ConfirmedMessage(id, c, now), queueUp);
          r := if failure.Some? then Raised(failure.value) else OkEmpty;
      }
    }

    /** Reschedule: after the service returns the updated booking, enqueues one
        "Rescheduled" notification with no reason and the new dates. */
    method Reschedule(id: int, request: RescheduleRequest, answer: Result<Booking, ServiceError>, now: int, queueUp: bool)
      returns (r: ActionResult)
      requires Valid()
      modifies this
      ensures Valid()
      ensures answer.Err? ==>
                r == Raised(ServiceFailed(answer.error))
                && trace == old(trace) + [ServiceCall(RescheduleBooking(id, request), None)]
      ensures r.OkBody? <==> answer.Ok? && answer.value.Customer.Some? && queueUp
      ensures r.OkBody? ==>
                r == OkBody(ToDto(answer.value))
                && trace == old(trace) + [
                     ServiceCall(RescheduleBooking(id, request), Some(id)),
                     Enqueued(RescheduledMessage(id, request, answer.value.Customer.value, now))]
      ensures answer.Ok? && !r.OkBody? ==>
                r.Raised? && trace == old(trace) + [ServiceCall(RescheduleBooking(id, request), Some(id))]
      ensures answer.Ok? && answer.value.Customer.None? ==> r == Raised(NullReference)
      ensures answer.Ok? && answer.value.Customer.Some? && !queueUp ==> r == Raised(QueueUnavailable)
      ensures |Queue(trace)| == |Queue(old(trace))| + (if r.OkBody? then 1 else 0)
    {
      var op := RescheduleBooking(id, request);
      if answer.Err? {
        Refused(op);
        return Raised(ServiceFailed(answer.error));
      }
      var updated := answer.value;
      var failure := Notify(op, id, updated.Customer, c => RescheduledMessage(id, request, c, now), queueUp);
      r := if failure.Some? then Raised(failure.value) else OkBody(ToDto(updated));
    }

    /** Cancel: the service's NotFound becomes a NotFound result with nothing
        enqueued; other service exceptions escape; otherwise one "Cancelled"
        notification carrying the request's reason (if any) is enqueued and
        the result is NoContent. */
    method Cancel(id: int, request: Option<CancelRequest>, answer: Result<Booking, ServiceError>, now: int, queueUp: bool)
      returns (r: ActionResult)
      requires Valid()
      modifies this
      ensures Valid()
      ensures answer.Err? ==>
                trace == old(trace) + [ServiceCall(CancelBooking(id, if request.Some? then request.value.Reason else None), None)]
      ensures answer == Err(NotFoundError) <==> r == NotFound
      ensures answer.Err? && answer.error != NotFoundError ==> r == Raised(ServiceFailed(answer.error))
      ensures r == NoContent <==> answer.Ok? && answer.value.Customer.Some? && queueUp
      ensures r == NoContent ==>
                var reason := if request.Some? then request.value.Reason else None;
                trace == old(trace) + [
                  ServiceCall(CancelBooking(id, reason), Some(id)),
                  Enqueued(CancelledMessage(id, reason, answer.value.Customer.value, now))]
      ensures answer.Ok? && r != NoContent ==>
                r.Raised?
                && trace == old(trace) + [ServiceCall(CancelBooking(id, if request.Some? then request.value.Reason else None), Some(id))]
      ensures answer.Ok? && answer.value.Customer.None? ==> r == Raised(NullReference)
      ensures answer.Ok? && answer.value.Customer.Some? && !queueUp ==> r == Raised(QueueUnavailable)
      ensures |Queue(trace)| == |Queue(old(trace))| + (if r == NoContent then 1 else 0)
    {
      var reason := if request.Some? then request.value.Reason else None;
      var op := CancelBooking(id, reason);
      if answer.Err? {
        Refused(op);
        return if answer.error == NotFoundError then NotFound else Raised(ServiceFailed(answer.error));
      }
      var booking := answer.value;
      var failure := Notify(op, id, booking.Customer, c => CancelledMessage(id, reason, c, now), queueUp);
      r := if failure.Some? then Raised(failure.value) else NoContent;
    }
  }
}
