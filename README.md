# Konferenscentrum Väst — booking core, modelled in Dafny

The system is a conference-centre booking backend with two parts: a web API
(`KonferenscentrumVast`) and a queue-triggered email function
(`KonferenscentrumFunc`). This project models the sequential, deterministic
decisions of both parts and proves properties about them:

- **Facility catalogue** (`facility_service.dfy`, module `FacilityCatalog`).
  - `FacilityService` is a class over the repository, held as a `map<int, Facility>` with the next id to assign.
  - It covers ordered field validation, get, create, update, delete and set-active, each with its not-found handling.
  - It covers the checks that decide whether an image upload is taken, and the blob naming.
- **Queued message** (`booking_message.dfy`, module `BookingMessages`): the `BookingMessage` record and its defaults.
- **Email function** (`email_handler.dfy`, module `BookingEmail`).
  - Subject and body rendering.
  - A class `BookingEmailHandler` whose `Run` appends to a trace of its observable steps: two receipt log entries, one send attempt, then the logged outcome. A failed send is logged and the run still completes.
- **Booking controller** (`booking_controller.dfy`, module `BookingApi`).
  - The `GetFiltered` dispatch and the `ToDto` projection.
  - A class `BookingController` whose actions `Create`, `Confirm`, `Reschedule` and `Cancel` record the booking-service call and then enqueue a notification.
  - The booking service is not modelled. Each action receives the service's answer (a booking or an exception) as a parameter.
  - The queue is the `Enqueued` steps of the controller's trace. The invariant `EnqueueFollowsSuccess` states that every notification comes right after a service call that succeeded for the same booking.
- **Notification path** (`notifications.dfy`, module `Notifications`): what the email for each controller transition says.
- **Helpers**:
  - `text.dfy` holds .NET string behaviour: white space, `Trim`, invariant lower-casing and decimal rendering of integers.
  - `file_paths.dfy` holds stand-ins for `Path.GetFileName` and `Path.GetExtension`.
  - `wrappers.dfy` holds `Option` and `Result`.

Exceptions are modelled as `Result` values (`Err(Validation(rule))`, `Err(NotFound(id))`), or as the controller's `Raised(failure)` result. A C# `null` becomes `None`.

Where the documented behaviour and the code disagree, the model follows the code:

- An enqueue in the controller is awaited without a `try`. If the queue fails after the booking service has already committed the change, the exception escapes the action (`Raised(QueueUnavailable)`); it is not swallowed.
- A `Confirm` whose service call answers "not ok" returns 404 Not Found (`KonferenscentrumVast/Controllers/BookingController.cs:129`), whatever the reason was.

## Model

| member | source | states |
|---|---|---|
| FacilityCatalog.EnsureFacilityFields | KonferenscentrumVast/Services/FacilityService.cs:215-235 | No error exactly when no field rule is broken; otherwise the rule reported is broken and every rule checked before it holds (name, address, postal code, city blank; capacity ≤ 0; price < 0, in that order) |
| FacilityCatalog.ValidFieldsTrimNonEmpty | KonferenscentrumVast/Services/FacilityService.cs:223-234 | Fields that pass validation have the four required strings present and non-empty after trimming, a positive capacity and a non-negative price |
| FacilityCatalog.WithFields | KonferenscentrumVast/Services/FacilityService.cs:93-100 | Writing the fields over a facility stores the trimmed strings, the description trimmed or "" when null, and the numbers and flag as given; id, images and creation date are kept |
| FacilityCatalog.FacilityService.GetById | KonferenscentrumVast/Services/FacilityService.cs:39-43 | Returns the stored facility, or NotFound(id) when the id is absent |
| FacilityCatalog.FacilityService.Create | KonferenscentrumVast/Services/FacilityService.cs:45-75 | Invalid fields give that validation error and leave the store unchanged; otherwise a new facility is stored under a fresh id, with trimmed fields, no image paths and the given creation time; the store stays keyed by id |
| FacilityCatalog.FacilityService.Update | KonferenscentrumVast/Services/FacilityService.cs:77-107 | Validation runs first, so bad fields give Validation even for an unknown id; an absent id gives NotFound with the store unchanged; otherwise only that facility changes, taking the new fields and keeping its id, images and creation date |
| FacilityCatalog.FacilityService.Delete | KonferenscentrumVast/Services/FacilityService.cs:109-120 | A present id is removed and nothing else changes; an absent id gives NotFound with the store unchanged; afterwards the id is absent either way |
| FacilityCatalog.FacilityService.SetActive | KonferenscentrumVast/Services/FacilityService.cs:126-138 | The stored facility with only IsActive replaced, written back in place; every other facility unchanged; NotFound with no change for an absent id |
| FacilityCatalog.FacilityService.UploadImage | KonferenscentrumVast/Services/FacilityService.cs:146-209 | The guards in order: id ≤ 0 is Invalid id; a missing or empty file is File missing; a file over 10 MiB is too large (exactly 10 MiB passes); then an unknown facility is NotFound; then a type other than JPEG/PNG is rejected. Accepted exactly when all pass; the result carries the file name, "{id}/{guid}_{name}" and the length |
| FacilityCatalog.UploadIgnoresCase | KonferenscentrumVast/Services/FacilityService.cs:166-172 | The type check `IsAllowedImage` (lower-cased content type image/jpeg with extension .jpg or .jpeg, or image/png with .png) gives the same answer for the lower-cased content type and file name |
| FacilityCatalog.AllowedImageExtension | KonferenscentrumVast/Services/FacilityService.cs:170-174 | A file name that `IsAllowedImage` accepts has, ignoring case, the extension .jpg, .jpeg or .png |
| FacilityCatalog.BlobNameKeepsExtension | KonferenscentrumVast/Services/FacilityService.cs:177-178 | `BlobName`, "{id}/{guid}_{name}" built from the file name without its directories, ends with the uploaded file's extension |
| FacilityCatalog.LoweredBlobKeepsExtension | KonferenscentrumVast/Services/FacilityService.cs:177-178 | The same holds after lower-casing the blob name and the extension |
| FacilityCatalog.AcceptedBlobHasImageExtension | KonferenscentrumVast/Services/FacilityService.cs:166-178 | The blob an accepted image is stored under ends, ignoring case, in .jpg, .jpeg or .png |
| FacilityCatalog.BlobNamesSeparateFacilities | KonferenscentrumVast/Services/FacilityService.cs:178 | Two facility ids that yield the same `BlobName` are equal, so images of different facilities never share a blob |
| FacilityCatalog.StoreKeepsKeyed | KonferenscentrumVast/Services/FacilityService.cs:71 | Storing a facility under its own id below the next-id bound keeps every row keyed by its own id |
| FacilityCatalog.MessageIdentifiesRule | KonferenscentrumVast/Services/FacilityService.cs:149-234 | The validation texts of `Message` are pairwise distinct: equal texts mean the same rule |
| Text.Trim | KonferenscentrumVast/Services/FacilityService.cs:59-63 | The result is the input with leading and trailing white space removed: it is a contiguous slice, everything cut off is white space, both ends are non-white, and it is empty exactly when the input is blank |
| Text.LeadingWhiteSpace | KonferenscentrumVast/Services/FacilityService.cs:59 | The length of the white-space run a string starts with: everything before it is white space, and the next character, if any, is not |
| Text.TrailingWhiteSpace | KonferenscentrumVast/Services/FacilityService.cs:59 | The length of the white-space run a string ends with: everything after the rest is white space, and the character before it, if any, is not |
| Text.ToLower | KonferenscentrumVast/Services/FacilityService.cs:166-167 | Same length; each character is lower-cased in place |
| Text.ToLowerIdempotent | KonferenscentrumVast/Services/FacilityService.cs:166-167 | Lower-casing twice equals lower-casing once |
| Text.LowerEndsWith | KonferenscentrumVast/Services/FacilityService.cs:166-167 | A suffix stays a suffix after both strings are lower-cased |
| Text.NatToString | KonferenscentrumFunc/BookingEmailHandler.cs:36 | Renders a natural as a non-empty digit string without leading zeros |
| Text.ParseNatToString | KonferenscentrumFunc/BookingEmailHandler.cs:36 | Reading the rendering of a natural back gives the natural |
| Text.IntToString | KonferenscentrumFunc/BookingEmailHandler.cs:36 | Renders an integer as a non-empty string of digits and a possible minus sign |
| Text.ParseIntToString | KonferenscentrumFunc/BookingEmailHandler.cs:36 | Reading the rendering of an integer back gives the integer |
| Text.IntToStringInjective | KonferenscentrumFunc/BookingEmailHandler.cs:36 | Different integers render differently |
| Text.SplitAtFirst | KonferenscentrumFunc/BookingEmailHandler.cs:36 | Two strings split at the first occurrence of a separator that the heads do not contain are equal only if heads and tails are |
| FilePaths.FileName | KonferenscentrumVast/Services/FacilityService.cs:177 | The longest suffix of the path containing no directory separator |
| FilePaths.LastDot | KonferenscentrumVast/Services/FacilityService.cs:167 | The last '.' of the path, when one lies after the last directory separator |
| FilePaths.Extension | KonferenscentrumVast/Services/FacilityService.cs:167 | Empty when the file name has no dot or ends in one; otherwise the suffix from the last dot, which holds no further dot or separator |
| FilePaths.LastDotOfLower | KonferenscentrumVast/Services/FacilityService.cs:167 | Lower-casing does not move the last dot |
| FilePaths.ExtensionOfLower | KonferenscentrumVast/Services/FacilityService.cs:167 | The extension of the lower-cased name is the lower-cased extension |
| FilePaths.ExtensionEndsFileName | KonferenscentrumVast/Services/FacilityService.cs:167-177 | The extension is a suffix of the file name |
| BookingMessages.DefaultMessage | KonferenscentrumFunc/BookingMessageModel.cs:3-14 | Id 0; action, email and name are "" (never null); the reason and the three timestamps are absent |
| BookingEmail.Body | KonferenscentrumFunc/BookingEmailHandler.cs:37-41 | The body starts with `Greeting`, "Hej {name},\n\nDin bokning är {action}.", and is longer exactly when a reason is present, even an empty one; the rest is `ReasonLine`, "\nReason: {reason}." |
| BookingEmail.SubjectIdentifiesBooking | KonferenscentrumFunc/BookingEmailHandler.cs:36 | `Subject`, "Status på bokningsnummer {id}: {action}", determines the booking id and the action: equal subjects mean equal ids and equal actions |
| BookingEmail.AttemptCountAppend | KonferenscentrumFunc/BookingEmailHandler.cs:43-54 | The send attempts of two traces add up |
| BookingEmail.OrderedAfterRun | KonferenscentrumFunc/BookingEmailHandler.cs:28-54 | One run's receipt, attempt and outcome steps keep a trace ordered: each attempt follows the receipt entries of its booking, and each outcome follows its attempt |
| BookingEmail.BookingEmailHandler.constructor | KonferenscentrumFunc/BookingEmailHandler.cs:16-21 | The sender is the configured address, or donotreply@example.com when unset |
| BookingEmail.BookingEmailHandler.Run | KonferenscentrumFunc/BookingEmailHandler.cs:24-55 | Appends exactly: the receipt time, the booking id and action, one send attempt from the sender to CustomerEmail with the rendered subject and body, then the status or the caught error; exactly one attempt, no retry, and Run always completes |
| BookingApi.StatusName | KonferenscentrumVast/Controllers/BookingController.cs:240 | The status name reads back as the same status, so distinct statuses get distinct names |
| BookingApi.ToDto | KonferenscentrumVast/Controllers/BookingController.cs:229-250 | Copies the booking's own fields; null notes become ""; the status name reads back as the status; customer name (trimmed "First Last") and email, facility name and contract id are present exactly when the related entity is loaded |
| BookingApi.CustomerNameShape | KonferenscentrumVast/Controllers/BookingController.cs:245 | The projected customer name has no white space at either end, and it is empty exactly when both first and last name are blank |
| BookingApi.BlankJoin | KonferenscentrumVast/Controllers/BookingController.cs:245 | "First Last" is blank exactly when both names are |
| BookingApi.FilterQuery | KonferenscentrumVast/Controllers/BookingController.cs:67-74 | The customer filter wins, then the facility filter, then the date range when both ends are given; all bookings exactly when none applies |
| BookingApi.FilterPrecedence | KonferenscentrumVast/Controllers/BookingController.cs:67-74 | With a customer id the other filters are ignored; a date range with one end missing is the same as no filter |
| BookingApi.ToDtos | KonferenscentrumVast/Controllers/BookingController.cs:76 | Projects every booking, keeping length and order |
| BookingApi.GetFiltered | KonferenscentrumVast/Controllers/BookingController.cs:59-77 | Returns, in order, the projection of what the repository gives for the dispatched query |
| BookingApi.GetById | KonferenscentrumVast/Controllers/BookingController.cs:31-36 | NotFound exactly when the repository has no booking; otherwise the projection of it |
| BookingApi.QueueAppend | KonferenscentrumVast/Controllers/BookingController.cs:101-111 | The notifications of two traces concatenate |
| BookingApi.AppendCall | KonferenscentrumVast/Controllers/BookingController.cs:91-111 | A service call followed by at most one notification for the booking it succeeded for keeps every notification right after its successful call, and adds exactly that notification to the queue |
| BookingApi.BookingController.Notify | KonferenscentrumVast/Controllers/BookingController.cs:101-111 | After a successful call: no customer loaded raises a null reference; a failing queue raises; otherwise exactly the built notification is enqueued after the call |
| BookingApi.BookingController.Refused | KonferenscentrumVast/Controllers/BookingController.cs:128-129 | A service call that did not succeed is recorded and nothing is enqueued; the queue is unchanged |
| BookingApi.BookingController.Create | KonferenscentrumVast/Controllers/BookingController.cs:89-116 | A service exception escapes with nothing enqueued; with no customer loaded a null reference escapes, and a failing queue escapes as QueueUnavailable, after the call; otherwise exactly one `CreatedMessage` follows the call and the result is CreatedAt with the projection |
| BookingApi.BookingController.Confirm | KonferenscentrumVast/Controllers/BookingController.cs:126-145 | Not ok gives NotFound with nothing enqueued; ok with no booking or customer raises a null reference, and a failing queue raises QueueUnavailable; otherwise exactly one `ConfirmedMessage` is enqueued, then Ok |
| BookingApi.BookingController.Reschedule | KonferenscentrumVast/Controllers/BookingController.cs:159-181 | A service exception escapes with nothing enqueued; no customer raises a null reference, and a failing queue raises QueueUnavailable; otherwise exactly one `RescheduledMessage` is enqueued, then Ok with the projection |
| BookingApi.BookingController.Cancel | KonferenscentrumVast/Controllers/BookingController.cs:193-221 | The service's NotFound gives NotFound with nothing enqueued; other exceptions escape; no customer raises a null reference, and a failing queue raises QueueUnavailable; otherwise exactly one `CancelledMessage` with the request's reason (or none), then NoContent |
| Notifications.CreatedEmail | KonferenscentrumVast/Controllers/BookingController.cs:101-111 | `CreatedMessage` carries the booking id, "Created", the notes as reason, the requested dates, the time, and the customer's email and full name; its email has a reason line exactly when notes were given |
| Notifications.ConfirmedEmail | KonferenscentrumVast/Controllers/BookingController.cs:133-140 | `ConfirmedMessage` carries the id, "Confirmed", the time and the customer's email and full name, but no reason and no dates; its email has no reason line |
| Notifications.RescheduledEmail | KonferenscentrumVast/Controllers/BookingController.cs:166-176 | `RescheduledMessage` carries the id, "Rescheduled", no reason, the new dates, the time and the customer's email and full name; its email has no reason line |
| Notifications.CancelledEmail | KonferenscentrumVast/Controllers/BookingController.cs:208-216 | `CancelledMessage` carries the id, "Cancelled", the request's reason, the time and the customer's email and full name, but no dates; its email has the reason line exactly when a reason was given |
| Notifications.TransitionSubjectsDiffer | KonferenscentrumFunc/BookingEmailHandler.cs:36 | Emails reporting different actions never share a subject |

## Left out

- The booking service's rules (availability and overlap, the confirm/cancel/reschedule state machine, pricing, contract generation) are not part of this model. Each controller action takes the service's answer as a parameter.
- Blob storage upload, `Guid.NewGuid`, stream handling and the upload's content-type header are left out. The guid is a parameter of `UploadImage`, and the upload is assumed to succeed.
- The queue producer's JSON serialisation, base64 encoding and Azure transport are left out; the queue is the trace's `Enqueued` steps. The email function's JSON binding is also left out. A field that the producer omits takes its `DefaultMessage` value.
- The email client, the Azure Functions trigger binding, the `EmailConnectionString` setting and async scheduling are left out. The send outcome is a parameter of `Run`.
- Log message texts are not modelled. Only the email function's log entries appear, as trace steps, because their order is what matters there.
- `FacilityService.GetAllAsync`, `GetActiveAsync` and the controller's `GetAll` are plain repository pass-throughs and are not modelled.
- Update, delete and set-active have a second NotFound for a row that vanishes between lookup and write ("not found during update/delete/activation update"). Only a concurrent deletion can trigger it, so the sequential map model never reaches it.
- NotFound message texts are reduced to the id they name.
- The `FacilityService` constructor throws when the images container setting is missing. That configuration check is left out.
- Text.ToLower: lower-cases ASCII letters only. Culture-invariant case mapping of other letters is not modelled.
- FilePaths.FileName: treats '/' and '\\' as the directory separators. Platform-specific path rules, invalid path characters and null paths are not modelled.
- FilePaths.Extension: follows `Path.GetExtension` for the separators above only.
- `decimal` prices are `real`, and `DateTime`/`DateTimeOffset` values are integers. Precision and time zones are not modelled.
- `Customer.GetFullName()` is not part of this model. Its result is taken as the customer's `FullName` field.
- `BookingStatus` has the three states of the documented booking lifecycle (Pending, Confirmed, Cancelled). The enum declaration is not part of this model.
- A queued message whose JSON carries an explicit null for `Action`, `CustomerEmail` or `CustomerName` is not modelled; these fields are plain strings.
- FacilityCatalog.FacilityService.Create: the repository's id assignment is modelled as a counter starting at 1. Other id schemes are not modelled.
