/**
 * The `Booking` schema: its required fields, enums, minimums and defaults,
 * as a default-filling function and the set of paths that fail validation.
 * Dates are integer timestamps and numbers are integers.
 */
module BookingModel {
  import opened Wrappers

  datatype Location = Location(
    division: Option<string>, district: Option<string>, city: Option<string>,
    area: Option<string>, address: Option<string>)

  /** A booking document; every field may be absent before defaults apply. */
  datatype BookingDoc = BookingDoc(
    user: Option<string>, service: Option<string>,
    duration: Option<int>, durationType: Option<string>,
    location: Location, totalCost: Option<int>,
    status: Option<string>, bookingDate: Option<int>,
    notes: Option<string>, paymentStatus: Option<string>)

  const DurationTypes: set<string> := {"hours", "days"}
  const Statuses: set<string> := {"Pending", "Confirmed", "Completed", "Cancelled"}
  const PaymentStatuses: set<string> := {"Pending", "Paid", "Failed", "Refunded"}

  /** Mongoose fills a default only where the field is absent. */
  function ApplyDefaults(d: BookingDoc, now: int): (r: BookingDoc)
    ensures r.durationType == Some(d.durationType.GetOr("hours"))
    ensures r.status == Some(d.status.GetOr("Pending"))
    ensures r.paymentStatus == Some(d.paymentStatus.GetOr("Pending"))
    ensures r.bookingDate == Some(d.bookingDate.GetOr(now))
    ensures r.(durationType := d.durationType, status := d.status,
               paymentStatus := d.paymentStatus, bookingDate := d.bookingDate) == d
  {
    d.(durationType := Some(d.durationType.GetOr("hours")),
       status := Some(d.status.GetOr("Pending")),
       paymentStatus := Some(d.paymentStatus.GetOr("Pending")),
       bookingDate := Some(d.bookingDate.GetOr(now)))
  }

  /** The schema's paths whose validator rejects `d`. */
  function ValidationErrors(d: BookingDoc): (e: set<string>)
    ensures d.duration.Some? && d.duration.value < 1 ==> "duration" in e
    ensures d.totalCost.Some? && d.totalCost.value < 0 ==> "totalCost" in e
    ensures d.status.Some? && d.status.value !in Statuses ==> "status" in e
    ensures d.paymentStatus.Some? && d.paymentStatus.value !in PaymentStatuses ==> "paymentStatus" in e
  {
    (if d.user.None? then {"user"} else {})
    + (if d.service.None? then {"service"} else {})
    + (if d.duration.None? || d.duration.value < 1 then {"duration"} else {})
    + (if !RequiredString(d.durationType) || d.durationType.value !in DurationTypes then {"durationType"} else {})
    + (if !RequiredString(d.location.division) then {"location.division"} else {})
    + (if !RequiredString(d.location.district) then {"location.district"} else {})
    + (if !RequiredString(d.location.city) then {"location.city"} else {})
    + (if !RequiredString(d.location.area) then {"location.area"} else {})
    + (if !RequiredString(d.location.address) then {"location.address"} else {})
    + (if d.totalCost.None? || d.totalCost.value < 0 then {"totalCost"} else {})
    + (if !RequiredString(d.status) || d.status.value !in Statuses then {"status"} else {})
    + (if d.paymentStatus.Some? && d.paymentStatus.value !in PaymentStatuses then {"paymentStatus"} else {})
  }

  /** A document the schema accepts. */
  predicate Valid(d: BookingDoc) {
    ValidationErrors(d) == {}
  }

  /** The schema accepts a document exactly when both references are set,
      the duration is at least 1, the duration type and status are from their
      enums, all five location fields are non-empty, the cost is set and not
      negative, and a payment status, if any, is from its enum. */
  lemma ValidIff(d: BookingDoc)
    ensures Valid(d) <==>
      && d.user.Some? && d.service.Some?
      && d.duration.Some? && d.duration.value >= 1
      && (d.durationType == Some("hours") || d.durationType == Some("days"))
      && RequiredString(d.location.division) && RequiredString(d.location.district)
      && RequiredString(d.location.city) && RequiredString(d.location.area)
      && RequiredString(d.location.address)
      && d.totalCost.Some? && d.totalCost.value >= 0
      && d.status.Some? && d.status.value in Statuses
      && (d.paymentStatus.None? || d.paymentStatus.value in PaymentStatuses)
  {
    if Valid(d) {
      assert "user" !in ValidationErrors(d);
      assert "service" !in ValidationErrors(d);
      assert "duration" !in ValidationErrors(d);
      assert "durationType" !in ValidationErrors(d);
      assert "location.division" !in ValidationErrors(d);
      assert "location.district" !in ValidationErrors(d);
      assert "location.city" !in ValidationErrors(d);
      assert "location.area" !in ValidationErrors(d);
      assert "location.address" !in ValidationErrors(d);
      assert "totalCost" !in ValidationErrors(d);
      assert "status" !in ValidationErrors(d);
      assert "paymentStatus" !in ValidationErrors(d);
    }
  }

  /** Defaults never fail validation: a document that sets none of the
      defaulted fields fails, after defaults, on none of them. */
  lemma DefaultsAreValid(d: BookingDoc, now: int)
    requires d.durationType.None? && d.status.None? && d.paymentStatus.None?
    ensures var e := ValidationErrors(ApplyDefaults(d, now));
      "durationType" !in e && "status" !in e && "paymentStatus" !in e
    ensures ApplyDefaults(d, now).durationType == Some("hours")
    ensures ApplyDefaults(d, now).status == Some("Pending")
    ensures ApplyDefaults(d, now).paymentStatus == Some("Pending")
  {
  }

  /** Filling defaults twice is filling them once. */
  lemma DefaultsIdempotent(d: BookingDoc, now: int, later: int)
    ensures ApplyDefaults(ApplyDefaults(d, now), later) == ApplyDefaults(d, now)
  {
  }

  /** A missing location field is reported under its own path, whatever the
      other fields hold. */
  lemma MissingAreaReported(d: BookingDoc)
    requires !RequiredString(d.location.area)
    ensures "location.area" in ValidationErrors(d) && !Valid(d)
  {
  }
}
