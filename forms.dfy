/**
 * The forms of the application that hold logic: the registration form's
 * password check, and the slot choices offered by the booking and
 * reschedule forms (slots dated today or later, ordered by date, then
 * start time).
 */
module Forms {
  import opened Wrappers
  import opened Models

  /** A form's cleaned data: the fields that passed their own validation. */
  type CleanedData = map<string, string>

  const PASSWORD_MISMATCH := "Passwords do not match"

  /** `cleaned_data.get(key)`: None when the field is missing. */
  function Get(data: CleanedData, key: string): (r: Option<string>)
    ensures r.Some? <==> key in data
    ensures r.Some? ==> r.value == data[key]
  {
    if key in data then Some(data[key]) else None
  }

  /**
   * The registration form's cross-field check: a validation error exactly
   * when the two passwords differ (a missing field reads as None), and
   * otherwise the cleaned data, unchanged.
   */
  function CleanRegistration(data: CleanedData): (r: Result<CleanedData, string>)
    ensures r.Failure? <==> Get(data, "password") != Get(data, "confirm_password")
    ensures r.Failure? ==> r.error == PASSWORD_MISMATCH
    ensures r.Success? ==> r.value == data
  {
    if Get(data, "password") != Get(data, "confirm_password") then Failure(PASSWORD_MISMATCH)
    else Success(data)
  }

  /** Only one of the two password fields present is a mismatch. */
  lemma OnePasswordMissingRejected(data: CleanedData)
    requires ("password" in data) != ("confirm_password" in data)
    ensures CleanRegistration(data).Failure?
  {
  }

  /** `order_by("date", "start_time")`: a comes no later than b. */
  predicate SlotBefore(a: QueueSlot, b: QueueSlot) {
    a.date < b.date || (a.date == b.date && a.startTime <= b.startTime)
  }

  predicate SortedByDateTime(s: seq<QueueSlot>) {
    forall i, j :: 0 <= i < j < |s| ==> SlotBefore(s[i], s[j])
  }

  /** `filter(date__gte=today)`: the slots dated today or later, each as often as in `slots`. */
  function Upcoming(slots: seq<QueueSlot>, today: Date): (r: seq<QueueSlot>)
    ensures forall s :: s in r ==> s.date >= today
    ensures forall s :: multiset(r)[s] == if s.date >= today then multiset(slots)[s] else 0
  {
    if slots == [] then []
    else
      var rest := Upcoming(slots[1..], today);
      assert slots == [slots[0]] + slots[1..];
      if slots[0].date >= today then [slots[0]] + rest else rest
  }

  /** Inserts `x` into a sorted sequence, after every slot that is not later than it. */
  function Insert(x: QueueSlot, s: seq<QueueSlot>): (r: seq<QueueSlot>)
    requires SortedByDateTime(s)
    ensures SortedByDateTime(r)
    ensures multiset(r) == multiset(s) + multiset{x}
  {
    if s == [] then [x]
    else if SlotBefore(x, s[0]) then [x] + s
    else
      var rest := Insert(x, s[1..]);
      assert s == [s[0]] + s[1..];
      forall y | y in rest
        ensures SlotBefore(s[0], y)
      {
        assert y in multiset(rest);
        assert y == x || y in multiset(s[1..]);
      }
      [s[0]] + rest
  }

  /** `order_by("date", "start_time")`, by insertion: sorted, and the same slots. */
  function SortByDateTime(s: seq<QueueSlot>): (r: seq<QueueSlot>)
    ensures SortedByDateTime(r)
    ensures multiset(r) == multiset(s)
  {
    if s == [] then []
    else
      assert s == [s[0]] + s[1..];
      Insert(s[0], SortByDateTime(s[1..]))
  }

  /**
   * `BookingForm`'s slot choices: exactly the slots dated today or later,
   * each as often as it is stored, ordered by (date, start time).
   */
  function BookingFormChoices(slots: seq<QueueSlot>, today: Date): (r: seq<QueueSlot>)
    ensures forall s :: s in r <==> s in slots && s.date >= today
    ensures multiset(r) == multiset(Upcoming(slots, today))
    ensures SortedByDateTime(r)
  {
    var r := SortByDateTime(Upcoming(slots, today));
    assert forall s :: s in r <==> s in multiset(r);
    r
  }

  /** `RescheduleForm`'s `new_slot` choices: the same filter and order as the booking form. */
  function RescheduleFormChoices(slots: seq<QueueSlot>, today: Date): (r: seq<QueueSlot>)
    ensures forall s :: s in r <==> s in slots && s.date >= today
    ensures multiset(r) == multiset(Upcoming(slots, today))
    ensures SortedByDateTime(r)
  {
    BookingFormChoices(slots, today)
  }

  /**
   * A model-choice field resolving a submitted slot id: the first choice
   * with that id, or None (the form is invalid) when no choice has it.
   */
  function SelectChoice(choices: seq<QueueSlot>, id: SlotId): (r: Option<QueueSlot>)
    ensures r.Some? ==> r.value in choices && r.value.id == id
    ensures r.None? <==> forall s :: s in choices ==> s.id != id
  {
    if choices == [] then None
    else if choices[0].id == id then Some(choices[0])
    else
      assert forall s :: s in choices ==> s == choices[0] || s in choices[1..];
      SelectChoice(choices[1..], id)
  }

  /**
   * The slot a booking form submission resolves to: a slot with the
   * submitted id that is dated today or later, or None when there is none
   * (the form is invalid).
   */
  function ResolveBookingSlot(slots: seq<QueueSlot>, today: Date, id: SlotId): (r: Option<QueueSlot>)
    ensures r.Some? ==> r.value in slots && r.value.id == id && r.value.date >= today
    ensures r.None? <==> forall s :: s in slots && s.date >= today ==> s.id != id
  {
    SelectChoice(BookingFormChoices(slots, today), id)
  }
}
