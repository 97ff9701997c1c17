/**
 * The records of the queue-token application: queue slots, tokens and
 * visit-history entries, with the field defaults and the in-place updates
 * that `Token.save`, `Token.mark_served` and `Token.mark_skipped` perform.
 */
module Models {
  import opened Wrappers

  type SlotId = nat
  type UserId = nat
  type TokenId = nat

  /** A calendar date, as a day number; only its order matters here. */
  type Date = int

  /** A time of day; only its order matters here. */
  type TimeOfDay = int

  /** `max_tokens` of a slot created without one. */
  const DEFAULT_MAX_TOKENS := 10

  // Token statuses. The first four are the declared choices; "pending" and
  // "approved" are the statuses that cancellation looks for.
  const ACTIVE := "active"
  const COMPLETED := "completed"
  const CANCELLED := "cancelled"
  const SKIPPED := "skipped"
  const PENDING := "pending"
  const APPROVED := "approved"
  const STATUS_CHOICES: set<string> := {ACTIVE, COMPLETED, CANCELLED, SKIPPED}

  // Visit-history outcomes. The declared choices, and "served", which is the
  // outcome written when a token is completed.
  const OUTCOME_CHOICES: set<string> := {COMPLETED, SKIPPED, CANCELLED, "expired"}
  const SERVED := "served"

  /** The outcome `complete_token` writes is not one of the declared outcome choices. */
  lemma ServedUndeclared()
    ensures SERVED !in OUTCOME_CHOICES
  {
    assert SERVED != COMPLETED;
  }

  /** One bookable window of one service. Slots are never updated by the core. */
  datatype QueueSlot = QueueSlot(
    id: SlotId,
    service: string,
    date: Date,
    startTime: TimeOfDay,
    endTime: TimeOfDay,
    maxTokens: int)
  {
    /** The slot's queue type, which is its service. */
    function QueueType(): (r: string)
      ensures r == service
    {
      service
    }
  }

  /** A slot created without an explicit capacity. */
  function NewQueueSlot(id: SlotId, service: string, date: Date, startTime: TimeOfDay, endTime: TimeOfDay): (s: QueueSlot)
    ensures s.maxTokens == DEFAULT_MAX_TOKENS
    ensures s.id == id && s.service == service && s.date == date
    ensures s.startTime == startTime && s.endTime == endTime
  {
    QueueSlot(id, service, date, startTime, endTime, DEFAULT_MAX_TOKENS)
  }

  /** Python truthiness of the nullable `service` column: None and "" are both falsy. */
  predicate Blank(service: Option<string>) {
    service.None? || service.value == ""
  }

  /**
   * The service a token holds after `save`: taken from its slot when the
   * token's own service is blank, kept otherwise. A token's slot is a
   * non-nullable foreign key, so the slot is always set.
   */
  function BackfillService(service: Option<string>, slot: QueueSlot): (r: Option<string>)
    ensures Blank(service) ==> r == Some(slot.service)
    ensures !Blank(service) ==> r == service
  {
    if Blank(service) then Some(slot.service) else service
  }

  /** Saving twice back-fills no more than saving once. */
  lemma BackfillIdempotent(service: Option<string>, slot: QueueSlot)
    ensures BackfillService(BackfillService(service, slot), slot) == BackfillService(service, slot)
  {
  }

  /** The column values of one token row. */
  datatype TokenRow = TokenRow(
    id: TokenId,
    slot: QueueSlot,
    user: UserId,
    number: int,
    status: string,
    service: Option<string>)

  /** A row after `status` is set to `status'` and the row is saved. */
  function Marked(row: TokenRow, status': string): (r: TokenRow)
    ensures r.id == row.id && r.slot == row.slot && r.user == row.user && r.number == row.number
    ensures r.status == status'
    ensures r.service == BackfillService(row.service, row.slot)
  {
    row.(status := status', service := BackfillService(row.service, row.slot))
  }

  /** A user's numbered claim on a slot. Only `status` and `service` are ever updated. */
  class Token {
    const id: TokenId
    const slot: QueueSlot
    const user: UserId
    const number: int
    var status: string
    var service: Option<string>

    /** The token's current column values. */
    function Row(): (r: TokenRow)
      reads this
    {
      TokenRow(id, slot, user, number, status, service)
    }

    /** A token as created and saved: status defaults to "active" and the service is back-filled. */
    constructor (id: TokenId, slot: QueueSlot, user: UserId, number: int, service: Option<string>)
      ensures Row() == TokenRow(id, slot, user, number, ACTIVE, BackfillService(service, slot))
    {
      this.id := id;
      this.slot := slot;
      this.user := user;
      this.number := number;
      this.status := ACTIVE;
      this.service := service;
      new;
      Save();
    }

    /** Fills a blank service from the token's slot; nothing else changes. */
    method Save()
      modifies this`service
      ensures service == BackfillService(old(service), slot)
    {
      if Blank(service) {
        service := Some(slot.service);
      }
    }

    /** Marks the token served: status "completed", then saved. */
    method MarkServed()
      modifies this
      ensures Row() == Marked(old(Row()), COMPLETED)
    {
      status := COMPLETED;
      Save();
    }

    /** Marks the token skipped: status "skipped", then saved. */
    method MarkSkipped()
      modifies this
      ensures Row() == Marked(old(Row()), SKIPPED)
    {
      status := SKIPPED;
      Save();
    }

    /** Marks the token cancelled: status "cancelled", then saved (assumed, see README). */
    method MarkCancelled()
      modifies this
      ensures Row() == Marked(old(Row()), CANCELLED)
    {
      status := CANCELLED;
      Save();
    }
  }

  /** One visit-history record. `slot` becomes None when its slot is deleted. */
  datatype VisitEntry = VisitEntry(
    user: UserId,
    slot: Option<SlotId>,
    tokenNumber: int,
    outcome: string)

  /** The history entry written for a token row with the given outcome. */
  function EntryFor(user: UserId, row: TokenRow, outcome: string): (e: VisitEntry)
    ensures e.user == user && e.slot == Some(row.slot.id)
    ensures e.tokenNumber == row.number && e.outcome == outcome
  {
    VisitEntry(user, Some(row.slot.id), row.number, outcome)
  }
}
