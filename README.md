# Digital queue tokens: a Dafny model of slot booking and token lifecycle

This project models the core of a Django application that hands out numbered
tokens for walk-up services (library, canteen). Administrators create queue
slots. Each slot has a service, a date, a start and end time, and a capacity
(`max_tokens`, 10 by default). Users book a token in a slot. Staff then
complete or skip tokens, and users may request cancellation of their own
tokens; as written, with only declared statuses stored, that request always
ends in a 404 (see below). Every
completion and skip writes one entry to an append-only visit history. A
token that did pass the cancellation filter would, as written, reach the
undefined `mark_cancelled` and fail before any entry is written; under the
model's assumption about that method (below), a cancellation would write one
entry too.

The model is a sequential in-memory store holding the slot, token and
history tables, in five modules:

- `Models` (`models.py`): the `QueueSlot` record, the `Token` class and the
  `VisitEntry` record. `Token.Save` back-fills a blank service from the
  slot. `MarkServed` and `MarkSkipped` update the token in place.
- `Allocation` (booking, `views.py` lines 84-92): the numbers already used in
  a slot, the loop that finds the smallest free number, and the counting
  facts behind it. These are a pigeonhole lemma (the loop never runs off its
  range) and a no-over-booking lemma.
- `Forms` (`forms.py`): the registration form's password check, and the
  booking and reschedule forms' slot choices. The choices are the slots
  dated today or later, ordered by (date, start time).
- `Views` (`views.py`): class `QueueStore` holds the slot, token and history
  tables. It has one method per view: booking (`book_token`,
  `book_generic`), `complete_token`, `skip_token` and `cancel_token`. It
  also has slot deletion with its cascade rules, and `my_history`.
- `Wrappers`: `Option` and `Result`.

The model follows the code as written, including where it differs from the
declared status choices (`models.py` lines 32-37) and visit outcomes
(`models.py` lines 66-71), and from what the form and view names suggest:

- Booking counts every token of the slot as using its number, whatever its
  status. A cancelled, skipped or completed token's number is never handed
  out again, and such a token still takes up capacity.
- Booking does not check whether the user already holds a token.
- `book_generic` stores its own service on the token even when the chosen
  slot belongs to the other service. The booking form does not filter slots
  by service.
- `cancel_token` is defined twice; the second definition
  (`views.py:110-120`) is the one modelled. It accepts only tokens whose
  status is "pending" or "approved". Neither is a declared status, and new
  tokens start as "active". So in a store whose statuses are all declared
  choices, cancellation always ends in 404, as a postcondition of
  `CancelToken` states.
- `Token.mark_cancelled` is called by `cancel_token` but is not defined in
  `models.py`, so as written the call raises an attribute error before any
  history entry is created. The model assumes instead that it works like
  `mark_served`: it sets the status to "cancelled" and saves.
- `complete_token` sets status "completed" but writes history outcome
  "served", which is not a declared outcome.
- `complete_token` and `skip_token` apply from any status, including to a
  token already completed, skipped or cancelled.

Statuses and outcomes are strings, as in the source, because the source
compares them with values outside its declared choices. Dates are day
numbers and times of day are integers; only their order matters.

## Model

| member | source | states |
|---|---|---|
| `Models.QueueSlot.QueueType` | dqt_project/core/models.py:20-22 | a slot's queue type is its service |
| `Models.NewQueueSlot` | dqt_project/core/models.py:11-15 | a slot created without a capacity has `max_tokens` 10 and the given service, date and times |
| `Models.BackfillService` | dqt_project/core/models.py:52-55 | saving sets the service to the token's slot's service exactly when the service is None or ""; otherwise the service is unchanged (the slot is a non-nullable key, so it is always set) |
| `Models.BackfillIdempotent` | dqt_project/core/models.py:52-55 | saving again back-fills nothing more |
| `Models.ServedUndeclared` | dqt_project/core/views.py:141 | the outcome "served" that `complete_token` writes is not among the declared outcome choices (`models.py` lines 66-71) |
| `Models.Token.constructor` | dqt_project/core/models.py:39-44 | a new token has status "active" and its given slot, user and number; its service is back-filled on creation |
| `Models.Token.Save` | dqt_project/core/models.py:52-55 | `save` changes only the service, as `BackfillService` says |
| `Models.Token.MarkServed` | dqt_project/core/models.py:57-59 | status becomes "completed"; only the back-fill of `save` touches another field; id, slot, user and number are unchanged |
| `Models.Token.MarkSkipped` | dqt_project/core/models.py:61-63 | status becomes "skipped"; only the back-fill of `save` touches another field |
| `Models.Token.MarkCancelled` | dqt_project/core/views.py:112 | assumed behaviour of the undefined `mark_cancelled`: status becomes "cancelled", then the token is saved |
| `Allocation.SlotNumbers` | dqt_project/core/views.py:84 | the slot's numbers, one per token of the slot, whatever its status: a number occurs exactly when some token of that slot holds it |
| `Allocation.SlotNumbersCount` | dqt_project/core/views.py:84 | the slot's number list has exactly one entry per token of the slot |
| `Allocation.UsedNumbers` | dqt_project/core/views.py:84 | `used_numbers` holds exactly the numbers of the slot's tokens, with no status filter |
| `Allocation.FindFreeNumber` | dqt_project/core/views.py:85-92 | rejects exactly when at least `max_tokens` numbers are used; otherwise returns a number in [1, max_tokens] that is unused and such that every smaller positive number is used, i.e. the smallest free one |
| `Allocation.Pigeonhole` | dqt_project/core/views.py:85-92 | if every number of [1, n] is used then at least n numbers are used, so with fewer than `max_tokens` used the loop always finds a free number |
| `Allocation.SlotNeverOverbooked` | dqt_project/core/views.py:84-92 | with numbers distinct per slot and within [1, max_tokens], a slot never holds more than `max_tokens` tokens |
| `Allocation.AllocationKeepsNumbersDistinct` | dqt_project/core/views.py:84-90 | adding a token whose number is unused in its slot keeps the numbers of every slot pairwise distinct |
| `Forms.CleanRegistration` | dqt_project/core/forms.py:18-24 | a validation error exactly when password and confirm_password differ (a missing field reads as None); otherwise the cleaned data, unchanged |
| `Forms.OnePasswordMissingRejected` | dqt_project/core/forms.py:20-23 | when only one of the two password fields is present, `clean` raises the mismatch error |
| `Forms.Upcoming` | dqt_project/core/forms.py:40-41 | `filter(date__gte=today)` keeps each slot dated today or later, as often as it is stored, and nothing else |
| `Forms.SortByDateTime` | dqt_project/core/forms.py:42 | `order_by("date", "start_time")` yields a sequence sorted by (date, start time) that is a permutation of its input |
| `Forms.BookingFormChoices` | dqt_project/core/forms.py:37-42 | the booking form offers exactly the slots dated today or later, as a permutation of the filtered slots, sorted by (date, start time) |
| `Forms.RescheduleFormChoices` | dqt_project/core/forms.py:66-71 | the reschedule form's `new_slot` choices have the same membership, permutation and order properties |
| `Forms.SelectChoice` | dqt_project/core/forms.py:31-35 | the model-choice field resolves a submitted id to a choice with that id, and fails exactly when no choice has it |
| `Forms.ResolveBookingSlot` | dqt_project/core/views.py:80-82 | a booking form is valid exactly when some slot with the submitted id is dated today or later, and then yields such a slot |
| `Views.FindToken` | dqt_project/core/views.py:138 | `get_object_or_404` by id: finds the position of a token with that id, or reports that no token has it |
| `Views.QueueStore.AllocateIn` | dqt_project/core/views.py:83-92 | on a full slot nothing changes; otherwise exactly one fresh token is appended, with the smallest free number, status "active" and the back-filled service; slots, history and existing tokens are unchanged; ids stay unique, and per-slot distinct, in-range numbers and declared statuses are preserved |
| `Views.QueueStore.Allocate` | dqt_project/core/views.py:80-92 | an invalid form choice changes nothing; otherwise the transaction of `AllocateIn` runs on the chosen slot |
| `Views.QueueStore.BookToken` | dqt_project/core/views.py:77-95 | booking with no service: the new token's service is the slot's service |
| `Views.QueueStore.BookGeneric` | dqt_project/core/views.py:181-198 | booking with a service: the new token keeps the requested service (the slot's own only if it is ""), whatever the slot's service |
| `Views.QueueStore.CompleteToken` | dqt_project/core/views.py:136-144 | an unknown id is a 404 with no change; otherwise, from any status, that token alone becomes "completed" and exactly one entry (its user, slot and number, outcome "served") is appended |
| `Views.QueueStore.SkipToken` | dqt_project/core/views.py:147-155 | an unknown id is a 404 with no change; otherwise that token alone becomes "skipped" and exactly one entry with outcome "skipped" is appended |
| `Views.QueueStore.CancelToken` | dqt_project/core/views.py:110-120 | only a token owned by the requester with status "pending" or "approved" is cancelled, with exactly one "cancelled" entry; anything else is a 404 with no change; with only declared statuses, every request is a 404 |
| `Views.StoreNeverOverbooked` | dqt_project/core/views.py:84-92 | in a store with unique keys and per-slot distinct, in-range numbers, no slot holds more tokens than its `max_tokens` (none when it is negative) |
| `Views.CancellableUndeclared` | dqt_project/core/views.py:111 | the statuses "pending" and "approved" that `cancel_token` filters on are not declared status choices (`models.py` lines 32-37) |
| `Views.TokensOutside` | dqt_project/core/models.py:39 | deleting a slot deletes exactly its tokens (CASCADE) and keeps all others |
| `Views.TokensOutsideKeepsNumbersDistinct` | dqt_project/core/models.py:39 | the tokens left after a slot deletion keep distinct numbers within each slot |
| `Views.DetachSlot` | dqt_project/core/models.py:73-76 | deleting a slot keeps every history entry with its user, token number and outcome, and sets the slot to None exactly in the entries of that slot (SET_NULL) |
| `Views.QueueStore.DeleteSlot` | dqt_project/core/models.py:39-76 | slot deletion removes the slot and its tokens and detaches its history entries, preserving the store's invariants |
| `Views.UserHistoryIndices` | dqt_project/core/views.py:172 | the positions of the user's history entries: each such position exactly once, strictly decreasing (newest first) |
| `Views.MyHistory` | dqt_project/core/views.py:170-173 | `my_history` lists exactly the user's entries, in the order of `UserHistoryIndices`, newest first |

## Left out

- Concurrency: `transaction.atomic()` and `select_for_update()`. Each booking is one atomic, sequential method; serialisability is not modelled.
- Authentication and sessions: `user_login`, `register` (`authenticate`, `login`, `create_user`), and the `login_required` and `user_passes_test` decorators. The requesting user is a parameter. The `login_required` at `views.py:98` decorates only the first `cancel_token`; the definition that takes effect (`views.py:110`) has none. Requests without a logged-in user are not modelled.
- Rendering and HTTP: `render`, `redirect`, `messages`, `home`, `dashboard` (which filters on an `is_active` field that tokens do not have) and `reports` (count queries). `admin_dashboard` is a listing only.
- `book_canteen_slot` (a plain `form.save` passthrough) and the `CanteenBooking`, `ActivityLog`, `Notification` and `Slot` models: data declarations with no logic.
- `__str__` formatting of every model.
- The widget-only forms `QueueSlotForm`, `LibrarySlotForm` and `CanteenSlotForm`, and slot creation and editing by administrators. The store starts from a given slot table, and slots are never updated.
- The URL configuration and admin registration files.
- The clock: `today` is a parameter. The `issued_at` and `timestamp` columns are not stored; a history entry's position in the ledger stands for its timestamp.
- Views.MyHistory: entries with equal timestamps are ordered by ledger position. The database leaves their order unspecified.
- Forms.SortByDateTime: slots with equal (date, start time) keep their stored order. The database leaves their order unspecified.
- Forms.CleanRegistration: the field-level validation of `super().clean()` is not modelled. The input is the data that passed it.
- Models.Token.Save: the `self.slot` test is always true here, because a token's slot is a non-nullable foreign key; `BackfillService` takes the slot itself. A token without a slot, for which `self.slot` raises rather than reads as false, is not modelled.
- `views.py:12` imports `CanteenBookingForm`, which `forms.py` does not define, so as written the views module fails at import. The model treats the views as loadable and models each view's body.
- Deleting a user (CASCADE on tokens and history entries) and the database's default ordering of tokens by `-issued_at`.
- Integer widths: `PositiveIntegerField` and `IntegerField` bounds are not modelled. Numbers handed out lie in [1, max_tokens].
- Approve and expire transitions, wait estimation, a one-token-per-user rule and reuse of freed numbers: the code has none of these, so the model has none either.
