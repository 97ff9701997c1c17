/**
 * The booking and token-lifecycle views over an in-memory store of queue
 * slots, tokens and visit history. Each view is one atomic, sequential
 * method on `QueueStore`.
 */
module Views {
  import opened Wrappers
  import opened Models
  import Forms
  import Allocation

  /** What a booking request ends in. */
  datatype BookingOutcome = Booked(number: int) | SlotFull | FormInvalid

  /** What a token action ends in; NotFound is the 404 of `get_object_or_404`. */
  datatype ActionOutcome = Done | NotFound

  /** The statuses `cancel_token` accepts. Neither is a declared status choice. */
  const CANCELLABLE: set<string> := {PENDING, APPROVED}

  /** The position of the token with id `id`, if any. */
  function FindToken(ts: seq<Token>, id: TokenId): (r: Option<nat>)
    ensures r.Some? ==> r.value < |ts| && ts[r.value].id == id
    ensures r.None? <==> forall i :: 0 <= i < |ts| ==> ts[i].id != id
  {
    if ts == [] then None
    else if ts[0].id == id then Some(0)
    else
      var rest := FindToken(ts[1..], id);
      assert forall i :: 1 <= i < |ts| ==> ts[i] == ts[1..][i - 1];
      if rest.None? then None else Some(rest.value + 1)
  }

  predicate SlotIdsDistinct(slots: seq<QueueSlot>) {
    forall i, j :: 0 <= i < j < |slots| ==> slots[i].id != slots[j].id
  }

  predicate TokenIdsDistinct(ts: seq<Token>) {
    forall i, j :: 0 <= i < j < |ts| ==> ts[i].id != ts[j].id
  }

  /** The slot table after deleting slot `sid`. */
  function SlotsWithout(slots: seq<QueueSlot>, sid: SlotId): (r: seq<QueueSlot>)
    ensures forall s :: s in r <==> s in slots && s.id != sid
    ensures SlotIdsDistinct(slots) ==> SlotIdsDistinct(r)
  {
    if slots == [] then []
    else
      var rest := SlotsWithout(slots[1..], sid);
      assert forall s :: s in slots <==> s == slots[0] || s in slots[1..];
      assert SlotIdsDistinct(slots) ==> forall s :: s in slots[1..] ==> s.id != slots[0].id;
      if slots[0].id != sid then [slots[0]] + rest else rest
  }

  /** The token table after its slot `sid` is deleted: the slot's tokens go with it (CASCADE). */
  function TokensOutside(ts: seq<Token>, sid: SlotId): (r: seq<Token>)
    ensures forall i :: 0 <= i < |r| ==> r[i] in ts && r[i].slot.id != sid
    ensures forall i :: 0 <= i < |ts| && ts[i].slot.id != sid ==> ts[i] in r
  {
    if ts == [] then []
    else
      var rest := TokensOutside(ts[1..], sid);
      assert forall i :: 1 <= i < |ts| ==> ts[i] == ts[1..][i - 1];
      if ts[0].slot.id != sid then [ts[0]] + rest else rest
  }

  /** Deleting a slot's tokens keeps the remaining token ids distinct. */
  lemma {:induction false} TokensOutsideKeepsIdsDistinct(ts: seq<Token>, sid: SlotId)
    requires TokenIdsDistinct(ts)
    ensures TokenIdsDistinct(TokensOutside(ts, sid))
  {
    if ts != [] {
      var tail := ts[1..];
      TokensOutsideKeepsIdsDistinct(tail, sid);
      var rest := TokensOutside(tail, sid);
      forall j | 0 <= j < |rest| ensures rest[j].id != ts[0].id {
        var m :| 0 <= m < |tail| && tail[m] == rest[j];
        assert tail[m] == ts[m + 1];
      }
    }
  }

  /** Deleting a slot's tokens keeps the numbers of every remaining slot distinct. */
  lemma {:induction false} TokensOutsideKeepsNumbersDistinct(ts: seq<Token>, sid: SlotId)
    requires Allocation.NumbersDistinctPerSlot(ts)
    ensures Allocation.NumbersDistinctPerSlot(TokensOutside(ts, sid))
  {
    if ts != [] {
      var tail := ts[1..];
      assert Allocation.NumbersDistinctPerSlot(tail) by {
        forall i, j | 0 <= i < j < |tail| && tail[i].slot.id == tail[j].slot.id
          ensures tail[i].number != tail[j].number
        {
          assert tail[i] == ts[i + 1] && tail[j] == ts[j + 1];
        }
      }
      TokensOutsideKeepsNumbersDistinct(tail, sid);
      var rest := TokensOutside(tail, sid);
      forall j | 0 <= j < |rest| && rest[j].slot.id == ts[0].slot.id ensures rest[j].number != ts[0].number {
        var m :| 0 <= m < |tail| && tail[m] == rest[j];
        assert tail[m] == ts[m + 1];
      }
    }
  }

  /**
   * The history after slot `sid` is deleted: every entry is kept, with the
   * same user, token number and outcome; entries of that slot lose their
   * slot reference (SET_NULL).
   */
  function DetachSlot(h: seq<VisitEntry>, sid: SlotId): (r: seq<VisitEntry>)
    ensures |r| == |h|
    ensures forall i :: 0 <= i < |h| ==>
      r[i].user == h[i].user && r[i].tokenNumber == h[i].tokenNumber && r[i].outcome == h[i].outcome
    ensures forall i :: 0 <= i < |h| ==> r[i].slot == if h[i].slot == Some(sid) then None else h[i].slot
  {
    if h == [] then []
    else
      var e := h[0];
      [if e.slot == Some(sid) then e.(slot := None) else e] + DetachSlot(h[1..], sid)
  }

  /**
   * The ledger positions of `user`'s entries, newest first: every such
   * position exactly once, in strictly decreasing order.
   */
  function UserHistoryIndices(h: seq<VisitEntry>, user: UserId): (r: seq<nat>)
    ensures forall k :: 0 <= k < |r| ==> r[k] < |h| && h[r[k]].user == user
    ensures forall a, b :: 0 <= a < b < |r| ==> r[a] > r[b]
    ensures forall i :: 0 <= i < |h| && h[i].user == user ==> i in r
  {
    if h == [] then []
    else
      var last := |h| - 1;
      var rest := UserHistoryIndices(h[..last], user);
      if h[last].user == user then [last] + rest else rest
  }

  /**
   * `my_history`: the user's visit-history entries, newest first (entries
   * are appended in time order, so newer means later in the ledger).
   */
  function MyHistory(h: seq<VisitEntry>, user: UserId): (r: seq<VisitEntry>)
    ensures forall e :: e in r <==> e in h && e.user == user
    ensures var idx := UserHistoryIndices(h, user);
      |r| == |idx| && forall k :: 0 <= k < |r| ==> r[k] == h[idx[k]]
  {
    var idx := UserHistoryIndices(h, user);
    var r := seq(|idx|, k requires 0 <= k < |idx| => h[idx[k]]);
    assert forall e :: e in h && e.user == user ==> e in r by {
      forall e | e in h && e.user == user ensures e in r {
        var i :| 0 <= i < |h| && h[i] == e;
        var k :| 0 <= k < |idx| && idx[k] == i;
        assert r[k] == e;
      }
    }
    r
  }

  /** The statuses `cancel_token` accepts are not among the declared status choices. */
  lemma CancellableUndeclared()
    ensures forall st :: st in CANCELLABLE ==> st !in STATUS_CHOICES
  {
    assert PENDING !in STATUS_CHOICES;
    assert APPROVED !in STATUS_CHOICES;
  }

  /** The store behind the views: the QueueSlot, Token and VisitHistory tables. */
  class QueueStore {
    var slots: seq<QueueSlot>
    var tokens: seq<Token>
    var history: seq<VisitEntry>
    var nextTokenId: TokenId

    /** Primary keys are unique, fresh ids are unused, and every token's slot exists. */
    ghost predicate Valid()
      reads this
    {
      && SlotIdsDistinct(slots)
      && TokenIdsDistinct(tokens)
      && (forall i :: 0 <= i < |tokens| ==> tokens[i].id < nextTokenId)
      && (forall i :: 0 <= i < |tokens| ==> tokens[i].slot in slots)
    }

    /** The current column values of the token table. */
    ghost function Rows(): (rs: seq<TokenRow>)
      reads this, tokens
      ensures |rs| == |tokens|
      ensures forall i :: 0 <= i < |tokens| ==> rs[i] == tokens[i].Row()
    {
      seq(|tokens|, i reads this, tokens requires 0 <= i < |tokens| => tokens[i].Row())
    }

    /** Every token's status is one of the declared status choices. */
    ghost predicate StatusesChosen()
      reads this, tokens
    {
      forall i :: 0 <= i < |tokens| ==> tokens[i].status in STATUS_CHOICES
    }

    /** Token numbers are distinct within each slot and lie in [1, max_tokens]. */
    ghost predicate NumbersWellFormed()
      reads this
    {
      Allocation.NumbersDistinctPerSlot(tokens) && Allocation.NumbersInRange(tokens)
    }

    constructor (slots: seq<QueueSlot>)
      requires SlotIdsDistinct(slots)
      ensures Valid() && StatusesChosen() && NumbersWellFormed()
      ensures this.slots == slots && tokens == [] && history == [] && nextTokenId == 0
    {
      this.slots := slots;
      tokens := [];
      history := [];
      nextTokenId := 0;
    }

    /** Inserts token `t`, which takes the next id, into the token table. */
    method AppendToken(t: Token)
      requires Valid() && t.slot in slots && t.id == nextTokenId
      modifies this
      ensures Valid()
      ensures slots == old(slots) && history == old(history)
      ensures tokens == old(tokens) + [t] && nextTokenId == old(nextTokenId) + 1
      ensures (&& old(NumbersWellFormed())
               && t.number !in Allocation.UsedNumbers(old(tokens), t.slot.id)
               && 1 <= t.number <= t.slot.maxTokens)
              ==> NumbersWellFormed()
    {
      if NumbersWellFormed() && t.number !in Allocation.UsedNumbers(tokens, t.slot.id) {
        Allocation.AllocationKeepsNumbersDistinct(tokens, t);
      }
      tokens := tokens + [t];
      nextTokenId := nextTokenId + 1;
    }

    /**
     * The booking transaction on a chosen slot: the slot is full when at
     * least `max_tokens` numbers are used; otherwise a new token takes the
     * smallest unused number of [1, max_tokens]. Numbers of cancelled,
     * skipped and completed tokens count as used, and the user's other
     * tokens are not consulted.
     */
    method AllocateIn(slot: QueueSlot, user: UserId, service: Option<string>) returns (r: BookingOutcome)
      requires Valid() && slot in slots
      modifies this
      ensures Valid()
      ensures slots == old(slots) && history == old(history)
      ensures old(NumbersWellFormed()) ==> NumbersWellFormed()
      ensures old(StatusesChosen()) ==> StatusesChosen()
      ensures |old(tokens)| <= |tokens| && tokens[..|old(tokens)|] == old(tokens)
      ensures forall i :: 0 <= i < |old(tokens)| ==> tokens[i].Row() == old(tokens[i].Row())
      ensures r != FormInvalid
      ensures r == SlotFull <==> |Allocation.UsedNumbers(old(tokens), slot.id)| >= slot.maxTokens
      ensures r == SlotFull ==> tokens == old(tokens) && nextTokenId == old(nextTokenId)
      ensures r.Booked? ==>
        && 1 <= r.number <= slot.maxTokens
        && r.number !in Allocation.UsedNumbers(old(tokens), slot.id)
        && (forall k :: 1 <= k < r.number ==> k in Allocation.UsedNumbers(old(tokens), slot.id))
        && |tokens| == |old(tokens)| + 1
        && tokens[..|old(tokens)|] == old(tokens)
        && fresh(tokens[|old(tokens)|])
        && tokens[|old(tokens)|].Row() == TokenRow(old(nextTokenId), slot, user, r.number, ACTIVE, BackfillService(service, slot))
        && nextTokenId == old(nextTokenId) + 1
    {
      var used := Allocation.UsedNumbers(tokens, slot.id);
      var free := Allocation.FindFreeNumber(used, slot.maxTokens);
      if free.None? {
        return SlotFull;
      }
      var t := new Token(nextTokenId, slot, user, free.value, service);
      AppendToken(t);
      r := Booked(free.value);
    }

    /**
     * Books a token in slot `sid` for `user` (`book_token` passes no
     * service, `book_generic` passes its own). A slot id that is not among
     * the booking form's choices (slots dated today or later) makes the form
     * invalid; otherwise the booking transaction runs on the chosen slot.
     * Only the new token is added: the existing tokens keep their values.
     */
    method Allocate(sid: SlotId, user: UserId, today: Date, service: Option<string>) returns (r: BookingOutcome)
      requires Valid()
      modifies this
      ensures Valid()
      ensures slots == old(slots) && history == old(history)
      ensures old(NumbersWellFormed()) ==> NumbersWellFormed()
      ensures old(StatusesChosen()) ==> StatusesChosen()
      ensures |old(tokens)| <= |tokens| && tokens[..|old(tokens)|] == old(tokens)
      ensures forall i :: 0 <= i < |old(tokens)| ==> tokens[i].Row() == old(tokens[i].Row())
      ensures match Forms.ResolveBookingSlot(slots, today, sid)
        case None =>
          r == FormInvalid && tokens == old(tokens) && nextTokenId == old(nextTokenId)
        case Some(slot) =>
          var used := Allocation.UsedNumbers(old(tokens), sid);
          if |used| >= slot.maxTokens then
            r == SlotFull && tokens == old(tokens) && nextTokenId == old(nextTokenId)
          else
            && r.Booked?
            && 1 <= r.number <= slot.maxTokens
            && r.number !in used
            && (forall k :: 1 <= k < r.number ==> k in used)
            && |tokens| == |old(tokens)| + 1
            && fresh(tokens[|old(tokens)|])
            && tokens[|old(tokens)|].Row() == TokenRow(old(nextTokenId), slot, user, r.number, ACTIVE, BackfillService(service, slot))
            && nextTokenId == old(nextTokenId) + 1
    {
      var choice := Forms.ResolveBookingSlot(slots, today, sid);
      if choice.None? {
        return FormInvalid;
      }
      r := AllocateIn(choice.value, user, service);
    }

    /** `book_token`: allocation with the service back-filled from the slot. */
    method BookToken(sid: SlotId, user: UserId, today: Date) returns (r: BookingOutcome)
      requires Valid()
      modifies this
      ensures Valid()
      ensures slots == old(slots) && history == old(history)
      ensures old(NumbersWellFormed()) ==> NumbersWellFormed()
      ensures old(StatusesChosen()) ==> StatusesChosen()
      ensures forall i :: 0 <= i < |old(tokens)| && i < |tokens| ==> tokens[i].Row() == old(tokens[i].Row())
      ensures match Forms.ResolveBookingSlot(slots, today, sid)
        case None => r == FormInvalid && tokens == old(tokens) && nextTokenId == old(nextTokenId)
        case Some(slot) =>
          var used := Allocation.UsedNumbers(old(tokens), sid);
          if |used| >= slot.maxTokens then r == SlotFull && tokens == old(tokens) && nextTokenId == old(nextTokenId)
          else
            && r.Booked? && 1 <= r.number <= slot.maxTokens && r.number !in used
            && (forall k :: 1 <= k < r.number ==> k in used)
            && |tokens| == |old(tokens)| + 1 && tokens[..|old(tokens)|] == old(tokens)
            && fresh(tokens[|old(tokens)|])
            && tokens[|old(tokens)|].Row() == TokenRow(old(nextTokenId), slot, user, r.number, ACTIVE, Some(slot.service))
            && nextTokenId == old(nextTokenId) + 1
    {
      r := Allocate(sid, user, today, None);
    }

    /**
     * `book_generic`: allocation that stores the requested service on the
     * token, whatever the chosen slot's own service is.
     */
    method BookGeneric(sid: SlotId, user: UserId, today: Date, service: string) returns (r: BookingOutcome)
      requires Valid()
      modifies this
      ensures Valid()
      ensures slots == old(slots) && history == old(history)
      ensures old(NumbersWellFormed()) ==> NumbersWellFormed()
      ensures old(StatusesChosen()) ==> StatusesChosen()
      ensures forall i :: 0 <= i < |old(tokens)| && i < |tokens| ==> tokens[i].Row() == old(tokens[i].Row())
      ensures match Forms.ResolveBookingSlot(slots, today, sid)
        case None => r == FormInvalid && tokens == old(tokens) && nextTokenId == old(nextTokenId)
        case Some(slot) =>
          var used := Allocation.UsedNumbers(old(tokens), sid);
          if |used| >= slot.maxTokens then r == SlotFull && tokens == old(tokens) && nextTokenId == old(nextTokenId)
          else
            && r.Booked? && 1 <= r.number <= slot.maxTokens && r.number !in used
            && (forall k :: 1 <= k < r.number ==> k in used)
            && |tokens| == |old(tokens)| + 1 && tokens[..|old(tokens)|] == old(tokens)
            && fresh(tokens[|old(tokens)|])
            && tokens[|old(tokens)|].Row() == TokenRow(old(nextTokenId), slot, user, r.number, ACTIVE,
                                                       if service == "" then Some(slot.service) else Some(service))
            && nextTokenId == old(nextTokenId) + 1
    {
      r := Allocate(sid, user, today, Some(service));
    }

    /**
     * `complete_token`: from any status, the token becomes "completed" and
     * one history entry (its user, slot and number, outcome "served") is
     * appended. No other token changes.
     */
    method CompleteToken(tokenId: TokenId) returns (r: ActionOutcome)
      requires Valid()
      modifies this, tokens
      ensures Valid()
      ensures slots == old(slots) && tokens == old(tokens) && nextTokenId == old(nextTokenId)
      ensures old(NumbersWellFormed()) ==> NumbersWellFormed()
      ensures old(StatusesChosen()) ==> StatusesChosen()
      ensures match FindToken(tokens, tokenId)
        case None => r == NotFound && Rows() == old(Rows()) && history == old(history)
        case Some(k) =>
          && r == Done
          && Rows() == old(Rows())[k := Marked(old(Rows())[k], COMPLETED)]
          && history == old(history) + [EntryFor(tokens[k].user, old(Rows())[k], SERVED)]
    {
      var k := FindToken(tokens, tokenId);
      if k.None? {
        return NotFound;
      }
      var t := tokens[k.value];
      var before := t.Row();
      t.MarkServed();
      forall j | 0 <= j < |tokens|
        ensures Rows()[j] == old(Rows())[k.value := Marked(before, COMPLETED)][j]
      {
        if j != k.value {
          assert tokens[j] != t;
        }
      }
      assert Rows() == old(Rows())[k.value := Marked(before, COMPLETED)];
      history := history + [EntryFor(t.user, before, SERVED)];
      r := Done;
    }

    /**
     * `skip_token`: from any status, the token becomes "skipped" and one
     * history entry (its user, slot and number, outcome "skipped") is
     * appended. No other token changes.
     */
    method SkipToken(tokenId: TokenId) returns (r: ActionOutcome)
      requires Valid()
      modifies this, tokens
      ensures Valid()
      ensures slots == old(slots) && tokens == old(tokens) && nextTokenId == old(nextTokenId)
      ensures old(NumbersWellFormed()) ==> NumbersWellFormed()
      ensures old(StatusesChosen()) ==> StatusesChosen()
      ensures match FindToken(tokens, tokenId)
        case None => r == NotFound && Rows() == old(Rows()) && history == old(history)
        case Some(k) =>
          && r == Done
          && Rows() == old(Rows())[k := Marked(old(Rows())[k], SKIPPED)]
          && history == old(history) + [EntryFor(tokens[k].user, old(Rows())[k], SKIPPED)]
    {
      var k := FindToken(tokens, tokenId);
      if k.None? {
        return NotFound;
      }
      var t := tokens[k.value];
      var before := t.Row();
      t.MarkSkipped();
      forall j | 0 <= j < |tokens|
        ensures Rows()[j] == old(Rows())[k.value := Marked(before, SKIPPED)][j]
      {
        if j != k.value {
          assert tokens[j] != t;
        }
      }
      assert Rows() == old(Rows())[k.value := Marked(before, SKIPPED)];
      history := history + [EntryFor(t.user, before, SKIPPED)];
      r := Done;
    }

    /**
     * `cancel_token` (its second definition): only a token owned by
     * `requester` whose status is "pending" or "approved" is cancelled, with
     * one history entry (outcome "cancelled"); any other request is a 404
     * that changes nothing. Since neither status is a declared choice, a
     * store whose statuses are all declared choices never cancels anything.
     */
    method CancelToken(requester: UserId, tokenId: TokenId) returns (r: ActionOutcome)
      requires Valid()
      modifies this, tokens
      ensures Valid()
      ensures slots == old(slots) && tokens == old(tokens) && nextTokenId == old(nextTokenId)
      ensures old(NumbersWellFormed()) ==> NumbersWellFormed()
      ensures old(StatusesChosen()) ==> StatusesChosen()
      ensures old(StatusesChosen()) ==> r == NotFound
      ensures var found := FindToken(tokens, tokenId);
        if found.Some? && old(Rows())[found.value].user == requester && old(Rows())[found.value].status in CANCELLABLE then
          var k := found.value;
          && r == Done
          && Rows() == old(Rows())[k := Marked(old(Rows())[k], CANCELLED)]
          && history == old(history) + [EntryFor(requester, old(Rows())[k], CANCELLED)]
        else
          r == NotFound && Rows() == old(Rows()) && history == old(history)
    {
      var k := FindToken(tokens, tokenId);
      if k.None? {
        return NotFound;
      }
      var t := tokens[k.value];
      if !(t.user == requester && t.status in CANCELLABLE) {
        return NotFound;
      }
      CancellableUndeclared();
      assert !StatusesChosen() by {
        assert tokens[k.value].status !in STATUS_CHOICES;
      }
      var before := t.Row();
      t.MarkCancelled();
      forall j | 0 <= j < |tokens|
        ensures Rows()[j] == old(Rows())[k.value := Marked(before, CANCELLED)][j]
      {
        if j != k.value {
          assert tokens[j] != t;
        }
      }
      assert Rows() == old(Rows())[k.value := Marked(before, CANCELLED)];
      history := history + [EntryFor(requester, before, CANCELLED)];
      r := Done;
    }

    /**
     * Deleting a queue slot: its tokens are deleted with it, and its history
     * entries stay, with their slot reference cleared.
     */
    method DeleteSlot(sid: SlotId)
      requires Valid()
      modifies this
      ensures Valid()
      ensures slots == SlotsWithout(old(slots), sid)
      ensures tokens == TokensOutside(old(tokens), sid)
      ensures history == DetachSlot(old(history), sid)
      ensures nextTokenId == old(nextTokenId)
      ensures old(NumbersWellFormed()) ==> NumbersWellFormed()
      ensures old(StatusesChosen()) ==> StatusesChosen()
    {
      TokensOutsideKeepsIdsDistinct(tokens, sid);
      if NumbersWellFormed() {
        TokensOutsideKeepsNumbersDistinct(tokens, sid);
      }
      slots := SlotsWithout(slots, sid);
      tokens := TokensOutside(tokens, sid);
      history := DetachSlot(history, sid);
    }
  }

  /**
   * No slot of a well-formed store is over-booked: its tokens, whatever
   * their status, number at most its capacity (none when the capacity is
   * negative).
   */
  lemma StoreNeverOverbooked(s: QueueStore, slot: QueueSlot)
    requires s.Valid() && s.NumbersWellFormed() && slot in s.slots
    ensures |Allocation.SlotIndices(s.tokens, slot.id)| <= (if slot.maxTokens < 0 then 0 else slot.maxTokens)
    ensures |Allocation.SlotNumbers(s.tokens, slot.id)| <= (if slot.maxTokens < 0 then 0 else slot.maxTokens)
  {
    var cap: nat := if slot.maxTokens < 0 then 0 else slot.maxTokens;
    forall i | 0 <= i < |s.tokens| && s.tokens[i].slot.id == slot.id
      ensures 1 <= s.tokens[i].number <= cap
    {
      assert s.tokens[i].slot in s.slots;
      assert s.tokens[i].slot == slot;
    }
    Allocation.SlotNeverOverbooked(s.tokens, slot.id, cap);
  }
}
