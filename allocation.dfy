/**
 * Gap-filling token-number allocation: the numbers already used in a slot,
 * the search for the smallest free number in [1, max_tokens], and the
 * counting facts behind it (a full range of used numbers means the slot is
 * full; distinct numbers in range never exceed the capacity).
 */
module Allocation {
  import opened Wrappers
  import opened Models

  /** The positions of the tokens of slot `sid` in the token table. */
  function SlotIndices(ts: seq<Token>, sid: SlotId): set<int> {
    set i | 0 <= i < |ts| && ts[i].slot.id == sid
  }

  /** The numbers of the tokens of slot `sid`, one per token, in store order, whatever their status. */
  function SlotNumbers(ts: seq<Token>, sid: SlotId): (r: seq<int>)
    ensures |r| <= |ts|
    ensures forall n :: n in r <==> exists i :: 0 <= i < |ts| && ts[i].slot.id == sid && ts[i].number == n
  {
    if ts == [] then []
    else
      var k := |ts| - 1;
      var rest := SlotNumbers(ts[..k], sid);
      assert forall i :: 0 <= i < k ==> ts[..k][i] == ts[i];
      if ts[k].slot.id == sid then rest + [ts[k].number] else rest
  }

  /** One number per token: the slot's number list is as long as the slot has tokens. */
  lemma {:induction false} SlotNumbersCount(ts: seq<Token>, sid: SlotId)
    ensures |SlotNumbers(ts, sid)| == |SlotIndices(ts, sid)|
  {
    if ts == [] {
      assert SlotIndices(ts, sid) == {};
    } else {
      var k := |ts| - 1;
      SlotNumbersCount(ts[..k], sid);
      assert forall i :: 0 <= i < k ==> ts[..k][i] == ts[i];
      assert SlotIndices(ts, sid) == SlotIndices(ts[..k], sid) + (if ts[k].slot.id == sid then {k} else {});
    }
  }

  /** The set of numbers already used in slot `sid` (cancelled, skipped and completed tokens included). */
  function UsedNumbers(ts: seq<Token>, sid: SlotId): (r: set<int>)
    ensures forall n :: n in r <==> exists i :: 0 <= i < |ts| && ts[i].slot.id == sid && ts[i].number == n
  {
    set n | n in SlotNumbers(ts, sid)
  }

  predicate Distinct(s: seq<int>) {
    forall i, j :: 0 <= i < j < |s| ==> s[i] != s[j]
  }

  /** No two tokens of the same slot share a number. */
  predicate NumbersDistinctPerSlot(ts: seq<Token>) {
    forall i, j :: 0 <= i < j < |ts| && ts[i].slot.id == ts[j].slot.id ==> ts[i].number != ts[j].number
  }

  /** Every token's number lies in [1, max_tokens] of its slot. */
  predicate NumbersInRange(ts: seq<Token>) {
    forall i :: 0 <= i < |ts| ==> 1 <= ts[i].number <= ts[i].slot.maxTokens
  }

  /** The integers 1..n. */
  function Interval(n: int): (r: set<int>)
    ensures forall k :: k in r <==> 1 <= k <= n
    decreases if n < 0 then 0 else n
  {
    if n <= 0 then {} else Interval(n - 1) + {n}
  }

  /** The integers 1..n form a set of n elements. */
  lemma {:induction false} IntervalSize(n: nat)
    ensures |Interval(n)| == n
  {
    if n > 0 {
      IntervalSize(n - 1);
      assert n !in Interval(n - 1);
    }
  }

  /** A set of integers inside [1, n] has at most n elements. */
  lemma SubsetOfRangeSize(s: set<int>, n: nat)
    requires forall x :: x in s ==> 1 <= x <= n
    ensures |s| <= n
  {
    IntervalSize(n);
    var range := Interval(n);
    assert range == s + (range - s);
  }

  /**
   * Pigeonhole: if every number of [1, n] is used, at least n numbers are
   * used. So when fewer than n are used, some number of [1, n] is free.
   */
  lemma Pigeonhole(used: set<int>, n: int)
    requires forall k :: 1 <= k <= n ==> k in used
    ensures |used| >= n
  {
    if n > 0 {
      IntervalSize(n);
      var range := Interval(n);
      assert used == range + (used - range);
    }
  }

  /**
   * The booking views' search: reject when at least `maxTokens` numbers are
   * used, otherwise return the smallest number of [1, maxTokens] not used.
   * The loop never runs past `maxTokens` without finding one.
   */
  method FindFreeNumber(used: set<int>, maxTokens: int) returns (r: Option<int>)
    ensures r.None? <==> |used| >= maxTokens
    ensures r.Some? ==> 1 <= r.value <= maxTokens && r.value !in used
    ensures r.Some? ==> forall k :: 1 <= k < r.value ==> k in used
  {
    if |used| >= maxTokens {
      return None;
    }
    var num := 1;
    while num <= maxTokens && num in used
      invariant 1 <= num
      invariant num <= maxTokens + 1
      invariant forall k :: 1 <= k < num ==> k in used
      decreases maxTokens - num
    {
      num := num + 1;
    }
    if num > maxTokens {
      Pigeonhole(used, maxTokens);
    }
    return Some(num);
  }

  /** A sequence without repeated elements has as many elements as its set. */
  lemma {:induction false} DistinctSize(s: seq<int>)
    requires Distinct(s)
    ensures |set x | x in s| == |s|
  {
    if s != [] {
      DistinctSize(s[1..]);
      assert (set x | x in s) == (set x | x in s[1..]) + {s[0]};
      assert s[0] !in s[1..] by {
        forall i | 0 <= i < |s[1..]| ensures s[1..][i] != s[0] {
          assert s[1..][i] == s[i + 1];
        }
      }
    }
  }

  /** Per-slot distinct numbers give a duplicate-free number list for each slot. */
  lemma {:induction false} SlotNumbersDistinct(ts: seq<Token>, sid: SlotId)
    requires NumbersDistinctPerSlot(ts)
    ensures Distinct(SlotNumbers(ts, sid))
  {
    if ts != [] {
      var k := |ts| - 1;
      var init := ts[..k];
      assert forall i :: 0 <= i < k ==> init[i] == ts[i];
      SlotNumbersDistinct(init, sid);
      if ts[k].slot.id == sid {
        var rest := SlotNumbers(init, sid);
        forall i | 0 <= i < k && init[i].slot.id == sid
          ensures init[i].number != ts[k].number
        {
        }
        assert ts[k].number !in rest;
      }
    }
  }

  /**
   * No over-booking: when the numbers of each slot are distinct and every
   * token of slot `sid` is numbered within [1, maxTokens], the slot holds at
   * most `maxTokens` tokens.
   */
  lemma SlotNeverOverbooked(ts: seq<Token>, sid: SlotId, maxTokens: nat)
    requires NumbersDistinctPerSlot(ts)
    requires forall i :: 0 <= i < |ts| && ts[i].slot.id == sid ==> 1 <= ts[i].number <= maxTokens
    ensures |SlotNumbers(ts, sid)| <= maxTokens
    ensures |SlotIndices(ts, sid)| <= maxTokens
  {
    var nums := SlotNumbers(ts, sid);
    SlotNumbersCount(ts, sid);
    SlotNumbersDistinct(ts, sid);
    DistinctSize(nums);
    SubsetOfRangeSize((set x | x in nums), maxTokens);
  }

  /** Adding a token whose number is unused in its slot keeps every slot's numbers distinct. */
  lemma AllocationKeepsNumbersDistinct(ts: seq<Token>, t: Token)
    requires NumbersDistinctPerSlot(ts)
    requires t.number !in UsedNumbers(ts, t.slot.id)
    ensures NumbersDistinctPerSlot(ts + [t])
  {
    var ts' := ts + [t];
    forall i, j | 0 <= i < j < |ts'| && ts'[i].slot.id == ts'[j].slot.id
      ensures ts'[i].number != ts'[j].number
    {
      if j == |ts| {
        assert ts'[i] == ts[i];
      }
    }
  }
}
