/**
 * The dispatcher's due query:
 * pending rows whose `next_attempt_at` has come and whose lease is absent or
 * expired, earliest `next_attempt_at` first, at most `limit` of them.
 * Rows with equal `next_attempt_at` come in table order.
 */
module DeliverySelection {
  import opened WebhookTypes

  /** The WHERE clause of the due query. */
  predicate IsDue(d: Delivery, now: int) {
    && d.status == Pending
    && d.nextAttemptAt <= now
    && (d.lockedUntil.None? || d.lockedUntil.value < now)
  }

  predicate DueIn(rows: map<string, Delivery>, id: string, now: int) {
    id in rows && IsDue(rows[id], now)
  }

  /** The sort key of a row; rows outside the table sort first. */
  function NextAt(rows: map<string, Delivery>, id: string): int {
    if id in rows then rows[id].nextAttemptAt else 0
  }

  /** The rows of the table, in table order, that satisfy the WHERE clause. */
  function DueCandidates(rows: map<string, Delivery>, order: seq<string>, now: int): (c: seq<string>)
    ensures forall id :: id in c <==> id in order && DueIn(rows, id, now)
    ensures NoDuplicates(order) ==> NoDuplicates(c)
    decreases |order|
  {
    if order == [] then []
    else
      var rest := DueCandidates(rows, order[..|order| - 1], now);
      var id := order[|order| - 1];
      assert order == order[..|order| - 1] + [id];
      if DueIn(rows, id, now) then rest + [id] else rest
  }

  /** No id of `s` has an earlier `next_attempt_at` than `x`. */
  ghost predicate NotLaterThanAll(rows: map<string, Delivery>, x: string, s: seq<string>) {
    forall y :: y in s ==> NextAt(rows, x) <= NextAt(rows, y)
  }

  ghost predicate SortedByNext(rows: map<string, Delivery>, r: seq<string>) {
    forall i, j :: 0 <= i < j < |r| ==> NextAt(rows, r[i]) <= NextAt(rows, r[j])
  }

  /** The position of the first candidate with the smallest `next_attempt_at`. */
  function EarliestIndex(rows: map<string, Delivery>, cands: seq<string>): (i: nat)
    requires cands != []
    ensures i < |cands|
    ensures forall j :: 0 <= j < |cands| ==> NextAt(rows, cands[i]) <= NextAt(rows, cands[j])
    decreases |cands|
  {
    if |cands| == 1 then 0
    else
      var k := EarliestIndex(rows, cands[1..]);
      if NextAt(rows, cands[0]) <= NextAt(rows, cands[k + 1]) then 0 else k + 1
  }

  /** `s` without its element at position `i`. */
  function RemoveAt<T>(s: seq<T>, i: nat): (r: seq<T>)
    requires i < |s|
    ensures |r| == |s| - 1
    ensures forall x :: x in s && x != s[i] ==> x in r
    ensures forall x :: x in r ==> x in s
    ensures NoDuplicates(s) ==> NoDuplicates(r) && s[i] !in r
    decreases i
  {
    if i == 0 then s[1..]
    else
      var tail := RemoveAt(s[1..], i - 1);
      assert s[1..][i - 1] == s[i];
      assert NoDuplicates(s) ==> NoDuplicates(s[1..]) && s[0] !in s[1..];
      [s[0]] + tail
  }

  /**
   * `ORDER BY next_attempt_at ASC LIMIT k` over the candidates: repeatedly
   * takes the earliest remaining one.
   */
  function TakeEarliest(rows: map<string, Delivery>, cands: seq<string>, k: nat): (r: seq<string>)
    ensures |r| == if k < |cands| then k else |cands|
    ensures forall id :: id in r ==> id in cands
    decreases k
  {
    if k == 0 || cands == [] then []
    else
      var i := EarliestIndex(rows, cands);
      [cands[i]] + TakeEarliest(rows, RemoveAt(cands, i), k - 1)
  }

  /** The first selected candidate is not later than any candidate selected after it. */
  lemma HeadNotLaterThanTail(rows: map<string, Delivery>, cands: seq<string>, k: nat)
    requires k > 0 && cands != []
    ensures var i := EarliestIndex(rows, cands);
      NotLaterThanAll(rows, cands[i], TakeEarliest(rows, RemoveAt(cands, i), k - 1))
  {
    var i := EarliestIndex(rows, cands);
    var tail := TakeEarliest(rows, RemoveAt(cands, i), k - 1);
    forall y | y in tail ensures NextAt(rows, cands[i]) <= NextAt(rows, y) {
      assert y in cands;
      var j :| 0 <= j < |cands| && cands[j] == y;
    }
  }

  lemma SortedCons(rows: map<string, Delivery>, x: string, tail: seq<string>)
    requires NotLaterThanAll(rows, x, tail) && SortedByNext(rows, tail)
    ensures SortedByNext(rows, [x] + tail)
  {
    var r := [x] + tail;
    forall a, b | 0 <= a < b < |r| ensures NextAt(rows, r[a]) <= NextAt(rows, r[b]) {
      assert r[b] == tail[b - 1] && r[b] in tail;
      if a > 0 {
        assert r[a] == tail[a - 1];
      }
    }
  }

  /** One step of the selection keeps it sorted. */
  lemma ConsSorted(rows: map<string, Delivery>, cands: seq<string>, k: nat)
    requires k > 0 && cands != []
    requires SortedByNext(rows, TakeEarliest(rows, RemoveAt(cands, EarliestIndex(rows, cands)), k - 1))
    ensures SortedByNext(rows, TakeEarliest(rows, cands, k))
  {
    var i := EarliestIndex(rows, cands);
    var tail := TakeEarliest(rows, RemoveAt(cands, i), k - 1);
    HeadNotLaterThanTail(rows, cands, k);
    SortedCons(rows, cands[i], tail);
    assert TakeEarliest(rows, cands, k) == [cands[i]] + tail;
  }

  /** The selection comes out in ascending `next_attempt_at` order. */
  lemma {:induction false} TakeEarliestSorted(rows: map<string, Delivery>, cands: seq<string>, k: nat)
    ensures SortedByNext(rows, TakeEarliest(rows, cands, k))
    decreases k
  {
    if k > 0 && cands != [] {
      TakeEarliestSorted(rows, RemoveAt(cands, EarliestIndex(rows, cands)), k - 1);
      ConsSorted(rows, cands, k);
    }
  }

  /** Every candidate left out of the selection is not earlier than any selected one. */
  ghost predicate KeepsEarliest(rows: map<string, Delivery>, cands: seq<string>, r: seq<string>) {
    forall id, i :: id in cands && id !in r && 0 <= i < |r| ==> NextAt(rows, r[i]) <= NextAt(rows, id)
  }

  /** One step of the selection keeps the earliest candidates. */
  lemma ConsKeepsEarliest(rows: map<string, Delivery>, cands: seq<string>, k: nat)
    requires k > 0 && cands != []
    requires var rest := RemoveAt(cands, EarliestIndex(rows, cands));
      KeepsEarliest(rows, rest, TakeEarliest(rows, rest, k - 1))
    ensures KeepsEarliest(rows, cands, TakeEarliest(rows, cands, k))
  {
    var i := EarliestIndex(rows, cands);
    var rest := RemoveAt(cands, i);
    var tail := TakeEarliest(rows, rest, k - 1);
    var r := TakeEarliest(rows, cands, k);
    assert r == [cands[i]] + tail;
    forall id, a | id in cands && id !in r && 0 <= a < |r| ensures NextAt(rows, r[a]) <= NextAt(rows, id) {
      assert id != cands[i] && id in rest && id !in tail;
      if a > 0 {
        assert r[a] == tail[a - 1];
      } else {
        var j :| 0 <= j < |cands| && cands[j] == id;
      }
    }
  }

  /** LIMIT keeps the earliest candidates. */
  lemma {:induction false} TakeEarliestKeepsEarliest(rows: map<string, Delivery>, cands: seq<string>, k: nat)
    ensures KeepsEarliest(rows, cands, TakeEarliest(rows, cands, k))
    decreases k
  {
    if k == 0 || cands == [] {
      assert TakeEarliest(rows, cands, k) == [];
    } else {
      var rest := RemoveAt(cands, EarliestIndex(rows, cands));
      TakeEarliestKeepsEarliest(rows, rest, k - 1);
      assert KeepsEarliest(rows, rest, TakeEarliest(rows, rest, k - 1));
      ConsKeepsEarliest(rows, cands, k);
    }
  }

  lemma ConsDistinct<T>(x: T, tail: seq<T>)
    requires NoDuplicates(tail) && x !in tail
    ensures NoDuplicates([x] + tail)
  {
    var r := [x] + tail;
    forall a, b | 0 <= a < b < |r| ensures r[a] != r[b] {
      assert r[b] == tail[b - 1];
      if a > 0 {
        assert r[a] == tail[a - 1];
      }
    }
  }

  /** Distinct candidates give distinct selected ids. */
  lemma {:induction false} TakeEarliestDistinct(rows: map<string, Delivery>, cands: seq<string>, k: nat)
    requires NoDuplicates(cands)
    ensures NoDuplicates(TakeEarliest(rows, cands, k))
    decreases k
  {
    if k > 0 && cands != [] {
      var i := EarliestIndex(rows, cands);
      var rest := RemoveAt(cands, i);
      var tail := TakeEarliest(rows, rest, k - 1);
      TakeEarliestDistinct(rows, rest, k - 1);
      assert cands[i] !in rest;
      assert cands[i] !in tail;
      ConsDistinct(cands[i], tail);
      assert TakeEarliest(rows, cands, k) == [cands[i]] + tail;
    }
  }

  /** The ids the due query returns. */
  function SelectDue(rows: map<string, Delivery>, order: seq<string>, now: int, limit: nat): (r: seq<string>)
    ensures |r| <= limit
    ensures |r| == if limit < |DueCandidates(rows, order, now)| then limit else |DueCandidates(rows, order, now)|
    ensures forall id :: id in r ==> id in order && DueIn(rows, id, now)
    ensures forall i :: 0 <= i < |r| ==> DueIn(rows, r[i], now)
    ensures NoDuplicates(order) ==> NoDuplicates(r)
    ensures forall i, j :: 0 <= i < j < |r| ==> rows[r[i]].nextAttemptAt <= rows[r[j]].nextAttemptAt
    ensures forall id, i :: id in order && DueIn(rows, id, now) && id !in r && 0 <= i < |r| ==>
      rows[r[i]].nextAttemptAt <= rows[id].nextAttemptAt
  {
    var cands := DueCandidates(rows, order, now);
    TakeEarliestSorted(rows, cands, limit);
    TakeEarliestKeepsEarliest(rows, cands, limit);
    if NoDuplicates(order) then
      TakeEarliestDistinct(rows, cands, limit);
      TakeEarliest(rows, cands, limit)
    else
    TakeEarliest(rows, cands, limit)
  }

  /** A row that is sent or failed is never selected again: both states are terminal. */
  lemma TerminalRowsNeverSelected(rows: map<string, Delivery>, order: seq<string>, now: int, limit: nat, id: string)
    requires id in rows && rows[id].status != Pending
    ensures id !in SelectDue(rows, order, now, limit)
  {
  }

  /** While enough rows are due, the query returns exactly `limit` of them. */
  lemma SelectionFillsLimit(rows: map<string, Delivery>, order: seq<string>, now: int, limit: nat)
    requires NoDuplicates(order)
    requires |set id | id in order && DueIn(rows, id, now)| >= limit
    ensures |SelectDue(rows, order, now, limit)| == limit
  {
    var c := DueCandidates(rows, order, now);
    DistinctCount(c);
    assert (set id | id in c) == (set id | id in order && DueIn(rows, id, now));
  }

  /** A sequence without duplicates has as many elements as its set. */
  lemma {:induction false} DistinctCount<T>(s: seq<T>)
    requires NoDuplicates(s)
    ensures |set x | x in s| == |s|
  {
    if s != [] {
      var t := s[..|s| - 1];
      DistinctCount(t);
      assert s == t + [s[|s| - 1]];
      assert (set x | x in s) == (set x | x in t) + {s[|s| - 1]};
    }
  }
}
