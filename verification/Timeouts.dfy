/**
 The kernel's timeout queue (kernel/timeout.c).

 The kernel keeps its timeouts in a list of deltas: each node stores how many ticks after its
 predecessor it is due. What the list means is a collection of absolute deadlines. This module
 holds both views and shows that they agree after every step, including the steps that expiry
 callbacks take in the middle of an announcement.
 */
module Timeouts {
  import opened Seqs

  // ----- Timeout values -------------------------------------------------------------------

  /** K_TICKS_FOREVER: never expires. */
  const FOREVER := -1

  /** Z_TICK_ABS: swaps relative values with absolute ones, which live below FOREVER. */
  function TickAbs(t: int): (r: int)
    ensures r == FOREVER <==> t == FOREVER
    ensures FOREVER - 1 - r == t
  {
    FOREVER - 1 - t
  }

  function Max(a: int, b: int): int {
    if a < b then b else a
  }

  // ----- The delta list -------------------------------------------------------------------

  /** A linked `struct _timeout`. */
  datatype Entry = Entry(id: nat, dticks: int)

  /** The timeout code's static variables. */
  datatype Clock = Clock(now: int, remaining: nat, list: seq<Entry>)

  predicate NonNegative(list: seq<Entry>) {
    forall i | 0 <= i < |list| :: list[i].dticks >= 0
  }

  predicate Linked(list: seq<Entry>, id: nat) {
    exists i | 0 <= i < |list| :: list[i].id == id
  }

  /** The index of the first node for `id`, or the length of the list. */
  function IndexOf(list: seq<Entry>, id: nat): (k: nat)
    ensures k <= |list|
    ensures forall i | 0 <= i < k :: list[i].id != id
    ensures k < |list| ==> list[k].id == id
  {
    if list == [] || list[0].id == id then 0 else 1 + IndexOf(list[1..], id)
  }

  /** How far after the first node's base the first `n` nodes reach. */
  function Sum(list: seq<Entry>, n: nat): int
    requires n <= |list|
  {
    if n == 0 then 0 else Sum(list, n - 1) + list[n - 1].dticks
  }

  /** The first node, from `i` on, that is due more than `d` after the base of the list. */
  function PlaceFrom(list: seq<Entry>, d: int, i: nat): (p: nat)
    requires i <= |list|
    ensures i <= p <= |list|
    ensures forall j | i < j <= p :: Sum(list, j) <= d
    ensures p < |list| ==> Sum(list, p + 1) > d
    decreases |list| - i
  {
    if i < |list| && Sum(list, i + 1) <= d then PlaceFrom(list, d, i + 1) else i
  }

  function Place(list: seq<Entry>, d: int): (p: nat)
    ensures p <= |list|
  {
    PlaceFrom(list, d, 0)
  }

  /** Links a node due `d` after the base: what is left of `d` at its place comes off the next node. */
  function Insert(list: seq<Entry>, id: nat, d: int): (r: seq<Entry>)
    ensures |r| == |list| + 1
    ensures forall j | 0 <= j < |r| ::
              r[j].id == if j < Place(list, d) then list[j].id else if j == Place(list, d) then id else list[j - 1].id
  {
    var p := Place(list, d);
    var left := d - Sum(list, p);
    Spliced(if p < |list| then list[p := list[p].(dticks := list[p].dticks - left)] else list, p, Entry(id, left))
  }

  /** Unlinks a node and hands its delta to its successor. */
  function RemoveAt(list: seq<Entry>, i: nat): seq<Entry>
    requires i < |list|
  {
    Dropped(if i + 1 < |list| then list[i + 1 := list[i + 1].(dticks := list[i + 1].dticks + list[i].dticks)]
            else list, i)
  }

  /** Ticks past `now` that the driver has counted but not announced; none while announcing. */
  function Elapsed(c: Clock, hardware: nat): nat {
    if c.remaining == 0 then hardware else 0
  }

  /** How many ticks ahead of the present an added timeout is due. */
  function TicksAhead(c: Clock, timeout: int, hardware: nat): (r: int)
    ensures r >= 1
  {
    var ticks := timeout + 1;
    Max(1, if TickAbs(ticks) >= 0 then TickAbs(ticks) - (c.now + Elapsed(c, hardware)) else ticks)
  }

  /** The tick at which an added timeout is due. */
  function Deadline(c: Clock, timeout: int, hardware: nat): int {
    c.now + Elapsed(c, hardware) + TicksAhead(c, timeout, hardware)
  }

  function Add(c: Clock, id: nat, timeout: int, hardware: nat): Clock {
    c.(list := Insert(c.list, id, TicksAhead(c, timeout, hardware) + Elapsed(c, hardware)))
  }

  predicate CanFire(c: Clock) {
    c.list != [] && c.list[0].dticks <= c.remaining
  }

  /** Advances to the first deadline and unlinks its node. */
  function Fire(c: Clock): Clock
    requires CanFire(c) && NonNegative(c.list)
  {
    var dt := c.list[0].dticks;
    Clock(c.now + dt, c.remaining - dt, RemoveAt(c.list[0 := c.list[0].(dticks := 0)], 0))
  }

  /** CLAMP */
  function Clamp(val: int, low: int, high: int): int {
    if val <= low then low else if val < high then val else high
  }

  /** next_timeout without time slicing: how long the driver may wait; a negative wait has no end. */
  function NextWait(c: Clock, hardware: nat, maxWait: int): int {
    if c.list == [] then maxWait else Clamp(c.list[0].dticks - Elapsed(c, hardware), 0, maxWait)
  }

  /** Absorbs the ticks after the last deadline of an announcement. */
  function Finish(c: Clock): Clock {
    var list := if c.list == [] then c.list
                else c.list[0 := c.list[0].(dticks := c.list[0].dticks - c.remaining)];
    Clock(c.now + c.remaining, 0, list)
  }

  // ----- What the list means --------------------------------------------------------------

  /** Linking a node puts it `d` after the base and leaves every other node where it was. */
  lemma {:induction false} SumInsert(list: seq<Entry>, id: nat, d: int, n: nat)
    requires n <= |list| + 1
    ensures var p := Place(list, d);
            Sum(Insert(list, id, d), n) == if n <= p then Sum(list, n) else if n == p + 1 then d else Sum(list, n - 1)
  {
    if n > 0 {
      SumInsert(list, id, d, n - 1);
    }
  }

  /** Unlinking a node leaves every other node where it was. */
  lemma {:induction false} SumRemoveAt(list: seq<Entry>, i: nat, n: nat)
    requires i < |list| && n < |list|
    ensures Sum(RemoveAt(list, i), n) == if n <= i then Sum(list, n) else Sum(list, n + 1)
  {
    if n > 0 {
      SumRemoveAt(list, i, n - 1);
    }
  }

  /** Changing the first delta shifts all nodes alike. */
  lemma {:induction false} SumShift(list: seq<Entry>, dticks: int, n: nat)
    requires 0 < n <= |list|
    ensures Sum(list[0 := list[0].(dticks := dticks)], n) == Sum(list, n) - list[0].dticks + dticks
  {
    if n > 1 {
      SumShift(list, dticks, n - 1);
    }
  }

  lemma {:induction false} SumMonotonic(list: seq<Entry>, m: nat, n: nat)
    requires NonNegative(list) && m <= n <= |list|
    ensures Sum(list, m) <= Sum(list, n)
  {
    if m < n {
      SumMonotonic(list, m, n - 1);
    }
  }

  /** Firing takes the first node out, makes its deadline the present and moves no other deadline. */
  lemma {:induction false} SumFire(c: Clock, n: nat)
    requires CanFire(c) && NonNegative(c.list) && n < |c.list|
    ensures Fire(c).now == c.now + Sum(c.list, 1)
    ensures Fire(c).now + Sum(Fire(c).list, n) == c.now + Sum(c.list, n + 1)
  {
    var stopped := c.list[0 := c.list[0].(dticks := 0)];
    assert Sum(c.list, 1) == Sum(c.list, 0) + c.list[0].dticks;
    SumShift(c.list, 0, n + 1);
    if n > 0 {
      SumRemoveAt(stopped, 0, n);
    }
  }

  lemma {:induction false} SumFinish(c: Clock, n: nat)
    requires 0 < n <= |c.list|
    ensures Finish(c).now + Sum(Finish(c).list, n) == c.now + Sum(c.list, n)
  {
    SumShift(c.list, c.list[0].dticks - c.remaining, n);
  }

  // ----- Termination of an announcement ---------------------------------------------------

  /** The number of leading nodes that are due at the present tick. */
  function DueNow(list: seq<Entry>): nat {
    Place(list, 0)
  }

  lemma {:induction false} PlaceIs(list: seq<Entry>, d: int, p: nat)
    requires NonNegative(list) && p <= |list|
    requires p > 0 ==> Sum(list, p) <= d
    requires p < |list| ==> Sum(list, p + 1) > d
    ensures Place(list, d) == p
  {
    var q := Place(list, d);
    if q < p {
      SumMonotonic(list, q + 1, p);
    }
  }

  /** A node linked ahead of the present is not due now. */
  lemma {:induction false} InsertNeverDueNow(list: seq<Entry>, id: nat, d: int)
    requires NonNegative(list) && d >= 1
    ensures NonNegative(Insert(list, id, d))
    ensures DueNow(Insert(list, id, d)) == DueNow(list)
  {
    InsertNonNegative(list, id, d);
    var z := DueNow(list);
    var p := Place(list, d);
    SumInsert(list, id, d, z);
    SumInsert(list, id, d, z + 1);
    PlaceIs(Insert(list, id, d), 0, z);
  }

  lemma {:induction false} InsertNonNegative(list: seq<Entry>, id: nat, d: int)
    requires NonNegative(list) && d >= 0
    ensures NonNegative(Insert(list, id, d))
  {
    var p := Place(list, d);
    assert p < |list| ==> Sum(list, p + 1) == Sum(list, p) + list[p].dticks;
  }

  lemma {:induction false} RemoveNeverDueNow(list: seq<Entry>, i: nat)
    requires NonNegative(list) && i < |list|
    ensures NonNegative(RemoveAt(list, i))
    ensures DueNow(RemoveAt(list, i)) <= DueNow(list)
  {
    var removed := RemoveAt(list, i);
    var z := DueNow(list);
    if z < DueNow(removed) {
      assert Sum(removed, z + 1) <= 0;
      SumMonotonic(list, z + 1, z + 2);
      SumRemoveAt(list, i, z + 1);
    }
  }

  /** One pass of the announcement loop gets closer to its end. */
  lemma {:induction false} FireDescends(c: Clock)
    requires CanFire(c) && NonNegative(c.list)
    ensures NonNegative(Fire(c).list)
    ensures Fire(c).remaining < c.remaining
            || (Fire(c).remaining == c.remaining && DueNow(Fire(c).list) < DueNow(c.list))
  {
    var fired := Fire(c);
    RemoveNeverDueNow(c.list[0 := c.list[0].(dticks := 0)], 0);
    if c.list[0].dticks == 0 {
      var z := DueNow(fired.list);
      assert Sum(c.list, 1) == Sum(c.list, 0) + c.list[0].dticks;
      if DueNow(c.list) <= z {
        var y := DueNow(c.list);
        assert y > 0 && Sum(fired.list, y) <= 0;
        SumFire(c, y);
      }
    }
  }
}
