/**
 The times a thread that sleeps between ticks can have ticked at: each tick
 follows the last by at least the sleep and at most the longest a tick takes.
 */
module MlagTicks {

  /** The longest that the ticks within a time n can have taken: one tick for
      every whole sleep in it. */
  function Cap(n: int, gap: int, tick: int): int
    requires 0 < gap
    decreases n
  {
    if n < gap then 0 else tick + Cap(n - gap, gap, tick)
  }

  /** r is a sum of so many gaps between ticks. */
  predicate OnGrid(r: int, gap: int, tick: int)
    requires 0 < gap
  {
    0 <= r <= Cap(r, gap, tick)
  }

  /** The latest a tick can be, no more than n after another. */
  function Latest(n: int, gap: int, tick: int): int
    requires 0 < gap
  {
    if n <= Cap(n, gap, tick) then n else Cap(n, gap, tick)
  }

  lemma {:induction false} CapGrows(m: int, n: int, gap: int, tick: int)
    requires 0 < gap && 0 <= tick && m <= n
    ensures 0 <= Cap(m, gap, tick) <= Cap(n, gap, tick)
    decreases n
  {
    if n >= gap {
      CapGrows(if m >= gap then m - gap else 0, n - gap, gap, tick);
    }
  }

  /** One more tick. */
  lemma NextTick(r: int, g: int, gap: int, tick: int)
    requires 0 < gap <= g <= tick && OnGrid(r, gap, tick)
    ensures OnGrid(r + g, gap, tick)
  {
    CapGrows(r + gap, r + g, gap, tick);
  }

  lemma LatestIsBound(r: int, n: int, gap: int, tick: int)
    requires 0 < gap <= tick && OnGrid(r, gap, tick) && r <= n
    ensures r <= Latest(n, gap, tick) <= n
  {
    CapGrows(r, n, gap, tick);
  }

  lemma {:induction false} CapOnGrid(n: int, gap: int, tick: int)
    requires 0 < gap <= tick
    ensures OnGrid(Cap(n, gap, tick), gap, tick)
    decreases n
  {
    if n >= gap {
      CapOnGrid(n - gap, gap, tick);
      NextTick(Cap(n - gap, gap, tick), tick, gap, tick);
    }
  }

  lemma LatestOnGrid(n: int, gap: int, tick: int)
    requires 0 < gap <= tick && 0 <= n
    ensures OnGrid(Latest(n, gap, tick), gap, tick)
  {
    CapOnGrid(n, gap, tick);
  }

  /** Sums of gaps add up to sums of gaps. */
  lemma {:induction false} GridAdds(r: int, q: int, gap: int, tick: int)
    requires 0 < gap <= tick && OnGrid(r, gap, tick) && OnGrid(q, gap, tick)
    ensures OnGrid(r + q, gap, tick)
    decreases q
  {
    if q > 0 {
      var g := FirstGap(q, gap, tick);
      GridAdds(r, q - g, gap, tick);
      NextTick(r + q - g, g, gap, tick);
    }
  }

  /** A sum of gaps that is not zero, less one of them. */
  lemma FirstGap(r: int, gap: int, tick: int) returns (g: int)
    requires 0 < gap <= tick && OnGrid(r, gap, tick) && r > 0
    ensures gap <= g <= tick && OnGrid(r - g, gap, tick)
  {
    if r - gap <= Cap(r - gap, gap, tick) {
      g := gap;
    } else {
      g := r - Cap(r - gap, gap, tick);
      CapOnGrid(r - gap, gap, tick);
    }
  }

  // ----- timetables -----

  /** Times of ticks to come, the first following a tick at `from`. */
  predicate Timetable(from: int, ts: seq<int>, gap: int, tick: int)
    decreases ts
  {
    ts == [] || (from + gap <= ts[0] <= from + tick && Timetable(ts[0], ts[1..], gap, tick))
  }

  function End(from: int, ts: seq<int>): int {
    if ts == [] then from else ts[|ts| - 1]
  }

  /** A timetable that takes exactly r. */
  lemma {:induction false} Plan(from: int, r: int, gap: int, tick: int) returns (ts: seq<int>)
    requires 0 < gap <= tick && OnGrid(r, gap, tick)
    ensures Timetable(from, ts, gap, tick) && End(from, ts) == from + r
    decreases r
  {
    if r == 0 {
      ts := [];
    } else {
      var g := FirstGap(r, gap, tick);
      var rest := Plan(from + g, r - g, gap, tick);
      ts := [from + g] + rest;
      assert ts[1..] == rest;
    }
  }

  lemma {:induction false} Joined(from: int, a: seq<int>, b: seq<int>, gap: int, tick: int)
    requires Timetable(from, a, gap, tick) && Timetable(End(from, a), b, gap, tick)
    ensures Timetable(from, a + b, gap, tick) && End(from, a + b) == End(End(from, a), b)
    decreases a
  {
    if a == [] {
      assert a + b == b;
    } else {
      assert (a + b)[1..] == a[1..] + b && End(a[0], a[1..]) == End(from, a);
      Joined(a[0], a[1..], b, gap, tick);
    }
  }

  /** Its ticks lie after the start and no later than the end. */
  lemma {:induction false} Within(from: int, ts: seq<int>, gap: int, tick: int)
    requires 0 < gap && Timetable(from, ts, gap, tick)
    ensures from <= End(from, ts) && forall t :: t in ts ==> from < t <= End(from, ts)
    decreases ts
  {
    if ts != [] {
      Within(ts[0], ts[1..], gap, tick);
      assert ts == [ts[0]] + ts[1..] && End(ts[0], ts[1..]) == End(from, ts);
    }
  }
}
