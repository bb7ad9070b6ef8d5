/** The day-chunk paginator: a cursor over a date range that moves forward a
    fixed number of days per page until one more step would reach the end date. */
module Paginator {
  import opened Values

  /** A datetime is a count of microseconds (Python's datetime resolution), and
      `timedelta(days=n)` is `n * MicrosPerDay` of them. */
  const MicrosPerDay: int := 86_400_000_000

  /** The increment, in days, that the stream passes to its paginator. */
  const ChunkDays: int := 28

  /** The cursor values a paginator started at `v` takes, one per page: `v`,
      `v + step`, `v + 2 * step`, ... up to the first value `w` with
      `w + step >= end`. */
  function Windows(v: int, end: int, step: int): seq<int>
    requires step > 0
    decreases end - v
  {
    if v + step < end then [v] + Windows(v + step, end, step) else [v]
  }

  /** The windows form an arithmetic progression from `v`; every window after
      the first lies before `end`; every window but the last has a successor
      before `end`, and the last has none. */
  lemma {:induction false} WindowsShape(v: int, end: int, step: int)
    requires step > 0
    ensures |Windows(v, end, step)| >= 1
    ensures forall i :: 0 <= i < |Windows(v, end, step)| ==> Windows(v, end, step)[i] == v + i * step
    ensures forall i :: 0 < i < |Windows(v, end, step)| ==> Windows(v, end, step)[i] < end
    ensures forall i :: 0 <= i < |Windows(v, end, step)| - 1 ==> Windows(v, end, step)[i] + step < end
    ensures Windows(v, end, step)[|Windows(v, end, step)| - 1] + step >= end
    decreases end - v
  {
    if v + step < end {
      WindowsShape(v + step, end, step);
      var ws, rest := Windows(v, end, step), Windows(v + step, end, step);
      assert ws == [v] + rest;
      forall i | 0 < i < |ws| ensures ws[i] == v + i * step {
        assert ws[i] == rest[i - 1] == v + step + (i - 1) * step;
      }
    }
  }

  /** The number of pages: the least `n >= 1` with `v + n * step >= end`. */
  lemma WindowsCount(v: int, end: int, step: int)
    requires step > 0
    ensures var n := |Windows(v, end, step)|;
      v + n * step >= end && (n > 1 ==> v + (n - 1) * step < end)
    ensures |Windows(v, end, step)| == 1 <==> v + step >= end
  {
    WindowsShape(v, end, step);
    var ws := Windows(v, end, step);
    var n := |ws|;
    assert ws[n - 1] == v + (n - 1) * step;
    assert (n - 1) * step + step == n * step;
  }

  /** A start less than one increment before the end date gives a single page:
      with the stream's 28-day increment, a start ten days ago is fetched once
      and the cursor stays where it is. */
  lemma ExhaustedAtStart(today: int)
    ensures Windows(today - 10 * MicrosPerDay, today, ChunkDays * MicrosPerDay) == [today - 10 * MicrosPerDay]
  {
  }

  /** `DayChunkPaginator`: `value` is `current_value`, `end` is `end_date`
      (`datetime.today()` when the paginator was made, passed in here), and
      `finished` is the framework's exhaustion flag. */
  class DayChunkPaginator {
    var value: int
    const end: int
    const increment: int
    var finished: bool

    constructor (start: int, increment: int, today: int)
      ensures value == start && end == today && this.increment == increment && !finished
    {
      value := start;
      end := today;
      this.increment := increment;
      finished := false;
    }

    /** `timedelta(days=self.increment)`. */
    function Step(): int
    {
      increment * MicrosPerDay
    }

    /** `has_more`: the response plays no part in it. */
    predicate HasMore()
      reads this
    {
      value + Step() < end
    }

    /** `get_next`: the next cursor value, or `None` once the range is exhausted. */
    function GetNext(): (r: Option<int>)
      reads this
      ensures r.Some? <==> HasMore()
      ensures r.Some? ==> r.value == value + Step()
      ensures r.Some? ==> r.value < end
      ensures r.Some? && increment > 0 ==> value < r.value
      ensures r.Some? && increment <= 0 ==> r.value <= value
    {
      if HasMore() then Some(value + Step()) else None
    }

    /** The cursor values still to be visited, this one included. */
    ghost function Remaining(): seq<int>
      reads this
      requires increment > 0
    {
      Windows(value, end, Step())
    }

    /** The framework's `advance`: move the cursor to `get_next()`, or mark the
        paginator finished when there is no next value. With a positive
        increment each move strictly increases the cursor and shrinks
        `end - value`, so the pages run out; the windows still ahead lose
        exactly the one just left. */
    method Advance()
      modifies this
      ensures old(HasMore()) ==> value == old(value) + Step() && finished == old(finished)
      ensures !old(HasMore()) ==> value == old(value) && finished
      ensures old(HasMore()) ==> value < end
      ensures increment > 0 && old(HasMore()) ==> old(value) < value && end - value < old(end - value)
      ensures increment > 0 && old(HasMore()) ==> old(Remaining()) == [old(value)] + Remaining()
      ensures increment > 0 && !old(HasMore()) ==> Remaining() == [value]
    {
      var next := GetNext();
      match next {
        case Some(v) => value := v;
        case None => finished := true;
      }
    }
  }

  /** `get_new_paginator`: a paginator from the configured start date in
      28-day steps. */
  method NewStreamPaginator(start: int, today: int) returns (p: DayChunkPaginator)
    ensures fresh(p)
    ensures p.value == start && p.end == today && p.increment == ChunkDays && !p.finished
    ensures p.Remaining()[0] == start
  {
    p := new DayChunkPaginator(start, ChunkDays, today);
    WindowsShape(start, today, ChunkDays * MicrosPerDay);
  }
}
