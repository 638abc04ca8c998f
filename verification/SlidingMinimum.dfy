/** The sliding window minimum of the audio queue: a sorted queue of values with an 8 bit clock. */
module SlidingMinimum {
  import opened Words

  datatype Entry = Entry(time: u8, value: int)

  /** The time stamped on push number `n`. */
  function Stamp(n: nat): u8 {
    n % 256
  }

  /** Entry `i` is push number `places[i]`, and values and places increase along the queue. */
  ghost predicate Sorted(queue: seq<Entry>, places: seq<nat>, history: seq<int>) {
    && |places| == |queue|
    && (forall i :: 0 <= i < |queue| ==>
          places[i] < |history| && queue[i] == Entry(Stamp(places[i]), history[places[i]]))
    && (forall i, j :: 0 <= i < j < |queue| ==> places[i] < places[j] && queue[i].value < queue[j].value)
  }

  /** Some entry that is not older than push `h` is not larger either. */
  ghost predicate CoveredAt(queue: seq<Entry>, places: seq<nat>, history: seq<int>, h: nat)
    requires |places| == |queue| && h < |history|
  {
    exists i :: 0 <= i < |queue| && places[i] >= h && queue[i].value <= history[h]
  }

  /** All pushes from number `first` on are covered, or not below `value`. */
  ghost predicate Covered(queue: seq<Entry>, places: seq<nat>, history: seq<int>, first: int, value: int)
    requires |places| == |queue|
  {
    forall h :: 0 <= h < |history| && first <= h ==> CoveredAt(queue, places, history, h) || value <= history[h]
  }

  ghost predicate AllCovered(queue: seq<Entry>, places: seq<nat>, history: seq<int>, first: int)
    requires |places| == |queue|
  {
    forall h :: 0 <= h < |history| && first <= h ==> CoveredAt(queue, places, history, h)
  }

  lemma PopBackKeepsCover(queue: seq<Entry>, places: seq<nat>, history: seq<int>, first: int, value: int)
    requires |places| == |queue| > 0 && Covered(queue, places, history, first, value)
    requires queue[|queue| - 1].value >= value
    ensures Covered(queue[..|queue| - 1], places[..|queue| - 1], history, first, value)
  {
    var n := |queue| - 1;
    forall h | 0 <= h < |history| && first <= h && value > history[h]
      ensures CoveredAt(queue[..n], places[..n], history, h)
    {
      assert CoveredAt(queue, places, history, h);
      var i :| 0 <= i < |queue| && places[i] >= h && queue[i].value <= history[h];
      assert queue[..n][i] == queue[i] && places[..n][i] == places[i];
    }
  }

  lemma CoverForFewer(queue: seq<Entry>, places: seq<nat>, history: seq<int>, first: int, value: int)
    requires |places| == |queue| && AllCovered(queue, places, history, first)
    ensures Covered(queue, places, history, first + 1, value)
  {
  }

  lemma LengthsAgree(queue: seq<Entry>, places: seq<nat>, history: seq<int>)
    requires Sorted(queue, places, history)
    ensures |places| == |queue|
  {
  }

  lemma PushCovers(queue: seq<Entry>, places: seq<nat>, history: seq<int>, first: int, value: int)
    requires |places| == |queue| && Covered(queue, places, history, first, value)
    ensures AllCovered(queue + [Entry(Stamp(|history|), value)], places + [|history|], history + [value], first)
  {
    var queue', places', history' := queue + [Entry(Stamp(|history|), value)], places + [|history|], history + [value];
    forall h | 0 <= h < |history'| && first <= h
      ensures CoveredAt(queue', places', history', h)
    {
      if h < |history| && value > history[h] {
        assert CoveredAt(queue, places, history, h);
        var i :| 0 <= i < |queue| && places[i] >= h && queue[i].value <= history[h];
        assert queue'[i] == queue[i] && places'[i] == places[i];
      } else {
        assert places'[|queue|] >= h && queue'[|queue|].value <= history'[h];
      }
    }
  }

  lemma PopFrontKeepsCover(queue: seq<Entry>, places: seq<nat>, history: seq<int>, first: int)
    requires |places| == |queue| > 0 && AllCovered(queue, places, history, first) && places[0] < first
    ensures AllCovered(queue[1..], places[1..], history, first)
  {
    forall h | 0 <= h < |history| && first <= h
      ensures CoveredAt(queue[1..], places[1..], history, h)
    {
      assert CoveredAt(queue, places, history, h);
      var i :| 0 <= i < |queue| && places[i] >= h && queue[i].value <= history[h];
      assert queue[1..][i - 1] == queue[i] && places[1..][i - 1] == places[i];
    }
  }

  /** No entry is `size` or more pushes old when `now` pushes were made. */
  ghost predicate Young(places: seq<nat>, now: int, size: nat) {
    forall i :: 0 <= i < |places| ==> now <= places[i] + size
  }

  lemma PopBackKeepsSorted(queue: seq<Entry>, places: seq<nat>, history: seq<int>, now: int, size: nat)
    requires Sorted(queue, places, history) && Young(places, now, size) && |queue| > 0
    ensures Sorted(queue[..|queue| - 1], places[..|queue| - 1], history)
    ensures Young(places[..|queue| - 1], now, size)
  {
  }

  lemma PushKeepsSorted(queue: seq<Entry>, places: seq<nat>, history: seq<int>, value: int, size: nat)
    requires Sorted(queue, places, history) && Young(places, |history|, size)
    requires |queue| > 0 ==> queue[|queue| - 1].value < value
    ensures Sorted(queue + [Entry(Stamp(|history|), value)], places + [|history|], history + [value])
    ensures Young(places + [|history|], |history|, size)
  {
  }

  lemma PopFrontKeepsSorted(queue: seq<Entry>, places: seq<nat>, history: seq<int>, now: int, size: nat)
    requires Sorted(queue, places, history) && Young(places, now, size) && |queue| > 0
    ensures Sorted(queue[1..], places[1..], history) && Young(places[1..], now, size)
  {
  }

  /** Once the front is younger than the window, everything is. */
  lemma FrontIsOldest(queue: seq<Entry>, places: seq<nat>, history: seq<int>, now: int, size: nat)
    requires Sorted(queue, places, history)
    requires |queue| > 0 ==> now <= places[0] + size
    ensures Young(places, now, size)
  {
    forall i | 0 <= i < |places|
      ensures now <= places[i] + size
    {
      assert i > 0 ==> places[0] < places[i];
    }
  }

  /** The wrapping 8 bit clock tells whether the front has left the window. */
  lemma FrontAge(queue: seq<Entry>, places: seq<nat>, history: seq<int>, size: u8)
    requires Sorted(queue, places, history) && |queue| > 0 && |history| > 0
    requires Young(places, |history| - 1, size)
    ensures (Stamp(|history| - 1) - queue[0].time) % 256 >= size <==> places[0] < |history| - size
  {
    ClockDifference(|history| - 1, places[0]);
  }

  /** The last `size` of all pushes. */
  function Last(history: seq<int>, size: nat): seq<int> {
    if |history| <= size then history else history[|history| - size..]
  }

  /** These are `size` pushes or all, at the end of the history. */
  lemma LastIsEnd(history: seq<int>, size: nat)
    ensures var r := Last(history, size);
            && |r| <= size && |r| <= |history| && (|r| == size || |r| == |history|)
            && history[|history| - |r|..] == r
  {
  }

  ghost predicate IsMinimum(m: int, values: seq<int>) {
    m in values && forall v :: v in values ==> m <= v
  }

  class SlidingWindowMinimum {
    const size: u8
    var queue: seq<Entry>
    var curTime: u8
    ghost var history: seq<int>
    ghost var places: seq<nat>

    ghost predicate Valid()
      reads this
    {
      && size >= 1
      && curTime == Stamp(|history|)
      && Sorted(queue, places, history)
      && AllCovered(queue, places, history, |history| - size)
      && Young(places, |history|, size)
    }

    constructor (size: u8)
      requires size >= 1
      ensures Valid() && history == [] && this.size == size
    {
      this.size := size;
      queue, curTime := [], 0;
      history, places := [], [];
    }

    method Push(value: int)
      requires Valid()
      modifies this
      ensures Valid() && history == old(history) + [value]
    {
      hide Sorted, Covered, AllCovered, Young, Stamp;
      ghost var first := |history| + 1 - size;
      LengthsAgree(queue, places, history);
      CoverForFewer(queue, places, history, |history| - size, value);
      while |queue| > 0 && queue[|queue| - 1].value >= value
        invariant Sorted(queue, places, history) && |places| == |queue|
        invariant Covered(queue, places, history, first, value)
        invariant Young(places, |history|, size)
        invariant history == old(history) && curTime == old(curTime)
        decreases |queue|
      {
        PopBackKeepsCover(queue, places, history, first, value);
        PopBackKeepsSorted(queue, places, history, |history|, size);
        queue := queue[..|queue| - 1];
        places := places[..|places| - 1];
      }
      PushCovers(queue, places, history, first, value);
      PushKeepsSorted(queue, places, history, value, size);
      queue := queue + [Entry(curTime, value)];
      places := places + [|history|];
      history := history + [value];
      while |queue| > 0 && (curTime - queue[0].time) % 256 >= size
        invariant Sorted(queue, places, history) && |places| == |queue|
        invariant AllCovered(queue, places, history, first)
        invariant Young(places, |history| - 1, size)
        invariant history == old(history) + [value] && curTime == old(curTime)
        decreases |queue|
      {
        FrontAge(queue, places, history, size);
        PopFrontKeepsCover(queue, places, history, first);
        PopFrontKeepsSorted(queue, places, history, |history| - 1, size);
        queue := queue[1..];
        places := places[1..];
      }
      if |queue| > 0 {
        FrontAge(queue, places, history, size);
      }
      FrontIsOldest(queue, places, history, |history|, size);
      ClockTicks(|history| - 1);
      curTime := (curTime + 1) % 256;
    }

    /** The minimum of the last `size` pushes, or 0. */
    method GetMin() returns (m: int)
      requires Valid()
      ensures if history == [] then m == 0 else IsMinimum(m, Last(history, size))
    {
      m := if |queue| > 0 then queue[0].value else 0;
      if history != [] {
        FrontIsMinimum(size, queue, places, history);
      }
    }
  }

  /** The wrapping 8 bit clock measures ages below 256 exactly. */
  lemma ClockDifference(now: nat, then_: nat)
    requires then_ <= now < then_ + 256
    ensures (Stamp(now) - Stamp(then_)) % 256 == now - then_
  {
  }

  lemma ClockTicks(n: nat)
    ensures (Stamp(n) + 1) % 256 == Stamp(n + 1)
  {
  }

  lemma FrontIsMinimum(size: nat, queue: seq<Entry>, places: seq<nat>, history: seq<int>)
    requires size >= 1 && history != [] && Sorted(queue, places, history)
    requires AllCovered(queue, places, history, |history| - size)
    requires Young(places, |history|, size)
    ensures queue != [] && IsMinimum(queue[0].value, Last(history, size))
  {
    assert CoveredAt(queue, places, history, |history| - 1);
    var values := Last(history, size);
    var first := |history| - |values|;
    assert history[places[0]] == values[places[0] - first];
    forall v | v in values
      ensures queue[0].value <= v
    {
      var j :| 0 <= j < |values| && values[j] == v;
      assert history[first + j] == v && CoveredAt(queue, places, history, first + j);
      var i :| 0 <= i < |queue| && places[i] >= first + j && queue[i].value <= v;
      assert i > 0 ==> queue[0].value < queue[i].value;
    }
  }
}
