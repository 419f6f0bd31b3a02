/**
  The two deadline loops: the pipeline worker's polling and the control
  center's tick with its slower render deadline. Clock readings are inputs;
  sleeping until a deadline returns no earlier than it.
 */
module Pacing {
  /** Deadline after one pass: one period on, or now when that has gone by. */
  function NextDeadline(previous: int, period: int, now: int): int {
    if previous + period > now then previous + period else now
  }

  /** Deadlines of successive passes; ends[k] is the clock after the k-th execution. */
  function Deadline(t0: int, period: int, ends: seq<int>): int {
    if ends == [] then t0
    else NextDeadline(Deadline(t0, period, ends[..|ends| - 1]), period, ends[|ends| - 1])
  }

  /** When the k-th execution starts at the earliest: at once, then after sleeping or overrunning. */
  ghost predicate Paced(t0: int, period: int, starts: seq<int>, ends: seq<int>) {
    && |starts| == |ends|
    && (forall k :: 0 <= k < |starts| ==> starts[k] <= ends[k])
    && (forall k :: 0 <= k < |starts| ==> starts[k] >= Deadline(t0, period, ends[..k]))
  }

  /** The worker's loop over the clock readings it makes, until stop is requested. */
  method Run(t0: int, period: int, ends: seq<int>) returns (deadlines: seq<int>)
    ensures |deadlines| == |ends| + 1
    ensures forall k :: 0 <= k <= |ends| ==> deadlines[k] == Deadline(t0, period, ends[..k])
  {
    var next := t0;
    deadlines := [next];
    var i := 0;
    while i < |ends|
      invariant 0 <= i <= |ends| && |deadlines| == i + 1 && next == Deadline(t0, period, ends[..i])
      invariant forall k :: 0 <= k <= i ==> deadlines[k] == Deadline(t0, period, ends[..k])
    {
      next := next + period;
      var now := ends[i];
      if next <= now {
        next := now;
      }
      assert ends[..i + 1][..i] == ends[..i];
      deadlines, i := deadlines + [next], i + 1;
    }
  }

  /**
    Closed form: the k-th deadline is the latest of t0 + k periods and, for
    every earlier pass, its end plus the periods since.
   */
  lemma {:induction false} DeadlineClosedForm(t0: int, period: int, ends: seq<int>)
    ensures var d, n := Deadline(t0, period, ends), |ends|;
            && d >= t0 + n * period
            && (forall j :: 0 <= j < n ==> d >= ends[j] + (n - 1 - j) * period)
            && (d == t0 + n * period || exists j :: 0 <= j < n && d == ends[j] + (n - 1 - j) * period)
  {
    if ends != [] {
      var n, init := |ends|, ends[..|ends| - 1];
      DeadlineClosedForm(t0, period, init);
      var p, d := Deadline(t0, period, init), Deadline(t0, period, ends);
      assert n * period == (n - 1) * period + period;
      forall j | 0 <= j < n ensures d >= ends[j] + (n - 1 - j) * period {
        if j < n - 1 {
          assert init[j] == ends[j];
          OneMore(n - 2 - j, period);
        }
      }
      if d == ends[n - 1] {
        assert d == ends[n - 1] + (n - 1 - (n - 1)) * period;
      } else if p != t0 + (n - 1) * period {
        var j :| 0 <= j < n - 1 && p == init[j] + (n - 2 - j) * period;
        OneMore(n - 2 - j, period);
        assert d == ends[j] + (n - 1 - j) * period;
      }
    }
  }

  lemma OneMore(k: int, period: int)
    ensures (k + 1) * period == k * period + period
  {}

  /**
    No poll comes early, and there is no catch-up burst: the k-th starts no
    earlier than t0 + k periods, nor than any earlier deadline plus the periods since.
   */
  lemma PollsAreSpaced(t0: int, period: int, starts: seq<int>, ends: seq<int>, i: nat, j: nat)
    requires Paced(t0, period, starts, ends) && i <= j < |starts|
    ensures starts[j] >= t0 + j * period
    ensures starts[j] >= Deadline(t0, period, ends[..i]) + (j - i) * period
  {
    DeadlineClosedForm(t0, period, ends[..j]);
    DeadlinesAreSpaced(t0, period, ends, i, j);
  }

  lemma {:induction false} DeadlinesAreSpaced(t0: int, period: int, ends: seq<int>, i: nat, j: nat)
    requires i <= j <= |ends|
    ensures Deadline(t0, period, ends[..j]) >= Deadline(t0, period, ends[..i]) + (j - i) * period
  {
    if i < j {
      DeadlinesAreSpaced(t0, period, ends, i, j - 1);
      assert ends[..j][..j - 1] == ends[..j - 1];
      OneMore(j - 1 - i, period);
    }
  }

  /** The schedule is exactly t0 + k periods if and only if no execution ends past its slot. */
  lemma {:induction false} ExactWithoutOverrun(t0: int, period: int, ends: seq<int>)
    ensures (forall k :: 0 <= k <= |ends| ==> Deadline(t0, period, ends[..k]) == t0 + k * period)
       <==> (forall k :: 0 <= k < |ends| ==> ends[k] <= t0 + (k + 1) * period)
  {
    if ends != [] {
      var n, init := |ends| - 1, ends[..|ends| - 1];
      ExactWithoutOverrun(t0, period, init);
      assert forall k :: 0 <= k <= n ==> init[..k] == ends[..k];
      assert forall k :: 0 <= k < n ==> init[k] == ends[k];
      assert ends[..n + 1] == ends && ends[..n + 1][..n] == init && init[..n] == init;
      OneMore(n, period);
    } else {
      assert ends[..0] == ends;
    }
  }

  // ------------------------------------------------------------- rendering

  /** Render deadline after one tick: unchanged, or one interval on, or one interval from now when that has gone by. */
  function NextRender(nextRender: int, interval: int, now: int): int {
    if now < nextRender then nextRender
    else if nextRender + interval <= now then now + interval
    else nextRender + interval
  }

  function RenderDeadline(t0: int, interval: int, nows: seq<int>): int {
    if nows == [] then t0
    else NextRender(RenderDeadline(t0, interval, nows[..|nows| - 1]), interval, nows[|nows| - 1])
  }

  /** Clock readings at which the loop renders. */
  function Renders(t0: int, interval: int, nows: seq<int>): seq<int> {
    if nows == [] then []
    else
      var n := |nows| - 1;
      Renders(t0, interval, nows[..n]) + if nows[n] >= RenderDeadline(t0, interval, nows[..n]) then [nows[n]] else []
  }

  /** The control center's loop: tick deadline and render deadline side by side. */
  method MainLoop(t0: int, cadence: int, interval: int, nows: seq<int>) returns (renders: seq<int>, nextTick: int, nextRender: int)
    ensures renders == Renders(t0, interval, nows)
    ensures nextRender == RenderDeadline(t0, interval, nows)
    ensures nextTick == Deadline(t0, cadence, nows)
  {
    renders, nextTick, nextRender := [], t0, t0;
    var i := 0;
    while i < |nows|
      invariant 0 <= i <= |nows|
      invariant renders == Renders(t0, interval, nows[..i]) && nextRender == RenderDeadline(t0, interval, nows[..i])
      invariant nextTick == Deadline(t0, cadence, nows[..i])
    {
      nextTick := nextTick + cadence;
      var now := nows[i];
      assert nows[..i + 1][..i] == nows[..i];
      if now >= nextRender {
        renders := renders + [now];
        nextRender := nextRender + interval;
        if nextRender <= now {
          nextRender := now + interval;
        }
      }
      if nextTick <= now {
        nextTick := now;
      }
      i := i + 1;
    }
    assert nows[..i] == nows;
  }

  /**
    For any clock the k-th render happens no earlier than t0 + k intervals,
    and the deadline lies after every reading seen since a render.
   */
  lemma {:induction false} RendersAreSpaced(t0: int, interval: int, nows: seq<int>)
    requires interval > 0
    ensures var r := Renders(t0, interval, nows);
            && (forall k :: 0 <= k < |r| ==> r[k] >= t0 + k * interval)
            && RenderDeadline(t0, interval, nows) >= t0 + |r| * interval
            && (r != [] ==> RenderDeadline(t0, interval, nows) > r[|r| - 1])
            && (r != [] ==> RenderDeadline(t0, interval, nows) <= r[|r| - 1] + interval)
  {
    if nows != [] {
      var init := nows[..|nows| - 1];
      var before := Renders(t0, interval, init);
      RendersAreSpaced(t0, interval, init);
      assert Renders(t0, interval, nows)[..|before|] == before;
      OneMore(|Renders(t0, interval, init)|, interval);
    }
  }

  /** Every render came within its own interval. */
  ghost predicate InTime(t0: int, interval: int, renders: seq<int>) {
    forall k :: 0 <= k < |renders| ==> renders[k] < t0 + (k + 1) * interval
  }

  lemma InTimeStep(t0: int, interval: int, before: seq<int>, now: int)
    ensures InTime(t0, interval, before + [now]) <==> InTime(t0, interval, before) && now < t0 + |before| * interval + interval
  {
    var after := before + [now];
    OneMore(|before|, interval);
    assert forall k :: 0 <= k < |before| ==> after[k] == before[k];
    assert after[|before|] == now;
  }

  /** Renders do not drift: the deadline is t0 plus one interval per render if and only if every render came in time. */
  lemma {:induction false} RendersDoNotDrift(t0: int, interval: int, nows: seq<int>)
    requires interval > 0
    ensures var r := Renders(t0, interval, nows);
            RenderDeadline(t0, interval, nows) == t0 + |r| * interval <==> InTime(t0, interval, r)
  {
    if nows != [] {
      var init, now := nows[..|nows| - 1], nows[|nows| - 1];
      var before := Renders(t0, interval, init);
      RendersDoNotDrift(t0, interval, init);
      RendersAreSpaced(t0, interval, init);
      OneMore(|before|, interval);
      if now >= RenderDeadline(t0, interval, init) {
        InTimeStep(t0, interval, before, now);
      } else {
        assert before + [] == before;
      }
    }
  }

  /**
    And none is left out: each pass renders at its own reading or not at all,
    and from t0 on the last render is always less than an interval old.
   */
  lemma {:induction false} NoRenderLeftOut(t0: int, interval: int, nows: seq<int>)
    requires interval > 0 && nows != []
    ensures var r, before, now := Renders(t0, interval, nows), Renders(t0, interval, nows[..|nows| - 1]), nows[|nows| - 1];
            && (r == before || r == before + [now])
            && (r == [] <==> forall k :: 0 <= k < |nows| ==> nows[k] < t0)
            && (r != [] ==> now - r[|r| - 1] < interval)
  {
    FirstRender(t0, interval, nows);
    RendersAreSpaced(t0, interval, nows);
    NotDueYet(t0, interval, nows);
  }

  /** A pass never leaves a render due. */
  lemma NotDueYet(t0: int, interval: int, nows: seq<int>)
    requires interval > 0 && nows != []
    ensures RenderDeadline(t0, interval, nows) > nows[|nows| - 1]
  {}

  lemma {:induction false} FirstRender(t0: int, interval: int, nows: seq<int>)
    ensures Renders(t0, interval, nows) == [] ==> RenderDeadline(t0, interval, nows) == t0
    ensures Renders(t0, interval, nows) == [] <==> forall k :: 0 <= k < |nows| ==> nows[k] < t0
  {
    if nows != [] {
      var init := nows[..|nows| - 1];
      FirstRender(t0, interval, init);
      assert forall k :: 0 <= k < |init| ==> nows[k] == init[k];
    }
  }
}
