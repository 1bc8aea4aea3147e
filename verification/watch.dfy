/** The watch loop of the command shell (src/MeshCLI.hpp): always run the watch that has been
    due longest, and how long the others wait. */
module Watch {
  import opened FiniteSets
  import opened Wrappers

  /** Times are readings of a clock that never goes back. */
  datatype Entry = Entry(id: string, interval: int, nextRun: int)

  /** The first of the watches with the earliest due time. */
  predicate IsEarliest(ws: seq<Entry>, i: nat) {
    && i < |ws|
    && (forall k :: 0 <= k < |ws| ==> ws[i].nextRun <= ws[k].nextRun)
    && (forall k :: 0 <= k < i ==> ws[i].nextRun < ws[k].nextRun)
  }

  /** One run: the clock reads `now` when the watch is chosen, `later` when its next run is
      set. */
  datatype Turn = Turn(ran: nat, now: int, later: int)

  predicate Takes(ws: seq<Entry>, us: seq<Entry>, t: Turn) {
    && IsEarliest(ws, t.ran) && ws[t.ran].nextRun <= t.now <= t.later
    && us == ws[t.ran := ws[t.ran].(nextRun := t.later + ws[t.ran].interval)]
  }

  /** Runs in succession, with nobody editing the watches. */
  ghost predicate History(wss: seq<seq<Entry>>, turns: seq<Turn>) {
    && |wss| == |turns| + 1
    && (forall k :: 0 <= k < |turns| ==> Takes(wss[k], wss[k + 1], turns[k]))
    && (forall k :: 0 < k < |turns| ==> turns[k - 1].later <= turns[k].now)
  }

  predicate Due(ws: seq<Entry>, j: nat, t: Turn) {
    j < |ws| && ws[j].nextRun <= t.now
  }

  lemma {:induction false} ClockAdvances(wss: seq<seq<Entry>>, turns: seq<Turn>, a: nat, b: nat)
    requires History(wss, turns) && a < b < |turns|
    ensures turns[a].later <= turns[b].now
  {
    if a < b - 1 {
      ClockAdvances(wss, turns, a, b - 1);
      assert Takes(wss[b - 1], wss[b], turns[b - 1]);
    }
  }

  /** A watch that does not run keeps its due time, and none ever changes its interval. */
  lemma {:induction false} KeepsDueTime(wss: seq<seq<Entry>>, turns: seq<Turn>, j: nat, a: nat, b: nat)
    requires History(wss, turns) && a <= b <= |turns| && j < |wss[a]|
    ensures |wss[b]| == |wss[a]| && wss[b][j].interval == wss[a][j].interval
    ensures (forall k :: a <= k < b ==> turns[k].ran != j) ==> wss[b][j] == wss[a][j]
  {
    if a < b {
      KeepsDueTime(wss, turns, j, a, b - 1);
      assert Takes(wss[b - 1], wss[b], turns[b - 1]);
    }
  }

  /** After its run a watch is due no earlier than an interval after that run. */
  lemma {:induction false} DueLater(wss: seq<seq<Entry>>, turns: seq<Turn>, i: nat, a: nat, b: nat)
    requires History(wss, turns) && a < b <= |turns| && i < |wss[a]| && turns[a].ran == i && wss[a][i].interval >= 0
    ensures i < |wss[b]| && wss[b][i].nextRun >= turns[a].later + wss[a][i].interval
  {
    assert Takes(wss[a], wss[a + 1], turns[a]);
    if a + 1 < b {
      DueLater(wss, turns, i, a, b - 1);
      KeepsDueTime(wss, turns, i, a, b - 1);
      assert Takes(wss[b - 1], wss[b], turns[b - 1]);
      ClockAdvances(wss, turns, a, b - 1);
    }
  }

  /** `i` runs at turns `a` and `b`, while `j` has been due since `a`. */
  ghost predicate RunsTwice(wss: seq<seq<Entry>>, turns: seq<Turn>, i: nat, j: nat, a: nat, b: nat) {
    && History(wss, turns) && a < b < |turns| && turns[a].ran == i && turns[b].ran == i
    && Due(wss[a], j, turns[a])
  }

  /** Between two runs of another watch while `j` is due, `j` runs: always if the other
      watch's interval is positive, and with interval zero if `j` comes first in the list. */
  lemma OthersRunOnce(wss: seq<seq<Entry>>, turns: seq<Turn>, i: nat, j: nat, a: nat, b: nat)
    requires RunsTwice(wss, turns, i, j, a, b) && i != j && i < |wss[a]|
    requires wss[a][i].interval > 0 || (wss[a][i].interval == 0 && j < i)
    ensures exists k :: a < k < b && turns[k].ran == j
  {
    assert Takes(wss[a], wss[a + 1], turns[a]) && Takes(wss[b], wss[b + 1], turns[b]);
    KeepsDueTime(wss, turns, j, a, b);
    DueLater(wss, turns, i, a, b);
  }

  /** May the watches with these intervals make `j` wait for two runs of `i`? */
  ghost predicate NeverWaitsTwice(intervals: seq<int>, i: nat, j: nat)
    requires i < |intervals| && j < |intervals|
  {
    forall wss: seq<seq<Entry>>, turns: seq<Turn>, a: nat, b: nat ::
      RunsTwice(wss, turns, i, j, a, b) && HasIntervals(wss[a], intervals) ==>
      exists k :: a < k < b && turns[k].ran == j
  }

  predicate HasIntervals(ws: seq<Entry>, intervals: seq<int>) {
    |ws| == |intervals| && forall k :: 0 <= k < |ws| ==> ws[k].interval == intervals[k]
  }

  /** The exact condition.  A watch with a negative interval, or with interval zero and ahead
      in the list, can run twice while another is due. */
  lemma NeverWaitsTwiceExactly(intervals: seq<int>, i: nat, j: nat)
    requires i < |intervals| && j < |intervals| && i != j
    ensures NeverWaitsTwice(intervals, i, j) <==> intervals[i] > 0 || (intervals[i] == 0 && j < i)
  {
    if intervals[i] > 0 || (intervals[i] == 0 && j < i) {
      forall wss: seq<seq<Entry>>, turns: seq<Turn>, a: nat, b: nat |
        RunsTwice(wss, turns, i, j, a, b) && HasIntervals(wss[a], intervals)
        ensures exists k :: a < k < b && turns[k].ran == j
      {
        OthersRunOnce(wss, turns, i, j, a, b);
      }
    } else {
      var d := intervals[i];
      var first := if d < 0 then -1 else 0;
      var w0 := seq(|intervals|, k requires 0 <= k < |intervals| =>
        Entry("", intervals[k], if k == i then first else if k == j then 0 else 1));
      var w1 := w0[i := w0[i].(nextRun := d)];
      var wss := [w0, w1, w1];
      var turns := [Turn(i, 0, 0), Turn(i, 0, 0)];
      assert Takes(w0, w1, turns[0]) && Takes(w1, w1, turns[1]);
      assert RunsTwice(wss, turns, i, j, 0, 1) && HasIntervals(wss[0], intervals);
    }
  }

  function Ran(turns: seq<Turn>): (r: seq<nat>)
    ensures |r| == |turns| && forall k :: 0 <= k < |r| ==> r[k] == turns[k].ran
  {
    seq(|turns|, k requires 0 <= k < |turns| => turns[k].ran)
  }

  lemma DueStaysDue(wss: seq<seq<Entry>>, turns: seq<Turn>, j: nat, a: nat, b: nat)
    requires History(wss, turns) && a <= b < |turns| && Due(wss[a], j, turns[a])
    requires forall k :: a <= k < b ==> turns[k].ran != j
    ensures Due(wss[b], j, turns[b]) && turns[b].ran < |wss[b]| == |wss[a]|
  {
    KeepsDueTime(wss, turns, j, a, b);
    assert Takes(wss[a], wss[a + 1], turns[a]) && Takes(wss[b], wss[b + 1], turns[b]);
    if a < b { ClockAdvances(wss, turns, a, b); }
  }

  lemma OthersDiffer(wss: seq<seq<Entry>>, turns: seq<Turn>, j: nat, a: nat, x: nat, y: nat)
    requires History(wss, turns) && a <= x < y < |turns| && Due(wss[a], j, turns[a])
    requires forall k :: 0 <= k < |wss[a]| ==> wss[a][k].interval > 0
    requires forall k :: a <= k <= y ==> turns[k].ran != j
    ensures turns[x].ran != turns[y].ran
  {
    DueStaysDue(wss, turns, j, a, x);
    KeepsDueTime(wss, turns, turns[x].ran, a, x);
    if turns[x].ran == turns[y].ran {
      OthersRunOnce(wss, turns, turns[x].ran, j, x, y);
    }
  }

  /** With positive intervals and `n` watches, a watch that is due waits for fewer than `n`
      runs of others: each of them comes before it at most once. */
  lemma DueWatchWaitsForOthersOnce(wss: seq<seq<Entry>>, turns: seq<Turn>, j: nat, a: nat, runs: nat)
    requires History(wss, turns) && a + runs <= |turns| && a < |turns| && Due(wss[a], j, turns[a])
    requires forall k :: 0 <= k < |wss[a]| ==> wss[a][k].interval > 0
    requires forall k :: a <= k < a + runs ==> turns[k].ran != j
    ensures runs < |wss[a]|
  {
    var n := |wss[a]|;
    var ran := Ran(turns[a..a + runs]);
    forall x, y | 0 <= x < y < runs
      ensures ran[x] != ran[y]
    {
      OthersDiffer(wss, turns, j, a, a + x, a + y);
    }
    forall x | 0 <= x < runs
      ensures ran[x] in UpTo(n) - {j}
    {
      DueStaysDue(wss, turns, j, a, a + x);
    }
    assert |UpTo(n) - {j}| == n - 1;
    DistinctAtMost(ran, UpTo(n) - {j});
  }

  // ---------------------------------------------------------------- the loop

  /** `std::min_element` on the due times. */
  method MinElement(ws: seq<Entry>) returns (i: nat)
    requires ws != []
    ensures IsEarliest(ws, i)
  {
    i := 0;
    for k := 1 to |ws|
      invariant i < k
      invariant forall x :: 0 <= x < k ==> ws[i].nextRun <= ws[x].nextRun
      invariant forall x :: 0 <= x < i ==> ws[i].nextRun < ws[x].nextRun
    {
      if ws[k].nextRun < ws[i].nextRun { i := k; }
    }
  }

  class WatchLoop {
    var watches: seq<Entry>

    constructor (watches: seq<Entry>)
      ensures this.watches == watches
    {
      this.watches := watches;
    }

    /** One pass of the loop: the watch to run, if one is due. */
    method Pass(now: int, later: int) returns (run: Option<Entry>)
      requires now <= later
      modifies this
      ensures run.None? <==> forall k :: 0 <= k < |old(watches)| ==> old(watches)[k].nextRun > now
      ensures run.None? ==> watches == old(watches)
      ensures run.Some? ==>
        exists i: nat :: Takes(old(watches), watches, Turn(i, now, later)) && run.value == old(watches)[i]
    {
      if watches == [] { return None; }
      var i := MinElement(watches);
      if watches[i].nextRun > now { return None; }
      run := Some(watches[i]);
      watches := watches[i := watches[i].(nextRun := later + run.value.interval)];
      assert Takes(old(watches), watches, Turn(i, now, later));
    }
  }
}
