/** internal/xrayruntime/controller.go: waiting until a replacement process has been stable long enough. */
module Stability {

  /** One look at the PID file; `pid` is 0 when nothing runs. */
  datatype Sample = Sample(pid: int, at: int) | Unreadable

  datatype Outcome = Stable(index: nat) | Failed(index: nat) | TimedOut

  /** A replacement: somebody runs, and it is not the process being replaced. */
  predicate Shows(s: Sample, pid: int, oldPid: int) {
    s.Sample? && s.pid == pid && pid > 0 && pid != oldPid
  }

  /** Samples `i` to `j` all show one replacement, for at least the stable period. */
  predicate StableRun(samples: seq<Sample>, oldPid: int, period: int, i: int, j: int) {
    && 0 <= i < j < |samples| && samples[j].Sample?
    && (forall k :: i <= k <= j ==> Shows(samples[k], samples[j].pid, oldPid))
    && samples[j].at - samples[i].at >= period
  }

  ghost predicate StableAt(samples: seq<Sample>, oldPid: int, period: int, j: int) {
    exists i :: StableRun(samples, oldPid, period, i, j)
  }

  predicate Clocked(samples: seq<Sample>) {
    forall i, j :: 0 <= i < j < |samples| && samples[i].Sample? && samples[j].Sample? ==> samples[i].at <= samples[j].at
  }

  /** What ends the wait at sample `j`, if anything does. */
  ghost predicate Ends(samples: seq<Sample>, oldPid: int, period: int, j: int) {
    0 <= j < |samples| && (samples[j].Unreadable? || StableAt(samples, oldPid, period, j))
  }

  lemma Endings(samples: seq<Sample>, oldPid: int, period: int)
    ensures forall j :: StableAt(samples, oldPid, period, j) ==> Ends(samples, oldPid, period, j)
    ensures forall j :: 0 <= j < |samples| && samples[j].Unreadable? ==> Ends(samples, oldPid, period, j)
  {
  }

  /** The window that the loop keeps: it began with a change of pid, a gap, or the first sample. */
  predicate Window(samples: seq<Sample>, oldPid: int, i: nat, candidate: int, start: int) {
    && i <= |samples|
    && (candidate == 0 ==> i == 0 || !Shows(samples[i - 1], if samples[i - 1].Sample? then samples[i - 1].pid else 0, oldPid))
    && (candidate != 0 ==>
          && 0 <= start < i
          && (forall k :: start <= k < i ==> Shows(samples[k], candidate, oldPid))
          && (start > 0 ==> !Shows(samples[start - 1], candidate, oldPid)))
  }

  /** Every sample inside a stable run shows its process. */
  lemma RunShows(samples: seq<Sample>, oldPid: int, period: int, i: int, m: int)
    ensures forall k :: StableRun(samples, oldPid, period, k, i) && k <= m <= i ==> Shows(samples[m], samples[i].pid, oldPid)
  {
  }

  /** Within an unbroken window the longest run is the window itself. */
  lemma WindowDecides(samples: seq<Sample>, oldPid: int, period: int, i: nat, candidate: int, start: int)
    requires Clocked(samples) && Window(samples, oldPid, i, candidate, start) && candidate != 0
    requires i < |samples| && Shows(samples[i], candidate, oldPid)
    ensures StableAt(samples, oldPid, period, i) <==> samples[i].at - samples[start].at >= period
  {
    RunShows(samples, oldPid, period, i, start - 1);
    if samples[i].at - samples[start].at >= period {
      assert StableRun(samples, oldPid, period, start, i);
    }
  }

  /** A sample that does not continue the window closes no run. */
  lemma FreshIsNotStable(samples: seq<Sample>, oldPid: int, period: int, i: nat, candidate: int, start: int)
    requires Window(samples, oldPid, i, candidate, start) && i < |samples| && samples[i].Sample?
    requires samples[i].pid != candidate || !Shows(samples[i], samples[i].pid, oldPid)
    ensures !StableAt(samples, oldPid, period, i)
  {
    RunShows(samples, oldPid, period, i, i - 1);
  }

  /**
   * `samples` are the looks taken before the deadline. The wait ends well exactly at the first
   * sample that closes a stable run, unless the PID file became unreadable before.
   */
  method WaitForReplacement(samples: seq<Sample>, oldPid: int, period: int) returns (r: Outcome)
    requires Clocked(samples)
    ensures forall j: nat :: r == Stable(j) <==>
              StableAt(samples, oldPid, period, j) && forall k :: 0 <= k < j ==> !Ends(samples, oldPid, period, k)
    ensures forall j: nat :: r == Failed(j) <==>
              j < |samples| && samples[j].Unreadable? && forall k :: 0 <= k < j ==> !Ends(samples, oldPid, period, k)
    ensures r == TimedOut <==> forall k :: 0 <= k < |samples| ==> !Ends(samples, oldPid, period, k)
  {
    var candidate, since := 0, 0;
    ghost var start := 0;
    var i := 0;
    while i < |samples|
      invariant i <= |samples| && Window(samples, oldPid, i, candidate, start)
      invariant candidate != 0 ==> samples[start].Sample? && since == samples[start].at
      invariant forall k :: 0 <= k < i ==> !Ends(samples, oldPid, period, k)
    {
      match samples[i]
      case Unreadable =>
        Endings(samples, oldPid, period);
        return Failed(i);
      case Sample(pid, at) =>
        if pid > 0 && pid != oldPid {
          if pid != candidate {
            FreshIsNotStable(samples, oldPid, period, i, candidate, start);
            candidate, since, start := pid, at, i;
          } else {
            WindowDecides(samples, oldPid, period, i, candidate, start);
            if at - since >= period {
              Endings(samples, oldPid, period);
              return Stable(i);
            }
          }
        } else {
          FreshIsNotStable(samples, oldPid, period, i, candidate, start);
          candidate := 0;
        }
        i := i + 1;
    }
    Endings(samples, oldPid, period);
    return TimedOut;
  }
}
