/** The debounce state machine of the watch loop: one timer slot that every change
    notification re-arms, and that starts an organize pass when its deadline is reached.
    Time is an explicit integer clock (one unit per second). */
module Debounce {
  import opened Wrappers

  /** The debounce delay: five seconds. */
  const DELAY: int := 5

  /** What the watcher delivers, stamped with the time it arrives: a change in the dump
      directory (of any kind) or an error from the notification source. */
  datatype Notification = Changed(at: int) | Errored(at: int)

  /** A pending timer with this slot fires at time `now`. */
  predicate Due(pending: Option<int>, now: int) {
    pending.Some? && pending.value <= now
  }

  /** The timer slot and the deadlines of the organize passes started so far. */
  datatype Trace = Trace(pending: Option<int>, passes: seq<int>)

  /** The clock advances to the notification's time (a due timer fires and starts a pass),
      then the notification is handled: a change re-arms the timer, an error is only logged.
      A step starts at most one pass, exactly when the timer was due, and leaves no timer
      overdue; an error leaves a timer that is not yet due where it was. */
  function Step(t: Trace, n: Notification): (u: Trace)
    ensures |t.passes| <= |u.passes| <= |t.passes| + 1 && u.passes[..|t.passes|] == t.passes
    ensures |u.passes| == |t.passes| + 1 <==> Due(t.pending, n.at)
    ensures n.Changed? ==> u.pending == Some(n.at + DELAY)
    ensures n.Errored? ==> u.pending == if Due(t.pending, n.at) then None else t.pending
    ensures u.pending.Some? ==> n.at < u.pending.value
  {
    var fired := Due(t.pending, n.at);
    var passes := if fired then t.passes + [t.pending.value] else t.passes;
    var idle := if fired then None else t.pending;
    Trace(if n.Changed? then Some(n.at + DELAY) else idle, passes)
  }

  /** The trace after the notifications `ns`, in arrival order, starting from `t`. Passes are
      only ever appended, at most one per notification, and a timer left pending is due after
      the last notification. */
  function Replay(t: Trace, ns: seq<Notification>): (r: Trace)
    ensures |t.passes| <= |r.passes| <= |t.passes| + |ns| && r.passes[..|t.passes|] == t.passes
    ensures ns != [] && r.pending.Some? ==> ns[|ns| - 1].at < r.pending.value
    decreases |ns|
  {
    if ns == [] then t else Step(Replay(t, ns[..|ns| - 1]), ns[|ns| - 1])
  }

  /** Every pass of `t`, including the one a pending timer starts when the clock runs on with
      no further notification. */
  function Drained(t: Trace): seq<int> {
    t.passes + if t.pending.Some? then [t.pending.value] else []
  }

  /** The single global timer slot. */
  class Debouncer {
    var pending: Option<int>

    constructor ()
      ensures pending == None
    {
      pending := None;
    }

    /** A change notification at time `now`: stop the pending timer, if any, and arm a new
        one due `DELAY` later. */
    method OnEvent(now: int)
      modifies this
      ensures pending == Some(now + DELAY)
    {
      // `timer.Stop()`: the old timer is discarded before the new one is armed
      if pending.Some? {
        pending := None;
      }
      pending := Some(now + DELAY);
    }

    /** The clock reaches `now`: a timer whose deadline has come fires, once, and the slot
        becomes idle. */
    method Tick(now: int) returns (fired: bool)
      modifies this
      ensures fired == Due(old(pending), now)
      ensures pending == if fired then None else old(pending)
    {
      fired := pending.Some? && pending.value <= now;
      if fired {
        pending := None;
      }
    }

    /** The `timer.Stop()` of shutdown: stop the pending timer so that it never fires. It
        carries no time; a shutdown signal arriving at a given time is `Shutdown`. */
    method Stop()
      modifies this
      ensures pending == None
    {
      if pending.Some? {
        pending := None;
      }
    }

    /** A shutdown signal arriving at time `now`: a timer whose deadline has already come
        fired on its own before the signal (its pass started), then the slot is stopped. */
    method Shutdown(now: int) returns (fired: bool)
      modifies this
      ensures fired == Due(old(pending), now)
      ensures pending == None
    {
      fired := Tick(now);
      Stop();
    }

    /** The event loop: handle the notifications in arrival order, letting the clock advance
        to each one first; returns the deadlines of the passes started. */
    method Watch(ns: seq<Notification>) returns (passes: seq<int>)
      modifies this
      ensures Trace(pending, passes) == Replay(Trace(old(pending), []), ns)
    {
      passes := [];
      var i := 0;
      while i < |ns|
        invariant 0 <= i <= |ns|
        invariant Trace(pending, passes) == Replay(Trace(old(pending), []), ns[..i])
      {
        assert ns[..i + 1][..i] == ns[..i];
        var deadline := pending;
        var fired := Tick(ns[i].at);
        if fired {
          passes := passes + [deadline.value];
        }
        if ns[i].Changed? {
          OnEvent(ns[i].at);
        }
        i := i + 1;
      }
      assert ns[..|ns|] == ns;
    }
  }

  /** Every notification is a change. */
  predicate AllChanges(ns: seq<Notification>) {
    forall i :: 0 <= i < |ns| ==> ns[i].Changed?
  }

  /** The number of consecutive notifications that arrive `DELAY` or more apart. */
  function QuietGaps(ns: seq<Notification>): (n: nat)
    ensures |ns| > 0 ==> n < |ns|
  {
    if |ns| <= 1 then 0
    else QuietGaps(ns[..|ns| - 1]) + if ns[|ns| - 1].at - ns[|ns| - 2].at >= DELAY then 1 else 0
  }

  /** From an idle slot, a run of change notifications starts one pass per quiet gap between
      them and leaves a timer due `DELAY` after the last one: so, once the clock runs on,
      exactly one more pass than there are quiet gaps. */
  lemma {:induction false} PassCount(ns: seq<Notification>)
    requires ns != [] && AllChanges(ns)
    ensures var t := Replay(Trace(None, []), ns);
            t.pending == Some(ns[|ns| - 1].at + DELAY) && |t.passes| == QuietGaps(ns)
    ensures |Drained(Replay(Trace(None, []), ns))| == QuietGaps(ns) + 1
  {
    if |ns| > 1 {
      var n := |ns| - 1;
      assert ns[..n][n - 1] == ns[n - 1];
      PassCount(ns[..n]);
    }
  }

  /** A burst of change notifications, each within `DELAY` of the previous one, starts exactly
      one pass, due `DELAY` after the last notification. */
  lemma {:induction false} BurstCollapses(ns: seq<Notification>)
    requires ns != [] && AllChanges(ns)
    requires forall i :: 0 < i < |ns| ==> ns[i].at - ns[i - 1].at < DELAY
    ensures Drained(Replay(Trace(None, []), ns)) == [ns[|ns| - 1].at + DELAY]
  {
    PassCount(ns);
    QuietGapsNone(ns);
  }

  lemma {:induction false} QuietGapsNone(ns: seq<Notification>)
    requires forall i :: 0 < i < |ns| ==> ns[i].at - ns[i - 1].at < DELAY
    ensures QuietGaps(ns) == 0
  {
    if |ns| > 1 {
      var n := |ns| - 1;
      forall i | 0 < i < n ensures ns[..n][i].at - ns[..n][i - 1].at < DELAY {
        assert ns[..n][i] == ns[i] && ns[..n][i - 1] == ns[i - 1];
      }
      QuietGapsNone(ns[..n]);
    }
  }

  /** A change arriving once the pending deadline has come adds one pass, due `DELAY` after it. */
  lemma ChangeAfterDeadline(t: Trace, n: Notification)
    requires n.Changed? && (t.pending.Some? ==> t.pending.value <= n.at)
    ensures Drained(Step(t, n)) == Drained(t) + [n.at + DELAY]
  {
  }

  /** Change notifications spaced `DELAY` or more apart each start their own pass, due
      `DELAY` after that notification. */
  lemma {:induction false} SpacedEventsEachFire(ns: seq<Notification>)
    requires ns != [] && AllChanges(ns)
    requires forall i :: 0 < i < |ns| ==> ns[i].at - ns[i - 1].at >= DELAY
    ensures var d := Drained(Replay(Trace(None, []), ns));
            |d| == |ns| && forall i :: 0 <= i < |ns| ==> d[i] == ns[i].at + DELAY
  {
    if |ns| > 1 {
      var n := |ns| - 1;
      var prefix := ns[..n];
      forall i | 0 < i < n ensures prefix[i].at - prefix[i - 1].at >= DELAY {
        assert prefix[i] == ns[i] && prefix[i - 1] == ns[i - 1];
      }
      SpacedEventsEachFire(prefix);
      var d := Drained(Replay(Trace(None, []), ns));
      var dp := Drained(Replay(Trace(None, []), prefix));
      assert d == dp + [ns[n].at + DELAY] by {
        var t := Replay(Trace(None, []), prefix);
        assert t.pending == Some(prefix[n - 1].at + DELAY) by {
          PassCount(prefix);
        }
        assert prefix[n - 1] == ns[n - 1];
        ChangeAfterDeadline(t, ns[n]);
        assert Replay(Trace(None, []), ns) == Step(t, ns[n]);
      }
      forall i | 0 <= i < |ns| ensures d[i] == ns[i].at + DELAY {
        if i < n {
          assert d[i] == dp[i] && prefix[i] == ns[i];
        }
      }
    }
  }

  /** With the slot idle, as after shutdown, notifications that are not changes never start
      a pass: only a change can arm the timer. */
  lemma {:induction false} IdleStaysIdle(ns: seq<Notification>, passes: seq<int>)
    requires forall i :: 0 <= i < |ns| ==> ns[i].Errored?
    ensures Replay(Trace(None, passes), ns) == Trace(None, passes)
  {
    if ns != [] {
      IdleStaysIdle(ns[..|ns| - 1], passes);
    }
  }

  /** The notifications arrive in clock order. */
  predicate Sorted(ns: seq<Notification>) {
    forall i, j :: 0 <= i < j < |ns| ==> ns[i].at <= ns[j].at
  }

  /** `d` is the deadline armed by the change notification `i`, and no change notification
      after `i` arrived before `d`. */
  predicate QuietAfter(ns: seq<Notification>, i: int, d: int) {
    0 <= i < |ns| && ns[i].Changed? && d == ns[i].at + DELAY
    && forall j :: i < j < |ns| && ns[j].Changed? ==> d <= ns[j].at
  }

  /** Some change notification armed the deadline `d` and was followed by a quiet period. */
  ghost predicate ArmedAndQuiet(ns: seq<Notification>, d: int) {
    exists i :: QuietAfter(ns, i, d)
  }

  /** A quiet period survives one more notification, unless it is a change that arrives before
      the deadline. */
  lemma QuietAfterExtends(ns: seq<Notification>, i: int, d: int)
    requires ns != [] && QuietAfter(ns[..|ns| - 1], i, d)
    requires ns[|ns| - 1].Changed? ==> d <= ns[|ns| - 1].at
    ensures QuietAfter(ns, i, d)
  {
    var m := |ns| - 1;
    assert ns[..m][i] == ns[i];
    forall j | i < j < |ns| && ns[j].Changed? ensures d <= ns[j].at {
      if j < m {
        assert ns[..m][j] == ns[j];
      }
    }
  }

  /** On a clock-ordered stream, every pass that starts is due `DELAY` after some change
      notification and no change notification came in before that deadline; a pending timer
      belongs to the last change notification; no pass is due after the latest notification. */
  lemma {:induction false} PassesFollowQuiet(ns: seq<Notification>)
    requires Sorted(ns)
    ensures var t := Replay(Trace(None, []), ns);
            forall k :: 0 <= k < |t.passes| ==> ArmedAndQuiet(ns, t.passes[k])
    ensures var t := Replay(Trace(None, []), ns);
            t.pending.Some? ==>
              exists i :: QuietAfter(ns, i, t.pending.value)
                          && forall j :: i < j < |ns| ==> ns[j].Errored?
    ensures var t := Replay(Trace(None, []), ns);
            ns != [] ==> forall k :: 0 <= k < |t.passes| ==> t.passes[k] <= ns[|ns| - 1].at
  {
    if ns != [] {
      var m := |ns| - 1;
      var prefix := ns[..m];
      var n := ns[m];
      assert Sorted(prefix) by {
        forall i, j | 0 <= i < j < |prefix| ensures prefix[i].at <= prefix[j].at {
          assert prefix[i] == ns[i] && prefix[j] == ns[j];
        }
      }
      PassesFollowQuiet(prefix);
      var t := Replay(Trace(None, []), prefix);
      var u := Replay(Trace(None, []), ns);
      assert u == Step(t, n);
      var fired := Due(t.pending, n.at);
      // passes already started keep their witness: the new notification comes no earlier
      forall k | 0 <= k < |t.passes| ensures ArmedAndQuiet(ns, t.passes[k]) && t.passes[k] <= n.at {
        var i :| QuietAfter(prefix, i, t.passes[k]);
        assert prefix[m - 1] == ns[m - 1];
        QuietAfterExtends(ns, i, t.passes[k]);
      }
      if fired {
        var d := t.pending.value;
        var w :| QuietAfter(prefix, w, d) && forall j :: w < j < |prefix| ==> prefix[j].Errored?;
        QuietAfterExtends(ns, w, d);
        assert u.passes == t.passes + [d];
        forall k | 0 <= k < |u.passes| ensures ArmedAndQuiet(ns, u.passes[k]) {
          if k < |t.passes| {
            assert u.passes[k] == t.passes[k];
          } else {
            assert u.passes[k] == d && QuietAfter(ns, w, d);
          }
        }
      } else {
        assert u.passes == t.passes;
        forall k | 0 <= k < |u.passes| ensures ArmedAndQuiet(ns, u.passes[k]) {
          assert u.passes[k] == t.passes[k];
        }
      }
      if u.pending.Some? {
        if n.Changed? {
          assert QuietAfter(ns, m, u.pending.value);
        } else {
          var i :| QuietAfter(prefix, i, t.pending.value) && forall j :: i < j < |prefix| ==> prefix[j].Errored?;
          forall j | i < j < |ns| ensures ns[j].Errored? {
            if j < m {
              assert prefix[j] == ns[j];
            }
          }
          QuietAfterExtends(ns, i, u.pending.value);
        }
      }
    }
  }

  /** The passes that have started by the time a shutdown signal arrives at `now`: those of
      `t` and, when its deadline has come, the pending timer's. */
  function PassesAtShutdown(t: Trace, now: int): (ps: seq<int>)
    ensures t.passes <= ps <= Drained(t)
    ensures |ps| == |Drained(t)| <==> t.pending.None? || t.pending.value <= now
  {
    t.passes + if Due(t.pending, now) then [t.pending.value] else []
  }

  /** A shutdown at time `now`, no earlier than the last notification of a clock-ordered
      stream, keeps exactly the passes due by `now`: every kept pass is due by then, and the
      only pass lost is a pending timer not yet due. */
  lemma ShutdownKeepsDuePasses(ns: seq<Notification>, now: int)
    requires Sorted(ns)
    requires ns != [] ==> ns[|ns| - 1].at <= now
    ensures var t := Replay(Trace(None, []), ns);
            var kept := PassesAtShutdown(t, now);
            kept <= Drained(t)
            && (forall k :: 0 <= k < |kept| ==> kept[k] <= now)
            && (forall k :: |kept| <= k < |Drained(t)| ==> now < Drained(t)[k])
  {
    PassesFollowQuiet(ns);
  }

  /** The change notifications of `ns`, in order. */
  function Changes(ns: seq<Notification>): (cs: seq<Notification>)
    ensures |cs| <= |ns| && AllChanges(cs)
  {
    if ns == [] then []
    else Changes(ns[..|ns| - 1]) + if ns[|ns| - 1].Changed? then [ns[|ns| - 1]] else []
  }

  /** Replaying one more notification is one more step. */
  lemma ReplaySnoc(t: Trace, ns: seq<Notification>, n: Notification)
    ensures Replay(t, ns + [n]) == Step(Replay(t, ns), n)
  {
    assert (ns + [n])[..|ns|] == ns;
  }

  /** `a` and `b` start the same passes, and where they differ `a` has already fired the
      timer that `b` still holds, overdue at `last`. */
  predicate Lags(a: Trace, b: Trace, last: int) {
    Drained(a) == Drained(b)
    && (a != b ==> a.pending.None? && b.pending.Some? && b.pending.value <= last)
  }

  /** A notification no earlier than `last` keeps `a` lagging `b` when it steps `a`, and
      steps `b` only if it is a change. */
  lemma LagsStep(a: Trace, b: Trace, last: int, n: Notification)
    requires Lags(a, b, last) && last <= n.at
    ensures Lags(Step(a, n), if n.Changed? then Step(b, n) else b, n.at)
  {
  }

  /** Replaying a clock-ordered stream with and without its error notifications yields the
      same passes, pending timer included; the two traces differ only in that an error may
      already have fired a timer that, without it, is still pending and overdue at `last`. */
  lemma {:induction false} ErrorsLag(t: Trace, ns: seq<Notification>)
    requires Sorted(ns)
    ensures var a := Replay(t, ns);
            var b := Replay(t, Changes(ns));
            Drained(a) == Drained(b)
            && (a != b ==> ns != [] && a.pending.None? && b.pending.Some?
                           && b.pending.value <= ns[|ns| - 1].at)
  {
    if ns != [] {
      var m := |ns| - 1;
      var prefix := ns[..m];
      var n := ns[m];
      assert Sorted(prefix) by {
        forall i, j | 0 <= i < j < |prefix| ensures prefix[i].at <= prefix[j].at {
          assert prefix[i] == ns[i] && prefix[j] == ns[j];
        }
      }
      var a := Replay(t, prefix);
      var b := Replay(t, Changes(prefix));
      var last := if prefix == [] then n.at else prefix[m - 1].at;
      assert Lags(a, b, last) by {
        ErrorsLag(t, prefix);
      }
      assert last <= n.at by {
        if prefix != [] {
          assert prefix[m - 1] == ns[m - 1];
        }
      }
      LagsStep(a, b, last, n);
      assert Replay(t, ns) == Step(a, n);
      if n.Changed? {
        assert Changes(ns) == Changes(prefix) + [n];
        ReplaySnoc(t, Changes(prefix), n);
      } else {
        assert Changes(ns) == Changes(prefix);
      }
    }
  }

  /** On a clock-ordered stream, error notifications never change which passes run: the
      passes are those of the change notifications alone. */
  lemma ErrorsNeverChangePasses(ns: seq<Notification>)
    requires Sorted(ns)
    ensures Drained(Replay(Trace(None, []), ns)) == Drained(Replay(Trace(None, []), Changes(ns)))
  {
    ErrorsLag(Trace(None, []), ns);
  }
}
