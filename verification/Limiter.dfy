/** The fixed-window rate limiter, and what it admits over any span of one window's length. */
module Limiter {
  import opened Common

  // When a key's window began and how many calls it has counted since.
  datatype Window = Window(start: real, count: nat)

  function Opened(prior: Option<Window>, now: real, window: real): Window {
    var w := prior.GetOr(Window(now, 0));
    if now - w.start >= window then Window(now, 0) else w
  }

  function Counted(prior: Option<Window>, now: real, window: real): Window {
    var w := Opened(prior, now, window);
    w.(count := w.count + 1)
  }

  // The wait told to a caller over budget.
  function Verdict(w: Window, now: real, limit: int, window: real): Option<real> {
    if w.count > limit then Some(window - (now - w.start)) else None
  }

  class RateLimiter {
    var hits: map<string, Window>

    constructor ()
      ensures hits == map[]
    {
      hits := map[];
    }

    function Prior(key: string): Option<Window>
      reads this
    {
      if key in hits then Some(hits[key]) else None
    }

    method Check(key: string, limit: int, window: real, now: real) returns (wait: Option<real>)
      modifies this
      ensures limit <= 0 ==> wait.None? && hits == old(hits)
      ensures limit > 0 ==>
        && hits == old(hits)[key := Counted(old(Prior(key)), now, window)]
        && wait == Verdict(Counted(old(Prior(key)), now, window), now, limit, window)
    {
      if limit <= 0 {
        return None;
      }
      var start, count := now, 0;
      if key in hits {
        start, count := hits[key].start, hits[key].count;
      }
      if now - start >= window {
        start, count := now, 0;
      }
      count := count + 1;
      hits := hits[key := Window(start, count)];
      wait := if count > limit then Some(window - (now - start)) else None;
    }
  }

  // ---- the calls on one key ----

  // Call times, on a clock that does not run backwards.
  predicate Ordered(times: seq<real>) {
    forall i, j | 0 <= i <= j < |times| :: times[i] <= times[j]
  }

  // The key's window after the first `n` calls.
  function After(times: seq<real>, n: nat, window: real): (w: Option<Window>)
    requires n <= |times|
    ensures n > 0 ==> w.Some?
  {
    if n == 0 then None else Some(Counted(After(times, n - 1, window), times[n - 1], window))
  }

  predicate Admitted(times: seq<real>, i: nat, limit: nat, window: real)
    requires i < |times|
  {
    Verdict(After(times, i + 1, window).value, times[i], limit, window).None?
  }

  // How many of the calls `lo` to `hi` were admitted.
  function Admissions(times: seq<real>, lo: nat, hi: nat, limit: nat, window: real): nat
    requires lo <= hi <= |times|
  {
    if lo == hi then 0
    else Admissions(times, lo, hi - 1, limit, window) + if Admitted(times, hi - 1, limit, window) then 1 else 0
  }

  function StartAt(times: seq<real>, i: nat, window: real): real
    requires i < |times|
  {
    After(times, i + 1, window).value.start
  }

  lemma {:induction false} StartFacts(times: seq<real>, i: nat, window: real)
    requires Ordered(times) && i < |times| && window > 0.0
    ensures StartAt(times, i, window) <= times[i] < StartAt(times, i, window) + window
    ensures After(times, i + 1, window).value.count >= 1
  {
    if i == 0 {
      assert After(times, 0, window) == None;
    } else {
      StartFacts(times, i - 1, window);
      assert times[i - 1] <= times[i];
    }
  }

  // The calls `lo` to `hi` all counted in one window.
  predicate OneWindow(times: seq<real>, lo: nat, hi: nat, window: real)
    requires lo <= hi <= |times|
  {
    forall i | lo <= i < hi :: StartAt(times, i, window) == StartAt(times, lo, window)
  }

  /** Calls that fall in one window are admitted at most `limit` times. */
  lemma {:induction false} WindowBound(times: seq<real>, lo: nat, hi: nat, limit: nat, window: real)
    requires Ordered(times) && lo <= hi <= |times| && window > 0.0 && OneWindow(times, lo, hi, window)
    ensures Admissions(times, lo, hi, limit, window) <= limit
    ensures lo < hi ==> Admissions(times, lo, hi, limit, window) <= After(times, hi, window).value.count
  {
    if lo < hi {
      assert OneWindow(times, lo, hi - 1, window);
      WindowBound(times, lo, hi - 1, limit, window);
      StartFacts(times, hi - 1, window);
      if lo == hi - 1 {
        assert Admissions(times, lo, lo, limit, window) == 0;
      } else {
        assert StartAt(times, hi - 1, window) == StartAt(times, lo, window) == StartAt(times, hi - 2, window);
        CountsUp(times, hi - 1, window);
      }
    }
  }

  // Within a window the count goes up by one.
  lemma CountsUp(times: seq<real>, i: nat, window: real)
    requires Ordered(times) && 0 < i < |times| && window > 0.0
    requires StartAt(times, i, window) == StartAt(times, i - 1, window)
    ensures After(times, i + 1, window).value.count == After(times, i, window).value.count + 1
  {
    StartFacts(times, i - 1, window);
    assert times[i - 1] <= times[i];
  }

  // The first call of `lo + 1` to `hi` that opened a window, or `hi`.
  function FirstReset(times: seq<real>, lo: nat, hi: nat, window: real): (m: nat)
    requires lo < hi <= |times|
    ensures lo < m <= hi
    ensures m < hi ==> StartAt(times, m, window) != StartAt(times, m - 1, window)
    ensures forall i | lo < i < m :: StartAt(times, i, window) == StartAt(times, i - 1, window)
    decreases hi - lo
  {
    if lo + 1 == hi then hi
    else if StartAt(times, lo + 1, window) != StartAt(times, lo, window) then lo + 1
    else FirstReset(times, lo + 1, hi, window)
  }

  lemma {:induction false} Constant(times: seq<real>, lo: nat, hi: nat, window: real, i: nat)
    requires lo <= i < hi <= |times|
    requires forall j | lo < j < hi :: StartAt(times, j, window) == StartAt(times, j - 1, window)
    ensures StartAt(times, i, window) == StartAt(times, lo, window)
    decreases i
  {
    if lo < i {
      Constant(times, lo, hi, window, i - 1);
    }
  }

  lemma {:induction false} AdmissionsSplit(times: seq<real>, lo: nat, m: nat, hi: nat, limit: nat, window: real)
    requires lo <= m <= hi <= |times|
    ensures Admissions(times, lo, hi, limit, window)
      == Admissions(times, lo, m, limit, window) + Admissions(times, m, hi, limit, window)
  {
    if m < hi {
      AdmissionsSplit(times, lo, m, hi - 1, limit, window);
    }
  }

  // A window opened at call `m` still holds at later calls less than its length away.
  lemma {:induction false} StillOpen(times: seq<real>, m: nat, i: nat, window: real)
    requires Ordered(times) && m <= i < |times| && window > 0.0
    requires StartAt(times, m, window) == times[m] && times[i] - times[m] < window
    ensures StartAt(times, i, window) == times[m]
    decreases i
  {
    if m < i {
      assert times[i - 1] <= times[i];
      StillOpen(times, m, i - 1, window);
    }
  }

  /** Over any span no longer than the window, at most twice the limit is admitted. */
  lemma SlidingBound(times: seq<real>, lo: nat, hi: nat, limit: nat, window: real)
    requires Ordered(times) && lo < hi <= |times| && window > 0.0
    requires times[hi - 1] - times[lo] <= window
    ensures Admissions(times, lo, hi, limit, window) <= 2 * limit
  {
    var m := FirstReset(times, lo, hi, window);
    forall i | lo <= i < m ensures StartAt(times, i, window) == StartAt(times, lo, window) {
      Constant(times, lo, m, window, i);
    }
    WindowBound(times, lo, m, limit, window);
    AdmissionsSplit(times, lo, m, hi, limit, window);
    if m < hi {
      assert StartAt(times, m, window) == times[m];
      ResetLater(times, lo, m, window);
      forall i | m <= i < hi ensures StartAt(times, i, window) == StartAt(times, m, window) {
        assert times[i] <= times[hi - 1];
        StillOpen(times, m, i, window);
      }
      WindowBound(times, m, hi, limit, window);
    }
  }

  // A call that opens a window comes strictly later than one counted in an earlier window.
  lemma ResetLater(times: seq<real>, lo: nat, m: nat, window: real)
    requires Ordered(times) && lo < m < |times| && window > 0.0
    requires StartAt(times, m, window) != StartAt(times, m - 1, window)
    ensures times[lo] < times[m]
  {
    StartFacts(times, m - 1, window);
    assert times[lo] <= times[m - 1];
  }

  /** A rejected caller waits more than nothing and at most a window, and the next call on the key after
      that wait is admitted. */
  lemma WaitIsEnough(times: seq<real>, i: nat, limit: nat, window: real, later: real)
    requires Ordered(times) && i < |times| && limit > 0 && window > 0.0
    requires !Admitted(times, i, limit, window)
    ensures var wait := Verdict(After(times, i + 1, window).value, times[i], limit, window).value;
      && 0.0 < wait <= window
      && (later >= times[i] + wait ==>
            Verdict(Counted(After(times, i + 1, window), later, window), later, limit, window).None?)
  {
    StartFacts(times, i, window);
  }

  /** A call opens a window when it is the first or comes a window's length or more after the last one opened;
      the window it opens starts at it. */
  lemma OpensExactly(times: seq<real>, i: nat, window: real)
    requires Ordered(times) && i < |times| && window > 0.0
    ensures StartAt(times, i, window)
      == if i == 0 || times[i] - StartAt(times, i - 1, window) >= window then times[i] else StartAt(times, i - 1, window)
    ensures i == 0 || times[i] - StartAt(times, i - 1, window) >= window ==> After(times, i + 1, window).value.count == 1
  {
    if i == 0 {
      assert After(times, 0, window) == None;
    }
  }

  lemma {:induction false} CountInWindow(times: seq<real>, m: nat, i: nat, window: real)
    requires Ordered(times) && m <= i < |times| && window > 0.0
    requires m == 0 || times[m] - StartAt(times, m - 1, window) >= window
    requires times[i] - times[m] < window
    ensures StartAt(times, i, window) == times[m] && After(times, i + 1, window).value.count == i - m + 1
    decreases i
  {
    OpensExactly(times, m, window);
    if m < i {
      assert times[i - 1] <= times[i];
      CountInWindow(times, m, i - 1, window);
    }
  }

  /** Of the calls less than a window's length after the one that opened it, exactly the first `limit` are
      admitted. */
  lemma AdmittedExactly(times: seq<real>, m: nat, i: nat, limit: nat, window: real)
    requires Ordered(times) && m <= i < |times| && window > 0.0
    requires m == 0 || times[m] - StartAt(times, m - 1, window) >= window
    requires times[i] - times[m] < window
    ensures Admitted(times, i, limit, window) <==> i - m < limit
    ensures !Admitted(times, i, limit, window) ==>
      Verdict(After(times, i + 1, window).value, times[i], limit, window) == Some(times[m] + window - times[i])
  {
    CountInWindow(times, m, i, window);
  }
}
