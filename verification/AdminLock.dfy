/** The failure lock of administrator logins: five failed comparisons lock the account for five
    minutes. Times are seconds. */
module AdminLock {
  import opened Base

  const LOCK := 300
  const MAX_FAILURES := 5

  /** `lockedUntil` is absent while no lock was ever set or since the last success. */
  datatype Account = Account(failures: nat, lockedUntil: Option<int>)

  datatype Verdict = Locked | Disabled | Failed | Passed

  /** One login of an administrator, whose password would match or not. */
  datatype Attempt = Attempt(at: int, disabled: bool, matches: bool)

  function Judge(a: Account, x: Attempt): Verdict {
    if a.lockedUntil.Some? && a.lockedUntil.value > x.at then Locked
    else if x.disabled then Disabled
    else if x.matches then Passed else Failed
  }

  function After(a: Account, x: Attempt): Account {
    match Judge(a, x)
    case Locked => a
    case Disabled => a
    case Passed => Account(0, None)
    case Failed =>
      if a.failures + 1 >= MAX_FAILURES then Account(0, Some(x.at + LOCK)) else a.(failures := a.failures + 1)
  }

  /** The account's row, and the handler as it reads and writes it. */
  class Row {
    var loginFailCount: nat
    var lockedUntil: Option<int>

    ghost function View(): Account
      reads this
    {
      Account(loginFailCount, lockedUntil)
    }

    constructor ()
      ensures View() == Account(0, None)
    {
      loginFailCount, lockedUntil := 0, None;
    }

    method HandleLogin(x: Attempt) returns (v: Verdict)
      modifies this
      ensures v == Judge(old(View()), x) && View() == After(old(View()), x)
    {
      if lockedUntil.Some? && lockedUntil.value > x.at {
        return Locked;
      }
      if x.disabled {
        return Disabled;
      }
      if !x.matches {
        loginFailCount := loginFailCount + 1;
        if loginFailCount >= MAX_FAILURES {
          lockedUntil, loginFailCount := Some(x.at + LOCK), 0;
        }
        return Failed;
      }
      loginFailCount, lockedUntil := 0, None;
      v := Passed;
    }
  }

  // ---------- runs ----------

  function Run(a: Account, xs: seq<Attempt>): Account {
    if xs == [] then a else After(Run(a, xs[..|xs| - 1]), xs[|xs| - 1])
  }

  /** The verdict on the last attempt of a run. */
  function LastVerdict(a: Account, xs: seq<Attempt>): Verdict
    requires xs != []
  {
    Judge(Run(a, xs[..|xs| - 1]), xs[|xs| - 1])
  }

  /** The failed comparisons at or after `from`. */
  function FailuresFrom(a: Account, xs: seq<Attempt>, from: int): nat {
    if xs == [] then 0
    else FailuresFrom(a, xs[..|xs| - 1], from)
         + (if LastVerdict(a, xs) == Failed && xs[|xs| - 1].at >= from then 1 else 0)
  }

  ghost predicate InOrder(xs: seq<Attempt>) {
    forall i, j :: 0 <= i < j < |xs| ==> xs[i].at <= xs[j].at
  }

  /** No attempt of the run succeeds. */
  predicate NoSuccess(a: Account, xs: seq<Attempt>) {
    xs == [] || (NoSuccess(a, xs[..|xs| - 1]) && LastVerdict(a, xs) != Passed)
  }

  lemma {:induction false} CountBelow(a: Account, xs: seq<Attempt>)
    requires a.failures < MAX_FAILURES
    ensures Run(a, xs).failures < MAX_FAILURES
  {
    if xs != [] {
      CountBelow(a, xs[..|xs| - 1]);
    }
  }

  /** What the stored row says about the failures since `from`: it counts all of them, unless a lock
      was set since then, which lasts at least until `from + LOCK`. */
  ghost predicate Covers(a: Account, start: Account, xs: seq<Attempt>, from: int) {
    var f := FailuresFrom(start, xs, from);
    f <= a.failures || (f <= MAX_FAILURES && a.lockedUntil.Some? && a.lockedUntil.value >= from + LOCK)
  }

  lemma {:induction false} NoneYet(a: Account, xs: seq<Attempt>, from: int)
    requires forall i :: 0 <= i < |xs| ==> xs[i].at < from
    ensures FailuresFrom(a, xs, from) == 0
  {
    if xs != [] {
      NoneYet(a, xs[..|xs| - 1], from);
    }
  }

  lemma {:induction false} RowCovers(start: Account, xs: seq<Attempt>, from: int)
    requires start.failures < MAX_FAILURES && InOrder(xs) && NoSuccess(start, xs)
    requires xs != [] ==> xs[|xs| - 1].at < from + LOCK
    ensures Covers(Run(start, xs), start, xs, from)
  {
    if xs != [] {
      var before, x := xs[..|xs| - 1], xs[|xs| - 1];
      RowCovers(start, before, from);
      if x.at < from {
        NoneYet(start, before, from);
      }
      CountBelow(start, before);
    }
  }

  /** Between two successes, no interval shorter than five minutes holds more than five failed
      comparisons; and after every login the stored count is below five. */
  lemma FailuresBounded(start: Account, xs: seq<Attempt>, from: int)
    requires start.failures < 5 && InOrder(xs) && NoSuccess(start, xs)
    requires xs != [] ==> xs[|xs| - 1].at < from + 300
    ensures FailuresFrom(start, xs, from) <= 5
    ensures Run(start, xs).failures < 5
  {
    RowCovers(start, xs, from);
    CountBelow(start, xs);
  }

  /** The fifth failure locks the account for exactly 300 seconds, an earlier one not at all; and a locked
      account is refused without a comparison. */
  lemma FailureLocks(a: Account, x: Attempt, y: Attempt)
    requires Judge(a, x) == Failed && x.at <= y.at
    ensures a.failures == 4 ==> (Judge(After(a, x), y) == Locked <==> y.at < x.at + 300) && After(a, x).failures == 0
    ensures a.failures < 4 ==> Judge(After(a, x), y) != Locked && After(a, x).failures == a.failures + 1
  {}

  /** A success forgets the failures and the lock; a refused login changes nothing. */
  lemma OtherwiseUnlocked(a: Account, x: Attempt, y: Attempt)
    ensures Judge(a, x) == Passed ==> After(a, x).failures == 0 && Judge(After(a, x), y) != Locked
    ensures Judge(a, x) == Locked || Judge(a, x) == Disabled ==> After(a, x) == a
    ensures Judge(a, x) == Failed <==>
      !x.matches && !x.disabled && (a.lockedUntil.Some? ==> a.lockedUntil.value <= x.at)
    ensures Judge(a, x) == Passed <==>
      x.matches && !x.disabled && (a.lockedUntil.Some? ==> a.lockedUntil.value <= x.at)
  {}

  /** `n` wrong passwords at the same moment. */
  function Burst(n: nat, at: int): (xs: seq<Attempt>)
    ensures |xs| == n && forall i :: 0 <= i < n ==> xs[i] == Attempt(at, false, false)
  {
    seq(n, _ => Attempt(at, false, false))
  }

  /** The bound is reached, and an interval of exactly five minutes that includes both its ends can
      hold twice as many. */
  lemma {:induction false} BurstFails(start: Account, n: nat, at: int)
    requires n <= MAX_FAILURES && start.failures == 0 && (start.lockedUntil.Some? ==> start.lockedUntil.value <= at)
    ensures FailuresFrom(start, Burst(n, at), at) == n && NoSuccess(start, Burst(n, at))
    ensures Run(start, Burst(n, at)) == if n == MAX_FAILURES then Account(0, Some(at + LOCK)) else start.(failures := n)
  {
    if n > 0 {
      BurstFails(start, n - 1, at);
      assert Burst(n, at)[..n - 1] == Burst(n - 1, at);
    }
  }

  lemma {:induction false} RunConcat(a: Account, xs: seq<Attempt>, ys: seq<Attempt>, from: int)
    ensures Run(a, xs + ys) == Run(Run(a, xs), ys)
    ensures FailuresFrom(a, xs + ys, from) == FailuresFrom(a, xs, from) + FailuresFrom(Run(a, xs), ys, from)
    ensures NoSuccess(a, xs + ys) <==> NoSuccess(a, xs) && NoSuccess(Run(a, xs), ys)
  {
    if ys == [] {
      assert xs + ys == xs;
    } else {
      assert (xs + ys)[..|xs + ys| - 1] == xs + ys[..|ys| - 1];
      RunConcat(a, xs, ys[..|ys| - 1], from);
    }
  }

  lemma {:induction false} FailuresLater(a: Account, xs: seq<Attempt>, from: int, later: int)
    requires later >= from && forall i :: 0 <= i < |xs| ==> xs[i].at >= later
    ensures FailuresFrom(a, xs, from) == FailuresFrom(a, xs, later)
  {
    if xs != [] {
      FailuresLater(a, xs[..|xs| - 1], from, later);
    }
  }

  /** The interval must be shorter than the lock: over exactly five minutes, both ends included, ten
      failures are possible. */
  lemma TenInFiveMinutes(at: int)
    ensures var xs := Burst(5, at) + Burst(5, at + 300);
      InOrder(xs) && NoSuccess(Account(0, None), xs) && FailuresFrom(Account(0, None), xs, at) == 10
  {
    var start := Account(0, None);
    BurstFails(start, 5, at);
    var locked := Run(start, Burst(5, at));
    BurstFails(locked, 5, at + LOCK);
    RunConcat(start, Burst(5, at), Burst(5, at + LOCK), at);
    FailuresLater(locked, Burst(5, at + LOCK), at, at + LOCK);
  }
}
