/** The in-memory sliding-window limiter, and the specification it refines: one that remembers
    every hit, denied ones included. */
module RateLimit {
  const AUTH_LIMIT := 5
  const API_LIMIT := 300
  const MINUTE := 60_000_000_000

  /** A client address; only equality matters. */
  type Address = int

  // ---------- specification ----------

  /** The hits strictly after `cutoff`, in order. */
  function After(hits: seq<int>, cutoff: int): (r: seq<int>)
    ensures |r| <= |hits|
    ensures forall i :: 0 <= i < |r| ==> r[i] > cutoff
  {
    if hits == [] then []
    else if hits[|hits| - 1] > cutoff then After(hits[..|hits| - 1], cutoff) + [hits[|hits| - 1]]
    else After(hits[..|hits| - 1], cutoff)
  }

  /** What one window holds after a hit at `now`. */
  function Hit(counts: seq<int>, now: int, window: int): seq<int> {
    After(counts, now - window) + [now]
  }

  /** A limiter's state: the remembered hits of each address. */
  type Windows = map<Address, seq<int>>

  function CountsOf(m: Windows, ip: Address): seq<int> {
    if ip in m then m[ip] else []
  }

  function AllowStep(m: Windows, ip: Address, now: int, window: int): Windows {
    m[ip := Hit(CountsOf(m, ip), now, window)]
  }

  predicate Stale(counts: seq<int>, now: int, window: int) {
    counts == [] || now - counts[|counts| - 1] > window
  }

  function ResetStep(m: Windows, now: int, window: int): Windows {
    map ip | ip in m && !Stale(m[ip], now, window) :: m[ip]
  }

  datatype Op = Hitting(ip: Address, at: int) | Resetting(at: int)

  /** What the limiter as coded remembers after a sequence of operations. */
  function Memory(ops: seq<Op>, window: int): Windows {
    if ops == [] then map[]
    else
      var m := Memory(ops[..|ops| - 1], window);
      match ops[|ops| - 1]
      case Hitting(ip, t) => AllowStep(m, ip, t, window)
      case Resetting(t) => ResetStep(m, t, window)
  }

  /** Its verdicts on the hits, each judged by what is remembered of the address. */
  function Coded(ops: seq<Op>, limit: int, window: int): seq<bool> {
    if ops == [] then []
    else
      var before := Coded(ops[..|ops| - 1], limit, window);
      match ops[|ops| - 1]
      case Hitting(ip, _) => before + [|CountsOf(Memory(ops, window), ip)| <= limit]
      case Resetting(_) => before
  }

  /** The full history of hits of one address. */
  function History(ops: seq<Op>, ip: Address): seq<int> {
    if ops == [] then []
    else
      var h := History(ops[..|ops| - 1], ip);
      match ops[|ops| - 1]
      case Hitting(q, t) => if q == ip then h + [t] else h
      case Resetting(_) => h
  }

  /** The specification: a hit is allowed iff it is among the last `limit` hits of its window. */
  function Verdicts(ops: seq<Op>, limit: int, window: int): seq<bool> {
    if ops == [] then []
    else
      var before := Verdicts(ops[..|ops| - 1], limit, window);
      match ops[|ops| - 1]
      case Hitting(ip, t) => before + [|After(History(ops, ip), t - window)| <= limit]
      case Resetting(_) => before
  }

  ghost predicate ClockRuns(ops: seq<Op>) {
    forall i, j :: 0 <= i < j < |ops| ==> ops[i].at <= ops[j].at
  }

  // ---------- refinement ----------

  lemma {:induction false} AfterAfter(hits: seq<int>, early: int, late: int)
    requires early <= late
    ensures After(After(hits, early), late) == After(hits, late)
  {
    if hits != [] {
      var k := |hits| - 1;
      AfterAfter(hits[..k], early, late);
      if hits[k] > early {
        assert (After(hits[..k], early) + [hits[k]])[..|After(hits[..k], early)|] == After(hits[..k], early);
      }
    }
  }

  lemma AfterAppend(hits: seq<int>, t: int, cutoff: int)
    ensures After(hits + [t], cutoff) == After(hits, cutoff) + (if t > cutoff then [t] else [])
  {}

  lemma {:induction false} AfterNone(hits: seq<int>, cutoff: int)
    requires forall i :: 0 <= i < |hits| ==> hits[i] <= cutoff
    ensures After(hits, cutoff) == []
  {
    if hits != [] {
      AfterNone(hits[..|hits| - 1], cutoff);
    }
  }

  /** Remembered hits are in order and not in the future. */
  ghost predicate Current(counts: seq<int>, now: int) {
    && (forall i, j :: 0 <= i < j < |counts| ==> counts[i] <= counts[j])
    && forall i :: 0 <= i < |counts| ==> counts[i] <= now
  }

  /** From `cutoff` on, two records of hits are interchangeable. */
  ghost predicate SameAfter(counts: seq<int>, history: seq<int>, from: int) {
    forall cutoff :: cutoff >= from ==> After(counts, cutoff) == After(history, cutoff)
  }

  lemma {:induction false} AfterCurrent(s: seq<int>, cutoff: int, now: int)
    requires Current(s, now)
    ensures Current(After(s, cutoff), now)
    ensures s != [] ==> Current(After(s, cutoff), s[|s| - 1])
  {
    if s != [] {
      AfterCurrent(s[..|s| - 1], cutoff, s[|s| - 1]);
    }
  }

  lemma HitCurrent(counts: seq<int>, now: int, window: int)
    requires Current(counts, now)
    ensures Current(Hit(counts, now, window), now)
  {
    AfterCurrent(counts, now - window, now);
  }

  lemma HitSameAt(counts: seq<int>, history: seq<int>, now: int, window: int, cutoff: int)
    requires After(counts, cutoff) == After(history, cutoff) && cutoff >= now - window
    ensures After(Hit(counts, now, window), cutoff) == After(history + [now], cutoff)
  {
    AfterAfter(counts, now - window, cutoff);
    AfterAppend(After(counts, now - window), now, cutoff);
    AfterAppend(history, now, cutoff);
  }

  lemma HitSame(counts: seq<int>, history: seq<int>, now: int, window: int)
    requires SameAfter(counts, history, now - window) && window > 0
    ensures SameAfter(Hit(counts, now, window), history + [now], now - window)
    ensures |Hit(counts, now, window)| == |After(history + [now], now - window)|
  {
    AfterAppend(history, now, now - window);
    forall cutoff | cutoff >= now - window
      ensures After(Hit(counts, now, window), cutoff) == After(history + [now], cutoff)
    {
      HitSameAt(counts, history, now, window, cutoff);
    }
  }

  /** Evicting a stale address loses nothing that a later hit could count. */
  lemma EvictSame(counts: seq<int>, history: seq<int>, now: int, window: int)
    requires Current(counts, now) && SameAfter(counts, history, now - window) && Stale(counts, now, window)
    ensures SameAfter([], history, now - window)
  {
    forall cutoff | cutoff >= now - window ensures After([], cutoff) == After(history, cutoff) {
      AfterNone(counts, cutoff);
    }
  }

  /** What the limiter remembers of an address is as good as the full history, from `now` on. */
  ghost predicate AsGood(counts: seq<int>, history: seq<int>, now: int, window: int) {
    Current(counts, now) && SameAfter(counts, history, now - window)
  }

  lemma StillAsGood(counts: seq<int>, history: seq<int>, t: int, now: int, window: int)
    requires AsGood(counts, history, t, window) && t <= now
    ensures AsGood(counts, history, now, window)
  {}

  lemma HitAsGood(counts: seq<int>, history: seq<int>, t: int, window: int)
    requires AsGood(counts, history, t, window) && window > 0
    ensures AsGood(Hit(counts, t, window), history + [t], t, window)
    ensures |Hit(counts, t, window)| == |After(history + [t], t - window)|
  {
    HitCurrent(counts, t, window);
    HitSame(counts, history, t, window);
  }

  lemma ResetAsGood(counts: seq<int>, history: seq<int>, t: int, window: int)
    requires AsGood(counts, history, t, window)
    ensures AsGood(if Stale(counts, t, window) then [] else counts, history, t, window)
  {
    if Stale(counts, t, window) {
      EvictSame(counts, history, t, window);
    }
  }

  lemma {:induction false} RemembersEnough(ops: seq<Op>, ip: Address, window: int, now: int)
    requires ClockRuns(ops) && window > 0 && forall i :: 0 <= i < |ops| ==> ops[i].at <= now
    ensures AsGood(CountsOf(Memory(ops, window), ip), History(ops, ip), now, window)
  {
    if ops != [] {
      var before, op := ops[..|ops| - 1], ops[|ops| - 1];
      RemembersEnough(before, ip, window, op.at);
      var c, h := CountsOf(Memory(before, window), ip), History(before, ip);
      match op {
        case Resetting(t) => ResetAsGood(c, h, t, window);
        case Hitting(q, t) => if q == ip { HitAsGood(c, h, t, window); }
      }
      StillAsGood(CountsOf(Memory(ops, window), ip), History(ops, ip), op.at, now, window);
    }
  }

  lemma CodedCount(ops: seq<Op>, window: int)
    requires ClockRuns(ops) && window > 0 && ops != [] && ops[|ops| - 1].Hitting?
    ensures var op := ops[|ops| - 1];
      |CountsOf(Memory(ops, window), op.ip)| == |After(History(ops, op.ip), op.at - window)|
  {
    var before, op := ops[..|ops| - 1], ops[|ops| - 1];
    RemembersEnough(before, op.ip, window, op.at);
    var c, h := CountsOf(Memory(before, window), op.ip), History(before, op.ip);
    HitAsGood(c, h, op.at, window);
    assert CountsOf(Memory(ops, window), op.ip) == Hit(c, op.at, window);
  }

  /** In-place compaction and eviction at any point give the verdicts of the full history. */
  lemma {:induction false} Refines(ops: seq<Op>, limit: int, window: int)
    requires ClockRuns(ops) && window > 0
    ensures Coded(ops, limit, window) == Verdicts(ops, limit, window)
  {
    if ops != [] {
      Refines(ops[..|ops| - 1], limit, window);
      if ops[|ops| - 1].Hitting? {
        CodedCount(ops, window);
      }
    }
  }

  // ---------- what the specification promises ----------

  /** The moments at which an address was allowed. */
  function Allowed(ops: seq<Op>, ip: Address, limit: int, window: int): seq<int> {
    if ops == [] then []
    else
      var a := Allowed(ops[..|ops| - 1], ip, limit, window);
      match ops[|ops| - 1]
      case Hitting(q, t) => if q == ip && |After(History(ops, ip), t - window)| <= limit then a + [t] else a
      case Resetting(_) => a
  }

  /** How many of `s` lie in the half-open interval from `from` (exclusive) to `to` (inclusive). */
  function Within(s: seq<int>, from: int, to: int): nat {
    if s == [] then 0
    else Within(s[..|s| - 1], from, to) + (if from < s[|s| - 1] <= to then 1 else 0)
  }

  lemma WithinAppend(s: seq<int>, t: int, from: int, to: int)
    ensures Within(s + [t], from, to) == Within(s, from, to) + (if from < t <= to then 1 else 0)
  {}

  lemma {:induction false} WithinAfter(s: seq<int>, from: int, to: int)
    requires forall i :: 0 <= i < |s| ==> s[i] <= to
    ensures Within(s, from, to) == |After(s, from)|
  {
    if s != [] {
      WithinAfter(s[..|s| - 1], from, to);
    }
  }

  lemma {:induction false} WithinMonotone(s: seq<int>, from: int, to: int, from': int, to': int)
    requires from' <= from && to <= to'
    ensures Within(s, from, to) <= Within(s, from', to')
  {
    if s != [] {
      WithinMonotone(s[..|s| - 1], from, to, from', to');
    }
  }

  /** Allowed hits are among the hits, so no interval holds more of them. */
  lemma {:induction false} AllowedWithin(ops: seq<Op>, ip: Address, limit: int, window: int, from: int, to: int)
    ensures Within(Allowed(ops, ip, limit, window), from, to) <= Within(History(ops, ip), from, to)
  {
    if ops != [] {
      var before := ops[..|ops| - 1];
      AllowedWithin(before, ip, limit, window, from, to);
      if ops[|ops| - 1].Hitting? {
        WithinAppend(Allowed(before, ip, limit, window), ops[|ops| - 1].at, from, to);
        WithinAppend(History(before, ip), ops[|ops| - 1].at, from, to);
      }
    }
  }

  lemma {:induction false} HistoryPast(ops: seq<Op>, ip: Address, now: int)
    requires forall i :: 0 <= i < |ops| ==> ops[i].at <= now
    ensures forall i :: 0 <= i < |History(ops, ip)| ==> History(ops, ip)[i] <= now
  {
    if ops != [] {
      HistoryPast(ops[..|ops| - 1], ip, now);
    }
  }

  /** In any interval one window long, open at its start and closed at its end, an address is
      allowed at most `limit` hits. */
  lemma {:induction false} AtMostLimit(ops: seq<Op>, ip: Address, limit: nat, window: int, from: int)
    requires ClockRuns(ops) && window > 0
    ensures Within(Allowed(ops, ip, limit, window), from, from + window) <= limit
  {
    if ops != [] {
      var before, op := ops[..|ops| - 1], ops[|ops| - 1];
      AtMostLimit(before, ip, limit, window, from);
      if op.Hitting? && op.ip == ip && |After(History(ops, ip), op.at - window)| <= limit {
        WithinAppend(Allowed(before, ip, limit, window), op.at, from, from + window);
        if from < op.at <= from + window {
          LastAllowed(ops, ip, limit, window, from);
        }
      }
    }
  }

  /** If at most `limit` hits lie in the window that ends at `t`, the last of them, then no interval
      one window long that contains `t` holds more than `limit` of any part of them. */
  lemma LastWithin(part: seq<int>, hits: seq<int>, from: int, t: int, window: int, limit: int)
    requires from < t <= from + window && |After(hits, t - window)| <= limit
    requires forall i :: 0 <= i < |part| ==> part[i] <= t
    requires forall i :: 0 <= i < |hits| ==> hits[i] <= t
    requires Within(part, t - window, t) <= Within(hits, t - window, t)
    ensures Within(part, from, from + window) <= limit
  {
    WithinAfter(hits, t - window, t);
    WithinUpTo(part, from, t, from + window);
    WithinMonotone(part, from, t, t - window, t);
  }

  /** The verdict on the last hit bounds what was allowed in every window that contains it. */
  lemma LastAllowed(ops: seq<Op>, ip: Address, limit: nat, window: int, from: int)
    requires ops != [] && ClockRuns(ops) && window > 0
    requires from < ops[|ops| - 1].at <= from + window
    requires |After(History(ops, ip), ops[|ops| - 1].at - window)| <= limit
    ensures Within(Allowed(ops, ip, limit, window), from, from + window) <= limit
  {
    var t := ops[|ops| - 1].at;
    HistoryPast(ops, ip, t);
    AllowedPast(ops, ip, limit, window, t);
    AllowedWithin(ops, ip, limit, window, t - window, t);
    LastWithin(Allowed(ops, ip, limit, window), History(ops, ip), from, t, window, limit);
  }

  lemma {:induction false} AllowedPast(ops: seq<Op>, ip: Address, limit: int, window: int, now: int)
    requires forall i :: 0 <= i < |ops| ==> ops[i].at <= now
    ensures forall i :: 0 <= i < |Allowed(ops, ip, limit, window)| ==> Allowed(ops, ip, limit, window)[i] <= now
  {
    if ops != [] {
      AllowedPast(ops[..|ops| - 1], ip, limit, window, now);
    }
  }

  lemma {:induction false} WithinUpTo(s: seq<int>, from: int, now: int, to: int)
    requires now <= to && forall i :: 0 <= i < |s| ==> s[i] <= now
    ensures Within(s, from, to) == Within(s, from, now)
  {
    if s != [] {
      WithinUpTo(s[..|s| - 1], from, now, to);
    }
  }

  lemma VerdictLast(ops: seq<Op>, ip: Address, now: int, limit: int, window: int)
    ensures Verdicts(ops + [Hitting(ip, now)], limit, window)
      == Verdicts(ops, limit, window) + [|After(History(ops, ip) + [now], now - window)| <= limit]
  {
    var all := ops + [Hitting(ip, now)];
    assert all[..|all| - 1] == ops;
  }

  lemma HitsWithin(hits: seq<int>, now: int, window: int)
    requires window > 0 && forall i :: 0 <= i < |hits| ==> hits[i] <= now
    ensures |After(hits + [now], now - window)| == Within(hits, now - window, now) + 1
  {
    AfterAppend(hits, now, now - window);
    WithinAfter(hits, now - window, now);
  }

  /** A hit is allowed exactly when fewer than `limit` hits, allowed or denied, lie in the window before it. */
  lemma AllowedIff(ops: seq<Op>, ip: Address, now: int, limit: int, window: int)
    requires window > 0 && forall i :: 0 <= i < |History(ops, ip)| ==> History(ops, ip)[i] <= now
    ensures Verdicts(ops + [Hitting(ip, now)], limit, window)
      == Verdicts(ops, limit, window) + [Within(History(ops, ip), now - window, now) < limit]
  {
    VerdictLast(ops, ip, now, limit, window);
    HitsWithin(History(ops, ip), now, window);
  }

  /** After a window without any hit, allowed or denied, the next hit is allowed. */
  lemma QuietThenAllowed(ops: seq<Op>, ip: Address, now: int, limit: int, window: int)
    requires limit >= 1 && window > 0
    requires forall i :: 0 <= i < |History(ops, ip)| ==> History(ops, ip)[i] <= now - window
    ensures var v := Verdicts(ops + [Hitting(ip, now)], limit, window);
      v == Verdicts(ops, limit, window) + [true]
  {
    var all := ops + [Hitting(ip, now)];
    assert all[..|all| - 1] == ops;
    AfterAppend(History(ops, ip), now, now - window);
    AfterNone(History(ops, ip), now - window);
  }

  /** The moments at which the limiter as coded admitted an address. */
  function Admitted(ops: seq<Op>, ip: Address, limit: int, window: int): seq<int> {
    if ops == [] then []
    else
      var a := Admitted(ops[..|ops| - 1], ip, limit, window);
      match ops[|ops| - 1]
      case Hitting(q, t) =>
        if q == ip && |CountsOf(Memory(ops, window), ip)| <= limit then a + [t] else a
      case Resetting(_) => a
  }

  lemma {:induction false} AdmittedIsAllowed(ops: seq<Op>, ip: Address, limit: int, window: int)
    requires ClockRuns(ops) && window > 0
    ensures Admitted(ops, ip, limit, window) == Allowed(ops, ip, limit, window)
  {
    if ops != [] {
      AdmittedIsAllowed(ops[..|ops| - 1], ip, limit, window);
      if ops[|ops| - 1].Hitting? {
        CodedCount(ops, window);
      }
    }
  }

  /** The limiter as coded admits at most `limit` hits of an address in any interval one window long. */
  lemma LimiterBound(ops: seq<Op>, ip: Address, limit: nat, window: int, from: int)
    requires ClockRuns(ops) && window > 0
    ensures Within(Admitted(ops, ip, limit, window), from, from + window) <= limit
  {
    AdmittedIsAllowed(ops, ip, limit, window);
    AtMostLimit(ops, ip, limit, window, from);
  }

  // ---------- requests ----------

  /** A request as the middleware sees it: to a sensitive endpoint or not. */
  datatype Request = Request(ip: Address, sensitive: bool, at: int)

  /** What requests do to the strict window, or to the general one: stale addresses go first, and every
      request counts in the general window. */
  function OpsOf(rs: seq<Request>, strict: bool): seq<Op> {
    if rs == [] then []
    else
      var r := rs[|rs| - 1];
      var ops := OpsOf(rs[..|rs| - 1], strict) + [Resetting(r.at)];
      if strict && !r.sensitive then ops else ops + [Hitting(r.ip, r.at)]
  }

  /** Whether the last request passes: judged by the strict window alone if it is sensitive, else by the
      general one. */
  predicate Passes(rs: seq<Request>)
    requires rs != []
  {
    var r := rs[|rs| - 1];
    |CountsOf(Memory(OpsOf(rs, r.sensitive), MINUTE), r.ip)| <= if r.sensitive then AUTH_LIMIT else API_LIMIT
  }

  /** When requests of an address to sensitive endpoints, or to others, passed. */
  function Passed(rs: seq<Request>, ip: Address, sensitive: bool): seq<int> {
    if rs == [] then []
    else
      var r, before := rs[|rs| - 1], Passed(rs[..|rs| - 1], ip, sensitive);
      if r.ip == ip && r.sensitive == sensitive && Passes(rs) then before + [r.at] else before
  }

  ghost predicate InOrder(rs: seq<Request>) {
    forall i, j :: 0 <= i < j < |rs| ==> rs[i].at <= rs[j].at
  }

  lemma {:induction false} OpsInOrder(rs: seq<Request>, strict: bool)
    requires InOrder(rs)
    ensures ClockRuns(OpsOf(rs, strict))
    ensures forall i :: 0 <= i < |OpsOf(rs, strict)| ==> rs != [] && OpsOf(rs, strict)[i].at <= rs[|rs| - 1].at
  {
    if rs != [] {
      OpsInOrder(rs[..|rs| - 1], strict);
    }
  }

  lemma AdmittedReset(ops: seq<Op>, at: int, ip: Address, limit: int, window: int)
    ensures Admitted(ops + [Resetting(at)], ip, limit, window) == Admitted(ops, ip, limit, window)
  {
    assert (ops + [Resetting(at)])[..|ops|] == ops;
  }

  lemma AdmittedHit(ops: seq<Op>, q: Address, at: int, ip: Address, limit: int, window: int)
    ensures var all := ops + [Hitting(q, at)];
      Admitted(all, ip, limit, window) == Admitted(ops, ip, limit, window)
        + (if q == ip && |CountsOf(Memory(all, window), ip)| <= limit then [at] else [])
  {
    var all := ops + [Hitting(q, at)];
    assert all[..|ops|] == ops;
    assert Admitted(ops, ip, limit, window) + [] == Admitted(ops, ip, limit, window);
  }

  function LimitOf(sensitive: bool): nat {
    if sensitive then AUTH_LIMIT else API_LIMIT
  }

  /** Whether the last request passes and is one of `ip` of that kind, in the interval. */
  predicate Counts(rs: seq<Request>, ip: Address, sensitive: bool, from: int, to: int)
    requires rs != []
  {
    var r := rs[|rs| - 1];
    r.ip == ip && r.sensitive == sensitive && Passes(rs) && from < r.at <= to
  }

  lemma PassedLast(rs: seq<Request>, ip: Address, sensitive: bool, from: int, to: int)
    requires rs != []
    ensures Within(Passed(rs, ip, sensitive), from, to) == Within(Passed(rs[..|rs| - 1], ip, sensitive), from, to)
      + (if Counts(rs, ip, sensitive, from, to) then 1 else 0)
  {
    WithinAppend(Passed(rs[..|rs| - 1], ip, sensitive), rs[|rs| - 1].at, from, to);
  }

  lemma AdmittedLast(rs: seq<Request>, ip: Address, sensitive: bool, from: int, to: int)
    requires rs != []
    ensures var limit := LimitOf(sensitive);
      Within(Admitted(OpsOf(rs, sensitive), ip, limit, MINUTE), from, to)
      >= Within(Admitted(OpsOf(rs[..|rs| - 1], sensitive), ip, limit, MINUTE), from, to)
         + (if Counts(rs, ip, sensitive, from, to) then 1 else 0)
  {
    var r, limit := rs[|rs| - 1], LimitOf(sensitive);
    var ops := OpsOf(rs[..|rs| - 1], sensitive);
    var a := Admitted(ops, ip, limit, MINUTE);
    AdmittedReset(ops, r.at, ip, limit, MINUTE);
    if r.sensitive || !sensitive {
      assert OpsOf(rs, sensitive) == ops + [Resetting(r.at)] + [Hitting(r.ip, r.at)];
      AdmittedHit(ops + [Resetting(r.at)], r.ip, r.at, ip, limit, MINUTE);
      WithinAppend(a, r.at, from, to);
      assert a + [] == a;
    }
  }

  /** Passed requests are admitted hits of their window. */
  lemma {:induction false} PassedWithin(rs: seq<Request>, ip: Address, sensitive: bool, from: int, to: int)
    ensures Within(Passed(rs, ip, sensitive), from, to)
      <= Within(Admitted(OpsOf(rs, sensitive), ip, LimitOf(sensitive), MINUTE), from, to)
  {
    if rs != [] {
      PassedWithin(rs[..|rs| - 1], ip, sensitive, from, to);
      PassedLast(rs, ip, sensitive, from, to);
      AdmittedLast(rs, ip, sensitive, from, to);
    }
  }

  /** In any minute at most 5 requests of an address to sensitive endpoints pass, and at most 300 to others. */
  lemma MiddlewareBound(rs: seq<Request>, ip: Address, from: int)
    requires InOrder(rs)
    ensures Within(Passed(rs, ip, true), from, from + 60_000_000_000) <= 5
    ensures Within(Passed(rs, ip, false), from, from + 60_000_000_000) <= 300
  {
    OpsInOrder(rs, true);
    OpsInOrder(rs, false);
    PassedWithin(rs, ip, true, from, from + MINUTE);
    PassedWithin(rs, ip, false, from, from + MINUTE);
    LimiterBound(OpsOf(rs, true), ip, AUTH_LIMIT, MINUTE, from);
    LimiterBound(OpsOf(rs, false), ip, API_LIMIT, MINUTE, from);
  }

  /** The requests of an address after `cutoff`: all, or those to sensitive endpoints. */
  ghost function Recent(rs: seq<Request>, ip: Address, sensitive: bool, cutoff: int): set<int> {
    set i | 0 <= i < |rs| && rs[i].ip == ip && (sensitive ==> rs[i].sensitive) && rs[i].at > cutoff
  }

  lemma RecentLast(rs: seq<Request>, ip: Address, sensitive: bool, cutoff: int)
    requires rs != []
    ensures var r := rs[|rs| - 1];
      |Recent(rs, ip, sensitive, cutoff)| == |Recent(rs[..|rs| - 1], ip, sensitive, cutoff)|
        + (if r.ip == ip && (sensitive ==> r.sensitive) && r.at > cutoff then 1 else 0)
  {
    var k, r := |rs| - 1, rs[|rs| - 1];
    var last := if r.ip == ip && (sensitive ==> r.sensitive) && r.at > cutoff then {k} else {};
    assert Recent(rs, ip, sensitive, cutoff) == Recent(rs[..k], ip, sensitive, cutoff) + last;
  }

  lemma HistoryLast(ops: seq<Op>, op: Op, ip: Address)
    ensures History(ops + [op], ip)
      == if op.Hitting? && op.ip == ip then History(ops, ip) + [op.at] else History(ops, ip)
  {
    assert (ops + [op])[..|ops|] == ops;
  }

  lemma {:induction false} HistoryCount(rs: seq<Request>, ip: Address, sensitive: bool, cutoff: int)
    ensures |After(History(OpsOf(rs, sensitive), ip), cutoff)| == |Recent(rs, ip, sensitive, cutoff)|
  {
    if rs != [] {
      var r, before := rs[|rs| - 1], OpsOf(rs[..|rs| - 1], sensitive);
      HistoryCount(rs[..|rs| - 1], ip, sensitive, cutoff);
      RecentLast(rs, ip, sensitive, cutoff);
      HistoryLast(before, Resetting(r.at), ip);
      HistoryLast(before + [Resetting(r.at)], Hitting(r.ip, r.at), ip);
      AfterAppend(History(before, ip), r.at, cutoff);
    }
  }

  /** A request to a sensitive endpoint passes exactly when at most 5 such requests of its address, itself
      included, passed or not, lie in the minute that ends with it; any other one, when at most 300
      requests of its address of either kind do. */
  lemma PassesIff(rs: seq<Request>)
    requires rs != [] && InOrder(rs)
    ensures var r := rs[|rs| - 1];
      Passes(rs) <==> |Recent(rs, r.ip, r.sensitive, r.at - 60_000_000_000)| <= if r.sensitive then 5 else 300
  {
    var r := rs[|rs| - 1];
    OpsInOrder(rs, r.sensitive);
    CodedCount(OpsOf(rs, r.sensitive), MINUTE);
    HistoryCount(rs, r.ip, r.sensitive, r.at - MINUTE);
  }

  // ---------- the limiter itself ----------

  /** Keeps the hits after `cutoff`, moving them to the front of the same buffer. */
  method Compact(a: array<int>, len: nat, cutoff: int) returns (kept: nat)
    requires len <= a.Length
    modifies a
    ensures kept <= len && a[..kept] == After(old(a[..len]), cutoff)
  {
    ghost var before := a[..len];
    kept := 0;
    var i := 0;
    while i < len
      invariant 0 <= kept <= i <= len
      invariant a[..kept] == After(before[..i], cutoff)
      invariant forall k :: i <= k < len ==> a[k] == before[k]
    {
      assert before[..i + 1][..i] == before[..i];
      if a[i] > cutoff {
        a[kept] := a[i];
        kept := kept + 1;
      }
      i := i + 1;
    }
    assert before[..i] == before;
  }

  /** One address and its hits, the first `len` of a buffer that later calls reuse. */
  class RateWindow {
    var counts: array<int>
    var len: nat
    ghost var hits: seq<int>
    const ip: Address
    const window: int

    ghost predicate Valid()
      reads this, counts
    {
      len <= counts.Length && hits == counts[..len]
    }

    constructor (ip: Address, window: int)
      ensures Valid() && fresh(counts) && hits == [] && this.ip == ip && this.window == window
    {
      this.ip, this.window, len, hits := ip, window, 0, [];
      counts := new int[0];
    }

    /** Drops the hits outside the window, in place, and appends this one. */
    method Record(now: int, limit: int) returns (allowed: bool)
      requires Valid()
      modifies this, counts
      ensures Valid() && (counts == old(counts) || fresh(counts))
      ensures hits == Hit(old(hits), now, window)
      ensures allowed <==> |hits| <= limit
    {
      var kept := Compact(counts, len, now - window);
      ghost var before := counts[..kept];
      if kept == counts.Length {
        counts := Larger(counts);
      }
      counts[kept] := now;
      len := kept + 1;
      hits := before + [now];
      assert counts[..kept] == before;
      allowed := len <= limit;
    }
  }

  /** A larger buffer that starts with the same contents, as append allocates one. */
  method Larger(a: array<int>) returns (larger: array<int>)
    ensures fresh(larger) && larger.Length > a.Length && larger[..a.Length] == a[..]
  {
    larger := new int[2 * a.Length + 1];
    for i := 0 to a.Length
      invariant larger[..i] == a[..i]
    {
      larger[i] := a[i];
    }
  }

  /** Eviction with the addresses in `todo` still to come. */
  ghost predicate Evicted(was: Windows, now: Windows, todo: set<Address>, at: int, window: int) {
    && (forall ip :: ip in now ==> ip in was && now[ip] == was[ip])
    && (forall ip :: ip in was ==> (ip in now <==> ip in todo || !Stale(was[ip], at, window)))
  }

  lemma EvictedStep(was: Windows, now: Windows, todo: set<Address>, at: int, window: int, ip: Address)
    requires Evicted(was, now, todo, at, window) && ip in todo && ip in now
    ensures Evicted(was, if Stale(now[ip], at, window) then now - {ip} else now, todo - {ip}, at, window)
  {}

  lemma EvictedAll(was: Windows, now: Windows, at: int, window: int)
    requires Evicted(was, now, {}, at, window)
    ensures now == ResetStep(was, at, window)
  {
    var r := ResetStep(was, at, window);
    assert forall ip :: ip in r ==> ip in now;
    assert forall ip :: ip in now ==> ip in r && now[ip] == r[ip];
    assert now.Keys == r.Keys;
  }

  /** A map from addresses to their windows; `view` is what they hold. */
  class WindowMap {
    var m: map<Address, RateWindow>
    ghost var view: Windows
    ghost var Repr: set<object>
    const window: int

    /** The window of `ip` is in order. */
    ghost predicate Holds(ip: Address)
      reads this, Repr
      requires ip in m && ip in view
    {
      && m[ip] in Repr && m[ip].counts in Repr
      && m[ip].Valid() && m[ip].hits == view[ip] && m[ip].ip == ip && m[ip].window == window
    }

    /** Every window is in order, and no two addresses share a buffer. */
    ghost predicate Valid()
      reads this, Repr
    {
      && this in Repr && m.Keys == view.Keys
      && (forall ip :: ip in m ==> Holds(ip))
      && (forall p, q :: p in m && q in m && p != q ==> m[p].counts != m[q].counts)
    }

    constructor (window: int)
      ensures Valid() && fresh(Repr) && view == map[] && this.window == window
    {
      this.window, m, view, Repr := window, map[], map[], {this};
    }

    /** The window of an address, created when missing. */
    method WindowOf(ip: Address) returns (w: RateWindow)
      requires Valid()
      modifies this
      ensures Valid() && fresh(Repr - old(Repr))
      ensures ip in m && m[ip] == w && view == old(view)[ip := CountsOf(old(view), ip)]
    {
      if ip !in m {
        w := new RateWindow(ip, window);
        m := m[ip := w];
        Repr := Repr + {w, w.counts};
      }
      w := m[ip];
      view := view[ip := CountsOf(view, ip)];
    }

    method RecordIn(ip: Address, limit: int, now: int) returns (allowed: bool)
      requires Valid() && ip in m
      modifies this, m[ip], m[ip].counts
      ensures Valid() && fresh(Repr - old(Repr)) && old(Repr) <= Repr
      ensures view == old(view)[ip := Hit(old(view[ip]), now, window)]
      ensures allowed <==> |view[ip]| <= limit
    {
      var w := m[ip];
      assert Holds(ip);
      assert forall q :: q in m && q != ip ==> Holds(q) && m[q] != w && m[q].counts != w.counts;
      allowed := w.Record(now, limit);
      Repr := Repr + {w.counts};
      view := view[ip := w.hits];
      assert Holds(ip);
      assert forall q :: q in m && q != ip ==> Holds(q);
    }

    method Allow(ip: Address, limit: int, now: int) returns (allowed: bool)
      requires Valid()
      modifies Repr
      ensures Valid() && fresh(Repr - old(Repr))
      ensures view == AllowStep(old(view), ip, now, window)
      ensures allowed <==> |view[ip]| <= limit
    {
      var w := WindowOf(ip);
      assert Holds(ip);
      allowed := RecordIn(ip, limit, now);
    }

    /** Deletes the window of an address if it is stale. */
    method EvictIfStale(ip: Address, now: int)
      requires Valid() && ip in m
      modifies this
      ensures Valid() && Repr == old(Repr)
      ensures view == if Stale(old(view[ip]), now, window) then old(view) - {ip} else old(view)
    {
      assert Holds(ip);
      var w := m[ip];
      if w.len == 0 || now - w.counts[w.len - 1] > w.window {
        m := m - {ip};
        view := view - {ip};
        assert forall q :: q in m ==> Holds(q);
      }
    }

    /** Deletes the stale addresses: those without a hit, or whose last one is longer ago than the window. */
    method Reset(now: int)
      requires Valid()
      modifies this
      ensures Valid() && Repr == old(Repr)
      ensures view == ResetStep(old(view), now, window)
      ensures forall ip :: ip in view <==>
        ip in old(view) && old(view)[ip] != [] && now - old(view)[ip][|old(view)[ip]| - 1] <= window
      ensures forall ip :: ip in view ==> view[ip] == old(view)[ip]
    {
      var todo := m.Keys;
      ghost var was := view;
      while exists ip :: ip in todo
        invariant todo <= view.Keys && Valid() && Repr == old(Repr)
        invariant Evicted(was, view, todo, now, window)
        decreases todo
      {
        var ip :| ip in todo;
        EvictedStep(was, view, todo, now, window, ip);
        todo := todo - {ip};
        EvictIfStale(ip, now);
      }
      assert todo == {};
      EvictedAll(was, view, now, window);
    }
  }

  class IpLimiter {
    const auth: WindowMap
    const api: WindowMap

    ghost predicate Valid()
      reads this, auth, api, auth.Repr, api.Repr
    {
      auth.Valid() && api.Valid() && auth.Repr !! api.Repr && auth.window == MINUTE && api.window == MINUTE
    }

    constructor ()
      ensures Valid() && auth.view == map[] && api.view == map[]
      ensures fresh(auth.Repr) && fresh(api.Repr)
    {
      auth := new WindowMap(MINUTE);
      api := new WindowMap(MINUTE);
    }

    /** Drops the stale addresses of both windows. */
    method Reset(now: int)
      requires Valid()
      modifies auth, api
      ensures Valid() && auth.Repr == old(auth.Repr) && api.Repr == old(api.Repr)
      ensures auth.view == ResetStep(old(auth.view), now, MINUTE)
      ensures api.view == ResetStep(old(api.view), now, MINUTE)
    {
      auth.Reset(now);
      api.Reset(now);
    }

    /** Counts a request in the general window, and a sensitive one in the strict window as well,
        whose verdict then replaces the general one. */
    method Count(ip: Address, isAuth: bool, now: int) returns (allowed: bool)
      requires Valid()
      modifies auth.Repr, api.Repr
      ensures Valid() && fresh(auth.Repr - old(auth.Repr)) && fresh(api.Repr - old(api.Repr))
      ensures api.view == AllowStep(old(api.view), ip, now, MINUTE)
      ensures auth.view == if isAuth then AllowStep(old(auth.view), ip, now, MINUTE) else old(auth.view)
      ensures allowed <==> (if isAuth then |auth.view[ip]| <= AUTH_LIMIT else |api.view[ip]| <= API_LIMIT)
    {
      allowed := api.Allow(ip, API_LIMIT, now);
      if isAuth {
        allowed := auth.Allow(ip, AUTH_LIMIT, now);
      }
    }

    /** The middleware. */
    method RateLimit(ip: Address, isAuth: bool, now: int) returns (allowed: bool)
      requires Valid()
      modifies auth.Repr, api.Repr
      ensures Valid() && fresh(auth.Repr - old(auth.Repr)) && fresh(api.Repr - old(api.Repr))
      ensures api.view == AllowStep(ResetStep(old(api.view), now, 60_000_000_000), ip, now, 60_000_000_000)
      ensures isAuth ==> auth.view == AllowStep(ResetStep(old(auth.view), now, 60_000_000_000), ip, now, 60_000_000_000)
      ensures !isAuth ==> auth.view == ResetStep(old(auth.view), now, 60_000_000_000)
      ensures allowed <==> (if isAuth then |auth.view[ip]| <= 5 else |api.view[ip]| <= 300)
    {
      Reset(now);
      allowed := Count(ip, isAuth, now);
    }
  }
}
