/** Round robin with failover, as the system mailer and the SMS sender do it. Whether a server
    accepts a message is an input. */
module RoundRobin {
  import opened Base

  /** The server reached `i` steps after `start` in cyclic order. */
  function At(start: nat, i: nat, n: nat): (s: nat)
    requires start < n && i <= n
    ensures s < n
  {
    if start + i < n then start + i else start + i - n
  }

  lemma ModUnique(x: nat, n: nat, q: nat, r: nat)
    requires r < n && x == q * n + r
    ensures x % n == r
  {
    var d := x / n - q;
    assert d * n == r - x % n;
    MultipleAtLeast(d, n);
  }

  lemma MultipleAtLeast(d: int, n: nat)
    ensures d >= 1 ==> d * n >= n
    ensures d <= -1 ==> d * n + n <= 0
  {}

  lemma Small(c: nat, n: nat)
    requires c < n
    ensures c % n == c
  {}

  /** The index expression of the senders. */
  lemma Modulo(start: nat, i: nat, n: nat)
    requires start < n && i <= n
    ensures (start + i) % n == At(start, i, n)
  {
    if start + i < n {
      Small(start + i, n);
    } else {
      ModUnique(start + i, n, 1, start + i - n);
    }
  }

  /** The first `k` servers from `start` on, in cyclic order. */
  function Cycle(start: nat, k: nat, n: nat): (tried: seq<nat>)
    requires start < n && k <= n
  {
    seq(k, i requires 0 <= i < k => At(start, i, n))
  }

  /** What a send does: which servers it tried, through which it delivered, and the next cursor. */
  datatype Sent = Sent(tried: seq<nat>, delivered: Option<nat>, cursor: nat)

  /** The outcome once the first `i` servers from `start` on have failed. */
  function SendFrom(works: seq<bool>, cursor: nat, i: nat): Sent
    requires works != [] && i <= |works|
    decreases |works| - i
  {
    var n := |works|;
    var start := cursor % n;
    if i == n then Sent(Cycle(start, n, n), None, cursor)
    else if works[At(start, i, n)] then Sent(Cycle(start, i + 1, n), Some(At(start, i, n)), At(start, i + 1, n))
    else SendFrom(works, cursor, i + 1)
  }

  function Send(works: seq<bool>, cursor: nat): Sent {
    if works == [] then Sent([], None, cursor) else SendFrom(works, cursor, 0)
  }

  // ---------- the two senders ----------

  lemma CycleAppend(start: nat, i: nat, n: nat)
    requires start < n && i < n
    ensures Cycle(start, i + 1, n) == Cycle(start, i, n) + [At(start, i, n)]
  {}

  class Mailer {
    var rrIndex: nat

    constructor ()
      ensures rrIndex == 0
    {
      rrIndex := 0;
    }

    /** `works` says of every server whether it would accept this message. */
    method SendMailSystem(works: seq<bool>) returns (tried: seq<nat>, delivered: Option<nat>)
      modifies this
      ensures Sent(tried, delivered, rrIndex) == Send(works, old(rrIndex))
    {
      tried, delivered := [], None;
      if works == [] {
        return;
      }
      var n := |works|;
      var start := rrIndex % n;
      for i := 0 to n
        invariant tried == Cycle(start, i, n) && rrIndex == old(rrIndex)
        invariant Send(works, old(rrIndex)) == SendFrom(works, old(rrIndex), i)
      {
        var s := (start + i) % n;
        CycleAppend(start, i, n);
        Modulo(start, i, n);
        Modulo(start, i + 1, n);
        tried := tried + [s];
        if !works[s] {
          continue;
        }
        rrIndex := (start + i + 1) % n;
        return tried, Some(s);
      }
    }
  }

  /** A provider: whether a sender can be built for it, and its answers to three attempts. */
  datatype Provider = Provider(built: bool, first: bool, second: bool, third: bool) {
    predicate Answer(attempt: nat) {
      if attempt == 0 then first else if attempt == 1 then second else third
    }

    predicate Accepts() {
      built && (first || second || third)
    }

    /** The attempts made: up to the first success, three at most. */
    function Attempts(): (k: nat)
      ensures k <= 3 && (k == 0 <==> !built)
      ensures forall i: nat :: i + 1 < k ==> !Answer(i)
      ensures k > 0 ==> (Answer(k - 1) <==> Accepts()) && (k < 3 ==> Accepts())
    {
      if !built then 0 else if first then 1 else if second then 2 else 3
    }
  }

  function Working(providers: seq<Provider>): (works: seq<bool>)
    ensures |works| == |providers|
  {
    seq(|providers|, i requires 0 <= i < |providers| => providers[i].Accepts())
  }

  /** One entry per attempt at the first `k` providers from `start` on. */
  function AttemptLog(providers: seq<Provider>, start: nat, k: nat): seq<nat>
    requires start < |providers| && k <= |providers|
  {
    if k == 0 then []
    else
      var s := At(start, k - 1, |providers|);
      AttemptLog(providers, start, k - 1) + seq(providers[s].Attempts(), _ => s)
  }

  class SmsSender {
    var smsRR: nat

    constructor ()
      ensures smsRR == 0
    {
      smsRR := 0;
    }

    /** `log` lists the provider of every attempt that was made. */
    method SendSMS(providers: seq<Provider>) returns (tried: seq<nat>, delivered: Option<nat>, log: seq<nat>)
      modifies this
      ensures Sent(tried, delivered, smsRR) == Send(Working(providers), old(smsRR))
      ensures |tried| <= |providers|
      ensures log == if providers == [] then [] else AttemptLog(providers, old(smsRR) % |providers|, |tried|)
    {
      tried, delivered, log := [], None, [];
      if providers == [] {
        return;
      }
      var n := |providers|;
      ghost var works, cursor := Working(providers), smsRR;
      var start := smsRR % n;
      for i := 0 to n
        invariant tried == Cycle(start, i, n) && smsRR == cursor
        invariant Send(works, cursor) == SendFrom(works, cursor, i)
        invariant log == AttemptLog(providers, start, i)
      {
        var s := (start + i) % n;
        var p := providers[s];
        CycleAppend(start, i, n);
        Modulo(start, i, n);
        tried := tried + [s];
        if !p.built {
          continue;
        }
        var sent, k := Attempt(p);
        log := log + seq(k, _ => s);
        if !sent {
          continue;
        }
        Modulo(start, i + 1, n);
        smsRR := (start + i + 1) % n;
        return tried, Some(s), log;
      }
    }
  }

  /** Tries one provider until it accepts, three times at most. */
  method Attempt(p: Provider) returns (sent: bool, k: nat)
    requires p.built
    ensures k == p.Attempts() && (sent <==> p.Accepts())
  {
    k, sent := 0, false;
    while k < 3 && !sent
      invariant k <= 3 && forall i: nat :: i + 1 < k ==> !p.Answer(i)
      invariant sent ==> k > 0 && p.Answer(k - 1)
      invariant !sent ==> forall i: nat :: i < k ==> !p.Answer(i)
      decreases 3 - k
    {
      sent := p.Answer(k);
      k := k + 1;
    }
  }

  // ---------- one send ----------

  /** Every server is a certain number of steps from `start`, fewer than `n`. */
  function Offset(start: nat, s: nat, n: nat): (i: nat)
    requires start < n && s < n
    ensures i < n && At(start, i, n) == s
  {
    if s >= start then s - start else s - start + n
  }

  /** What a send tries, without repeats: it stops at the first server that works, and gives up only
      when no server works. */
  ghost predicate Fair(works: seq<bool>, cursor: nat, r: Sent) {
    var n := |works|;
    && |r.tried| <= n
    && (forall i, j :: 0 <= i < j < |r.tried| ==> r.tried[i] != r.tried[j])
    && (forall i :: 0 <= i < |r.tried| ==> r.tried[i] == At(cursor % n, i, n))
    && (forall i :: 0 <= i < |r.tried| - 1 ==> !works[r.tried[i]])
    && (r.delivered.Some? <==> true in works)
    && (if r.delivered.None? then |r.tried| == n && r.cursor == cursor
        else r.tried != [] && r.delivered.value == r.tried[|r.tried| - 1] && works[r.delivered.value]
             && r.cursor == (r.delivered.value + 1) % n)
  }

  /** None of the first `i` servers from `start` on works. */
  ghost predicate Failing(works: seq<bool>, start: nat, i: nat)
    requires start < |works| && i <= |works|
  {
    forall k :: 0 <= k < i ==> !works[At(start, k, |works|)]
  }

  lemma AllFailing(works: seq<bool>, start: nat)
    requires start < |works| && Failing(works, start, |works|)
    ensures true !in works
  {
    forall s | 0 <= s < |works| ensures !works[s] {
      assert !works[At(start, Offset(start, s, |works|), |works|)];
    }
  }

  lemma {:induction false} SendFromFair(works: seq<bool>, cursor: nat, i: nat)
    requires works != [] && i <= |works| && Failing(works, cursor % |works|, i)
    ensures Fair(works, cursor, SendFrom(works, cursor, i))
    decreases |works| - i
  {
    var n, start := |works|, cursor % |works|;
    if i == n {
      AllFailing(works, start);
    } else if works[At(start, i, n)] {
      Modulo(At(start, i, n), 1, n);
      assert works[At(start, i, n)] in works;
    } else {
      SendFromFair(works, cursor, i + 1);
    }
  }

  lemma SendFair(works: seq<bool>, cursor: nat)
    ensures works != [] ==> Fair(works, cursor, Send(works, cursor))
    ensures works == [] ==> Send(works, cursor) == Sent([], None, cursor)
  {
    if works != [] {
      SendFromFair(works, cursor, 0);
    }
  }

  // ---------- runs ----------

  /** The servers that delivered, in a run of sends over a list of `n` servers that all work. */
  function Healthy(n: nat, cursor: nat, sends: nat): (seq<nat>, nat)
    requires n > 0
  {
    if sends == 0 then ([], cursor)
    else
      var (before, c) := Healthy(n, cursor, sends - 1);
      var r := Send(seq(n, _ => true), c);
      (if r.delivered.Some? then before + [r.delivered.value] else before, r.cursor)
  }

  function Count(log: seq<nat>, s: nat): nat {
    if log == [] then 0 else Count(log[..|log| - 1], s) + (if log[|log| - 1] == s then 1 else 0)
  }

  /** Full rounds and the servers served in the round that is under way. */
  function Rounds(n: nat, sends: nat): (nat, nat)
    requires n > 0
  {
    if sends == 0 then (0, 0)
    else
      var (q, r) := Rounds(n, sends - 1);
      if r + 1 == n then (q + 1, 0) else (q, r + 1)
  }

  lemma NextHealthy(n: nat, cursor: nat)
    requires n > 0
    ensures var r := Send(seq(n, _ => true), cursor);
      r.delivered == Some(cursor % n) && r.cursor == At(cursor % n, 1, n) && r.cursor < n
  {}

  lemma {:induction false} HealthyCursor(n: nat, cursor: nat, sends: nat)
    requires n > 0
    ensures Rounds(n, sends).1 < n
    ensures Healthy(n, cursor, sends).1 % n == At(cursor % n, Rounds(n, sends).1, n)
  {
    if sends > 0 {
      HealthyCursor(n, cursor, sends - 1);
      var c, c' := Healthy(n, cursor, sends - 1).1, Healthy(n, cursor, sends).1;
      NextHealthy(n, c);
      assert c' == At(c % n, 1, n);
      Small(c', n);
    }
  }

  lemma {:induction false} HealthyCount(n: nat, cursor: nat, sends: nat, s: nat)
    requires s < n
    ensures var (q, r) := Rounds(n, sends); var log := Healthy(n, cursor, sends).0;
      |log| == sends && Count(log, s) == q + (if Offset(cursor % n, s, n) < r then 1 else 0)
  {
    if sends > 0 {
      HealthyCount(n, cursor, sends - 1, s);
      HealthyCursor(n, cursor, sends - 1);
      var (log, c) := Healthy(n, cursor, sends - 1);
      NextHealthy(n, c);
      assert (log + [c % n])[..|log|] == log;
    }
  }

  /** While all servers work, no server gets more than one message more than another. */
  lemma Balanced(n: nat, cursor: nat, sends: nat, s: nat, t: nat)
    requires s < n && t < n
    ensures var log := Healthy(n, cursor, sends).0; |log| == sends && Count(log, s) <= Count(log, t) + 1
  {
    HealthyCount(n, cursor, sends, s);
    HealthyCount(n, cursor, sends, t);
  }

  lemma {:induction false} CountSame(log: seq<nat>, s: nat, k: nat, p: nat)
    ensures Count(log + seq(k, _ => p), s) == Count(log, s) + (if s == p then k else 0)
  {
    if k == 0 {
      assert log + seq(0, _ => p) == log;
    } else {
      CountSame(log, s, k - 1, p);
      assert (log + seq(k, _ => p))[..|log| + k - 1] == log + seq(k - 1, _ => p);
    }
  }

  /** The log holds, for each provider that was tried, exactly its attempts, and nothing for the others. */
  lemma {:induction false} AttemptsCounted(providers: seq<Provider>, start: nat, k: nat, s: nat)
    requires start < |providers| && k <= |providers| && s < |providers|
    ensures Count(AttemptLog(providers, start, k), s)
      == if Offset(start, s, |providers|) < k then providers[s].Attempts() else 0
  {
    if k > 0 {
      AttemptsCounted(providers, start, k - 1, s);
      var p := At(start, k - 1, |providers|);
      CountSame(AttemptLog(providers, start, k - 1), s, providers[p].Attempts(), p);
    }
  }

  /** What each of a run of sends delivered through; servers may come and go between sends. */
  function Deliveries(sends: seq<seq<bool>>, cursor: nat): seq<Option<nat>> {
    if sends == [] then []
    else
      var r := Send(sends[0], cursor);
      [r.delivered] + Deliveries(sends[1..], r.cursor)
  }

  /** A send either delivers through a working server or leaves fewer steps to it. */
  lemma Closer(works: seq<bool>, cursor: nat, s: nat)
    requires s < |works| && works[s]
    ensures var n := |works|; var r := Send(works, cursor);
      r.delivered == Some(s) || Offset(r.cursor % n, s, n) < Offset(cursor % n, s, n)
  {
    var n, start := |works|, cursor % |works|;
    var r, i := Send(works, cursor), Offset(start, s, n);
    SendFair(works, cursor);
    assert works[s] in works;
    var d := |r.tried| - 1;
    assert forall k :: 0 <= k < d ==> !works[At(start, k, n)] by {
      assert forall k :: 0 <= k < d ==> r.tried[k] == At(start, k, n);
    }
    if d < i {
      Modulo(At(start, d, n), 1, n);
      Small(r.cursor, n);
    }
  }

  /** Whatever the other servers do, a server that keeps working delivers one of any `n` messages. */
  lemma {:induction false} NoStarvation(n: nat, sends: seq<seq<bool>>, cursor: nat, s: nat)
    requires s < n && forall k :: 0 <= k < |sends| ==> |sends[k]| == n && sends[k][s]
    requires |sends| > Offset(cursor % n, s, n)
    ensures Some(s) in Deliveries(sends, cursor)
  {
    var r := Send(sends[0], cursor);
    Closer(sends[0], cursor, s);
    if r.delivered == Some(s) {
      assert Deliveries(sends, cursor)[0] == Some(s);
    } else {
      NoStarvation(n, sends[1..], r.cursor, s);
    }
  }
}
