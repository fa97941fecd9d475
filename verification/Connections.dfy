/** The interleaved system on a pool of connections. The cursor of the category query stays open, and
    keeps its connection, while the scheduler's loop issues statements of its own; every other
    statement takes a connection and gives it back. A statement waits while none is free. */
module Connections {
  import opened Base
  import opened Estate
  import opened Inheritance
  import opened Escalation
  import opened Handlers
  import opened Interleaving

  /** Connections that open cursors hold. */
  function Held(pc: Pc): nat {
    match pc
    case CategoryLoop(_, _, _) => 1
    case Insert(_, _, _, _, next) => if next.CategoryLoop? then 1 else 0
    case MarkStage(_, next) => if next.CategoryLoop? then 1 else 0
    case _ => 0
  }

  /** Whether the scheduler's next step issues a statement, rather than reads on or computes. */
  predicate SchedulerCalls(pc: Pc) {
    match pc
    case Idle => false
    case Users(_, rows) => rows != []
    case Levelling(_, snapshotLevel, idx, rungs) => LevelOf(idx, rungs) > snapshotLevel
    case AssetLoop(job, rows, _) => rows != [] && Met(rows[0].triggerDays, job.days)
    case CategoryLoop(job, rows, bound) => rows != [] && Met(rows[0].triggerDays, job.days) && rows[0].asset !in bound
    case _ => true
  }

  /** Whether a move issues a statement. */
  predicate Calls(s: Sys, m: Move) {
    match m
    case StartScan(_, _) => s.pc.Idle?
    case Scheduler => SchedulerCalls(s.pc)
    case ClaimMoves(c) =>
      c in s.claims && !s.claims[c].Answered?
      && (s.claims[c].Marked? ==> s.claims[c].won < |s.db.events| && s.db.events[s.claims[c].won].asset.Some?)
    case LoginMoves(l) =>
      l in s.logins && !s.logins[l].LoggedIn? && (s.logins[l].OwnerReset? ==> s.logins[l].stage != Stage.Inactive)
    case Requesting(_) => true
    case Toggling(_, _) => true
    case Configuring(_) => true
    case Registering(_) => true
    case _ => false
  }

  predicate Waits(pool: nat, s: Sys, m: Move) {
    Calls(s, m) && Held(s.pc) >= pool
  }

  function TakeOn(pool: nat, s: Sys, m: Move): Sys {
    if Waits(pool, s, m) then s else Take(s, m)
  }

  function PlayOn(pool: nat, s: Sys, moves: seq<Move>): Sys
    decreases |moves|
  {
    if moves == [] then s else TakeOn(pool, PlayOn(pool, s, moves[..|moves| - 1]), moves[|moves| - 1])
  }

  /** On two connections or more nothing ever waits for ever: the runs are those of Interleaving. */
  lemma {:induction false} Unhindered(pool: nat, s: Sys, moves: seq<Move>)
    requires pool >= 2
    ensures PlayOn(pool, s, moves) == Play(s, moves)
    decreases |moves|
  {
    if moves != [] {
      Unhindered(pool, s, moves[..|moves| - 1]);
    }
  }

  /** On any pool a run is a run of Interleaving with some moves left out, so what holds of all those
      runs holds here too. */
  lemma {:induction false} Granted(pool: nat, s: Sys, moves: seq<Move>) returns (granted: seq<Move>)
    ensures PlayOn(pool, s, moves) == Play(s, granted)
    decreases |moves|
  {
    granted := [];
    if moves != [] {
      var before, m := moves[..|moves| - 1], moves[|moves| - 1];
      granted := Granted(pool, s, before);
      if !Waits(pool, PlayOn(pool, s, before), m) {
        assert (granted + [m])[..|granted|] == granted;
        granted := granted + [m];
      }
    }
  }

  /** Whatever the pool, no owner has two live events for one target, events change only lawfully, and
      a key is released at most once. */
  lemma SafeOnAnyPool(pool: nat, s: Sys, moves: seq<Move>)
    requires Exclusive(s) && KeysSound(s)
    ensures var r := PlayOn(pool, s, moves);
      && LiveUnique(r.db.events) && History(s.db.events, s.db.now, r.db.events, r.db.now)
      && forall i, j :: 0 <= i < j < |r.released| ==> r.released[i].event != r.released[j].event
  {
    var granted := Granted(pool, s, moves);
    AlwaysUnique(s, granted);
    AlwaysLawful(s, granted);
    KeyReleasedOnce(s, granted);
  }

  // ---------- one connection ----------

  /** Some row still to come is met for an asset that is not bound yet. */
  ghost predicate Pending(job: Job, rows: seq<Row>, bound: set<int>) {
    exists r :: r in rows && Met(r.triggerDays, job.days) && r.asset !in bound
  }

  /** In the category loop of `job`, with such a row ahead. */
  ghost predicate Doomed(pc: Pc, job: Job) {
    pc.CategoryLoop? && pc.job == job && Pending(job, pc.crows, pc.bound)
  }

  /** Nothing is stored any more: only the clock moves. */
  ghost predicate Frozen(s: Sys, r: Sys) {
    r.db == s.db.(now := r.db.now) && s.db.now <= r.db.now && r.wins == s.wins
  }

  lemma TakeFrozen(s: Sys, m: Move, job: Job)
    requires Doomed(s.pc, job)
    ensures Doomed(TakeOn(1, s, m).pc, job) && Frozen(s, TakeOn(1, s, m))
  {
    if m.Scheduler? && !Waits(1, s, m) {
      var rows := s.pc.crows;
      assert rows == [rows[0]] + rows[1..];
    }
  }

  /** With a single connection the scheduler never leaves the category loop of a user who has such a
      row, and from then on no statement of anybody takes effect: no event, claim, login, heartbeat. */
  lemma {:induction false} NeverEnds(s: Sys, moves: seq<Move>, job: Job)
    requires Doomed(s.pc, job)
    ensures Doomed(PlayOn(1, s, moves).pc, job) && Frozen(s, PlayOn(1, s, moves))
    decreases |moves|
  {
    if moves != [] {
      NeverEnds(s, moves[..|moves| - 1], job);
      TakeFrozen(PlayOn(1, s, moves[..|moves| - 1]), moves[|moves| - 1], job);
    }
  }

  /** Opening the cursor over such a row is enough. */
  lemma CategorySelectDooms(s: Sys)
    requires s.pc.CategorySelect? && Pending(s.pc.job, CategoryQuery(s.db.config, s.pc.job.uid), s.pc.bound)
    ensures Doomed(TakeOn(1, s, Scheduler).pc, s.pc.job) && TakeOn(1, s, Scheduler).db == s.db
  {}

  lemma {:induction false} PassesOver(s: Sys) returns (moves: seq<Move>)
    requires s.pc.CategoryLoop? && !Pending(s.pc.job, s.pc.crows, s.pc.bound)
    ensures PlayOn(1, s, moves) == s.(pc := CountAssets(s.pc.job, s.pc.bound))
    decreases |s.pc.crows|
  {
    var next := Take(s, Scheduler);
    assert [Scheduler][..0] == [] && PlayOn(1, s, [Scheduler]) == TakeOn(1, s, Scheduler);
    if s.pc.crows == [] {
      moves := [Scheduler];
    } else {
      assert s.pc.crows[0] in s.pc.crows && forall r :: r in s.pc.crows[1..] ==> r in s.pc.crows;
      var rest := PassesOver(next);
      moves := [Scheduler] + rest;
      PlayOnConcat(1, s, [Scheduler], rest);
    }
  }

  lemma {:induction false} PlayOnConcat(pool: nat, s: Sys, xs: seq<Move>, ys: seq<Move>)
    ensures PlayOn(pool, s, xs + ys) == PlayOn(pool, PlayOn(pool, s, xs), ys)
    decreases |ys|
  {
    if ys == [] {
      assert xs + ys == xs;
    } else {
      assert (xs + ys)[..|xs + ys| - 1] == xs + ys[..|ys| - 1];
      PlayOnConcat(pool, s, xs, ys[..|ys| - 1]);
    }
  }

  /** With a single connection the category loop can be left exactly when no row to come is met for an
      asset that is not bound yet. */
  lemma LeavesIff(s: Sys)
    requires s.pc.CategoryLoop?
    ensures (exists moves :: !PlayOn(1, s, moves).pc.CategoryLoop?) <==> !Pending(s.pc.job, s.pc.crows, s.pc.bound)
  {
    if Pending(s.pc.job, s.pc.crows, s.pc.bound) {
      forall moves ensures PlayOn(1, s, moves).pc.CategoryLoop? {
        NeverEnds(s, moves, s.pc.job);
      }
    } else {
      var moves := PassesOver(s);
      assert !PlayOn(1, s, moves).pc.CategoryLoop?;
    }
  }
}
