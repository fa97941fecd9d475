/** The same system with single SQL statements as steps: one scheduler thread, and any number of
    claims and logins in flight, interleaved in any order with configuration changes. */
module Interleaving {
  import opened Base
  import opened Estate
  import opened Inheritance
  import opened Escalation
  import opened Handlers
  import Runs

  // ---------- the scheduler thread ----------

  /** The user being processed, and the rows of the user query still to come. */
  datatype Job = Job(tick: int, rest: seq<UserRow>, uid: int, days: int)

  datatype Pc =
    | Idle
    | Users(tick: int, rows: seq<UserRow>)
    | Levelling(job: Job, snapshotLevel: int, idx: int, rungs: int)
    | AssetSelect(job: Job)
    | AssetLoop(job: Job, arows: seq<Row>, bound: set<int>)
    | CategorySelect(job: Job, bound: set<int>)
    | CategoryLoop(job: Job, crows: seq<Row>, bound: set<int>)
    | CountAssets(job: Job, bound: set<int>)
    | CountUserEvents(job: Job)
    | ReadDefault(job: Job)
    | FetchDefault(job: Job, heir: int)
    | FetchFirst(job: Job)
    | Insert(uid: int, target: Option<int>, inheritor: int, codeHash: int, next: Pc)
    | MarkStage(uid: int, next: Pc)

  function NextUser(job: Job): Pc {
    Users(job.tick, job.rest)
  }

  /** One statement of the scheduler, with the local computation that follows it. */
  function Advance(pc: Pc, db: Db): (Pc, Db) {
    match pc
    case Idle => (Idle, db)
    case Users(tick, rows) =>
      if rows == [] then (Idle, db)
      else
        var rungs := RungsOf(db.config, rows[0].uid);
        var days := DaysSince(tick, rows[0].lastLogin);
        var idx := LastCrossed(rungs, days);
        if idx < 0 then (Users(tick, rows[1..]), db)
        else (Levelling(Job(tick, rows[1..], rows[0].uid, days), rows[0].level, idx, |rungs|), db)
    case Levelling(job, snapshotLevel, idx, rungs) =>
      var level := LevelOf(idx, rungs);
      (if idx >= rungs - 1 then AssetSelect(job) else NextUser(job),
       if level > snapshotLevel then SetLevel(db, job.uid, level) else db)
    case AssetSelect(job) => (AssetLoop(job, AssetQuery(db.config, job.uid), {}), db)
    case AssetLoop(job, rows, bound) =>
      if rows == [] then (CategorySelect(job, bound), db)
      else
        var r := rows[0];
        var next := AssetLoop(job, rows[1..], bound + {r.asset});
        if !Met(r.triggerDays, job.days) || Live(db.events, job.uid, Some(r.asset)) then (next, db)
        else (Insert(job.uid, Some(r.asset), r.inheritor, r.codeHash, next), db)
    case CategorySelect(job, bound) => (CategoryLoop(job, CategoryQuery(db.config, job.uid), bound), db)
    case CategoryLoop(job, rows, bound) =>
      if rows == [] then (CountAssets(job, bound), db)
      else
        var r := rows[0];
        if !Met(r.triggerDays, job.days) || r.asset in bound then (CategoryLoop(job, rows[1..], bound), db)
        else
          var next := CategoryLoop(job, rows[1..], bound + {r.asset});
          if Live(db.events, job.uid, Some(r.asset)) then (next, db)
          else (Insert(job.uid, Some(r.asset), r.inheritor, r.codeHash, next), db)
    case CountAssets(job, bound) =>
      var total := |ActiveAssets(db.config, job.uid)|;
      (if |bound| >= total && total > 0 then NextUser(job) else CountUserEvents(job), db)
    case CountUserEvents(job) =>
      (if Live(db.events, job.uid, None) then NextUser(job) else ReadDefault(job), db)
    case ReadDefault(job) =>
      (if job.uid in db.config.defaultInheritor then FetchDefault(job, db.config.defaultInheritor[job.uid])
       else FetchFirst(job), db)
    case FetchDefault(job, heir) =>
      var h := FindInheritor(db.config.inheritors, heir);
      (if h.Some? && h.value.owner == job.uid
       then Insert(job.uid, None, h.value.id, h.value.codeHash, NextUser(job))
       else FetchFirst(job), db)
    case FetchFirst(job) =>
      (match FirstInheritor(db.config.inheritors, job.uid)
       case None => NextUser(job)
       case Some(h) => Insert(job.uid, None, h.id, h.codeHash, NextUser(job)), db)
    case Insert(uid, t, inheritor, codeHash, next) =>
      (MarkStage(uid, next), InsertEvent(db, uid, t, inheritor, codeHash))
    case MarkStage(uid, next) => (next, SetStage(db, uid, Stage.Triggered))
  }

  // ---------- claims and logins ----------

  datatype ClaimPc =
    | Asked(event: int, codeHash: int)
    | Checked(won: nat)
    | Won(won: nat)
    | Marked(won: nat)
    | Answered(outcome: Outcome)

  datatype LoginPc =
    | Proven(uid: int)
    | StageRead(uid: int, stage: Stage)
    | OwnerReset(uid: int, stage: Stage)
    | LoggedIn

  /** A claim thread and the event it won, or whose key it released. */
  datatype Ticket = Ticket(claim: nat, event: nat)

  /** `wins` and `released` are logs kept for the proof: which claim's update took effect on which
      event, and which claim answered with a key. */
  datatype Sys = Sys(
    db: Db, pc: Pc, claims: map<nat, ClaimPc>, logins: map<nat, LoginPc>,
    wins: seq<Ticket>, released: seq<Ticket>)

  datatype Move =
    | StartScan(tick: int, order: seq<int>)
    | Scheduler
    | StartClaim(c: nat, event: int, codeHash: int)
    | ClaimMoves(c: nat)
    | StartLogin(l: nat, uid: int)
    | LoginMoves(l: nat)
    | Requesting(uid: int)
    | Toggling(uid: int, on: bool)
    | Configuring(config: Config)
    | Registering(uid: int)
    | Passing(seconds: nat)

  function ClaimStep(s: Sys, c: nat): Sys
    requires c in s.claims
  {
    match s.claims[c]
    case Asked(id, codeHash) =>
      var next :=
        if !(0 <= id < |s.db.events|) then Answered(UnknownEvent)
        else if s.db.events[id].codeHash != codeHash then Answered(WrongCode)
        else if s.db.events[id].status != Status.Pending then Answered(NotPending)
        else Checked(id);
      s.(claims := s.claims[c := next])
    case Checked(id) =>
      if id < |s.db.events| && s.db.events[id].status == Status.Pending
      then s.(db := ClaimUpdate(s.db, id), claims := s.claims[c := Won(id)], wins := s.wins + [Ticket(c, id)])
      else s.(claims := s.claims[c := Answered(LostRace)])
    case Won(id) =>
      s.(db := if id < |s.db.events| then SetStage(s.db, s.db.events[id].owner, Stage.Claimed) else s.db,
         claims := s.claims[c := Marked(id)])
    case Marked(id) =>
      var out := if id < |s.db.events| then KeyFor(s.db.config, s.db.events[id]) else KeyMissing;
      s.(claims := s.claims[c := Answered(out)],
         released := if out.KeyMissing? then s.released else s.released + [Ticket(c, id)])
    case Answered(_) => s
  }

  function LoginStep(s: Sys, l: nat): Sys
    requires l in s.logins
  {
    match s.logins[l]
    case Proven(uid) =>
      s.(logins := s.logins[l := if uid in s.db.users then StageRead(uid, s.db.users[uid].stage) else LoggedIn])
    case StageRead(uid, stage) =>
      s.(db := ResetOwner(s.db, uid), logins := s.logins[l := OwnerReset(uid, stage)])
    case OwnerReset(uid, stage) =>
      s.(db := if stage != Stage.Inactive then ReverseEvents(s.db, uid) else s.db, logins := s.logins[l := LoggedIn])
    case LoggedIn => s
  }

  function Take(s: Sys, m: Move): Sys {
    match m
    case StartScan(tick, order) =>
      if s.pc.Idle? then s.(pc := Users(tick, Snapshot(s.db, order))) else s
    case Scheduler =>
      var (pc, db) := Advance(s.pc, s.db);
      s.(pc := pc, db := db)
    case StartClaim(c, id, codeHash) =>
      if c in s.claims then s else s.(claims := s.claims[c := Asked(id, codeHash)])
    case ClaimMoves(c) => if c in s.claims then ClaimStep(s, c) else s
    case StartLogin(l, uid) =>
      if l in s.logins then s else s.(logins := s.logins[l := Proven(uid)])
    case LoginMoves(l) => if l in s.logins then LoginStep(s, l) else s
    case Requesting(uid) => s.(db := Touch(s.db, uid))
    case Toggling(uid, on) => s.(db := Toggle(s.db, uid, on))
    case Configuring(c) => s.(db := s.db.(config := c))
    case Registering(uid) =>
      if uid in s.db.users then s
      else s.(db := s.db.(users := s.db.users[uid := User(Stage.Inactive, 0, None, true)]))
    case Passing(d) => s.(db := s.db.(now := s.db.now + d))
  }

  function Play(s: Sys, moves: seq<Move>): Sys
    decreases |moves|
  {
    if moves == [] then s else Take(Play(s, moves[..|moves| - 1]), moves[|moves| - 1])
  }

  /** The moves that are no part of a scan, a claim or a login do what the same actions do in whole runs. */
  lemma OtherMoves(s: Sys, m: Move)
    ensures m.Requesting? ==> Take(s, m) == s.(db := Runs.Step(s.db, Runs.Requesting(m.uid)))
    ensures m.Toggling? ==> Take(s, m) == s.(db := Runs.Step(s.db, Runs.Toggling(m.uid, m.on)))
    ensures m.Configuring? ==> Take(s, m) == s.(db := Runs.Step(s.db, Runs.Configuring(m.config)))
    ensures m.Registering? ==> Take(s, m) == s.(db := Runs.Step(s.db, Runs.Registering(m.uid)))
    ensures m.Passing? ==> Take(s, m) == s.(db := Runs.Step(s.db, Runs.Passing(m.seconds)))
  {}

  // ---------- at most one live event per target ----------

  /** Inserts resume at the head of a loop. */
  ghost predicate WellFormed(pc: Pc) {
    pc.Insert? || pc.MarkStage? ==> pc.next.Users? || pc.next.AssetLoop? || pc.next.CategoryLoop?
  }

  /** The target whose live events were counted as none and that may be inserted next. */
  ghost function Counted(pc: Pc): Option<(int, Option<int>)> {
    match pc
    case Insert(uid, t, _, _, _) => Some((uid, t))
    case ReadDefault(job) => Some((job.uid, None))
    case FetchDefault(job, _) => Some((job.uid, None))
    case FetchFirst(job) => Some((job.uid, None))
    case _ => None
  }

  ghost predicate StillNone(pc: Pc, events: seq<Event>) {
    Counted(pc).Some? ==> !Live(events, Counted(pc).value.0, Counted(pc).value.1)
  }

  /** Between the scheduler's count and its insert nobody else creates the event. */
  ghost predicate Exclusive(s: Sys) {
    LiveUnique(s.db.events) && WellFormed(s.pc) && StillNone(s.pc, s.db.events)
  }

  /** The only scheduler statement that changes the events is the insert. */
  lemma AdvanceEvents(pc: Pc, db: Db)
    ensures var (pc', db') := Advance(pc, db);
      && db'.now == db.now && db'.config == db.config
      && db'.events == (if pc.Insert? then db.events + [NewEvent(pc.uid, pc.target, pc.inheritor, pc.codeHash)]
                        else db.events)
  {}

  lemma AdvanceCounts(pc: Pc, db: Db)
    requires WellFormed(pc) && StillNone(pc, db.events)
    ensures WellFormed(Advance(pc, db).0) && StillNone(Advance(pc, db).0, Advance(pc, db).1.events)
  {}

  lemma ClaimStepEvents(s: Sys, c: nat)
    requires c in s.claims
    ensures var r := ClaimStep(s, c);
      && r.pc == s.pc && r.logins == s.logins && r.db.now == s.db.now
      && LiveShrinks(s.db.events, r.db.events)
      && History(s.db.events, s.db.now, r.db.events, r.db.now)
  {}

  lemma LoginStepEvents(s: Sys, l: nat)
    requires l in s.logins
    ensures var r := LoginStep(s, l);
      && r.pc == s.pc && r.claims == s.claims && r.wins == s.wins && r.released == s.released && r.db.now == s.db.now
      && LiveShrinks(s.db.events, r.db.events)
      && History(s.db.events, s.db.now, r.db.events, r.db.now)
  {}

  lemma ShrinkKeepsExclusive(s: Sys, r: Sys)
    requires Exclusive(s) && r.pc == s.pc && LiveShrinks(s.db.events, r.db.events)
    ensures Exclusive(r)
  {
    ShrinkKeepsUnique(s.db.events, r.db.events);
    if Counted(s.pc).Some? && Live(r.db.events, Counted(s.pc).value.0, Counted(s.pc).value.1) {
      ShrinkLive(s.db.events, r.db.events, Counted(s.pc).value.0, Counted(s.pc).value.1);
    }
  }

  lemma TakeKeepsExclusive(s: Sys, m: Move)
    requires Exclusive(s)
    ensures Exclusive(Take(s, m))
  {
    match m
    case Scheduler =>
      AdvanceEvents(s.pc, s.db);
      AdvanceCounts(s.pc, s.db);
      if s.pc.Insert? {
        AppendKeepsUnique(s.db.events, NewEvent(s.pc.uid, s.pc.target, s.pc.inheritor, s.pc.codeHash));
      }
    case ClaimMoves(c) =>
      if c in s.claims {
        ClaimStepEvents(s, c);
        ShrinkKeepsExclusive(s, ClaimStep(s, c));
      }
    case LoginMoves(l) =>
      if l in s.logins {
        LoginStepEvents(s, l);
        ShrinkKeepsExclusive(s, LoginStep(s, l));
      }
    case _ =>
  }

  /** However the statements interleave, no owner ever has two live events for one target. */
  lemma {:induction false} AlwaysUnique(s: Sys, moves: seq<Move>)
    requires Exclusive(s)
    ensures Exclusive(Play(s, moves)) && LiveUnique(Play(s, moves).db.events)
    decreases |moves|
  {
    if moves != [] {
      AlwaysUnique(s, moves[..|moves| - 1]);
      TakeKeepsExclusive(Play(s, moves[..|moves| - 1]), moves[|moves| - 1]);
    }
  }

  // ---------- the life of events ----------

  lemma TakeHistory(s: Sys, m: Move)
    ensures History(s.db.events, s.db.now, Take(s, m).db.events, Take(s, m).db.now)
  {
    match m
    case Scheduler =>
      AdvanceEvents(s.pc, s.db);
    case ClaimMoves(c) => if c in s.claims { ClaimStepEvents(s, c); }
    case LoginMoves(l) => if l in s.logins { LoginStepEvents(s, l); }
    case _ =>
  }

  /** Over any interleaving, each event only moves from pending to claimed or reversed and from
      claimed to reversed, with the deadlines of Evolves. */
  lemma {:induction false} AlwaysLawful(s: Sys, moves: seq<Move>)
    ensures History(s.db.events, s.db.now, Play(s, moves).db.events, Play(s, moves).db.now)
    decreases |moves|
  {
    if moves != [] {
      var mid, r := Play(s, moves[..|moves| - 1]), Play(s, moves);
      AlwaysLawful(s, moves[..|moves| - 1]);
      TakeHistory(mid, moves[|moves| - 1]);
      HistoryTransitive(s.db.events, s.db.now, mid.db.events, mid.db.now, r.db.events, r.db.now);
    }
  }

  /** Of two claims that both saw the event pending, the one that comes later, whatever happens in between,
      changes nothing and is told that it lost. */
  lemma LoserLearns(s: Sys, c: nat, d: nat, id: nat, between: seq<Move>)
    requires c in s.claims && s.claims[c] == Checked(id)
    requires id < |s.db.events| && s.db.events[id].status == Status.Pending
    requires var later := Play(ClaimStep(s, c), between); d in later.claims && later.claims[d] == Checked(id)
    ensures var later := Play(ClaimStep(s, c), between);
      ClaimStep(later, d) == later.(claims := later.claims[d := Answered(LostRace)])
  {
    var won := ClaimStep(s, c);
    assert won.db.events[id].status == Status.Claimed;
    AlwaysLawful(won, between);
    assert Evolves(won.db.events[id], won.db.now, Play(won, between).db.events[id], Play(won, between).db.now);
  }

  // ---------- keys ----------

  ghost predicate InHand(pc: ClaimPc, e: nat) {
    pc == Won(e) || pc == Marked(e)
  }

  /** A win is unique per event and consumed its pending state; a key in hand or released belongs to
      the winner, and is released once. */
  ghost predicate KeysSound(s: Sys) {
    && (forall i, j :: 0 <= i < j < |s.wins| ==> s.wins[i].event != s.wins[j].event)
    && (forall w :: w in s.wins ==>
          w.claim in s.claims && w.event < |s.db.events| && s.db.events[w.event].status != Status.Pending)
    && (forall c, e :: c in s.claims && InHand(s.claims[c], e) ==> Ticket(c, e) in s.wins)
    && (forall c, e :: c in s.claims && InHand(s.claims[c], e) ==> Ticket(c, e) !in s.released)
    && (forall w :: w in s.released ==> w in s.wins && s.claims[w.claim].Answered?)
    && (forall i, j :: 0 <= i < j < |s.released| ==> s.released[i].event != s.released[j].event)
  }

  lemma WinKeepsKeys(s: Sys, c: nat, id: nat)
    requires c in s.claims && KeysSound(s) && s.claims[c] == Checked(id)
    requires id < |s.db.events| && s.db.events[id].status == Status.Pending
    ensures KeysSound(ClaimStep(s, c))
  {
    var r := ClaimStep(s, c);
    assert forall w :: w in r.wins <==> w in s.wins || w == Ticket(c, id);
    assert forall w :: w in s.wins ==> w.event != id;
    assert forall w :: w in s.released ==> w in s.wins;
  }

  lemma ReleaseKeepsKeys(s: Sys, c: nat, id: nat)
    requires c in s.claims && KeysSound(s) && s.claims[c] == Marked(id)
    ensures KeysSound(ClaimStep(s, c))
  {
    assert InHand(s.claims[c], id);
    var r := ClaimStep(s, c);
    assert forall w :: w in r.released ==> w in s.released || w == Ticket(c, id);
    forall w | w in s.released ensures w.event != id {
      if w.event == id {
        UniqueWin(s.wins, w, Ticket(c, id));
      }
    }
  }

  lemma UniqueWin(wins: seq<Ticket>, v: Ticket, w: Ticket)
    requires forall i, j :: 0 <= i < j < |wins| ==> wins[i].event != wins[j].event
    requires v in wins && w in wins && v.event == w.event
    ensures v == w
  {}

  lemma ClaimStepKeepsKeys(s: Sys, c: nat)
    requires c in s.claims && KeysSound(s)
    ensures KeysSound(ClaimStep(s, c))
  {
    match s.claims[c]
    case Asked(_, _) =>
    case Checked(id) =>
      if id < |s.db.events| && s.db.events[id].status == Status.Pending {
        WinKeepsKeys(s, c, id);
      }
    case Won(id) =>
      assert InHand(s.claims[c], id);
    case Marked(id) => ReleaseKeepsKeys(s, c, id);
    case Answered(_) =>
  }

  lemma TakeKeepsKeys(s: Sys, m: Move)
    requires KeysSound(s)
    ensures KeysSound(Take(s, m))
  {
    TakeHistory(s, m);
    match m
    case ClaimMoves(c) => if c in s.claims { ClaimStepKeepsKeys(s, c); }
    case LoginMoves(l) => if l in s.logins { LoginStepEvents(s, l); }
    case _ =>
  }

  /** A claim is logged as the winner of an event only by the update that moved it out of pending. */
  lemma WinsOnlyByUpdate(s: Sys, m: Move)
    ensures var r := Take(s, m);
      r.wins == s.wins ||
      exists c: nat, e: nat :: m == ClaimMoves(c) && e < |s.db.events| && r.wins == s.wins + [Ticket(c, e)]
        && s.db.events[e].status == Status.Pending && r.db.events[e].status == Status.Claimed
  {
    match m
    case ClaimMoves(c) =>
      if c in s.claims && s.claims[c].Checked? && s.claims[c].won < |s.db.events| {
        var r := ClaimStep(s, c);
        assert r.db.events == s.db.events || r.wins == s.wins + [Ticket(c, s.claims[c].won)];
      }
    case _ =>
  }

  /** Under any interleaving each event's key is released at most once, and only by the claim that won it. */
  lemma {:induction false} KeyReleasedOnce(s: Sys, moves: seq<Move>)
    requires KeysSound(s)
    ensures var r := Play(s, moves);
      && KeysSound(r)
      && (forall i, j :: 0 <= i < j < |r.released| ==> r.released[i].event != r.released[j].event)
      && (forall w :: w in r.released ==> w in r.wins)
      && (forall v, w :: v in r.wins && w in r.wins && v.event == w.event ==> v == w)
    decreases |moves|
  {
    if moves != [] {
      KeyReleasedOnce(s, moves[..|moves| - 1]);
      TakeKeepsKeys(Play(s, moves[..|moves| - 1]), moves[|moves| - 1]);
    }
  }

  // ---------- handlers are interleavings ----------

  function Iterate<S>(f: S -> S, s: S, n: nat): S {
    if n == 0 then s else Iterate(f, f(s), n - 1)
  }

  lemma {:induction false} IterateMore<S>(f: S -> S, s: S, n: nat, m: nat)
    ensures Iterate(f, s, n + m) == Iterate(f, Iterate(f, s, n), m)
  {
    if n > 0 {
      IterateMore(f, f(s), n - 1, m);
    }
  }

  lemma JoinIterate<S>(f: S -> S, s: S, n: nat, mid: S, m: nat, to: S) returns (k: nat)
    requires Iterate(f, s, n) == mid && Iterate(f, mid, m) == to
    ensures Iterate(f, s, k) == to
  {
    IterateMore(f, s, n, m);
    k := n + m;
  }

  function Next(s: (Pc, Db)): (Pc, Db) {
    Advance(s.0, s.1)
  }

  /** The scheduler thread running alone for `n` statements. */
  function Alone(pc: Pc, db: Db, n: nat): (Pc, Db) {
    Iterate(Next, (pc, db), n)
  }

  lemma Chain(pc: Pc, db: Db, n: nat, m: nat)
    ensures Alone(pc, db, n + m) == Alone(Alone(pc, db, n).0, Alone(pc, db, n).1, m)
  {
    IterateMore(Next, (pc, db), n, m);
  }

  lemma {:induction false} AssetLoopAlone(job: Job, rows: seq<Row>, bound: set<int>, db: Db) returns (n: nat)
    ensures Alone(AssetLoop(job, rows, bound), db, n) ==
      (CategorySelect(job, bound + RowAssets(rows)), AssetPass(db, job.uid, job.days, rows))
    decreases |rows|
  {
    if rows == [] {
      n := 1;
      assert bound + RowAssets(rows) == bound;
      assert Alone(CategorySelect(job, bound), db, 0) == (CategorySelect(job, bound), db);
    } else {
      var mid := AssetStep(db, job.uid, job.days, rows[0]);
      var next := AssetLoop(job, rows[1..], bound + {rows[0].asset});
      RowAssetsStep(rows);
      var m := AssetLoopAlone(job, rows[1..], bound + {rows[0].asset}, mid);
      assert bound + {rows[0].asset} + RowAssets(rows[1..]) == bound + RowAssets(rows);
      n := StepsOfRow(AssetLoop(job, rows, bound), db, next, mid);
      Chain(AssetLoop(job, rows, bound), db, n, m);
      n := n + m;
    }
  }

  lemma RowAssetsStep(rows: seq<Row>)
    requires rows != []
    ensures RowAssets(rows) == {rows[0].asset} + RowAssets(rows[1..])
  {}

  /** A loop iteration takes one statement, or three when it inserts. */
  lemma StepsOfRow(pc: Pc, db: Db, next: Pc, mid: Db) returns (n: nat)
    requires Advance(pc, db) == (next, mid)
      || (Advance(pc, db).0.Insert? && Advance(pc, db).1 == db && Advance(pc, db).0.next == next
          && var i := Advance(pc, db).0; mid == CreateEvent(db, i.uid, i.target, i.inheritor, i.codeHash))
    ensures Alone(pc, db, n) == (next, mid)
  {
    var (p1, d1) := Advance(pc, db);
    if (p1, d1) == (next, mid) {
      n := 1;
      assert Alone(p1, d1, 0) == (p1, d1);
    } else {
      n := 3;
      var (p2, d2) := Advance(p1, d1);
      var (p3, d3) := Advance(p2, d2);
      assert Alone(p3, d3, 0) == (next, mid);
      assert Alone(p2, d2, 1) == (next, mid);
      assert Alone(p1, d1, 2) == (next, mid);
    }
  }

  lemma {:induction false} CategoryLoopAlone(job: Job, rows: seq<Row>, bound: set<int>, db: Db) returns (n: nat)
    ensures var (r, all) := CategoryPass(db, job.uid, job.days, rows, bound);
      Alone(CategoryLoop(job, rows, bound), db, n) == (CountAssets(job, all), r)
    decreases |rows|
  {
    if rows == [] {
      n := 1;
      assert Alone(CountAssets(job, bound), db, 0) == (CountAssets(job, bound), db);
    } else {
      var (mid, bound') := CategoryStep(db, job.uid, job.days, rows[0], bound);
      var m := CategoryLoopAlone(job, rows[1..], bound', mid);
      n := StepsOfRow(CategoryLoop(job, rows, bound), db, CategoryLoop(job, rows[1..], bound'), mid);
      Chain(CategoryLoop(job, rows, bound), db, n, m);
      n := n + m;
    }
  }

  lemma Prefix(pc: Pc, db: Db, m: nat, to: Pc, r: Db) returns (n: nat)
    requires Alone(Advance(pc, db).0, Advance(pc, db).1, m) == (to, r)
    ensures Alone(pc, db, n) == (to, r)
  {
    n := m + 1;
  }

  lemma FirstHeirAlone(job: Job, db: Db) returns (n: nat)
    ensures var h := FirstInheritor(db.config.inheritors, job.uid);
      Alone(FetchFirst(job), db, n) ==
        (NextUser(job), if h.None? then db else CreateEvent(db, job.uid, None, h.value.id, h.value.codeHash))
  {
    var h := FirstInheritor(db.config.inheritors, job.uid);
    n := StepsOfRow(FetchFirst(job), db, NextUser(job),
      if h.None? then db else CreateEvent(db, job.uid, None, h.value.id, h.value.codeHash));
  }

  lemma HeirAlone(job: Job, db: Db) returns (n: nat)
    ensures var h := UserHeir(db.config, job.uid);
      Alone(ReadDefault(job), db, n) ==
        (NextUser(job), if h.None? then db else CreateEvent(db, job.uid, None, h.value.id, h.value.codeHash))
  {
    var d := DefaultHeir(db.config, job.uid);
    if d.Some? {
      var r := CreateEvent(db, job.uid, None, d.value.id, d.value.codeHash);
      n := StepsOfRow(FetchDefault(job, db.config.defaultInheritor[job.uid]), db, NextUser(job), r);
      n := Prefix(ReadDefault(job), db, n, NextUser(job), r);
    } else {
      var h := FirstInheritor(db.config.inheritors, job.uid);
      var r := if h.None? then db else CreateEvent(db, job.uid, None, h.value.id, h.value.codeHash);
      n := FirstHeirAlone(job, db);
      if job.uid in db.config.defaultInheritor {
        n := Prefix(FetchDefault(job, db.config.defaultInheritor[job.uid]), db, n, NextUser(job), r);
      }
      n := Prefix(ReadDefault(job), db, n, NextUser(job), r);
    }
  }

  lemma UserPartAlone(job: Job, bound: set<int>, db: Db) returns (n: nat)
    ensures Alone(CountAssets(job, bound), db, n) == (NextUser(job), UserPass(db, job.uid, bound))
  {
    var done, r := NextUser(job), UserPass(db, job.uid, bound);
    var total := |ActiveAssets(db.config, job.uid)|;
    if |bound| >= total && total > 0 {
      n := StepsOfRow(CountAssets(job, bound), db, done, r);
    } else {
      if Live(db.events, job.uid, None) {
        n := StepsOfRow(CountUserEvents(job), db, done, r);
      } else {
        n := HeirAlone(job, db);
        n := Prefix(CountUserEvents(job), db, n, done, r);
      }
      n := Prefix(CountAssets(job, bound), db, n, done, r);
    }
  }

  lemma Join(pc: Pc, db: Db, n: nat, mid: Pc, d: Db, m: nat, to: Pc, r: Db) returns (k: nat)
    requires Alone(pc, db, n) == (mid, d) && Alone(mid, d, m) == (to, r)
    ensures Alone(pc, db, k) == (to, r)
  {
    k := JoinIterate(Next, (pc, db), n, (mid, d), m, (to, r));
  }

  lemma AssetPhase(job: Job, db: Db) returns (n: nat)
    ensures var rows := AssetQuery(db.config, job.uid);
      Alone(AssetSelect(job), db, n) == (CategorySelect(job, RowAssets(rows)), AssetPass(db, job.uid, job.days, rows))
  {
    var rows := AssetQuery(db.config, job.uid);
    var d := AssetPass(db, job.uid, job.days, rows);
    assert {} + RowAssets(rows) == RowAssets(rows);
    n := AssetLoopAlone(job, rows, {}, db);
    n := Prefix(AssetSelect(job), db, n, CategorySelect(job, RowAssets(rows)), d);
  }

  lemma CategoryPhase(job: Job, bound: set<int>, db: Db) returns (n: nat)
    ensures var (r, all) := CategoryPass(db, job.uid, job.days, CategoryQuery(db.config, job.uid), bound);
      Alone(CategorySelect(job, bound), db, n) == (CountAssets(job, all), r)
  {
    var rows := CategoryQuery(db.config, job.uid);
    var (r, all) := CategoryPass(db, job.uid, job.days, rows, bound);
    n := CategoryLoopAlone(job, rows, bound, db);
    n := Prefix(CategorySelect(job, bound), db, n, CountAssets(job, all), r);
  }

  lemma TriggerAlone(job: Job, db: Db) returns (n: nat)
    ensures Alone(AssetSelect(job), db, n) == (NextUser(job), Trigger(db, job.uid, job.days))
  {
    var c, uid, days := db.config, job.uid, job.days;
    var rows := AssetQuery(c, uid);
    var bound, d1 := RowAssets(rows), AssetPass(db, uid, days, rows);
    AssetPassExtends(db, uid, days, rows);
    var (d2, all) := CategoryPass(d1, uid, days, CategoryQuery(c, uid), bound);
    var n1 := AssetPhase(job, db);
    var n2 := CategoryPhase(job, bound, d1);
    n := Join(AssetSelect(job), db, n1, CategorySelect(job, bound), d1, n2, CountAssets(job, all), d2);
    var n3 := UserPartAlone(job, all, d2);
    n := Join(AssetSelect(job), db, n, CountAssets(job, all), d2, n3, NextUser(job), UserPass(d2, uid, all));
  }

  lemma {:induction false} UsersAlone(tick: int, rows: seq<UserRow>, db: Db) returns (n: nat)
    ensures Alone(Users(tick, rows), db, n) == (Idle, ScanRows(db, tick, rows))
    decreases |rows|
  {
    if rows == [] {
      n := Prefix(Users(tick, rows), db, 0, Idle, db);
    } else {
      var row, next := rows[0], Users(tick, rows[1..]);
      var mid := ProcessUser(db, tick, row);
      n := UserAlone(tick, rows, db);
      var m := UsersAlone(tick, rows[1..], mid);
      n := Join(Users(tick, rows), db, n, next, mid, m, Idle, ScanRows(db, tick, rows));
    }
  }

  lemma UserAlone(tick: int, rows: seq<UserRow>, db: Db) returns (n: nat)
    requires rows != []
    ensures Alone(Users(tick, rows), db, n) == (Users(tick, rows[1..]), ProcessUser(db, tick, rows[0]))
  {
    var row, next := rows[0], Users(tick, rows[1..]);
    var mid := ProcessUser(db, tick, row);
    var rungs := RungsOf(db.config, row.uid);
    var days := DaysSince(tick, row.lastLogin);
    var idx := LastCrossed(rungs, days);
    if idx < 0 {
      n := StepsOfRow(Users(tick, rows), db, next, mid);
    } else {
      var job := Job(tick, rows[1..], row.uid, days);
      var levelling := Levelling(job, row.level, idx, |rungs|);
      var d1 := Advance(levelling, db).1;
      if idx >= |rungs| - 1 {
        n := TriggerAlone(job, d1);
        n := Prefix(levelling, db, n, next, mid);
      } else {
        n := StepsOfRow(levelling, db, next, mid);
      }
      n := Prefix(Users(tick, rows), db, n, next, mid);
    }
  }

  /** Left undisturbed, the statements of one pass compute exactly the scan as one step. */
  lemma UninterruptedScan(db: Db, tick: int, order: seq<int>)
    ensures exists n: nat :: Alone(Users(tick, Snapshot(db, order)), db, n) == (Idle, Scan(db, tick, order))
  {
    var n := UsersAlone(tick, Snapshot(db, order), db);
  }

  lemma Play4(s: Sys, a: Move, b: Move, c: Move, d: Move)
    ensures Play(s, [a, b, c, d]) == Take(Take(Take(Take(s, a), b), c), d)
  {
    assert [a, b, c, d][..3] == [a, b, c] && [a, b, c][..2] == [a, b] && [a, b][..1] == [a] && [a][..0] == [];
    assert Play(s, [a]) == Take(s, a);
    assert Play(s, [a, b]) == Take(Take(s, a), b);
    assert Play(s, [a, b, c]) == Take(Take(Take(s, a), b), c);
  }

  /** Left undisturbed, the statements of one login compute the login as one step. */
  lemma UninterruptedLogin(s: Sys, l: nat, uid: int)
    requires l !in s.logins
    ensures Play(s, [StartLogin(l, uid), LoginMoves(l), LoginMoves(l), LoginMoves(l)]).db == Login(s.db, uid)
  {
    Play4(s, StartLogin(l, uid), LoginMoves(l), LoginMoves(l), LoginMoves(l));
  }

  /** Left undisturbed, the statements of one claim compute the claim as one step, with its answer. */
  lemma UninterruptedClaim(s: Sys, c: nat, id: int, codeHash: int)
    requires c !in s.claims
    ensures var r := Play(Take(s, StartClaim(c, id, codeHash)),
                          [ClaimMoves(c), ClaimMoves(c), ClaimMoves(c), ClaimMoves(c)]);
      && r.db == Claim(s.db, id, codeHash).0
      && c in r.claims && r.claims[c] == Answered(Claim(s.db, id, codeHash).1)
  {
    var asked := Take(s, StartClaim(c, id, codeHash));
    Play4(asked, ClaimMoves(c), ClaimMoves(c), ClaimMoves(c), ClaimMoves(c));
    var r := ClaimStep(asked, c);
    if r.claims[c].Checked? {
      var won := ClaimStep(r, c);
      assert won.claims[c] == Won(id) && won.db == ClaimUpdate(s.db, id);
      var marked := ClaimStep(won, c);
      assert marked.claims[c] == Marked(id) && marked.db == Claim(s.db, id, codeHash).0;
    }
  }

  // ---------- what interleaving breaks ----------

  /** A login that reads the stage between the scheduler's insert and its stage update leaves the new
      event pending behind an inactive stage. */
  lemma StageUnsoundAcrossStatements(s: Sys, l: nat, uid: int, next: Pc)
    requires s.pc == MarkStage(uid, next) && uid in s.db.users && s.db.users[uid].stage == Stage.Inactive
    requires s.db.events != [] && s.db.events[|s.db.events| - 1].owner == uid
    requires s.db.events[|s.db.events| - 1].status == Status.Pending && l in s.logins && s.logins[l] == Proven(uid)
    ensures var r := Play(s, [LoginMoves(l), Scheduler, LoginMoves(l), LoginMoves(l)]);
      && l in r.logins && r.logins[l] == LoggedIn
      && uid in r.db.users && r.db.users[uid].stage == Stage.Inactive
      && r.db.events == s.db.events && !StageSound(r.db)
  {
    Play4(s, LoginMoves(l), Scheduler, LoginMoves(l), LoginMoves(l));
  }

  /** An owner with one inheritor and no assets, silent for sixty days under the default ladder. */
  function SilentOwner(): Db {
    Db(Config([], [], [Inheritor(7, 1, 1, 99)], [], [], map[], [15, 60], map[]),
       map[1 := User(Stage.Inactive, 0, Some(0), true)], [], 60 * DAY)
  }

  lemma SilentOwnerLoops(db: Db, job: Job) returns (n: nat)
    requires db.config == SilentOwner().config && db.events == [] && job == Job(60 * DAY, [], 1, 60)
    ensures Alone(AssetSelect(job), db, n) == (MarkStage(1, NextUser(job)), InsertEvent(db, 1, None, 7, 99))
  {
    var mark, db2 := MarkStage(1, NextUser(job)), InsertEvent(db, 1, None, 7, 99);
    assert [Inheritor(7, 1, 1, 99)][1..] == [];
    n := Prefix(Insert(1, None, 7, 99, NextUser(job)), db, 0, mark, db2);
    n := Prefix(FetchFirst(job), db, n, mark, db2);
    n := Prefix(ReadDefault(job), db, n, mark, db2);
    n := Prefix(CountUserEvents(job), db, n, mark, db2);
    assert ActiveAssets(db.config, 1) == {};
    n := Prefix(CountAssets(job, {}), db, n, mark, db2);
    n := Prefix(CategoryLoop(job, [], {}), db, n, mark, db2);
    n := Prefix(CategorySelect(job, {}), db, n, mark, db2);
    n := Prefix(AssetLoop(job, [], {}), db, n, mark, db2);
    n := Prefix(AssetSelect(job), db, n, mark, db2);
  }

  lemma SilentOwnerInserted() returns (n: nat)
    ensures Alone(Users(60 * DAY, [UserRow(1, 0, 0)]), SilentOwner(), n) ==
      (MarkStage(1, Users(60 * DAY, [])), InsertEvent(SetLevel(SilentOwner(), 1, 1), 1, None, 7, 99))
  {
    var job, db := Job(60 * DAY, [], 1, 60), SilentOwner();
    var mark, db2 := MarkStage(1, NextUser(job)), InsertEvent(SetLevel(db, 1, 1), 1, None, 7, 99);
    assert [UserRow(1, 0, 0)][1..] == [];
    assert RungsOf(db.config, 1) == [15, 60] && LastCrossed([15, 60], 60) == 1;
    n := SilentOwnerLoops(SetLevel(db, 1, 1), job);
    n := Prefix(Levelling(job, 0, 1, 2), db, n, mark, db2);
    n := Prefix(Users(60 * DAY, [UserRow(1, 0, 0)]), db, n, mark, db2);
  }

  function RaceStart(): Sys {
    Sys(SilentOwner(), Idle, map[], map[0 := Proven(1)], [], [])
  }

  /** The scan of the silent owner, stopped between the insert and the stage update. */
  lemma SilentOwnerScanned() returns (moves: seq<Move>)
    ensures Play(RaceStart(), moves) == RaceStart().(pc := MarkStage(1, Users(60 * DAY, [])),
                                                     db := InsertEvent(SetLevel(SilentOwner(), 1, 1), 1, None, 7, 99))
  {
    var s0 := RaceStart();
    var n := SilentOwnerInserted();
    var start, scan := [StartScan(60 * DAY, [1])], seq(n, _ => Scheduler);
    assert start[..0] == [] && [1][1..] == [];
    assert Play(s0, start) == s0.(pc := Users(60 * DAY, [UserRow(1, 0, 0)]));
    PlayScheduler(Play(s0, start), n);
    PlayConcat(s0, start, scan);
    moves := start + scan;
  }

  /** Such a run exists from a sound state, so the stage invariant needs handlers to be atomic. */
  lemma StageRaceExists()
    ensures exists s: Sys, moves :: s.pc.Idle? && StageSound(s.db) && !StageSound(Play(s, moves).db)
  {
    var scan := SilentOwnerScanned();
    var race := [LoginMoves(0), Scheduler, LoginMoves(0), LoginMoves(0)];
    StageUnsoundAcrossStatements(Play(RaceStart(), scan), 0, 1, Users(60 * DAY, []));
    PlayConcat(RaceStart(), scan, race);
    assert RaceStart().pc.Idle? && StageSound(RaceStart().db) && !StageSound(Play(RaceStart(), scan + race).db);
  }

  lemma {:induction false} PlayConcat(s: Sys, xs: seq<Move>, ys: seq<Move>)
    ensures Play(s, xs + ys) == Play(Play(s, xs), ys)
    decreases |ys|
  {
    if ys == [] {
      assert xs + ys == xs;
    } else {
      assert (xs + ys)[..|xs + ys| - 1] == xs + ys[..|ys| - 1];
      PlayConcat(s, xs, ys[..|ys| - 1]);
    }
  }

  /** Scheduler moves in a row are the scheduler thread running alone. */
  lemma {:induction false} PlayScheduler(s: Sys, n: nat)
    ensures Play(s, seq(n, _ => Scheduler)) == s.(pc := Alone(s.pc, s.db, n).0, db := Alone(s.pc, s.db, n).1)
  {
    if n > 0 {
      var moves := seq(n, _ => Scheduler);
      assert moves[..n - 1] == seq(n - 1, _ => Scheduler);
      PlayScheduler(s, n - 1);
      Chain(s.pc, s.db, n - 1, 1);
      var (p, d) := Alone(s.pc, s.db, n - 1);
      assert Alone(Advance(p, d).0, Advance(p, d).1, 0) == Advance(p, d);
      assert Alone(p, d, 1) == Advance(p, d);
    }
  }
}
