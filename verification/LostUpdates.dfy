/** The stage at statement granularity. A login reads the stage, resets the owner, and reverses events
    only if the stage it read was not inactive. When somebody sets the stage in between, the reset
    loses that update. This is the only way in which an inactive stage can hide an open event. */
module LostUpdates {
  import opened Base
  import opened Estate
  import opened Inheritance
  import opened Escalation
  import opened Handlers
  import opened Interleaving

  // ---------- owners are known ----------

  ghost predicate KnownRows(rows: seq<UserRow>, users: set<int>) {
    forall i :: 0 <= i < |rows| ==> rows[i].uid in users
  }

  ghost predicate KnownJob(job: Job, users: set<int>) {
    job.uid in users && KnownRows(job.rest, users)
  }

  /** The scheduler only works for registered users. */
  ghost predicate Known(pc: Pc, users: set<int>) {
    match pc
    case Idle => true
    case Users(_, rows) => KnownRows(rows, users)
    case Insert(uid, _, _, _, next) => uid in users && Known(next, users)
    case MarkStage(uid, next) => uid in users && Known(next, users)
    case Levelling(job, _, _, _) => KnownJob(job, users)
    case AssetSelect(job) => KnownJob(job, users)
    case AssetLoop(job, _, _) => KnownJob(job, users)
    case CategorySelect(job, _) => KnownJob(job, users)
    case CategoryLoop(job, _, _) => KnownJob(job, users)
    case CountAssets(job, _) => KnownJob(job, users)
    case CountUserEvents(job) => KnownJob(job, users)
    case ReadDefault(job) => KnownJob(job, users)
    case FetchDefault(job, _) => KnownJob(job, users)
    case FetchFirst(job) => KnownJob(job, users)
  }

  ghost predicate OwnersKnown(s: Sys) {
    && Known(s.pc, s.db.users.Keys)
    && forall i :: 0 <= i < |s.db.events| ==> s.db.events[i].owner in s.db.users
  }

  lemma {:induction false} KnownMore(pc: Pc, users: set<int>, more: set<int>)
    requires Known(pc, users) && users <= more
    ensures Known(pc, more)
  {
    if pc.Insert? || pc.MarkStage? {
      KnownMore(pc.next, users, more);
    }
  }

  lemma AdvanceKnown(pc: Pc, db: Db)
    requires Known(pc, db.users.Keys)
    ensures Known(Advance(pc, db).0, db.users.Keys) && Advance(pc, db).1.users.Keys == db.users.Keys
  {}

  // ---------- what covers an open event ----------

  predicate Marking(pc: Pc, uid: int) {
    pc.MarkStage? && pc.uid == uid
  }

  predicate WillReverse(pc: LoginPc, uid: int) {
    pc.OwnerReset? && pc.uid == uid && pc.stage != Stage.Inactive
  }

  ghost predicate Reversing(s: Sys, uid: int) {
    exists l :: l in s.logins && WillReverse(s.logins[l], uid)
  }

  /** The stage says that something may be open, or a thread is about to set it or to reverse. */
  ghost predicate Excused(s: Sys, uid: int) {
    (uid in s.db.users && s.db.users[uid].stage != Stage.Inactive) || Marking(s.pc, uid) || Reversing(s, uid)
  }

  ghost predicate Open(s: Sys, i: int) {
    0 <= i < |s.db.events| && !Settled(s.db.events[i], s.db.now)
  }

  /** Every open event is covered. */
  ghost predicate Covered(s: Sys) {
    OwnersKnown(s) && forall i :: Open(s, i) ==> Excused(s, s.db.events[i].owner)
  }

  /** No thread is between the two statements that must go together. */
  ghost predicate AtRest(s: Sys) {
    !s.pc.MarkStage? && forall l :: l in s.logins && s.logins[l].OwnerReset? ==> s.logins[l].stage == Stage.Inactive
  }

  lemma RestIsSound(s: Sys)
    requires Covered(s) && AtRest(s)
    ensures StageSound(s.db)
  {
    forall i | 0 <= i < |s.db.events| && s.db.users[s.db.events[i].owner].stage == Stage.Inactive
      ensures Settled(s.db.events[i], s.db.now)
    {
      assert !Excused(s, s.db.events[i].owner);
      assert !Open(s, i);
    }
  }

  // ---------- lost updates ----------

  /** A login that read an inactive stage is about to reset a stage that no longer is. */
  predicate LostUpdate(s: Sys, m: Move) {
    m.LoginMoves? && m.l in s.logins && s.logins[m.l].StageRead? && s.logins[m.l].stage == Stage.Inactive
    && s.logins[m.l].uid in s.db.users && s.db.users[s.logins[m.l].uid].stage != Stage.Inactive
  }

  /** A lost update that matters: the owner has an open event, and no other thread makes good for it. */
  ghost predicate Harmful(s: Sys, m: Move) {
    LostUpdate(s, m) &&
    var uid := s.logins[m.l].uid;
    !Marking(s.pc, uid) && !Reversing(s, uid) && exists i :: Open(s, i) && s.db.events[i].owner == uid
  }

  /** What a move leaves as it was, event by event: an open event was open before and had this owner. */
  ghost predicate NothingOpened(s: Sys, r: Sys) {
    |r.db.events| == |s.db.events|
    && forall i :: 0 <= i < |s.db.events| ==>
         r.db.events[i].owner == s.db.events[i].owner && (Open(r, i) ==> Open(s, i))
  }

  lemma StillCovered(s: Sys, r: Sys)
    requires Covered(s) && NothingOpened(s, r) && OwnersKnown(r)
    requires forall i :: Open(r, i) && Excused(s, s.db.events[i].owner) ==> Excused(r, s.db.events[i].owner)
    ensures Covered(r)
  {}

  lemma ReversingKept(s: Sys, r: Sys, l: nat, uid: int)
    requires forall k :: k in s.logins && k != l ==> k in r.logins && r.logins[k] == s.logins[k]
    requires l in s.logins ==> !WillReverse(s.logins[l], uid)
    ensures Reversing(s, uid) ==> Reversing(r, uid)
  {}

  lemma SchedulerCovers(s: Sys)
    requires Covered(s)
    ensures Covered(Take(s, Scheduler))
  {
    var r := Take(s, Scheduler);
    AdvanceKnown(s.pc, s.db);
    AdvanceEvents(s.pc, s.db);
    forall i | Open(r, i) ensures Excused(r, r.db.events[i].owner) {
      if i < |s.db.events| {
        assert Open(s, i);
        assert Reversing(s, r.db.events[i].owner) ==> Reversing(r, r.db.events[i].owner);
      }
    }
  }

  lemma ClaimCovers(s: Sys, c: nat)
    requires Covered(s) && c in s.claims
    ensures Covered(ClaimStep(s, c))
  {
    var r := ClaimStep(s, c);
    ClaimStepEvents(s, c);
    assert NothingOpened(s, r) && r.db.users.Keys == s.db.users.Keys;
    assert forall uid :: Reversing(s, uid) ==> Reversing(r, uid);
    StillCovered(s, r);
  }

  lemma LoginCovers(s: Sys, l: nat)
    requires Covered(s) && l in s.logins && !Harmful(s, LoginMoves(l))
    ensures Covered(LoginStep(s, l))
  {
    var r := LoginStep(s, l);
    LoginStepEvents(s, l);
    match s.logins[l] {
      case Proven(_) =>
        forall uid ensures Reversing(s, uid) ==> Reversing(r, uid) { ReversingKept(s, r, l, uid); }
        StillCovered(s, r);
      case StageRead(_, _) => ResetCovers(s, l);
      case OwnerReset(_, _) => ReversalCovers(s, l);
      case LoggedIn =>
    }
  }

  lemma ResetCovers(s: Sys, l: nat)
    requires Covered(s) && l in s.logins && s.logins[l].StageRead? && !Harmful(s, LoginMoves(l))
    ensures Covered(LoginStep(s, l))
  {
    var r, uid, stage := LoginStep(s, l), s.logins[l].uid, s.logins[l].stage;
    assert r.logins[l] == OwnerReset(uid, stage) && r.db.users.Keys == s.db.users.Keys;
    forall v ensures Reversing(s, v) ==> Reversing(r, v) { ReversingKept(s, r, l, v); }
    forall i | Open(r, i) && Excused(s, s.db.events[i].owner) ensures Excused(r, s.db.events[i].owner) {
      assert Open(s, i);
      if s.db.events[i].owner == uid && stage != Stage.Inactive {
        assert WillReverse(r.logins[l], uid);
      }
    }
    StillCovered(s, r);
  }

  lemma ReversalCovers(s: Sys, l: nat)
    requires Covered(s) && l in s.logins && s.logins[l].OwnerReset?
    ensures Covered(LoginStep(s, l))
  {
    var r, uid := LoginStep(s, l), s.logins[l].uid;
    LoginStepEvents(s, l);
    assert r.db.users == s.db.users;
    forall i | Open(r, i) && Excused(s, s.db.events[i].owner) ensures Excused(r, s.db.events[i].owner) {
      assert !WillReverse(s.logins[l], s.db.events[i].owner);
      ReversingKept(s, r, l, s.db.events[i].owner);
    }
    StillCovered(s, r);
  }

  lemma OtherCovers(s: Sys, m: Move)
    requires Covered(s) && !m.Scheduler? && !m.ClaimMoves? && !m.LoginMoves?
    ensures Covered(Take(s, m))
  {
    var r := Take(s, m);
    if m.StartScan? {
      SnapshotRows(s.db, m.order);
      assert forall i :: 0 <= i < |Snapshot(s.db, m.order)| ==> Snapshot(s.db, m.order)[i] in Snapshot(s.db, m.order);
    }
    KnownMore(s.pc, s.db.users.Keys, r.db.users.Keys);
    forall uid ensures Reversing(s, uid) ==> Reversing(r, uid) {
      if Reversing(s, uid) {
        var k :| k in s.logins && WillReverse(s.logins[k], uid);
        assert k in r.logins && r.logins[k] == s.logins[k];
      }
    }
    StillCovered(s, r);
  }

  /** A harmful lost update leaves an open event behind an inactive stage. */
  lemma HarmUncovers(s: Sys, m: Move)
    requires Harmful(s, m)
    ensures !Covered(Take(s, m)) && !StageSound(Take(s, m).db)
  {
    var r, uid := Take(s, m), s.logins[m.l].uid;
    var i :| Open(s, i) && s.db.events[i].owner == uid;
    assert Open(r, i) && r.db.users[uid].stage == Stage.Inactive;
    forall k | k in r.logins ensures !WillReverse(r.logins[k], uid) {
      assert k != m.l ==> r.logins[k] == s.logins[k];
    }
    assert !Reversing(r, uid);
  }

  /** One move keeps every open event covered exactly when it is not a harmful lost update. */
  lemma MoveCoversIff(s: Sys, m: Move)
    requires Covered(s)
    ensures Covered(Take(s, m)) <==> !Harmful(s, m)
  {
    if Harmful(s, m) {
      HarmUncovers(s, m);
    } else {
      match m {
        case Scheduler => SchedulerCovers(s);
        case ClaimMoves(c) => if c in s.claims { ClaimCovers(s, c); }
        case LoginMoves(l) => if l in s.logins { LoginCovers(s, l); }
        case _ => OtherCovers(s, m);
      }
    }
  }

  // ---------- runs ----------

  ghost predicate CoveredThroughout(s: Sys, moves: seq<Move>) {
    forall k :: 0 <= k <= |moves| ==> Covered(Play(s, moves[..k]))
  }

  ghost predicate Harmless(s: Sys, moves: seq<Move>) {
    forall k :: 0 <= k < |moves| ==> !Harmful(Play(s, moves[..k]), moves[k])
  }

  ghost predicate NothingLost(s: Sys, moves: seq<Move>) {
    forall k :: 0 <= k < |moves| ==> !LostUpdate(Play(s, moves[..k]), moves[k])
  }

  lemma PlayNext(s: Sys, moves: seq<Move>, k: nat)
    requires k < |moves|
    ensures Play(s, moves[..k + 1]) == Take(Play(s, moves[..k]), moves[k])
  {
    assert moves[..k + 1][..k] == moves[..k];
  }

  lemma {:induction false} CoveredUpTo(s: Sys, moves: seq<Move>, k: nat)
    requires Covered(s) && Harmless(s, moves) && k <= |moves|
    ensures Covered(Play(s, moves[..k]))
  {
    if k > 0 {
      CoveredUpTo(s, moves, k - 1);
      PlayNext(s, moves, k - 1);
      MoveCoversIff(Play(s, moves[..k - 1]), moves[k - 1]);
    }
  }

  /** Over any interleaving, every open event stays covered throughout exactly when no login makes a
      harmful lost update. */
  lemma CoveredIff(s: Sys, moves: seq<Move>)
    requires Covered(s)
    ensures CoveredThroughout(s, moves) <==> Harmless(s, moves)
  {
    if CoveredThroughout(s, moves) {
      forall k | 0 <= k < |moves| ensures !Harmful(Play(s, moves[..k]), moves[k]) {
        PlayNext(s, moves, k);
        assert Covered(Play(s, moves[..k])) && Covered(Play(s, moves[..k + 1]));
        MoveCoversIff(Play(s, moves[..k]), moves[k]);
      }
    }
    if Harmless(s, moves) {
      forall k | 0 <= k <= |moves| ensures Covered(Play(s, moves[..k])) {
        CoveredUpTo(s, moves, k);
      }
    }
  }

  /** So whenever a run without lost updates comes to rest, an inactive stage means that nothing of the
      owner is pending or still reversible. */
  lemma StageSoundAtRest(s: Sys, moves: seq<Move>)
    requires Covered(s) && NothingLost(s, moves) && AtRest(Play(s, moves))
    ensures StageSound(Play(s, moves).db)
  {
    CoveredUpTo(s, moves, |moves|);
    assert moves[..|moves|] == moves;
    RestIsSound(Play(s, moves));
  }

  // ---------- where lost updates come from ----------

  /** A statement that sets the owner's stage to something else than inactive. */
  predicate SetsStage(s: Sys, m: Move, uid: int) {
    || (m.Scheduler? && Marking(s.pc, uid))
    || (m.ClaimMoves? && m.c in s.claims && s.claims[m.c].Won? && s.claims[m.c].won < |s.db.events|
        && s.db.events[s.claims[m.c].won].owner == uid)
  }

  lemma InactiveStep(s: Sys, m: Move, uid: int)
    requires uid in s.db.users && s.db.users[uid].stage == Stage.Inactive && !SetsStage(s, m, uid)
    ensures var r := Take(s, m); uid in r.db.users && r.db.users[uid].stage == Stage.Inactive
  {}

  /** An inactive stage stays inactive as long as nobody sets it. */
  lemma {:induction false} StaysInactive(s: Sys, moves: seq<Move>, uid: int)
    requires uid in s.db.users && s.db.users[uid].stage == Stage.Inactive
    requires forall k :: 0 <= k < |moves| ==> !SetsStage(Play(s, moves[..k]), moves[k], uid)
    ensures var r := Play(s, moves); uid in r.db.users && r.db.users[uid].stage == Stage.Inactive
    decreases |moves|
  {
    if moves != [] {
      var before := moves[..|moves| - 1];
      forall k | 0 <= k < |before| ensures !SetsStage(Play(s, before[..k]), before[k], uid) {
        assert before[..k] == moves[..k];
      }
      StaysInactive(s, before, uid);
      InactiveStep(Play(s, before), moves[|before|], uid);
    }
  }

  /** A login loses an update only if another thread sets the stage between its read and its reset. */
  lemma LostOnlyBySetting(s: Sys, l: nat, moves: seq<Move>)
    requires l in s.logins && s.logins[l].Proven? && s.logins[l].uid in s.db.users
    requires var uid, start := s.logins[l].uid, LoginStep(s, l);
      forall k :: 0 <= k < |moves| ==> !SetsStage(Play(start, moves[..k]), moves[k], uid)
    ensures var r := Play(LoginStep(s, l), moves);
      l in r.logins && r.logins[l] == LoginStep(s, l).logins[l] ==> !LostUpdate(r, LoginMoves(l))
  {
    var uid := s.logins[l].uid;
    if s.db.users[uid].stage == Stage.Inactive {
      StaysInactive(LoginStep(s, l), moves, uid);
    }
  }

  // ---------- from nothing ----------

  function EmptySystem(c: Config, now: int): Sys {
    Sys(Db(c, map[], [], now), Idle, map[], map[], [], [])
  }

  /** The empty system satisfies every invariant of the interleaved runs, so they hold in every state
      that it reaches. */
  lemma ReachableSound(c: Config, now: int, moves: seq<Move>)
    ensures var s := EmptySystem(c, now); var r := Play(s, moves);
      && Exclusive(r) && KeysSound(r)
      && (Harmless(s, moves) ==> Covered(r))
      && (Harmless(s, moves) && AtRest(r) ==> StageSound(r.db))
  {
    var s := EmptySystem(c, now);
    AlwaysUnique(s, moves);
    KeyReleasedOnce(s, moves);
    if Harmless(s, moves) {
      CoveredUpTo(s, moves, |moves|);
      assert moves[..|moves|] == moves;
      if AtRest(Play(s, moves)) {
        RestIsSound(Play(s, moves));
      }
    }
  }
}
