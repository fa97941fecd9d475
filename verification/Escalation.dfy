/** One scheduler pass over the inactive users: the trigger ladder, the escalation level, and
    when the last rung starts the inheritance. */
module Escalation {
  import opened Base
  import opened Estate
  import opened Inheritance
  import opened Plain

  // ---------- specification ----------

  /** Whole days between two instants, truncated towards zero. */
  function DaysSince(tick: int, last: int): int {
    if tick >= last then (tick - last) / DAY else -((last - tick) / DAY)
  }

  function RungsOf(c: Config, uid: int): Rungs {
    if uid in c.ladders then c.ladders[uid] else c.defaultLadder
  }

  function LastRung(c: Config, uid: int): int {
    var r := RungsOf(c, uid);
    r[|r| - 1]
  }

  /** The index of the last rung that `days` reaches, -1 if there is none. */
  function LastCrossed(rungs: seq<int>, days: int): (idx: int)
    ensures -1 <= idx < |rungs|
    ensures idx >= 0 ==> days >= rungs[idx]
    ensures forall i :: idx < i < |rungs| ==> days < rungs[i]
  {
    if rungs == [] then -1
    else if days >= rungs[|rungs| - 1] then |rungs| - 1
    else LastCrossed(rungs[..|rungs| - 1], days)
  }

  /** Level of a crossed index: 1-based, and capped below the number of rungs. */
  function LevelOf(idx: int, rungs: int): int {
    if idx + 1 > rungs - 1 then rungs - 1 else idx + 1
  }

  datatype UserRow = UserRow(uid: int, level: int, lastLogin: int)

  predicate Watched(db: Db, uid: int) {
    uid in db.users && db.users[uid].lastLogin.Some? && db.users[uid].enabled
  }

  /** The user query, for the row order in which the database happens to return it. */
  function Snapshot(db: Db, order: seq<int>): seq<UserRow> {
    if order == [] then []
    else
      (if Watched(db, order[0])
       then [UserRow(order[0], db.users[order[0]].level, db.users[order[0]].lastLogin.value)] else [])
      + Snapshot(db, order[1..])
  }

  function ProcessUser(db: Db, tick: int, row: UserRow): Db {
    var rungs := RungsOf(db.config, row.uid);
    var days := DaysSince(tick, row.lastLogin);
    var idx := LastCrossed(rungs, days);
    if idx < 0 then db
    else
      var level := LevelOf(idx, |rungs|);
      var db1 := if level > row.level then SetLevel(db, row.uid, level) else db;
      if idx >= |rungs| - 1 then Trigger(db1, row.uid, days) else db1
  }

  function ScanRows(db: Db, tick: int, rows: seq<UserRow>): Db
    decreases |rows|
  {
    if rows == [] then db else ScanRows(ProcessUser(db, tick, rows[0]), tick, rows[1..])
  }

  function Scan(db: Db, tick: int, order: seq<int>): Db {
    ScanRows(db, tick, Snapshot(db, order))
  }

  // ---------- the ladder ----------

  /** Whatever the shape of the ladder, inheritance starts exactly when its last rung is reached. */
  lemma TriggersAtLastRung(rungs: Rungs, days: int)
    ensures LastCrossed(rungs, days) >= |rungs| - 1 <==> days >= rungs[|rungs| - 1]
  {}

  function CountCrossed(rungs: seq<int>, days: int): nat {
    if rungs == [] then 0 else (if days >= rungs[0] then 1 else 0) + CountCrossed(rungs[1..], days)
  }

  /** On an increasing ladder the level is the number of rungs crossed, capped below the last. */
  lemma {:induction false} LevelCountsRungs(rungs: seq<int>, days: int)
    requires forall i, j :: 0 <= i < j < |rungs| ==> rungs[i] < rungs[j]
    ensures LastCrossed(rungs, days) + 1 == CountCrossed(rungs, days)
  {
    if rungs != [] {
      LevelCountsRungs(rungs[1..], days);
      var k, m := LastCrossed(rungs, days), LastCrossed(rungs[1..], days);
      assert forall i :: 0 <= i < |rungs| - 1 ==> rungs[1..][i] == rungs[i + 1];
      if k >= 1 {
        assert rungs[1..][k - 1] == rungs[k];
      }
      if m >= 0 {
        assert rungs[m + 1] == rungs[1..][m];
      }
    }
  }

  // ---------- what a scan may change ----------

  /** A scan appends events and moves stages and levels; nothing else. */
  ghost predicate Grows(db: Db, r: Db) {
    && r.config == db.config && r.now == db.now
    && |db.events| <= |r.events| && r.events[..|db.events|] == db.events
    && r.users.Keys == db.users.Keys
    && forall u :: u in db.users ==>
        r.users[u].lastLogin == db.users[u].lastLogin && r.users[u].enabled == db.users[u].enabled
  }

  /** Every appended event is pending and belongs to `uid`. */
  ghost predicate NewAreOf(db: Db, r: Db, uid: int) {
    forall i :: |db.events| <= i < |r.events| ==> r.events[i].owner == uid && r.events[i].status == Status.Pending
  }

  ghost predicate Overdue(c: Config, tick: int, row: UserRow) {
    DaysSince(tick, row.lastLogin) >= LastRung(c, row.uid)
  }

  ghost predicate OwnerOverdue(c: Config, tick: int, rows: seq<UserRow>, uid: int) {
    exists row :: row in rows && row.uid == uid && Overdue(c, tick, row)
  }

  /** Extending with events of `uid`, after its level was set, is growth that concerns `uid` alone. */
  lemma ExtendsGrows(db: Db, db1: Db, r: Db, uid: int, level: int)
    requires db1 == db || db1 == SetLevel(db, uid, level)
    requires Extends(db1, r, uid)
    ensures Grows(db, r) && NewAreOf(db, r, uid)
    ensures forall v :: v in db.users && v != uid ==> r.users[v] == db.users[v]
    ensures uid in db.users ==>
      r.users[uid].stage == if r.events != db.events then Stage.Triggered else db.users[uid].stage
  {}

  lemma ProcessUserGrows(db: Db, tick: int, row: UserRow)
    ensures var r := ProcessUser(db, tick, row);
      && Grows(db, r) && NewAreOf(db, r, row.uid)
      && (forall v :: v in db.users && v != row.uid ==> r.users[v] == db.users[v])
      && (!Overdue(db.config, tick, row) ==> r.events == db.events)
      && (row.uid in db.users ==>
            r.users[row.uid].stage == if r.events != db.events then Stage.Triggered else db.users[row.uid].stage)
  {
    var rungs := RungsOf(db.config, row.uid);
    var days := DaysSince(tick, row.lastLogin);
    var idx := LastCrossed(rungs, days);
    TriggersAtLastRung(rungs, days);
    if idx >= |rungs| - 1 {
      var level := LevelOf(idx, |rungs|);
      var db1 := if level > row.level then SetLevel(db, row.uid, level) else db;
      var r := Trigger(db1, row.uid, days);
      TriggerExtends(db1, row.uid, days);
      ExtendsGrows(db, db1, r, row.uid, level);
    }
  }

  /** A scan creates events only for users in the snapshot whose last rung is reached. */
  lemma {:induction false} ScanRowsGrows(db: Db, tick: int, rows: seq<UserRow>)
    ensures var r := ScanRows(db, tick, rows);
      && Grows(db, r)
      && (forall i :: |db.events| <= i < |r.events| ==>
            r.events[i].status == Status.Pending && OwnerOverdue(db.config, tick, rows, r.events[i].owner))
    decreases |rows|
  {
    if rows != [] {
      var mid := ProcessUser(db, tick, rows[0]);
      var r := ScanRows(mid, tick, rows[1..]);
      ProcessUserGrows(db, tick, rows[0]);
      ScanRowsGrows(mid, tick, rows[1..]);
      assert r.events[..|db.events|] == r.events[..|mid.events|][..|db.events|];
      forall i | |db.events| <= i < |r.events|
        ensures r.events[i].status == Status.Pending && OwnerOverdue(db.config, tick, rows, r.events[i].owner)
      {
        if i < |mid.events| {
          assert r.events[i] == r.events[..|mid.events|][i];
          assert rows[0] in rows && Overdue(db.config, tick, rows[0]);
        } else {
          var row :| row in rows[1..] && row.uid == r.events[i].owner && Overdue(db.config, tick, row);
          assert row in rows;
        }
      }
    }
  }

  lemma {:induction false} ScanRowsKeepsUnique(db: Db, tick: int, rows: seq<UserRow>)
    requires LiveUnique(db.events)
    ensures LiveUnique(ScanRows(db, tick, rows).events)
    decreases |rows|
  {
    if rows != [] {
      ProcessKeepsUnique(db, tick, rows[0]);
      ScanRowsKeepsUnique(ProcessUser(db, tick, rows[0]), tick, rows[1..]);
    }
  }

  lemma ProcessKeepsUnique(db: Db, tick: int, row: UserRow)
    requires LiveUnique(db.events)
    ensures LiveUnique(ProcessUser(db, tick, row).events)
  {
    var rungs := RungsOf(db.config, row.uid);
    var level := LevelOf(LastCrossed(rungs, DaysSince(tick, row.lastLogin)), |rungs|);
    TriggerKeepsUnique(db, row.uid, DaysSince(tick, row.lastLogin));
    TriggerKeepsUnique(SetLevel(db, row.uid, level), row.uid, DaysSince(tick, row.lastLogin));
  }

  lemma {:induction false} SnapshotRows(db: Db, order: seq<int>)
    ensures forall row :: row in Snapshot(db, order) <==>
      row.uid in order && Watched(db, row.uid)
      && row == UserRow(row.uid, db.users[row.uid].level, db.users[row.uid].lastLogin.value)
  {
    if order != [] {
      SnapshotRows(db, order[1..]);
      assert order == [order[0]] + order[1..];
    }
  }

  lemma GrowsLive(db: Db, r: Db)
    requires Grows(db, r)
    ensures forall v, t :: Live(db.events, v, t) ==> Live(r.events, v, t)
  {
    forall v, t | Live(db.events, v, t) ensures Live(r.events, v, t) {
      var i :| 0 <= i < |db.events| && LiveAt(db.events, i, v, t);
      assert r.events[i] == r.events[..|db.events|][i];
      assert LiveAt(r.events, i, v, t);
    }
  }

  /** After a scan that finds an owner overdue, every active asset of an owner with an inheritor is
      provided for, unless it waits for trigger days of its own. */
  lemma {:induction false} ScanRowsCover(db: Db, tick: int, rows: seq<UserRow>, row: UserRow, a: int)
    requires row in rows && Overdue(db.config, tick, row)
    requires UserHeir(db.config, row.uid).Some? && IsActiveAsset(db.config, row.uid, a)
    ensures var r := ScanRows(db, tick, rows);
      Live(r.events, row.uid, Some(a)) || Live(r.events, row.uid, None)
      || Waiting(db.config, a, DaysSince(tick, row.lastLogin))
    decreases |rows|
  {
    var mid := ProcessUser(db, tick, rows[0]);
    ProcessUserGrows(db, tick, rows[0]);
    if rows[0] == row {
      var rungs := RungsOf(db.config, row.uid);
      var days := DaysSince(tick, row.lastLogin);
      TriggersAtLastRung(rungs, days);
      Coverage(db, row.uid, days, a);
      Coverage(SetLevel(db, row.uid, LevelOf(LastCrossed(rungs, days), |rungs|)), row.uid, days, a);
      ScanRowsGrows(mid, tick, rows[1..]);
      GrowsLive(mid, ScanRows(mid, tick, rows[1..]));
    } else {
      ScanRowsCover(mid, tick, rows[1..], row, a);
    }
  }

  // ---------- the same, in seconds ----------

  lemma ElapsedIff(tick: int, last: int, days: int)
    ensures Elapsed(tick - last, days) <==> DaysSince(tick, last) >= days
  {}

  /** An owner is overdue exactly from the second on in which the last rung of their own ladder, or of the
      default one without it, is reached. */
  lemma OverdueInSeconds(c: Config, tick: int, row: UserRow)
    ensures Overdue(c, tick, row) <==> LastRungWithin(c, row.uid, tick - row.lastLogin)
  {
    ElapsedIff(tick, row.lastLogin, LastRung(c, row.uid));
  }

  lemma WaitingInSeconds(c: Config, a: int, tick: int, last: int)
    ensures Waiting(c, a, DaysSince(tick, last)) <==> WaitsFor(c, a, tick - last)
  {
    forall b ensures HasHeir(c, b) <==> FindInheritor(c.inheritors, b).Some? {
      HasHeirIff(c, b);
    }
    forall b | b in c.assetBindings && b.triggerDays.Some?
      ensures Met(b.triggerDays, DaysSince(tick, last)) <==> Elapsed(tick - last, b.triggerDays.value)
    {
      ElapsedIff(tick, last, b.triggerDays.value);
    }
  }

  /** Whether a scan at `tick` may hand over for the owner: turned on, seen at least once, and the last
      rung reached. */
  predicate DueAt(db: Db, uid: int, tick: int) {
    uid in db.users && db.users[uid].enabled && db.users[uid].lastLogin.Some?
    && LastRungWithin(db.config, uid, tick - db.users[uid].lastLogin.value)
  }

  /** A scan leaves alone every owner who has not reached the last rung of their ladder, was never seen, or
      has inheritance turned off. */
  lemma ScanSpares(db: Db, tick: int, order: seq<int>, uid: int)
    requires !DueAt(db, uid, tick)
    ensures var r := Scan(db, tick, order);
      |db.events| <= |r.events| && forall i :: |db.events| <= i < |r.events| ==> r.events[i].owner != uid
  {
    SnapshotRows(db, order);
    ScanRowsGrows(db, tick, Snapshot(db, order));
    forall row | row in Snapshot(db, order) && row.uid == uid ensures !Overdue(db.config, tick, row) {
      OverdueInSeconds(db.config, tick, row);
    }
  }

  /** From the moment on in which an owner with an inheritor reaches the last rung, a scan leaves each of
      their active assets with an event of its own, or with one for everything, alive, unless it waits
      for trigger days of its own. */
  lemma ScanCoverage(db: Db, tick: int, order: seq<int>, uid: int, x: Asset)
    requires uid in order && DueAt(db, uid, tick)
    requires ActiveOf(db.config, uid, x) && exists h :: h in db.config.inheritors && h.owner == uid
    ensures var r := Scan(db, tick, order);
      Alive(r.events, uid, Some(x.id)) || Alive(r.events, uid, None)
      || WaitsFor(db.config, x.id, tick - db.users[uid].lastLogin.value)
  {
    var last := db.users[uid].lastLogin.value;
    var row := UserRow(uid, db.users[uid].level, last);
    SnapshotRows(db, order);
    OverdueInSeconds(db.config, tick, row);
    ActiveIff(db.config, uid, x);
    ScanRowsCover(db, tick, Snapshot(db, order), row, x.id);
    LiveIsAlive(Scan(db, tick, order).events, uid, Some(x.id));
    LiveIsAlive(Scan(db, tick, order).events, uid, None);
    WaitingInSeconds(db.config, x.id, tick, last);
  }

  /** The highest rung that so many seconds reach. */
  ghost predicate HighestReached(c: Config, uid: int, k: int, seconds: int) {
    RungReached(c, uid, k, seconds) && forall j :: k < j ==> !RungReached(c, uid, j, seconds)
  }

  ghost predicate NoneReached(c: Config, uid: int, seconds: int) {
    forall j :: !RungReached(c, uid, j, seconds)
  }

  lemma ReachedIff(c: Config, uid: int, tick: int, last: int, j: int)
    ensures var rungs := RungsOf(c, uid);
      RungReached(c, uid, j, tick - last) <==> 0 <= j < |rungs| && DaysSince(tick, last) >= rungs[j]
  {
    var rungs := RungsOf(c, uid);
    if 0 <= j < |rungs| {
      ElapsedIff(tick, last, rungs[j]);
    }
  }

  lemma LastCrossedIsHighest(c: Config, uid: int, tick: int, last: int)
    ensures var idx := LastCrossed(RungsOf(c, uid), DaysSince(tick, last));
      if idx < 0 then NoneReached(c, uid, tick - last) else HighestReached(c, uid, idx, tick - last)
  {
    forall j ensures RungReached(c, uid, j, tick - last) <==>
        0 <= j < |RungsOf(c, uid)| && DaysSince(tick, last) >= RungsOf(c, uid)[j]
    {
      ReachedIff(c, uid, tick, last, j);
    }
  }

  lemma HighestOnce(c: Config, uid: int, seconds: int, j: int, k: int)
    requires HighestReached(c, uid, j, seconds)
    ensures !NoneReached(c, uid, seconds) && (HighestReached(c, uid, k, seconds) ==> k == j)
  {}

  /** The index that the scan computes, and whether it computes one, are those of the rungs reached. */
  lemma CrossedIff(c: Config, uid: int, tick: int, last: int, k: int)
    ensures var idx := LastCrossed(RungsOf(c, uid), DaysSince(tick, last));
      && (NoneReached(c, uid, tick - last) ==> idx < 0)
      && (HighestReached(c, uid, k, tick - last) ==> idx == k >= 0)
  {
    var idx := LastCrossed(RungsOf(c, uid), DaysSince(tick, last));
    LastCrossedIsHighest(c, uid, tick, last);
    if idx >= 0 {
      HighestOnce(c, uid, tick - last, idx, k);
    }
  }

  /** A scan of one user who has reached a rung raises the level to the number of the highest one reached,
      but not above the last but one, and never lowers it. */
  lemma LevelRule(db: Db, tick: int, uid: int, k: int)
    requires uid in db.users && db.users[uid].lastLogin.Some?
    requires HighestReached(db.config, uid, k, tick - db.users[uid].lastLogin.value)
    ensures var u := db.users[uid];
      var r := ProcessUser(db, tick, UserRow(uid, u.level, u.lastLogin.value));
      var number := if k < TopRung(db.config, uid) then k + 1 else TopRung(db.config, uid);
      uid in r.users && r.users[uid].level == if u.level < number then number else u.level
  {
    var row := UserRow(uid, db.users[uid].level, db.users[uid].lastLogin.value);
    CrossedIff(db.config, uid, tick, row.lastLogin, k);
    ProcessUserLevel(db, tick, row);
  }

  /** Before the first rung a scan does nothing. */
  lemma NoLevelBefore(db: Db, tick: int, row: UserRow)
    requires NoneReached(db.config, row.uid, tick - row.lastLogin)
    ensures ProcessUser(db, tick, row) == db
  {
    CrossedIff(db.config, row.uid, tick, row.lastLogin, 0);
  }

  lemma ProcessUserLevel(db: Db, tick: int, row: UserRow)
    requires row.uid in db.users && db.users[row.uid].level == row.level
    ensures var rungs := RungsOf(db.config, row.uid);
      var idx := LastCrossed(rungs, DaysSince(tick, row.lastLogin));
      var level := LevelOf(idx, |rungs|);
      var r := ProcessUser(db, tick, row);
      row.uid in r.users && (idx >= 0 ==> r.users[row.uid].level == if level > row.level then level else row.level)
  {
    var rungs, days := RungsOf(db.config, row.uid), DaysSince(tick, row.lastLogin);
    var level := LevelOf(LastCrossed(rungs, days), |rungs|);
    var db1 := if level > row.level then SetLevel(db, row.uid, level) else db;
    TriggerExtends(db1, row.uid, days);
  }
}
