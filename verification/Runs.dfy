/** Whole runs of the dead man's switch with each handler as one step. Configuration may be
    replaced by any other one at any time. */
module Runs {
  import opened Base
  import opened Estate
  import opened Inheritance
  import opened Escalation
  import opened Handlers
  import opened Plain

  datatype Action =
    | Scanning(tick: int, order: seq<int>)
    | LoggingIn(uid: int)
    | Requesting(uid: int)
    | Claiming(event: int, codeHash: int)
    | Toggling(uid: int, on: bool)
    | Configuring(config: Config)
    | Registering(uid: int)
    | Passing(seconds: nat)

  function Step(db: Db, a: Action): Db {
    match a
    case Scanning(tick, order) => if tick <= db.now then Scan(db, tick, order) else db
    case LoggingIn(uid) => Login(db, uid)
    case Requesting(uid) => Touch(db, uid)
    case Claiming(id, codeHash) => Claim(db, id, codeHash).0
    case Toggling(uid, on) => Toggle(db, uid, on)
    case Configuring(c) => db.(config := c)
    case Registering(uid) =>
      if uid in db.users then db else db.(users := db.users[uid := User(Stage.Inactive, 0, None, true)])
    case Passing(d) => db.(now := db.now + d)
  }

  function Run(db: Db, acts: seq<Action>): Db
    decreases |acts|
  {
    if acts == [] then db else Step(Run(db, acts[..|acts| - 1]), acts[|acts| - 1])
  }

  // ---------- the stage over whole runs ----------

  lemma StepKeepsStageSound(db: Db, a: Action)
    requires StageSound(db)
    ensures StageSound(Step(db, a))
  {
    match a
    case Scanning(tick, order) =>
      SnapshotRows(db, order);
      ScanKeepsStageSound(db, tick, Snapshot(db, order));
    case LoggingIn(uid) => if uid in db.users { LoginSettles(db, uid); }
    case _ =>
  }

  lemma {:induction false} ScanKeepsStageSound(db: Db, tick: int, rows: seq<UserRow>)
    requires StageSound(db) && forall row :: row in rows ==> row.uid in db.users
    ensures StageSound(ScanRows(db, tick, rows))
    decreases |rows|
  {
    if rows != [] {
      var r := ProcessUser(db, tick, rows[0]);
      ProcessUserGrows(db, tick, rows[0]);
      assert rows[0] in rows;
      forall i | 0 <= i < |r.events|
        ensures r.events[i].owner in r.users
        ensures r.users[r.events[i].owner].stage == Stage.Inactive ==> Settled(r.events[i], r.now)
      {
        if i < |db.events| {
          assert r.events[i] == r.events[..|db.events|][i];
        }
      }
      ScanKeepsStageSound(r, tick, rows[1..]);
    }
  }

  /** In every reachable state an inactive stage means that nothing is pending or still reversible. */
  lemma {:induction false} StageSoundAlways(db: Db, acts: seq<Action>)
    requires StageSound(db)
    ensures StageSound(Run(db, acts))
    decreases |acts|
  {
    if acts != [] {
      StageSoundAlways(db, acts[..|acts| - 1]);
      StepKeepsStageSound(Run(db, acts[..|acts| - 1]), acts[|acts| - 1]);
    }
  }

  /** So after any login, at any point of any run, nothing of the owner can still be handed over
      or taken back. */
  lemma LoginAlwaysSettles(db: Db, acts: seq<Action>, uid: int)
    requires StageSound(db) && uid in Run(db, acts).users
    ensures var r := Run(db, acts + [LoggingIn(uid)]);
      forall i :: 0 <= i < |r.events| && r.events[i].owner == uid ==> Settled(r.events[i], r.now)
  {
    StageSoundAlways(db, acts);
    LoginSettles(Run(db, acts), uid);
    assert (acts + [LoggingIn(uid)])[..|acts|] == acts;
  }

  // ---------- the heartbeat bound ----------

  predicate IsActivity(a: Action, uid: int) {
    a == LoggingIn(uid) || a == Requesting(uid)
  }

  /** When the owner was last seen, given that they were seen at `seen` before the run. */
  function SeenAt(db: Db, acts: seq<Action>, uid: int, seen: int): int
    decreases |acts|
  {
    if acts == [] then seen
    else
      var before := acts[..|acts| - 1];
      if IsActivity(acts[|acts| - 1], uid) then Run(db, before).now else SeenAt(db, before, uid, seen)
  }

  /** At each scan of the run the owner was seen at most `gap` ago, and the last rung of their
      ladder lies beyond the gap and the twelve hours of the heartbeat gate together. */
  ghost predicate Attentive(db: Db, acts: seq<Action>, uid: int, seen: int, gap: nat) {
    forall i :: 0 <= i < |acts| && acts[i].Scanning? ==>
      var now := Run(db, acts[..i]);
      && now.now - SeenAt(db, acts[..i], uid, seen) <= gap
      && !LastRungWithin(now.config, uid, gap + 43200)
  }

  ghost predicate FreshLogin(db: Db, uid: int, seen: int) {
    uid in db.users && db.users[uid].lastLogin.Some? && db.users[uid].lastLogin.value >= seen - 43200
  }

  lemma AttentivePrefix(db: Db, acts: seq<Action>, uid: int, seen: int, gap: nat)
    requires acts != [] && Attentive(db, acts, uid, seen, gap)
    ensures Attentive(db, acts[..|acts| - 1], uid, seen, gap)
  {
    var before := acts[..|acts| - 1];
    forall i | 0 <= i < |before| && before[i].Scanning?
      ensures Run(db, before[..i]).now - SeenAt(db, before[..i], uid, seen) <= gap
      ensures !LastRungWithin(Run(db, before[..i]).config, uid, gap + 43200)
    {
      assert before[..i] == acts[..i] && acts[i] == before[i];
    }
  }

  lemma StepKeepsFresh(db: Db, a: Action, uid: int, seen: int)
    requires FreshLogin(db, uid, seen)
    ensures FreshLogin(Step(db, a), uid, if IsActivity(a, uid) then db.now else seen)
  {
    match a
    case Scanning(tick, order) => ScanRowsGrows(db, tick, Snapshot(db, order));
    case _ =>
  }

  /** A scan leaves an owner alone whose recorded login is recent enough. */
  lemma ScanSparesSeen(db: Db, tick: int, order: seq<int>, uid: int, seen: int, gap: nat)
    requires FreshLogin(db, uid, seen) && tick <= db.now && db.now - seen <= gap
    requires !LastRungWithin(db.config, uid, gap + 43200)
    ensures NoNewEvents(db, Scan(db, tick, order), uid)
  {
    ScanSpares(db, tick, order, uid);
  }

  ghost predicate NoNewEvents(db: Db, r: Db, uid: int) {
    |db.events| <= |r.events| && forall i :: |db.events| <= i < |r.events| ==> r.events[i].owner != uid
  }

  lemma StepKeepsCount(db: Db, a: Action)
    ensures !a.Scanning? ==> |Step(db, a).events| == |db.events|
    ensures |db.events| <= |Step(db, a).events|
    ensures forall i :: 0 <= i < |db.events| ==> SameHandOver(db.events[i], Step(db, a).events[i])
  {
    if a.Scanning? {
      ScanRowsGrows(db, a.tick, Snapshot(db, a.order));
      var r := Step(db, a);
      assert forall i :: 0 <= i < |db.events| ==> r.events[i] == r.events[..|db.events|][i];
    }
  }

  /** An owner who is seen often enough never has an inheritance event created, in any run, for
      any shape of ladder. */
  lemma {:induction false} HeartbeatBound(db: Db, acts: seq<Action>, uid: int, seen: int, gap: nat)
    requires FreshLogin(db, uid, seen) && Attentive(db, acts, uid, seen, gap)
    ensures NoNewEvents(db, Run(db, acts), uid)
    ensures FreshLogin(Run(db, acts), uid, SeenAt(db, acts, uid, seen))
    decreases |acts|
  {
    if acts != [] {
      var before, a := acts[..|acts| - 1], acts[|acts| - 1];
      var mid := Run(db, before);
      AttentivePrefix(db, acts, uid, seen, gap);
      HeartbeatBound(db, before, uid, seen, gap);
      StepKeepsFresh(mid, a, uid, SeenAt(db, before, uid, seen));
      StepKeepsCount(mid, a);
      if a.Scanning? && a.tick <= mid.now {
        ScanSparesSeen(mid, a.tick, a.order, uid, SeenAt(db, before, uid, seen), gap);
      }
    }
  }

  // ---------- which action changes which field ----------

  /** A scan changes no more than stages and levels of registered users. */
  lemma {:induction false} ScanFields(db: Db, tick: int, rows: seq<UserRow>)
    requires forall row :: row in rows ==> row.uid in db.users
    ensures var r := ScanRows(db, tick, rows);
      && r.config == db.config && r.now == db.now && r.users.Keys == db.users.Keys
      && forall v :: v in db.users ==> ScanField(db.users[v], r.users[v])
    decreases |rows|
  {
    if rows != [] {
      assert rows[0] in rows;
      ProcessUserFields(db, tick, rows[0]);
      ScanFields(ProcessUser(db, tick, rows[0]), tick, rows[1..]);
    }
  }

  predicate ScanField(u: User, v: User) {
    && v.enabled == u.enabled && v.lastLogin == u.lastLogin
    && (v.stage == u.stage || v.stage == Stage.Triggered)
  }

  lemma ProcessUserFields(db: Db, tick: int, row: UserRow)
    requires row.uid in db.users
    ensures var r := ProcessUser(db, tick, row);
      && r.config == db.config && r.now == db.now && r.users.Keys == db.users.Keys
      && forall v :: v in db.users ==> ScanField(db.users[v], r.users[v])
  {
    ProcessUserGrows(db, tick, row);
  }

  /** The clock moves only with time, the configuration only with its replacement, and the rows of users
      only field by field: a new user is inactive, never logged in, and has inheritance turned on. */
  lemma StepFields(db: Db, a: Action, v: int)
    ensures var r := Step(db, a);
      && r.now == (if a.Passing? then db.now + a.seconds else db.now)
      && r.config == (if a.Configuring? then a.config else db.config)
      && (v in r.users <==> v in db.users || a == Registering(v))
      && (v !in db.users && v in r.users ==> r.users[v] == User(Stage.Inactive, 0, None, true))
      && (v in db.users ==>
            && (r.users[v].enabled == if a.Toggling? && a.uid == v then a.on else db.users[v].enabled)
            && (r.users[v].lastLogin == db.users[v].lastLogin
                || (IsActivity(a, v) && r.users[v].lastLogin == Some(db.now)))
            && (r.users[v].stage == db.users[v].stage
                || (a == LoggingIn(v) && r.users[v].stage == Stage.Inactive)
                || (a.Claiming? && r.users[v].stage == Stage.Claimed)
                || (a.Scanning? && r.users[v].stage == Stage.Triggered)))
  {
    if a.Scanning? {
      SnapshotRows(db, a.order);
      ScanFields(db, a.tick, Snapshot(db, a.order));
    }
  }

  /** What the owner last asked for, if anything. */
  function LastToggled(acts: seq<Action>, uid: int, initially: bool): bool {
    if acts == [] then initially
    else
      var a := acts[|acts| - 1];
      if a.Toggling? && a.uid == uid then a.on else LastToggled(acts[..|acts| - 1], uid, initially)
  }

  /** In any run inheritance is turned on or off as the owner last asked, and by nothing else. */
  lemma {:induction false} EnabledAsAsked(db: Db, acts: seq<Action>, uid: int)
    requires uid in db.users
    ensures var r := Run(db, acts);
      uid in r.users && r.users[uid].enabled == LastToggled(acts, uid, db.users[uid].enabled)
    decreases |acts|
  {
    if acts != [] {
      EnabledAsAsked(db, acts[..|acts| - 1], uid);
      StepFields(Run(db, acts[..|acts| - 1]), acts[|acts| - 1], uid);
    }
  }

  // ---------- silence ----------

  /** Neither a sign of life of the owner, nor a change of the configuration or of their switch. */
  predicate Silent(acts: seq<Action>, uid: int) {
    forall i :: 0 <= i < |acts| ==>
      !IsActivity(acts[i], uid) && !acts[i].Configuring? && acts[i] != Toggling(uid, false)
  }

  lemma {:induction false} SilenceKeeps(db: Db, acts: seq<Action>, uid: int)
    requires uid in db.users && db.users[uid].enabled && Silent(acts, uid)
    ensures var r := Run(db, acts);
      r.config == db.config && uid in r.users && r.users[uid].enabled
      && r.users[uid].lastLogin == db.users[uid].lastLogin
    decreases |acts|
  {
    if acts != [] {
      SilenceKeeps(db, acts[..|acts| - 1], uid);
      StepFields(Run(db, acts[..|acts| - 1]), acts[|acts| - 1], uid);
    }
  }

  /** An owner who has been silent until the last rung of their ladder is handed over at the next scan: every
      active asset of theirs then has an event of its own, or one for everything, alive, unless it waits
      for trigger days of its own. */
  lemma SilenceHandsOver(db: Db, acts: seq<Action>, tick: int, order: seq<int>, uid: int, x: Asset)
    requires uid in db.users && db.users[uid].enabled && db.users[uid].lastLogin.Some? && Silent(acts, uid)
    requires tick <= Run(db, acts).now && uid in order
    requires LastRungWithin(db.config, uid, tick - db.users[uid].lastLogin.value)
    requires ActiveOf(db.config, uid, x) && exists h :: h in db.config.inheritors && h.owner == uid
    ensures var r := Run(db, acts + [Scanning(tick, order)]);
      Alive(r.events, uid, Some(x.id)) || Alive(r.events, uid, None)
      || WaitsFor(db.config, x.id, tick - db.users[uid].lastLogin.value)
  {
    SilenceKeeps(db, acts, uid);
    ScanCoverage(Run(db, acts), tick, order, uid, x);
    assert (acts + [Scanning(tick, order)])[..|acts|] == acts;
  }

  // ---------- seventy-two hours ----------

  /** The owner logs in at some point of the run before the deadline. */
  ghost predicate LogsInBefore(db: Db, acts: seq<Action>, uid: int, deadline: int) {
    exists k :: LoginAt(db, acts, uid, deadline, k)
  }

  predicate LoginAt(db: Db, acts: seq<Action>, uid: int, deadline: int, k: int) {
    0 <= k < |acts| && acts[k] == LoggingIn(uid) && Run(db, acts[..k]).now < deadline
  }

  lemma LogsInLast(db: Db, acts: seq<Action>, uid: int, deadline: int)
    requires acts != []
    ensures var before := acts[..|acts| - 1];
      LogsInBefore(db, acts, uid, deadline) <==>
        LogsInBefore(db, before, uid, deadline)
        || (acts[|acts| - 1] == LoggingIn(uid) && Run(db, before).now < deadline)
  {
    var n := |acts| - 1;
    assert forall k :: 0 <= k < n ==> acts[..n][..k] == acts[..k];
    if k :| LoginAt(db, acts[..n], uid, deadline, k) {
      assert LoginAt(db, acts, uid, deadline, k);
    }
    if k :| LoginAt(db, acts, uid, deadline, k) {
      assert k < n ==> LoginAt(db, acts[..n], uid, deadline, k);
    }
    if acts[n] == LoggingIn(uid) && Run(db, acts[..n]).now < deadline {
      assert LoginAt(db, acts, uid, deadline, n);
    }
  }

  lemma ClaimedStep(db: Db, a: Action, id: nat)
    requires StageSound(db) && id < |db.events| && db.events[id].status != Status.Pending
    requires db.events[id].reversableUntil.Some?
    ensures var e, s := db.events[id], Step(db, a).events;
      id < |s|
      && s[id] == if e.status == Status.Claimed && a == LoggingIn(e.owner) && db.now < e.reversableUntil.value
                  then e.(status := Status.Reversed, reversedAt := Some(db.now)) else e
  {
    match a
    case Scanning(tick, order) =>
      ScanRowsGrows(db, tick, Snapshot(db, order));
      assert tick <= db.now ==> Step(db, a).events[id] == Step(db, a).events[..|db.events|][id];
    case LoggingIn(uid) => if uid in db.users { LoginExact(db, uid); }
    case _ =>
  }

  /** Whatever else happens in a run, a claimed event is taken back if the owner logs in before its
      deadline, and stays exactly as it is if not. */
  lemma {:induction false} KeptIff(db: Db, acts: seq<Action>, id: nat)
    requires StageSound(db) && id < |db.events|
    requires db.events[id].status == Status.Claimed && db.events[id].reversableUntil.Some?
    ensures var e, s := db.events[id], Run(db, acts).events;
      id < |s|
      && if LogsInBefore(db, acts, e.owner, e.reversableUntil.value)
         then s[id] == e.(status := Status.Reversed, reversedAt := s[id].reversedAt) else s[id] == e
    decreases |acts|
  {
    if acts != [] {
      var before, e := acts[..|acts| - 1], db.events[id];
      KeptIff(db, before, id);
      StageSoundAlways(db, before);
      LogsInLast(db, acts, e.owner, e.reversableUntil.value);
      ClaimedStep(Run(db, before), acts[|acts| - 1], id);
    }
  }

  lemma ClaimTakes(db: Db, id: int, codeHash: int)
    requires StageSound(db) && Claimable(db, id, codeHash)
    ensures var r := Step(db, Claiming(id, codeHash));
      && StageSound(r) && |r.events| == |db.events|
      && r.events[id] == db.events[id].(status := Status.Claimed, claimedAt := Some(db.now),
                                        reversableUntil := Some(db.now + 259200))
  {
    ClaimOutcome(db, id, codeHash);
    StepKeepsStageSound(db, Claiming(id, codeHash));
  }

  /** The reversal law over whole runs: after a claim that takes its event, the owner's login takes it back
      if and only if it comes less than 72 hours later. */
  lemma ReversalLaw(db: Db, id: int, codeHash: int, acts: seq<Action>)
    requires StageSound(db) && Claimable(db, id, codeHash)
    ensures var now := Step(db, Claiming(id, codeHash));
      var s := Run(now, acts).events;
      && id < |s|
      && (s[id].status == Status.Reversed <==> LogsInBefore(now, acts, db.events[id].owner, db.now + 259200))
      && (s[id].status != Status.Reversed ==> s[id] == now.events[id])
      && now.events[id] == db.events[id].(status := Status.Claimed, claimedAt := Some(db.now),
                                          reversableUntil := Some(db.now + 259200))
  {
    ClaimTakes(db, id, codeHash);
    KeptIff(Step(db, Claiming(id, codeHash)), acts, id);
  }

  // ---------- the switch turned off ----------

  predicate TurnedOff(db: Db, uid: int) {
    uid in db.users && !db.users[uid].enabled
  }

  lemma StepKeepsOff(db: Db, a: Action, uid: int)
    requires TurnedOff(db, uid) && a != Toggling(uid, true)
    ensures TurnedOff(Step(db, a), uid) && NoNewEvents(db, Step(db, a), uid)
  {
    match a
    case Scanning(tick, order) =>
      SnapshotRows(db, order);
      ScanRowsGrows(db, tick, Snapshot(db, order));
    case _ =>
  }

  /** While an owner has the inheritance turned off, no event is created for them, however long they
      are silent. */
  lemma {:induction false} OffSpares(db: Db, acts: seq<Action>, uid: int)
    requires TurnedOff(db, uid) && Toggling(uid, true) !in acts
    ensures TurnedOff(Run(db, acts), uid) && NoNewEvents(db, Run(db, acts), uid)
    decreases |acts|
  {
    if acts != [] {
      var before, a := acts[..|acts| - 1], acts[|acts| - 1];
      assert a in acts && forall b :: b in before ==> b in acts;
      OffSpares(db, before, uid);
      StepKeepsOff(Run(db, before), a, uid);
      StepKeepsCount(Run(db, before), a);
    }
  }

  // ---------- how many events a stretch without login can create ----------

  lemma StepKeepsUnique(db: Db, a: Action)
    requires LiveUnique(db.events)
    ensures LiveUnique(Step(db, a).events)
  {
    match a
    case Scanning(tick, order) => ScanRowsKeepsUnique(db, tick, Snapshot(db, order));
    case _ => ShrinkKeepsUnique(db.events, Step(db, a).events);
  }

  /** No login of `uid`, and no configuration with other active assets of theirs than `assets`. */
  ghost predicate Undisturbed(db: Db, acts: seq<Action>, uid: int, assets: set<int>) {
    && ActiveAssets(db.config, uid) <= assets
    && forall i :: 0 <= i < |acts| ==>
        acts[i] != LoggingIn(uid) && (acts[i].Configuring? ==> ActiveAssets(acts[i].config, uid) <= assets)
  }

  /** Events of `uid` from `n` on are live and hand over one of `assets`, or everything. */
  ghost predicate Confined(db: Db, n: nat, uid: int, assets: set<int>) {
    && n <= |db.events| && LiveUnique(db.events) && ActiveAssets(db.config, uid) <= assets
    && forall i :: n <= i < |db.events| && db.events[i].owner == uid ==>
        IsLive(db.events[i]) && (db.events[i].asset.Some? ==> db.events[i].asset.value in assets)
  }

  lemma TriggerConfined(db: Db, n: nat, uid: int, days: int, v: int, assets: set<int>)
    requires Confined(db, n, uid, assets)
    ensures Confined(Trigger(db, v, days), n, uid, assets)
  {
    var r := Trigger(db, v, days);
    ExactAllocation(db, v, days);
    TriggerKeepsUnique(db, v, days);
    forall i | n <= i < |r.events| && r.events[i].owner == uid
      ensures IsLive(r.events[i]) && (r.events[i].asset.Some? ==> r.events[i].asset.value in assets)
    {
      if i < |db.events| {
        assert r.events[i] == r.events[..|db.events|][i];
      } else {
        assert r.events[i] == Created(db, r)[i - |db.events|];
        assert r.events[i].asset.Some? ==> r.events[i].asset.value in ActiveAssets(db.config, v);
      }
    }
  }

  lemma {:induction false} ScanConfined(db: Db, n: nat, uid: int, tick: int, rows: seq<UserRow>, assets: set<int>)
    requires Confined(db, n, uid, assets)
    ensures Confined(ScanRows(db, tick, rows), n, uid, assets)
    decreases |rows|
  {
    if rows != [] {
      var row := rows[0];
      var rungs, days := RungsOf(db.config, row.uid), DaysSince(tick, row.lastLogin);
      TriggerConfined(db, n, uid, days, row.uid, assets);
      TriggerConfined(SetLevel(db, row.uid, LevelOf(LastCrossed(rungs, days), |rungs|)), n, uid, days, row.uid, assets);
      ScanConfined(ProcessUser(db, tick, row), n, uid, tick, rows[1..], assets);
    }
  }

  lemma {:induction false} RunConfined(db: Db, acts: seq<Action>, uid: int, assets: set<int>)
    requires LiveUnique(db.events) && Undisturbed(db, acts, uid, assets)
    ensures Confined(Run(db, acts), |db.events|, uid, assets)
    decreases |acts|
  {
    if acts != [] {
      var before, a := acts[..|acts| - 1], acts[|acts| - 1];
      var mid := Run(db, before);
      RunConfined(db, before, uid, assets);
      StepKeepsUnique(mid, a);
      if a.Scanning? {
        ScanConfined(mid, |db.events|, uid, a.tick, Snapshot(mid, a.order), assets);
      }
    }
  }

  ghost function EventsOf(s: seq<Event>, n: nat, uid: int): set<int> {
    set i | n <= i < |s| && s[i].owner == uid
  }

  /** Those of the events that hand over one asset. */
  ghost function Single(s: seq<Event>, ids: set<int>): set<int> {
    set i | i in ids && 0 <= i < |s| && s[i].asset.Some?
  }

  function AssetAt(s: seq<Event>, i: int): int {
    if 0 <= i < |s| then s[i].asset.GetOr(0) else 0
  }

  lemma SingleFew(db: Db, n: nat, uid: int, assets: set<int>)
    requires Confined(db, n, uid, assets)
    ensures |Single(db.events, EventsOf(db.events, n, uid))| <= |assets|
  {
    var s := db.events;
    var own := Single(s, EventsOf(s, n, uid));
    forall i | i in own ensures AssetAt(s, i) in assets && s[i].asset == Some(AssetAt(s, i)) && IsLive(s[i]) {}
    forall i, j | i in own && j in own && AssetAt(s, i) == AssetAt(s, j) ensures i == j {
      assert s[i].asset == s[j].asset;
    }
    InjectiveImage(own, i => AssetAt(s, i), assets);
  }

  lemma WholeFew(db: Db, n: nat, uid: int, assets: set<int>)
    requires Confined(db, n, uid, assets)
    ensures var ids := EventsOf(db.events, n, uid); |ids - Single(db.events, ids)| <= 1
  {
    var s, ids := db.events, EventsOf(db.events, n, uid);
    var whole := ids - Single(s, ids);
    forall i, j | i in whole && j in whole ensures i == j {
      assert s[i].asset == s[j].asset && IsLive(s[i]) && IsLive(s[j]);
    }
    InjectiveImage(whole, i => 0, {0});
  }

  /** Until the owner logs in, a stretch over a fixed set of assets creates at most one event per
      asset and one more. */
  lemma AtMostOneEventEach(db: Db, acts: seq<Action>, uid: int, assets: set<int>)
    requires LiveUnique(db.events) && Undisturbed(db, acts, uid, assets)
    ensures |EventsOf(Run(db, acts).events, |db.events|, uid)| <= |assets| + 1
  {
    var r, n := Run(db, acts), |db.events|;
    RunConfined(db, acts, uid, assets);
    SingleFew(r, n, uid, assets);
    WholeFew(r, n, uid, assets);
    var ids := EventsOf(r.events, n, uid);
    assert ids == Single(r.events, ids) + (ids - Single(r.events, ids));
  }

  // ---------- runs from nothing ----------

  function Empty(c: Config, now: int): Db {
    Db(c, map[], [], now)
  }

  /** Every state that the empty server reaches keeps both invariants. */
  lemma {:induction false} ReachableSound(c: Config, now: int, acts: seq<Action>)
    ensures StageSound(Run(Empty(c, now), acts)) && LiveUnique(Run(Empty(c, now), acts).events)
    decreases |acts|
  {
    StageSoundAlways(Empty(c, now), acts);
    if acts != [] {
      ReachableSound(c, now, acts[..|acts| - 1]);
      StepKeepsUnique(Run(Empty(c, now), acts[..|acts| - 1]), acts[|acts| - 1]);
    }
  }

  // ---------- a claim without a key ----------

  ghost predicate Spent(db: Db, id: int) {
    0 <= id < |db.events| && db.events[id].status != Status.Pending
  }

  lemma StepKeepsSpent(db: Db, a: Action, id: int)
    requires Spent(db, id)
    ensures Spent(Step(db, a), id)
  {
    if a.Scanning? {
      ScanRowsGrows(db, a.tick, Snapshot(db, a.order));
      assert a.tick <= db.now ==> Step(db, a).events[id] == Step(db, a).events[..|db.events|][id];
    }
  }

  lemma {:induction false} RunKeepsSpent(db: Db, acts: seq<Action>, id: int)
    requires Spent(db, id)
    ensures Spent(Run(db, acts), id)
    decreases |acts|
  {
    if acts != [] {
      RunKeepsSpent(db, acts[..|acts| - 1], id);
      StepKeepsSpent(Run(db, acts[..|acts| - 1]), acts[|acts| - 1], id);
    }
  }

  /** Once a claim has taken an event, with or without a key, no later claim of it gets one, in any run. */
  lemma TakenForGood(db: Db, id: int, codeHash: int, acts: seq<Action>, again: int)
    requires Claimable(db, id, codeHash)
    ensures var r := Run(Claim(db, id, codeHash).0, acts);
      && 0 <= id < |r.events|
      && Claim(r, id, again) == (r, if r.events[id].codeHash != again then WrongCode else NotPending)
  {
    RunKeepsSpent(Claim(db, id, codeHash).0, acts, id);
  }

  /** A pending event for an asset without a wrapped key. */
  function Keyless(): Db {
    Db(Config([], [Asset(1, 1, None, true, false)], [Inheritor(7, 1, 1, 99)], [], [], map[], [15, 60], map[]),
       map[1 := User(Stage.Triggered, 1, Some(0), true)], [NewEvent(1, Some(1), 7, 99)], 60 * DAY)
  }

  /** Its rightful claim takes the event and answers without a key, and so does every later one. */
  lemma ClaimWithoutKey(acts: seq<Action>, again: int)
    ensures var (r, out) := Claim(Keyless(), 0, 99);
      && out == KeyMissing && r.events[0].status == Status.Claimed
      && Claim(Run(r, acts), 0, again).1 in {NotPending, WrongCode}
  {
    TakenForGood(Keyless(), 0, 99, acts, again);
  }

  // ---------- a purge after a trigger ----------

  /** Two assets of one owner, the first bound to the owner's only inheritor. */
  function HalfBound(): Config {
    Config([], [Asset(1, 1, None, true, true), Asset(2, 1, None, true, true)], [Inheritor(7, 1, 1, 99)],
           [Binding(1, 1, 7, 1, None)], [], map[], [15, 60], map[])
  }

  lemma HalfBoundRules(c: Config, days: int)
    requires c == HalfBound()
    ensures Entitled(c, 1, 1, days) && Uncovered(c, 1, 2, days) && UserHeir(c, 1).Some?
  {
    var b := c.assetBindings[0];
    assert c.assets[0].id == 1 && c.assets[1].id == 2 && c.inheritors[0] in c.inheritors;
    assert IsActiveAsset(c, 1, 1) && IsActiveAsset(c, 1, 2);
    assert LeastMet(c, c.assetBindings, 1, days, b);
    assert Governs(c, 1, 1, days, b);
    assert forall x :: !Governs(c, 1, 2, days, x);
  }

  /** Its trigger leaves the owner with live events for an asset and for everything; purging that asset
      then gives them two live events for everything. */
  lemma PurgeBreaksUnique()
    ensures var db := Db(HalfBound(), map[1 := User(Stage.Inactive, 0, Some(0), true)], [], 60 * DAY);
      var r := Trigger(db, 1, 60);
      LiveUnique(r.events) && !LiveUnique(PurgeAsset(r.events, 1))
  {
    var db := Db(HalfBound(), map[1 := User(Stage.Inactive, 0, Some(0), true)], [], 60 * DAY);
    HalfBoundRules(db.config, 60);
    TriggerLive(db, 1, 60);
    TriggerKeepsUnique(db, 1, 60);
    PurgeKeepsUniqueIff(Trigger(db, 1, 60).events, 1);
  }
}
