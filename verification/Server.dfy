/** The handlers as the server runs them: statement after statement on the tables. Each is proved
    to compute the step that Inheritance, Escalation and Handlers reason about. The scheduler shares a
    pool of connections with the handlers; a call waits while none is free, and one that waits for the
    connection of its own thread's cursor waits for ever. */
module Server {
  import opened Base
  import opened Estate
  import opened Inheritance
  import opened Escalation
  import opened Handlers
  import opened Plain

  /** Some row is met for an asset that is not bound yet. */
  predicate SomeMet(rows: seq<Row>, days: int, bound: set<int>) {
    exists i :: 0 <= i < |rows| && Met(rows[i].triggerDays, days) && rows[i].asset !in bound
  }

  /** Whether a trigger ends: its category loop counts events while its own cursor holds a connection,
      so a pool of one ends it only if no category row is met. */
  predicate Completes(c: Config, uid: int, days: int, connections: nat) {
    connections >= 2 || !SomeMet(CategoryQuery(c, uid), days, {})
  }

  /** What a trigger that never ends has done: the events of asset-level bindings. */
  function Halted(db: Db, uid: int, days: int): Db {
    AssetPass(db, uid, days, AssetQuery(db.config, uid))
  }

  /** On a pool of one connection the scan never gets past this user. */
  predicate Stuck(c: Config, tick: int, row: UserRow) {
    var days := DaysSince(tick, row.lastLogin);
    days >= LastRung(c, row.uid) && !Completes(c, row.uid, days, 1)
  }

  /** The user's level, raised to that of the last rung crossed. */
  function Levelled(db: Db, tick: int, row: UserRow): Db {
    var rungs := RungsOf(db.config, row.uid);
    var level := LevelOf(LastCrossed(rungs, DaysSince(tick, row.lastLogin)), |rungs|);
    if level > row.level then SetLevel(db, row.uid, level) else db
  }

  function HaltedIn(db: Db, tick: int, row: UserRow): Db {
    Halted(Levelled(db, tick, row), row.uid, DaysSince(tick, row.lastLogin))
  }

  lemma ProcessUserCases(db: Db, tick: int, row: UserRow)
    ensures var rungs, days := RungsOf(db.config, row.uid), DaysSince(tick, row.lastLogin);
      var idx := LastCrossed(rungs, days);
      && (idx >= |rungs| - 1 <==> days >= LastRung(db.config, row.uid))
      && ProcessUser(db, tick, row) ==
        if idx < 0 then db
        else if idx >= |rungs| - 1 then Trigger(Levelled(db, tick, row), row.uid, days)
        else Levelled(db, tick, row)
  {
    TriggersAtLastRung(RungsOf(db.config, row.uid), DaysSince(tick, row.lastLogin));
  }

  /** The scan stopped for ever in the trigger of row `k`, the first that never ends. */
  ghost predicate StoppedAt(db: Db, tick: int, rows: seq<UserRow>, k: nat, r: Db)
    requires k < |rows|
  {
    && NoneStuck(db.config, tick, rows, k) && Stuck(db.config, tick, rows[k])
    && r == HaltedIn(ScanRows(db, tick, rows[..k]), tick, rows[k])
  }

  /** The scan stopped for ever in the trigger of the first user whose trigger never ends. */
  ghost predicate Stopped(db: Db, tick: int, rows: seq<UserRow>, r: Db) {
    exists k: nat :: k < |rows| && StoppedAt(db, tick, rows, k, r)
  }

  /** The walk after `k` users. */
  ghost predicate Walked(was: Db, now: Db, tick: int, rows: seq<UserRow>, k: nat, connections: nat)
    requires k <= |rows|
  {
    && now == ScanRows(was, tick, rows[..k]) && now.config == was.config
    && (connections == 1 ==> NoneStuck(was.config, tick, rows, k))
  }

  lemma WalkedAll(was: Db, now: Db, tick: int, rows: seq<UserRow>, connections: nat)
    requires Walked(was, now, tick, rows, |rows|, connections)
    ensures now == ScanRows(was, tick, rows)
  {
    assert rows[..|rows|] == rows;
  }

  lemma WalkedNone(db: Db, tick: int, rows: seq<UserRow>, connections: nat)
    ensures Walked(db, db, tick, rows, 0, connections)
  {}

  lemma WalkedStep(was: Db, now: Db, tick: int, rows: seq<UserRow>, k: nat, connections: nat)
    requires k < |rows| && Walked(was, now, tick, rows, k, connections)
    ensures if connections == 1 && Stuck(was.config, tick, rows[k])
            then Stopped(was, tick, rows, HaltedIn(now, tick, rows[k])) && !AllEnd(was.config, tick, rows)
            else Walked(was, ProcessUser(now, tick, rows[k]), tick, rows, k + 1, connections)
  {
    ScanRowsAppend(was, tick, rows, k);
    ProcessUserGrows(now, tick, rows[k]);
    if connections == 1 && Stuck(was.config, tick, rows[k]) {
      assert StoppedAt(was, tick, rows, k, HaltedIn(now, tick, rows[k]));
    } else {
      NoneStuckStep(was.config, tick, rows, k);
    }
  }

  ghost predicate NoneStuck(c: Config, tick: int, rows: seq<UserRow>, k: nat)
    requires k <= |rows|
  {
    forall i :: 0 <= i < k ==> !Stuck(c, tick, rows[i])
  }

  ghost predicate AllEnd(c: Config, tick: int, rows: seq<UserRow>) {
    NoneStuck(c, tick, rows, |rows|)
  }

  lemma NoneStuckStep(c: Config, tick: int, rows: seq<UserRow>, k: nat)
    requires k < |rows|
    ensures NoneStuck(c, tick, rows, k + 1) <==> NoneStuck(c, tick, rows, k) && !Stuck(c, tick, rows[k])
  {}

  lemma SomeMetAppend(rows: seq<Row>, i: nat, days: int, bound: set<int>)
    requires i < |rows|
    ensures SomeMet(rows[..i + 1], days, bound) <==>
      SomeMet(rows[..i], days, bound) || (Met(rows[i].triggerDays, days) && rows[i].asset !in bound)
    ensures SomeMet(rows[..i + 1], days, bound) ==> SomeMet(rows, days, bound)
  {
    var next := rows[..i + 1];
    assert forall k :: 0 <= k < i ==> next[k] == rows[..i][k] == rows[k];
    assert next[i] == rows[i];
  }

  /** The asset loop after `i` rows. */
  ghost predicate Bound(was: Db, now: Db, so: set<int>, uid: int, days: int, rows: seq<Row>, i: nat)
    requires i <= |rows|
  {
    so == RowAssets(rows[..i]) && AssetPass(now, uid, days, rows[i..]) == AssetPass(was, uid, days, rows)
  }

  lemma BoundStep(was: Db, now: Db, so: set<int>, uid: int, days: int, rows: seq<Row>, i: nat)
    requires i < |rows| && Bound(was, now, so, uid, days, rows, i)
    ensures Bound(was, AssetStep(now, uid, days, rows[i]), so + {rows[i].asset}, uid, days, rows, i + 1)
  {
    RowAssetsAppend(rows[..i], rows[i]);
    assert rows[..i + 1] == rows[..i] + [rows[i]];
    assert rows[i..][0] == rows[i] && rows[i..][1..] == rows[i + 1..];
  }

  /** The category loop after `i` rows: what it computes is still to come from the rest, and on a pool
      of one connection it has only passed over rows. */
  ghost predicate Progress(was: Db, bound: set<int>, now: Db, so: set<int>, uid: int, days: int, rows: seq<Row>,
                           i: nat, connections: nat)
    requires i <= |rows|
  {
    && CategoryPass(now, uid, days, rows[i..], so) == CategoryPass(was, uid, days, rows, bound)
    && (connections == 1 ==> now == was && so == bound && !SomeMet(rows[..i], days, bound))
  }

  lemma ProgressStep(was: Db, bound: set<int>, now: Db, so: set<int>, uid: int, days: int, rows: seq<Row>,
                     i: nat, connections: nat)
    requires i < |rows| && Progress(was, bound, now, so, uid, days, rows, i, connections)
    ensures var (next, more) := CategoryStep(now, uid, days, rows[i], so);
      if connections == 1 && Met(rows[i].triggerDays, days) && rows[i].asset !in so
      then now == was && SomeMet(rows, days, bound)
      else Progress(was, bound, next, more, uid, days, rows, i + 1, connections)
  {
    assert rows[i..][0] == rows[i] && rows[i..][1..] == rows[i + 1..];
    SomeMetAppend(rows, i, days, bound);
  }

  lemma ProgressEnd(was: Db, bound: set<int>, now: Db, so: set<int>, uid: int, days: int, rows: seq<Row>,
                    connections: nat)
    requires Progress(was, bound, now, so, uid, days, rows, |rows|, connections)
    ensures (now, so) == CategoryPass(was, uid, days, rows, bound)
    ensures connections == 1 ==> !SomeMet(rows, days, bound)
  {
    assert rows[..|rows|] == rows && rows[|rows|..] == [];
  }

  /** So a trigger ends, on a pool of any size, exactly when the pool has a second connection or no active
      asset without bindings of its own is decided about, by a binding of its category. */
  lemma CompletesIff(c: Config, uid: int, days: int, connections: nat)
    ensures Completes(c, uid, days, connections) <==>
      connections >= 2 || forall x :: ActiveOf(c, uid, x) && Unbound(c, x.id) ==> !Decided(c, uid, x, days)
  {
    CompletesIfNobodyEntitled(c, uid, days, connections);
    forall x | x in c.assets
      ensures Entitled(c, uid, x.id, days) <==> Decided(c, uid, x, days)
      ensures Unbound(c, x.id) <==> !HasAssetBinding(c, x.id)
      ensures ActiveOf(c, uid, x) <==> IsActiveAsset(c, uid, x.id)
    {
      UncoveredIsLeftOver(c, uid, x, days);
      UnboundIff(c, x.id);
      ActiveIff(c, uid, x);
    }
    forall a | Entitled(c, uid, a, days) ensures exists x :: x in c.assets && x.id == a {
      assert IsActiveAsset(c, uid, a);
    }
  }

  lemma CompletesIfNobodyEntitled(c: Config, uid: int, days: int, connections: nat)
    ensures Completes(c, uid, days, connections) <==>
      connections >= 2 || forall a :: Entitled(c, uid, a, days) ==> HasAssetBinding(c, a)
  {
    var xs, ys := AssetQuery(c, uid), CategoryQuery(c, uid);
    AssetRowBound(c, uid);
    CategoryRowsFall(c, uid, ByPriority(c.categoryBindings));
    forall a | !HasAssetBinding(c, a) ensures Entitled(c, uid, a, days) <==> FirstMet(ys, a, days).Some? {
      FirstMetGoverns(c, uid, a, days);
      FirstMetSplit(xs, ys, a, days);
    }
    if i :| 0 <= i < |ys| && Met(ys[i].triggerDays, days) {
      assert ys[i] in ys && !HasAssetBinding(c, ys[i].asset);
    }
    if a :| !HasAssetBinding(c, a) && FirstMet(ys, a, days).Some? {
      var i :| 0 <= i < |ys| && ys[i] == FirstMet(ys, a, days).value;
    }
  }

  /** One asset, in a category that is bound to the owner's only inheritor. */
  function ByCategory(): Config {
    Config([Category(5, 1)], [Asset(1, 1, Some(5), true, true)], [Inheritor(7, 1, 1, 99)], [],
           [Binding(1, 5, 7, 1, None)], map[], [15, 60], map[])
  }

  /** Its trigger creates the event on two connections, and nothing, for ever, on one. */
  lemma CategoryNeverHandedOver(db: Db, days: int)
    requires db.config == ByCategory() && !Live(db.events, 1, Some(1))
    ensures Completes(db.config, 1, days, 2) && Live(Trigger(db, 1, days).events, 1, Some(1))
    ensures !Completes(db.config, 1, days, 1) && Halted(db, 1, days) == db
  {
    var c := db.config;
    assert c.assets[0] in c.assets && c.assets[0].id == 1 && c.inheritors[0] in c.inheritors;
    assert IsActiveAsset(c, 1, 1) && InCategory(c, 1, 5, c.assets[0]) && FallsToCategory(c, 1, 1, 5);
    assert LeastMet(c, c.categoryBindings, 5, days, c.categoryBindings[0]);
    assert Governs(c, 1, 1, days, c.categoryBindings[0]);
    CompletesIff(c, 1, days, 1);
    TriggerLive(db, 1, days);
    ByPriorityMembers(c.assetBindings);
    assert ByPriority(c.assetBindings) == [];
  }

  /** No category row is for an asset that the asset-level rows bind. */
  lemma CategoryRowsUnbound(c: Config, uid: int, days: int)
    ensures var rows := CategoryQuery(c, uid);
      SomeMet(rows, days, RowAssets(AssetQuery(c, uid))) <==> SomeMet(rows, days, {})
  {
    AssetRowBound(c, uid);
    CategoryRowsFall(c, uid, ByPriority(c.categoryBindings));
    var rows := CategoryQuery(c, uid);
    assert forall i :: 0 <= i < |rows| ==> rows[i] in rows;
  }

  lemma {:induction false} ScanRowsAppend(db: Db, tick: int, rows: seq<UserRow>, k: nat)
    requires k < |rows|
    ensures ScanRows(db, tick, rows[..k + 1]) == ProcessUser(ScanRows(db, tick, rows[..k]), tick, rows[k])
    ensures ScanRows(db, tick, rows[..k]).config == db.config
    decreases k
  {
    if k > 0 {
      assert rows[..k][1..] == rows[1..][..k - 1] && rows[..k + 1][1..] == rows[1..][..k];
      ProcessUserGrows(db, tick, rows[0]);
      ScanRowsAppend(ProcessUser(db, tick, rows[0]), tick, rows[1..], k - 1);
    } else {
      assert rows[..1][1..] == [];
    }
  }

  class Store {
    var config: Config
    var users: map<int, User>
    var events: seq<Event>
    var now: int
    /** The size of the pool: 1 on SQLite, 25 on MySQL and PostgreSQL. */
    const connections: nat
    /** Connections that open cursors of the scheduler thread hold. */
    var held: nat

    ghost function View(): Db
      reads this
    {
      Db(config, users, events, now)
    }

    constructor (c: Config, connections: nat)
      ensures View() == Db(c, map[], [], 0) && this.connections == connections && held == 0
    {
      this.connections := connections;
      config, users, events, now, held := c, map[], [], 0, 0;
    }

    /** Inserts one event and sets the owner's stage. */
    method CreateInheritanceEvent(uid: int, inheritor: int, codeHash: int, target: Option<int>)
      modifies `events, `users
      ensures View() == CreateEvent(old(View()), uid, target, inheritor, codeHash)
    {
      events := events + [NewEvent(uid, target, inheritor, codeHash)];
      if uid in users {
        users := users[uid := users[uid].(stage := Stage.Triggered)];
      }
    }

    /** False when the call never returns. */
    method TriggerInheritance(uid: int, daysSince: int) returns (done: bool)
      requires held == 0 < connections
      modifies `events, `users, `held
      ensures done <==> Completes(config, uid, daysSince, connections)
      ensures View() == if done then Trigger(old(View()), uid, daysSince) else Halted(old(View()), uid, daysSince)
      ensures held == if done then 0 else connections
    {
      var boundAssets := BindAssets(uid, daysSince);
      CategoryRowsUnbound(config, uid, daysSince);
      done, boundAssets := BindCategories(uid, daysSince, boundAssets);
      if !done {
        return;
      }
      CreateForUser(uid, boundAssets);
    }

    /** The user-level part, given the assets that were bound. */
    method CreateForUser(uid: int, boundAssets: set<int>)
      modifies `events, `users
      ensures View() == UserPass(old(View()), uid, boundAssets)
    {
      var total := |ActiveAssets(config, uid)|;
      if |boundAssets| >= total && total > 0 {
        return;
      }
      if Live(events, uid, None) {
        return;
      }
      if uid in config.defaultInheritor {
        var d := FindInheritor(config.inheritors, config.defaultInheritor[uid]);
        if d.Some? && d.value.owner == uid {
          CreateInheritanceEvent(uid, d.value.id, d.value.codeHash, None);
          return;
        }
      }
      var h := FirstInheritor(config.inheritors, uid);
      if h.None? {
        return;
      }
      CreateInheritanceEvent(uid, h.value.id, h.value.codeHash, None);
    }

    /** One asset-level row: an event if the row is met and none is live. */
    method BindAsset(uid: int, daysSince: int, b: Row)
      modifies `events, `users
      ensures View() == AssetStep(old(View()), uid, daysSince, b)
    {
      if b.triggerDays.Some? && daysSince < b.triggerDays.value {
        return;
      }
      if Live(events, uid, Some(b.asset)) {
        return;
      }
      CreateInheritanceEvent(uid, b.inheritor, b.codeHash, Some(b.asset));
    }

    /** The loop over asset-level bindings; returns the assets they bind. */
    method BindAssets(uid: int, daysSince: int) returns (boundAssets: set<int>)
      modifies `events, `users
      ensures View() == AssetPass(old(View()), uid, daysSince, AssetQuery(old(config), uid))
      ensures boundAssets == RowAssets(AssetQuery(config, uid))
    {
      var bindings := AssetQuery(config, uid);
      boundAssets := {};
      var i := 0;
      ghost var was := View();
      while i < |bindings|
        invariant 0 <= i <= |bindings|
        invariant Bound(was, View(), boundAssets, uid, daysSince, bindings, i)
      {
        BoundStep(was, View(), boundAssets, uid, daysSince, bindings, i);
        boundAssets := boundAssets + {bindings[i].asset};
        BindAsset(uid, daysSince, bindings[i]);
        i := i + 1;
      }
      assert bindings[..i] == bindings;
    }

    /** One category row, while the cursor of the query holds a connection. */
    method BindCategory(uid: int, daysSince: int, r: Row, bound: set<int>) returns (done: bool, boundAssets: set<int>)
      requires held == 1 <= connections
      modifies `events, `users
      ensures done <==> (connections >= 2 || !Met(r.triggerDays, daysSince) || r.asset in bound)
      ensures if done then (View(), boundAssets) == CategoryStep(old(View()), uid, daysSince, r, bound)
              else View() == old(View())
    {
      done, boundAssets := true, bound;
      if r.triggerDays.Some? && daysSince < r.triggerDays.value {
        return;
      }
      if r.asset in boundAssets {
        return;
      }
      boundAssets := boundAssets + {r.asset};
      if held >= connections {
        return false, boundAssets;
      }
      if !Live(events, uid, Some(r.asset)) {
        CreateInheritanceEvent(uid, r.inheritor, r.codeHash, Some(r.asset));
      }
    }

    /** The loop over category bindings; extends the set of bound assets. The cursor stays open while
        the loop issues its own calls. */
    method BindCategories(uid: int, daysSince: int, bound: set<int>) returns (done: bool, boundAssets: set<int>)
      requires held == 0 < connections
      modifies `events, `users, `held
      ensures done <==> (connections >= 2 || !SomeMet(CategoryQuery(config, uid), daysSince, bound))
      ensures if done
              then (View(), boundAssets) == CategoryPass(old(View()), uid, daysSince, CategoryQuery(config, uid), bound)
              else View() == old(View())
      ensures held == if done then 0 else connections
    {
      var rows := CategoryQuery(config, uid);
      ghost var was := View();
      held := held + 1;
      boundAssets := bound;
      var i := 0;
      while i < |rows|
        invariant 0 <= i <= |rows| && held == 1
        invariant Progress(was, bound, View(), boundAssets, uid, daysSince, rows, i, connections)
      {
        ghost var now, so := View(), boundAssets;
        done, boundAssets := BindCategory(uid, daysSince, rows[i], boundAssets);
        ProgressStep(was, bound, now, so, uid, daysSince, rows, i, connections);
        if !done {
          return;
        }
        i := i + 1;
      }
      ProgressEnd(was, bound, View(), boundAssets, uid, daysSince, rows, connections);
      held := held - 1;
      done := true;
    }

    /** The walk over the inactive users, in the order in which the query returned them. False when it
        stops for ever, at the first user whose trigger never returns. */
    method ProcessEscalation(tick: int, order: seq<int>) returns (done: bool)
      requires held == 0 < connections
      modifies `events, `users, `held
      ensures done <==> (connections >= 2 || AllEnd(config, tick, Snapshot(old(View()), order)))
      ensures done ==> View() == Scan(old(View()), tick, order)
      ensures !done ==> Stopped(old(View()), tick, Snapshot(old(View()), order), View())
      ensures held == if done then 0 else connections
    {
      var rows := Snapshot(Db(config, users, events, now), order);
      ghost var was := View();
      WalkedNone(was, tick, rows, connections);
      var k := 0;
      while k < |rows|
        invariant 0 <= k <= |rows| && held == 0
        invariant Walked(was, View(), tick, rows, k, connections)
      {
        ghost var now := View();
        done := ProcessRow(tick, rows[k]);
        WalkedStep(was, now, tick, rows, k, connections);
        if !done {
          return;
        }
        k := k + 1;
      }
      WalkedAll(was, View(), tick, rows, connections);
      done := true;
    }

    /** The last rung the days have reached, or -1. */
    method CrossedRung(thresholds: seq<int>, daysSince: int) returns (idx: int)
      ensures idx == LastCrossed(thresholds, daysSince)
    {
      idx := -1;
      var i := 0;
      while i < |thresholds|
        invariant 0 <= i <= |thresholds|
        invariant idx == LastCrossed(thresholds[..i], daysSince)
      {
        assert thresholds[..i + 1][..i] == thresholds[..i];
        if daysSince >= thresholds[i] {
          idx := i;
        }
        i := i + 1;
      }
      assert thresholds[..i] == thresholds;
    }

    method RaiseLevel(tick: int, u: UserRow, rungs: int, idx: int)
      requires rungs == |RungsOf(config, u.uid)|
      requires idx == LastCrossed(RungsOf(config, u.uid), DaysSince(tick, u.lastLogin))
      modifies `users
      ensures View() == Levelled(old(View()), tick, u)
    {
      var level := idx + 1;
      if level > rungs - 1 {
        level := rungs - 1;
      }
      if level > u.level && u.uid in users {
        users := users[u.uid := users[u.uid].(level := level)];
      }
    }

    /** The days of the user's global ladder, or the configured default without one. */
    method UserLadderDays(uid: int) returns (days: Rungs)
      ensures days == if uid in config.ladders then config.ladders[uid] else config.defaultLadder
    {
      if uid in config.ladders {
        return config.ladders[uid];
      }
      days := config.defaultLadder;
    }

    method ProcessRow(tick: int, u: UserRow) returns (done: bool)
      requires held == 0 < connections
      modifies `events, `users, `held
      ensures done <==> (connections >= 2 || !Stuck(config, tick, u))
      ensures View() == if done then ProcessUser(old(View()), tick, u) else HaltedIn(old(View()), tick, u)
      ensures held == if done then 0 else connections
    {
      var thresholds := UserLadderDays(u.uid);
      var daysSince := DaysSince(tick, u.lastLogin);
      var idx := CrossedRung(thresholds, daysSince);
      ProcessUserCases(View(), tick, u);
      if idx < 0 {
        return true;
      }
      RaiseLevel(tick, u, |thresholds|, idx);
      done := true;
      if idx >= |thresholds| - 1 {
        done := TriggerInheritance(u.uid, daysSince);
      }
    }

    /** The part of a successful login that resets the switch. */
    method HandleLogin(uid: int)
      modifies this
      ensures View() == Login(old(View()), uid)
    {
      if uid !in users {
        return;
      }
      var stage := users[uid].stage;
      users := users[uid := users[uid].(lastLogin := Some(now), stage := Stage.Inactive, level := 0)];
      if stage != Stage.Inactive {
        var rows, t := events, now;
        events := seq(|rows|, i requires 0 <= i < |rows| => ReverseOne(rows[i], uid, t));
      }
    }

    method HandleClaim(id: int, codeHash: int) returns (out: Outcome)
      modifies this
      ensures (View(), out) == Claim(old(View()), id, codeHash)
    {
      if !(0 <= id < |events|) {
        return UnknownEvent;
      }
      var e := events[id];
      if e.codeHash != codeHash {
        return WrongCode;
      }
      if e.status != Status.Pending {
        return NotPending;
      }
      var rowsAffected := 0;
      if events[id].status == Status.Pending {
        events := events[id := events[id].(status := Status.Claimed, claimedAt := Some(now),
                                           reversableUntil := Some(now + REVERSAL_WINDOW))];
        rowsAffected := 1;
      }
      if rowsAffected == 0 {
        return LostRace;
      }
      if e.owner in users {
        users := users[e.owner := users[e.owner].(stage := Stage.Claimed)];
      }
      if e.asset.Some? {
        if !AssetKeyPresent(config, e.asset.value) {
          return KeyMissing;
        }
        return AssetKey(e.asset.value);
      }
      return MasterKey(e.owner);
    }

    /** The heartbeat of an authenticated request. */
    method TouchLastLogin(uid: int)
      modifies this
      ensures View() == Touch(old(View()), uid)
    {
      if uid in users && (users[uid].lastLogin.None? || users[uid].lastLogin.value < now - HEARTBEAT_GATE) {
        users := users[uid := users[uid].(lastLogin := Some(now))];
      }
    }

    method PutInheritanceToggle(uid: int, on: bool)
      modifies this
      ensures View() == Toggle(old(View()), uid, on)
    {
      if uid in users {
        users := users[uid := users[uid].(enabled := on)];
      }
    }
  }

  lemma RowAssetsAppend(rows: seq<Row>, r: Row)
    ensures RowAssets(rows + [r]) == RowAssets(rows) + {r.asset}
  {
    var s := rows + [r];
    assert forall i :: 0 <= i < |rows| ==> s[i] == rows[i];
    assert s[|rows|] == r;
  }
}
