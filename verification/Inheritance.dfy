/** triggerInheritance as a function of the database, and what it promises: who gets what,
    that it is idempotent, and that no asset is left out. */
module Inheritance {
  import opened Base
  import opened Estate
  import opened Plain

  // ---------- specification ----------

  /** The loop over asset-level rows. */
  function AssetPass(db: Db, uid: int, days: int, rows: seq<Row>): Db
    decreases |rows|
  {
    if rows == [] then db
    else AssetPass(AssetStep(db, uid, days, rows[0]), uid, days, rows[1..])
  }

  function AssetStep(db: Db, uid: int, days: int, r: Row): Db {
    if !Met(r.triggerDays, days) || Live(db.events, uid, Some(r.asset)) then db
    else CreateEvent(db, uid, Some(r.asset), r.inheritor, r.codeHash)
  }

  /** The loop over category rows, which also grows the set of bound assets. */
  function CategoryPass(db: Db, uid: int, days: int, rows: seq<Row>, bound: set<int>): (Db, set<int>)
    decreases |rows|
  {
    if rows == [] then (db, bound)
    else
      var (db', bound') := CategoryStep(db, uid, days, rows[0], bound);
      CategoryPass(db', uid, days, rows[1..], bound')
  }

  function CategoryStep(db: Db, uid: int, days: int, r: Row, bound: set<int>): (Db, set<int>) {
    if !Met(r.triggerDays, days) || r.asset in bound then (db, bound)
    else if Live(db.events, uid, Some(r.asset)) then (db, bound + {r.asset})
    else (CreateEvent(db, uid, Some(r.asset), r.inheritor, r.codeHash), bound + {r.asset})
  }

  function RowAssets(rows: seq<Row>): set<int> {
    set i | 0 <= i < |rows| :: rows[i].asset
  }

  /** The final, user-level part, given the assets that were bound. */
  function UserPass(db: Db, uid: int, bound: set<int>): Db {
    var total := |ActiveAssets(db.config, uid)|;
    if |bound| >= total && total > 0 then db
    else if Live(db.events, uid, None) then db
    else match UserHeir(db.config, uid)
      case None => db
      case Some(h) => CreateEvent(db, uid, None, h.id, h.codeHash)
  }

  function Trigger(db: Db, uid: int, days: int): Db {
    var rows := AssetQuery(db.config, uid);
    var db1 := AssetPass(db, uid, days, rows);
    var (db2, bound) := CategoryPass(db1, uid, days, CategoryQuery(db.config, uid), RowAssets(rows));
    UserPass(db2, uid, bound)
  }

  // ---------- an independent account of who is entitled to what ----------

  /** The first row for an asset whose trigger condition is met. */
  function FirstMet(rows: seq<Row>, a: int, days: int): (r: Option<Row>)
    ensures r.Some? ==> r.value in rows && r.value.asset == a && Met(r.value.triggerDays, days)
    ensures r.None? ==> forall q :: q in rows && q.asset == a ==> !Met(q.triggerDays, days)
  {
    if rows == [] then None
    else if rows[0].asset == a && Met(rows[0].triggerDays, days) then Some(rows[0])
    else FirstMet(rows[1..], a, days)
  }

  /** `b` is least in (priority, id) order among the met bindings of `target` that have an heir. */
  ghost predicate LeastMet(c: Config, table: seq<Binding>, target: int, days: int, b: Binding) {
    && b in table && Qualifies(c, target, days, b)
    && forall d :: d in table && Qualifies(c, target, days, d) ==> !Before(d.priority, d.id, b.priority, b.id)
  }

  predicate Qualifies(c: Config, target: int, days: int, b: Binding) {
    b.target == target && Met(b.triggerDays, days) && FindInheritor(c.inheritors, b.inheritor).Some?
  }

  ghost predicate HasJoinedBinding(c: Config, a: int) {
    exists b :: b in c.assetBindings && b.target == a && FindInheritor(c.inheritors, b.inheritor).Some?
  }

  /** The category of an active asset of `uid` that has no asset-level binding at all. */
  ghost predicate FallsToCategory(c: Config, uid: int, a: int, cat: int) {
    exists x :: x in c.assets && x.id == a && InCategory(c, uid, cat, x)
  }

  /** The binding that decides who receives asset `a` of `uid`: asset level before category level. */
  ghost predicate Governs(c: Config, uid: int, a: int, days: int, b: Binding) {
    IsActiveAsset(c, uid, a) &&
    (LeastMet(c, c.assetBindings, a, days, b)
     || exists cat :: FallsToCategory(c, uid, a, cat) && LeastMet(c, c.categoryBindings, cat, days, b))
  }

  /** An asset that only the user-level hand-over can carry. */
  ghost predicate Uncovered(c: Config, uid: int, a: int, days: int) {
    IsActiveAsset(c, uid, a) && !HasJoinedBinding(c, a) && !Entitled(c, uid, a, days)
  }

  ghost predicate Entitled(c: Config, uid: int, a: int, days: int) {
    exists b :: Governs(c, uid, a, days, b)
  }

  /** `e` hands its asset to the inheritor of the binding that governs that asset. */
  ghost predicate GoesToGoverning(c: Config, uid: int, days: int, e: Event) {
    && e.asset.Some?
    && exists b :: Governs(c, uid, e.asset.value, days, b) && HandOver(c, uid, e.asset.value, b) == Some(e)
  }

  ghost predicate IsUserHandOver(c: Config, uid: int, e: Event) {
    UserHeir(c, uid).Some? && e == NewEvent(uid, None, UserHeir(c, uid).value.id, UserHeir(c, uid).value.codeHash)
  }

  predicate Targets(s: seq<Event>, t: Option<int>) {
    exists i :: 0 <= i < |s| && s[i].asset == t
  }

  /** The event that binding `b` creates for asset `a`: a pending snapshot of its inheritor. */
  function HandOver(c: Config, uid: int, a: int, b: Binding): Option<Event> {
    var h := FindInheritor(c.inheritors, b.inheritor);
    if h.None? then None else Some(NewEvent(uid, Some(a), b.inheritor, h.value.codeHash))
  }

  // ---------- queries against tables ----------

  lemma {:induction false} AssetRowsMeaning(c: Config, uid: int, bs: seq<Binding>)
    ensures forall r :: r in AssetRows(c, uid, bs) <==>
      exists b :: b in bs && IsActiveAsset(c, uid, b.target) && RowOf(c, b, b.target) == Some(r)
  {
    if bs != [] {
      AssetRowsMeaning(c, uid, bs[1..]);
      assert bs == [bs[0]] + bs[1..];
      forall r ensures r in AssetRows(c, uid, bs) <==>
        exists b :: b in bs && IsActiveAsset(c, uid, b.target) && RowOf(c, b, b.target) == Some(r)
      {
        if b :| b in bs && IsActiveAsset(c, uid, b.target) && RowOf(c, b, b.target) == Some(r) {
          if b != bs[0] { assert b in bs[1..]; }
        }
        if r in AssetRows(c, uid, bs) && r !in AssetRows(c, uid, bs[1..]) {
          assert RowOf(c, bs[0], bs[0].target) == Some(r);
        }
      }
    }
  }

  function RowOf(c: Config, b: Binding, a: int): Option<Row> {
    var h := FindInheritor(c.inheritors, b.inheritor);
    if h.None? then None else Some(Row(a, b.inheritor, h.value.codeHash, b.triggerDays))
  }

  lemma {:induction false} FirstMetSplit(xs: seq<Row>, ys: seq<Row>, a: int, days: int)
    ensures FirstMet(xs + ys, a, days) ==
      if FirstMet(xs, a, days).Some? then FirstMet(xs, a, days) else FirstMet(ys, a, days)
  {
    if xs == [] {
      assert xs + ys == ys;
    } else {
      assert (xs + ys)[1..] == xs[1..] + ys;
      FirstMetSplit(xs[1..], ys, a, days);
    }
  }

  /** Over bindings in order, the first met joined row for `a` is that of the least met binding. */
  lemma {:induction false} FirstMetAsset(c: Config, uid: int, bs: seq<Binding>, a: int, days: int)
    requires Sorted(bs)
    ensures var r := FirstMet(AssetRows(c, uid, bs), a, days);
      && (r.Some? ==> IsActiveAsset(c, uid, a))
      && (r.Some? ==> exists b :: LeastMet(c, bs, a, days, b) && RowOf(c, b, a) == r)
      && (r.None? && IsActiveAsset(c, uid, a) ==> forall b :: !LeastMet(c, bs, a, days, b))
  {
    if bs != [] {
      var h := RowOf(c, bs[0], bs[0].target);
      var head := if h.Some? && IsActiveAsset(c, uid, bs[0].target) then [h.value] else [];
      FirstMetSplit(head, AssetRows(c, uid, bs[1..]), a, days);
      FirstMetAsset(c, uid, bs[1..], a, days);
      FirstStep(c, bs, a, days);
    }
  }

  /** Least met of a sorted sequence: its head if the head qualifies, else that of the tail. */
  lemma FirstStep(c: Config, bs: seq<Binding>, target: int, days: int)
    requires bs != [] && Sorted(bs)
    ensures Qualifies(c, target, days, bs[0]) ==> LeastMet(c, bs, target, days, bs[0])
    ensures !Qualifies(c, target, days, bs[0]) ==>
      forall b :: LeastMet(c, bs, target, days, b) <==> LeastMet(c, bs[1..], target, days, b)
  {}

  lemma {:induction false} FirstMetOfCategory(c: Config, uid: int, b: Binding, codeHash: int, assets: seq<Asset>,
                                                a: int, days: int)
    ensures var r := FirstMet(RowsOfCategory(c, uid, b, codeHash, assets), a, days);
      if Met(b.triggerDays, days) && (exists x :: x in assets && x.id == a && InCategory(c, uid, b.target, x))
      then r == Some(Row(a, b.inheritor, codeHash, b.triggerDays))
      else r == None
  {
    if assets != [] {
      var head := if InCategory(c, uid, b.target, assets[0])
        then [Row(assets[0].id, b.inheritor, codeHash, b.triggerDays)] else [];
      FirstMetSplit(head, RowsOfCategory(c, uid, b, codeHash, assets[1..]), a, days);
      FirstMetOfCategory(c, uid, b, codeHash, assets[1..], a, days);
      assert assets == [assets[0]] + assets[1..];
    }
  }

  lemma CategoryUnique(c: Config, uid: int, a: int)
    ensures forall p, q :: FallsToCategory(c, uid, a, p) && FallsToCategory(c, uid, a, q) ==> p == q
  {}

  lemma {:induction false} FirstMetCategory(c: Config, uid: int, bs: seq<Binding>, a: int, cat: int, days: int)
    requires Sorted(bs) && FallsToCategory(c, uid, a, cat)
    ensures var r := FirstMet(CategoryRows(c, uid, bs), a, days);
      && (r.Some? ==> exists b :: LeastMet(c, bs, cat, days, b) && RowOf(c, b, a) == r)
      && (r.None? ==> forall b :: !LeastMet(c, bs, cat, days, b))
  {
    if bs != [] {
      var h := FindInheritor(c.inheritors, bs[0].inheritor);
      var head := if h.Some? then RowsOfCategory(c, uid, bs[0], h.value.codeHash, c.assets) else [];
      FirstMetSplit(head, CategoryRows(c, uid, bs[1..]), a, days);
      FirstMetCategory(c, uid, bs[1..], a, cat, days);
      FirstStep(c, bs, cat, days);
      CategoryUnique(c, uid, a);
      if h.Some? {
        FirstMetOfCategory(c, uid, bs[0], h.value.codeHash, c.assets, a, days);
        assert FallsToCategory(c, uid, a, bs[0].target) <==> bs[0].target == cat;
      }
    }
  }

  lemma {:induction false} CategoryRowsFall(c: Config, uid: int, bs: seq<Binding>)
    ensures forall r :: r in CategoryRows(c, uid, bs) ==>
      && IsActiveAsset(c, uid, r.asset) && !HasAssetBinding(c, r.asset)
      && exists cat :: FallsToCategory(c, uid, r.asset, cat)
  {
    if bs != [] {
      CategoryRowsFall(c, uid, bs[1..]);
      var h := FindInheritor(c.inheritors, bs[0].inheritor);
      if h.Some? {
        RowsOfCategoryFall(c, uid, bs[0], h.value.codeHash, c.assets);
        forall r | r in RowsOfCategory(c, uid, bs[0], h.value.codeHash, c.assets)
          ensures IsActiveAsset(c, uid, r.asset) && !HasAssetBinding(c, r.asset)
          ensures exists cat :: FallsToCategory(c, uid, r.asset, cat)
        {
          var x :| x in c.assets && x.id == r.asset && InCategory(c, uid, bs[0].target, x);
          assert FallsToCategory(c, uid, r.asset, bs[0].target);
        }
      }
    }
  }

  lemma {:induction false} RowsOfCategoryFall(c: Config, uid: int, b: Binding, codeHash: int, assets: seq<Asset>)
    ensures forall r :: r in RowsOfCategory(c, uid, b, codeHash, assets) ==>
      exists x :: x in assets && x.id == r.asset && InCategory(c, uid, b.target, x)
  {
    if assets != [] {
      RowsOfCategoryFall(c, uid, b, codeHash, assets[1..]);
      assert assets == [assets[0]] + assets[1..];
    }
  }

  /** Both passes together see, for each asset, exactly the binding that governs it. */
  lemma FirstMetGoverns(c: Config, uid: int, a: int, days: int)
    ensures var r := FirstMet(AssetQuery(c, uid) + CategoryQuery(c, uid), a, days);
      && (r.Some? ==> exists b :: Governs(c, uid, a, days, b) && RowOf(c, b, a) == r)
      && (r.None? ==> forall b :: !Governs(c, uid, a, days, b))
  {
    var xs, ys := AssetQuery(c, uid), CategoryQuery(c, uid);
    ByPrioritySorted(c.assetBindings);
    ByPrioritySorted(c.categoryBindings);
    FirstMetSplit(xs, ys, a, days);
    FirstMetAsset(c, uid, ByPriority(c.assetBindings), a, days);
    LeastMetOrder(c, c.assetBindings, a, days);
    CategoryRowsFall(c, uid, ByPriority(c.categoryBindings));
    if cat :| FallsToCategory(c, uid, a, cat) {
      FirstMetCategory(c, uid, ByPriority(c.categoryBindings), a, cat, days);
      LeastMetOrder(c, c.categoryBindings, cat, days);
      CategoryUnique(c, uid, a);
      assert forall b :: b in c.assetBindings ==> b.target != a;
    }
  }

  lemma LeastMetOrder(c: Config, table: seq<Binding>, target: int, days: int)
    ensures forall b :: LeastMet(c, ByPriority(table), target, days, b) <==> LeastMet(c, table, target, days, b)
  {
    ByPriorityMembers(table);
  }

  // ---------- the passes ----------

  /** `r` is `db` with fresh pending events of `uid` appended, and the stage advanced if there are any. */
  ghost predicate Extends(db: Db, r: Db, uid: int) {
    && r.config == db.config && r.now == db.now
    && |db.events| <= |r.events| && r.events[..|db.events|] == db.events
    && r.users == (if r.events == db.events then db.users else SetStage(db, uid, Stage.Triggered).users)
    && forall i :: |db.events| <= i < |r.events| ==>
        r.events[i] == NewEvent(uid, r.events[i].asset, r.events[i].inheritor, r.events[i].codeHash)
  }

  function Created(db: Db, r: Db): seq<Event>
    requires |db.events| <= |r.events|
  {
    r.events[|db.events|..]
  }

  ghost predicate DistinctTargets(s: seq<Event>) {
    forall i, j :: 0 <= i < j < |s| ==> s[i].asset != s[j].asset
  }

  /** `e` hands its asset to the heir of the first met row for it. */
  ghost predicate FollowsRows(rows: seq<Row>, days: int, e: Event) {
    && e.asset.Some?
    && FirstMet(rows, e.asset.value, days).Some?
    && e.inheritor == FirstMet(rows, e.asset.value, days).value.inheritor
    && e.codeHash == FirstMet(rows, e.asset.value, days).value.codeHash
  }

  lemma LiveGrows(db: Db, r: Db, uid: int)
    requires Extends(db, r, uid)
    ensures forall v, t :: Live(db.events, v, t) ==> Live(r.events, v, t)
    ensures forall v, t :: Live(r.events, v, t) ==>
      Live(db.events, v, t) || (v == uid && exists e :: e in Created(db, r) && e.asset == t)
    ensures forall e :: e in Created(db, r) ==> Live(r.events, uid, e.asset)
  {
    forall v, t | Live(db.events, v, t) ensures Live(r.events, v, t) {
      var i :| 0 <= i < |db.events| && LiveAt(db.events, i, v, t);
      assert r.events[i] == r.events[..|db.events|][i];
      assert LiveAt(r.events, i, v, t);
    }
    forall v, t | Live(r.events, v, t)
      ensures Live(db.events, v, t) || (v == uid && exists e :: e in Created(db, r) && e.asset == t)
    {
      var i :| 0 <= i < |r.events| && LiveAt(r.events, i, v, t);
      if i < |db.events| {
        assert r.events[i] == r.events[..|db.events|][i];
        assert LiveAt(db.events, i, v, t);
      } else {
        assert Created(db, r)[i - |db.events|] == r.events[i];
      }
    }
    forall e | e in Created(db, r) ensures Live(r.events, uid, e.asset) {
      var k :| 0 <= k < |Created(db, r)| && Created(db, r)[k] == e;
      assert LiveAt(r.events, |db.events| + k, uid, e.asset);
    }
  }

  /** One insertion followed by an extension is an extension. */
  lemma ExtendsStep(db: Db, uid: int, t: Option<int>, inheritor: int, codeHash: int, r: Db)
    requires Extends(CreateEvent(db, uid, t, inheritor, codeHash), r, uid)
    ensures Extends(db, r, uid)
    ensures Created(db, r) ==
      [NewEvent(uid, t, inheritor, codeHash)] + Created(CreateEvent(db, uid, t, inheritor, codeHash), r)
  {
    var mid := CreateEvent(db, uid, t, inheritor, codeHash);
    assert mid.events == db.events + [NewEvent(uid, t, inheritor, codeHash)];
    assert r.events[..|db.events|] == r.events[..|mid.events|][..|db.events|] == db.events;
    assert r.events[|db.events|] == r.events[..|mid.events|][|db.events|];
    assert r.events != db.events;
  }

  lemma {:induction false} AssetPassExtends(db: Db, uid: int, days: int, rows: seq<Row>)
    ensures Extends(db, AssetPass(db, uid, days, rows), uid)
    decreases |rows|
  {
    if rows != [] {
      var q := rows[0];
      var mid := AssetStep(db, uid, days, q);
      AssetPassExtends(mid, uid, days, rows[1..]);
      if mid != db {
        ExtendsStep(db, uid, Some(q.asset), q.inheritor, q.codeHash, AssetPass(mid, uid, days, rows[1..]));
      }
    }
  }

  /** Every asset with a met row ends up with a live event of its own. */
  lemma {:induction false} AssetPassCovers(db: Db, uid: int, days: int, rows: seq<Row>, a: int)
    requires FirstMet(rows, a, days).Some?
    ensures Live(AssetPass(db, uid, days, rows).events, uid, Some(a))
    decreases |rows|
  {
    var q := rows[0];
    var mid := AssetStep(db, uid, days, q);
    if q.asset == a && Met(q.triggerDays, days) {
      AppendLive(db.events, NewEvent(uid, Some(a), q.inheritor, q.codeHash));
      AssetPassExtends(mid, uid, days, rows[1..]);
      LiveGrows(mid, AssetPass(mid, uid, days, rows[1..]), uid);
    } else {
      AssetPassCovers(mid, uid, days, rows[1..], a);
    }
  }

  /** Every event follows the rows and hands over something that was not yet live. */
  ghost predicate Follows(db: Db, uid: int, rows: seq<Row>, days: int, s: seq<Event>) {
    && DistinctTargets(s)
    && forall e :: e in s ==> FollowsRows(rows, days, e) && !Live(db.events, uid, e.asset)
  }

  /** One row in front that creates nothing: an event for its asset is live, or the row is not met. */
  lemma FollowsSkip(db: Db, uid: int, rows: seq<Row>, days: int, s: seq<Event>)
    requires rows != [] && Follows(db, uid, rows[1..], days, s)
    requires Met(rows[0].triggerDays, days) ==> Live(db.events, uid, Some(rows[0].asset))
    ensures Follows(db, uid, rows, days, s)
  {}

  /** One row in front that creates the first event. */
  lemma FollowsCreate(db: Db, mid: Db, uid: int, rows: seq<Row>, days: int, s: seq<Event>)
    requires rows != [] && Follows(mid, uid, rows[1..], days, s)
    requires Met(rows[0].triggerDays, days) && !Live(db.events, uid, Some(rows[0].asset))
    requires mid.events == db.events + [NewEvent(uid, Some(rows[0].asset), rows[0].inheritor, rows[0].codeHash)]
    ensures Follows(db, uid, rows, days, [mid.events[|db.events|]] + s)
  {
    var q := rows[0];
    var e0 := mid.events[|db.events|];
    AppendLive(db.events, e0);
    forall e | e in s ensures FollowsRows(rows, days, e) && !Live(db.events, uid, e.asset) && e.asset != e0.asset {
      assert !Live(mid.events, uid, e.asset);
    }
  }

  /** Every created event follows the rows and had no live event before it; no asset gets two. */
  lemma {:induction false} AssetPassCreates(db: Db, uid: int, days: int, rows: seq<Row>)
    ensures var r := AssetPass(db, uid, days, rows);
      Extends(db, r, uid) && Follows(db, uid, rows, days, Created(db, r))
    decreases |rows|
  {
    AssetPassExtends(db, uid, days, rows);
    if rows != [] {
      var q := rows[0];
      var mid := AssetStep(db, uid, days, q);
      var r := AssetPass(mid, uid, days, rows[1..]);
      AssetPassCreates(mid, uid, days, rows[1..]);
      if mid == db {
        FollowsSkip(db, uid, rows, days, Created(db, r));
      } else {
        ExtendsStep(db, uid, Some(q.asset), q.inheritor, q.codeHash, r);
        FollowsCreate(db, mid, uid, rows, days, Created(mid, r));
      }
    }
  }

  lemma {:induction false} AssetPassConcat(db: Db, uid: int, days: int, xs: seq<Row>, ys: seq<Row>)
    ensures AssetPass(db, uid, days, xs + ys) == AssetPass(AssetPass(db, uid, days, xs), uid, days, ys)
    decreases |xs|
  {
    if xs == [] {
      assert xs + ys == ys;
    } else {
      assert (xs + ys)[1..] == xs[1..] + ys;
      AssetPassConcat(AssetStep(db, uid, days, xs[0]), uid, days, xs[1..], ys);
    }
  }

  ghost function MetAssets(rows: seq<Row>, days: int): set<int> {
    set i | 0 <= i < |rows| && Met(rows[i].triggerDays, days) :: rows[i].asset
  }

  lemma MetAssetsStep(rows: seq<Row>, days: int)
    requires rows != []
    ensures MetAssets(rows, days) ==
      (if Met(rows[0].triggerDays, days) then {rows[0].asset} else {}) + MetAssets(rows[1..], days)
  {}

  /** Marking category assets as bound is equivalent to relying on their live events alone. */
  lemma {:induction false} CategoryPassIsAssetPass(db: Db, uid: int, days: int, rows: seq<Row>, bound: set<int>)
    requires forall r :: r in rows && r.asset in bound ==> Live(db.events, uid, Some(r.asset))
    ensures CategoryPass(db, uid, days, rows, bound) ==
      (AssetPass(db, uid, days, rows), bound + MetAssets(rows, days))
    decreases |rows|
  {
    if rows != [] {
      var (db', bound') := CategoryStep(db, uid, days, rows[0], bound);
      assert db' == AssetStep(db, uid, days, rows[0]);
      AppendLive(db.events, NewEvent(uid, Some(rows[0].asset), rows[0].inheritor, rows[0].codeHash));
      CategoryPassIsAssetPass(db', uid, days, rows[1..], bound');
      assert rows == [rows[0]] + rows[1..];
      MetAssetsStep(rows, days);
      assert bound' + MetAssets(rows[1..], days) == bound + MetAssets(rows, days);
    } else {
      assert bound + MetAssets(rows, days) == bound;
    }
  }

  lemma AssetRowBound(c: Config, uid: int)
    ensures forall r :: r in AssetQuery(c, uid) ==> HasAssetBinding(c, r.asset) && IsActiveAsset(c, uid, r.asset)
    ensures forall a :: a in RowAssets(AssetQuery(c, uid)) <==> IsActiveAsset(c, uid, a) && HasJoinedBinding(c, a)
  {
    AssetRowsMeaning(c, uid, ByPriority(c.assetBindings));
    ByPriorityMembers(c.assetBindings);
    var rows := AssetQuery(c, uid);
    forall r | r in rows ensures HasAssetBinding(c, r.asset) && IsActiveAsset(c, uid, r.asset) {
      var b :| b in c.assetBindings && IsActiveAsset(c, uid, b.target) && RowOf(c, b, b.target) == Some(r);
    }
    forall a ensures a in RowAssets(rows) <==> IsActiveAsset(c, uid, a) && HasJoinedBinding(c, a) {
      if a in RowAssets(rows) {
        var r :| r in rows && r.asset == a;
      }
      if IsActiveAsset(c, uid, a) && HasJoinedBinding(c, a) {
        var b :| b in c.assetBindings && b.target == a && FindInheritor(c.inheritors, b.inheritor).Some?;
        assert RowOf(c, b, a).value in rows;
      }
    }
  }

  /** triggerInheritance is one pass over both queries followed by the user-level part. */
  lemma TriggerPasses(db: Db, uid: int, days: int)
    ensures var rows := AssetQuery(db.config, uid) + CategoryQuery(db.config, uid);
      var bound := RowAssets(AssetQuery(db.config, uid)) + MetAssets(CategoryQuery(db.config, uid), days);
      Trigger(db, uid, days) == UserPass(AssetPass(db, uid, days, rows), uid, bound)
  {
    var xs, ys := AssetQuery(db.config, uid), CategoryQuery(db.config, uid);
    AssetRowBound(db.config, uid);
    CategoryRowsFall(db.config, uid, ByPriority(db.config.categoryBindings));
    CategoryPassIsAssetPass(AssetPass(db, uid, days, xs), uid, days, ys, RowAssets(xs));
    AssetPassConcat(db, uid, days, xs, ys);
  }

  lemma FirstMetIff(rows: seq<Row>, a: int, days: int)
    ensures a in MetAssets(rows, days) <==> FirstMet(rows, a, days).Some?
  {}

  /** The assets that the loops mark as bound. */
  ghost function BoundAssets(c: Config, uid: int, days: int): set<int> {
    RowAssets(AssetQuery(c, uid)) + MetAssets(CategoryQuery(c, uid), days)
  }

  lemma BoundActive(c: Config, uid: int, days: int)
    ensures BoundAssets(c, uid, days) <= ActiveAssets(c, uid)
  {
    AssetRowBound(c, uid);
    CategoryRowsFall(c, uid, ByPriority(c.categoryBindings));
  }

  lemma BoundIff(c: Config, uid: int, days: int, a: int)
    ensures a in ActiveAssets(c, uid) && a !in BoundAssets(c, uid, days) <==> Uncovered(c, uid, a, days)
  {
    var xs, ys := AssetQuery(c, uid), CategoryQuery(c, uid);
    AssetRowBound(c, uid);
    FirstMetGoverns(c, uid, a, days);
    FirstMetSplit(xs, ys, a, days);
    FirstMetIff(ys, a, days);
    if a !in RowAssets(xs) {
      assert FirstMet(xs, a, days).None?;
    }
  }

  /** The cardinality test of the user-level part decides whether some active asset is uncovered. */
  lemma BoundTest(c: Config, uid: int, days: int)
    ensures var bound := RowAssets(AssetQuery(c, uid)) + MetAssets(CategoryQuery(c, uid), days);
      var active := ActiveAssets(c, uid);
      && bound <= active
      && (forall a :: a in active && a !in bound <==> Uncovered(c, uid, a, days))
      && (|bound| >= |active| && |active| > 0 <==> active != {} && forall a :: !Uncovered(c, uid, a, days))
  {
    var bound, active := BoundAssets(c, uid, days), ActiveAssets(c, uid);
    BoundActive(c, uid, days);
    forall a ensures a in active && a !in bound <==> Uncovered(c, uid, a, days) {
      BoundIff(c, uid, days, a);
    }
    SubsetCardinality(bound, active);
  }

  // ---------- main results ----------

  /** Whether the user-level hand-over is attempted. */
  ghost predicate Attempted(c: Config, uid: int, days: int) {
    ActiveAssets(c, uid) == {} || exists a :: Uncovered(c, uid, a, days)
  }

  /** The asset-level half of the allocation: each asset's event goes to the binding that governs it. */
  lemma AssetAllocation(db: Db, uid: int, days: int)
    ensures var r := AssetPass(db, uid, days, AssetQuery(db.config, uid) + CategoryQuery(db.config, uid));
      && Extends(db, r, uid) && DistinctTargets(Created(db, r))
      && (forall e :: e in Created(db, r) ==>
            GoesToGoverning(db.config, uid, days, e) && !Live(db.events, uid, e.asset))
      && (forall a :: Targets(Created(db, r), Some(a)) <==>
            Entitled(db.config, uid, a, days) && !Live(db.events, uid, Some(a)))
  {
    var c := db.config;
    var rows := AssetQuery(c, uid) + CategoryQuery(c, uid);
    var r := AssetPass(db, uid, days, rows);
    AssetPassCreates(db, uid, days, rows);
    LiveGrows(db, r, uid);
    forall e | e in Created(db, r) ensures GoesToGoverning(c, uid, days, e) {
      FirstMetGoverns(c, uid, e.asset.value, days);
      var b :| Governs(c, uid, e.asset.value, days, b)
        && RowOf(c, b, e.asset.value) == FirstMet(rows, e.asset.value, days);
      var k :| 0 <= k < |Created(db, r)| && Created(db, r)[k] == e;
      assert e == r.events[|db.events| + k];
    }
    forall a ensures Targets(Created(db, r), Some(a)) <==> Entitled(c, uid, a, days) && !Live(db.events, uid, Some(a)) {
      FirstMetGoverns(c, uid, a, days);
      if FirstMet(rows, a, days).Some? {
        AssetPassCovers(db, uid, days, rows, a);
      }
    }
  }

  /** The user-level half: one more event exactly when it is attempted, absent so far, and there is an heir. */
  lemma UserAllocation(db: Db, uid: int, days: int)
    ensures var rows := AssetQuery(db.config, uid) + CategoryQuery(db.config, uid);
      var mid := AssetPass(db, uid, days, rows);
      var h := UserHeir(db.config, uid);
      Trigger(db, uid, days) ==
        if Attempted(db.config, uid, days) && !Live(db.events, uid, None) && h.Some?
        then CreateEvent(mid, uid, None, h.value.id, h.value.codeHash) else mid
  {
    var rows := AssetQuery(db.config, uid) + CategoryQuery(db.config, uid);
    TriggerPasses(db, uid, days);
    AssetPassCreates(db, uid, days, rows);
    LiveGrows(db, AssetPass(db, uid, days, rows), uid);
    BoundTest(db.config, uid, days);
  }

  /** The created events are those of the asset passes, then at most the user-level one. */
  lemma TriggerCreated(db: Db, uid: int, days: int)
    ensures var mid := AssetPass(db, uid, days, AssetQuery(db.config, uid) + CategoryQuery(db.config, uid));
      var r := Trigger(db, uid, days);
      && Extends(db, mid, uid) && Extends(db, r, uid)
      && if Attempted(db.config, uid, days) && !Live(db.events, uid, None) && UserHeir(db.config, uid).Some?
         then exists e :: IsUserHandOver(db.config, uid, e) && Created(db, r) == Created(db, mid) + [e]
         else Created(db, r) == Created(db, mid)
  {
    var mid := AssetPass(db, uid, days, AssetQuery(db.config, uid) + CategoryQuery(db.config, uid));
    var r := Trigger(db, uid, days);
    UserAllocation(db, uid, days);
    AssetPassExtends(db, uid, days, AssetQuery(db.config, uid) + CategoryQuery(db.config, uid));
    if r != mid {
      var h := UserHeir(db.config, uid).value;
      ExtendsThenCreate(db, mid, uid, None, h.id, h.codeHash);
      assert IsUserHandOver(db.config, uid, NewEvent(uid, None, h.id, h.codeHash));
    }
  }

  lemma TriggerExtends(db: Db, uid: int, days: int)
    ensures Extends(db, Trigger(db, uid, days), uid)
  {
    TriggerCreated(db, uid, days);
  }

  lemma ExtendsThenCreate(db: Db, mid: Db, uid: int, t: Option<int>, inheritor: int, codeHash: int)
    requires Extends(db, mid, uid)
    ensures var r := CreateEvent(mid, uid, t, inheritor, codeHash);
      Extends(db, r, uid) && Created(db, r) == Created(db, mid) + [NewEvent(uid, t, inheritor, codeHash)]
  {}

  /** Each event goes where the rules send it, and no two hand over the same thing. */
  ghost predicate Allocated(c: Config, uid: int, days: int, s: seq<Event>) {
    && DistinctTargets(s)
    && forall e :: e in s ==> if e.asset.Some? then GoesToGoverning(c, uid, days, e) else IsUserHandOver(c, uid, e)
  }

  lemma AllocatedAppend(c: Config, uid: int, days: int, s: seq<Event>, e: Event)
    requires Allocated(c, uid, days, s) && !Targets(s, None) && IsUserHandOver(c, uid, e)
    ensures Allocated(c, uid, days, s + [e])
  {}

  lemma AssetsAllocated(db: Db, uid: int, days: int)
    ensures var mid := AssetPass(db, uid, days, AssetQuery(db.config, uid) + CategoryQuery(db.config, uid));
      && Extends(db, mid, uid) && Allocated(db.config, uid, days, Created(db, mid)) && !Targets(Created(db, mid), None)
  {
    AssetAllocation(db, uid, days);
  }

  /** Exactly which events a trigger creates, for any days and any existing events. */
  lemma ExactAllocation(db: Db, uid: int, days: int)
    ensures var r := Trigger(db, uid, days);
      && Extends(db, r, uid)
      && Allocated(db.config, uid, days, Created(db, r))
      && (forall a :: Targets(Created(db, r), Some(a)) <==>
            Entitled(db.config, uid, a, days) && !Live(db.events, uid, Some(a)))
      && (Targets(Created(db, r), None) <==>
            Attempted(db.config, uid, days) && UserHeir(db.config, uid).Some? && !Live(db.events, uid, None))
  {
    var c := db.config;
    var mid := AssetPass(db, uid, days, AssetQuery(c, uid) + CategoryQuery(c, uid));
    AssetsAllocated(db, uid, days);
    AssetAllocation(db, uid, days);
    TriggerCreated(db, uid, days);
    var xs, ys := Created(db, mid), Created(db, Trigger(db, uid, days));
    if ys != xs {
      var e :| IsUserHandOver(c, uid, e) && ys == xs + [e];
      AllocatedAppend(c, uid, days, xs, e);
      TargetsAppend(xs, e);
    }
  }

  lemma TargetsAppend(s: seq<Event>, e: Event)
    ensures forall t :: Targets(s + [e], t) <==> Targets(s, t) || e.asset == t
  {
    forall t ensures Targets(s + [e], t) <==> Targets(s, t) || e.asset == t {
      if i :| 0 <= i < |s| && s[i].asset == t { assert (s + [e])[i].asset == t; }
      assert (s + [e])[|s|] == e;
    }
  }

  // ---------- consequences ----------

  /** After a trigger, every entitlement has its live event, and so has an attempted user-level one. */
  lemma TriggerLive(db: Db, uid: int, days: int)
    ensures var r := Trigger(db, uid, days);
      && Extends(db, r, uid)
      && (forall a :: Live(r.events, uid, Some(a)) <==>
            Live(db.events, uid, Some(a)) || Entitled(db.config, uid, a, days))
      && (Live(r.events, uid, None) <==>
            Live(db.events, uid, None) || (Attempted(db.config, uid, days) && UserHeir(db.config, uid).Some?))
  {
    var r := Trigger(db, uid, days);
    ExactAllocation(db, uid, days);
    LiveGrows(db, r, uid);
  }

  lemma SomeTarget(s: seq<Event>)
    ensures s != [] ==> exists t :: Targets(s, t)
  {
    if s != [] {
      assert Targets(s, s[0].asset);
    }
  }

  /** Repeating a trigger with the same days changes nothing. */
  lemma TriggerIdempotent(db: Db, uid: int, days: int)
    ensures Trigger(Trigger(db, uid, days), uid, days) == Trigger(db, uid, days)
  {
    var r := Trigger(db, uid, days);
    var q := Trigger(r, uid, days);
    TriggerLive(db, uid, days);
    ExactAllocation(r, uid, days);
    forall t ensures !Targets(Created(r, q), t) {
      match t
      case None =>
      case Some(a) =>
    }
    SomeTarget(Created(r, q));
    assert q.events == q.events[..|r.events|] + Created(r, q);
  }

  /** Waiting longer never takes an asset's own event away; it can only spare the user-level one. */
  lemma TriggerMonotone(db: Db, uid: int, days: int, later: int)
    requires days <= later
    ensures forall a :: Live(Trigger(db, uid, days).events, uid, Some(a)) ==>
              Live(Trigger(db, uid, later).events, uid, Some(a))
    ensures Live(Trigger(db, uid, later).events, uid, None) ==> Live(Trigger(db, uid, days).events, uid, None)
  {
    var c := db.config;
    TriggerLive(db, uid, days);
    TriggerLive(db, uid, later);
    forall a ensures Entitled(c, uid, a, days) ==> Entitled(c, uid, a, later) {
      FirstMetGoverns(c, uid, a, days);
      FirstMetGoverns(c, uid, a, later);
      assert forall r: Row :: Met(r.triggerDays, days) ==> Met(r.triggerDays, later);
    }
    assert forall a :: Uncovered(c, uid, a, later) ==> Uncovered(c, uid, a, days);
  }

  /** A trigger never gives an owner two live events for one target. */
  lemma TriggerKeepsUnique(db: Db, uid: int, days: int)
    requires LiveUnique(db.events)
    ensures LiveUnique(Trigger(db, uid, days).events)
  {
    var r := Trigger(db, uid, days);
    ExactAllocation(db, uid, days);
    forall k | 0 <= k < |Created(db, r)| ensures !Live(db.events, uid, Created(db, r)[k].asset) {
      var e := Created(db, r)[k];
      assert Targets(Created(db, r), e.asset);
      match e.asset
      case None =>
      case Some(a) =>
    }
    ExtendsKeepsUnique(db, r, uid);
  }

  lemma ExtendsKeepsUnique(db: Db, r: Db, uid: int)
    requires LiveUnique(db.events) && Extends(db, r, uid) && DistinctTargets(Created(db, r))
    requires forall k :: 0 <= k < |Created(db, r)| ==> !Live(db.events, uid, Created(db, r)[k].asset)
    ensures LiveUnique(r.events)
  {
    var n, s := |db.events|, r.events;
    assert forall k :: 0 <= k < n ==> s[k] == s[..n][k];
    forall i, j | 0 <= i < j < |s| && IsLive(s[i]) && IsLive(s[j])
      ensures s[i].owner != s[j].owner || s[i].asset != s[j].asset
    {
      if j >= n {
        assert Created(db, r)[j - n] == s[j];
        if i >= n {
          assert Created(db, r)[i - n] == s[i];
        } else if s[i].owner == s[j].owner && s[i].asset == s[j].asset {
          assert LiveAt(db.events, i, uid, s[j].asset);
        }
      }
    }
  }

  /** The asset has bindings of its own, but the trigger days of every one of them are unmet. */
  ghost predicate Waiting(c: Config, a: int, days: int) {
    && HasJoinedBinding(c, a)
    && forall b :: b in c.assetBindings && b.target == a && FindInheritor(c.inheritors, b.inheritor).Some? ==>
        !Met(b.triggerDays, days)
  }

  lemma EntitledWaitingOrUncovered(c: Config, uid: int, a: int, days: int)
    requires IsActiveAsset(c, uid, a) && !Entitled(c, uid, a, days)
    ensures Waiting(c, a, days) != Uncovered(c, uid, a, days)
  {
    if HasJoinedBinding(c, a) {
      FirstMetGoverns(c, uid, a, days);
      var rows := AssetQuery(c, uid) + CategoryQuery(c, uid);
      AssetRowsMeaning(c, uid, ByPriority(c.assetBindings));
      ByPriorityMembers(c.assetBindings);
      forall b | b in c.assetBindings && b.target == a && FindInheritor(c.inheritors, b.inheritor).Some?
        ensures !Met(b.triggerDays, days)
      {
        assert RowOf(c, b, a).value in AssetQuery(c, uid);
        assert RowOf(c, b, a).value in rows;
      }
    }
  }

  lemma WaitingIsNotEntitled(c: Config, uid: int, a: int, days: int)
    requires Waiting(c, a, days)
    ensures !Entitled(c, uid, a, days)
  {}

  /** With at least one inheritor, an active asset ends up with neither an event of its own nor a
      user-level one exactly when it waits for its own bindings and nothing else starts the
      user-level hand-over. */
  lemma Coverage(db: Db, uid: int, days: int, a: int)
    requires UserHeir(db.config, uid).Some? && IsActiveAsset(db.config, uid, a)
    ensures var r := Trigger(db, uid, days);
      !Live(r.events, uid, Some(a)) && !Live(r.events, uid, None) <==>
        && Waiting(db.config, a, days) && !Live(db.events, uid, Some(a)) && !Live(db.events, uid, None)
        && forall x :: !Uncovered(db.config, uid, x, days)
  {
    TriggerLive(db, uid, days);
    assert a in ActiveAssets(db.config, uid);
    if Waiting(db.config, a, days) {
      WaitingIsNotEntitled(db.config, uid, a, days);
    } else if !Entitled(db.config, uid, a, days) {
      EntitledWaitingOrUncovered(db.config, uid, a, days);
    }
  }

  // ---------- the same, over the rows alone ----------

  lemma HasHeirIff(c: Config, id: int)
    ensures HasHeir(c, id) <==> FindInheritor(c.inheritors, id).Some?
  {}

  lemma LeastIsFirstDue(c: Config, table: seq<Binding>, target: int, days: int, b: Binding)
    ensures LeastMet(c, table, target, days, b) <==> FirstDue(c, table, target, days, b)
  {
    forall d ensures Due(c, table, target, days, d) <==> d in table && Qualifies(c, target, days, d) {
      HasHeirIff(c, d.inheritor);
    }
    forall d ensures NoLater(b, d) <==> !Before(d.priority, d.id, b.priority, b.id) {}
  }

  lemma ActiveIff(c: Config, uid: int, x: Asset)
    requires x in c.assets
    ensures ActiveOf(c, uid, x) <==> IsActiveAsset(c, uid, x.id)
    ensures x.id in ActiveAssets(c, uid) <==> ActiveOf(c, uid, x)
  {
    var i :| 0 <= i < |c.assets| && c.assets[i] == x;
  }

  lemma UnboundIff(c: Config, a: int)
    ensures Unbound(c, a) <==> !HasAssetBinding(c, a)
  {}

  lemma GovernsIsDecides(c: Config, uid: int, x: Asset, days: int, b: Binding)
    requires x in c.assets
    ensures Governs(c, uid, x.id, days, b) <==> Decides(c, uid, x, days, b)
  {
    ActiveIff(c, uid, x);
    UnboundIff(c, x.id);
    LeastIsFirstDue(c, c.assetBindings, x.id, days, b);
    forall cat
      ensures FallsToCategory(c, uid, x.id, cat) <==> ActiveOf(c, uid, x) && x.category == Some(cat) && Unbound(c, x.id)
    {
      assert forall y :: y in c.assets && y.id == x.id ==> y == x;
    }
    if x.category.Some? {
      LeastIsFirstDue(c, c.categoryBindings, x.category.value, days, b);
    }
  }

  lemma UncoveredIsLeftOver(c: Config, uid: int, x: Asset, days: int)
    requires x in c.assets
    ensures Entitled(c, uid, x.id, days) <==> Decided(c, uid, x, days)
    ensures Uncovered(c, uid, x.id, days) <==> LeftOver(c, uid, x, days)
  {
    ActiveIff(c, uid, x);
    forall b ensures Governs(c, uid, x.id, days, b) <==> Decides(c, uid, x, days, b) {
      GovernsIsDecides(c, uid, x, days, b);
    }
    forall b ensures HasHeir(c, b) <==> FindInheritor(c.inheritors, b).Some? {
      HasHeirIff(c, b);
    }
  }

  lemma AttemptedIsWholeDue(c: Config, uid: int, days: int)
    ensures Attempted(c, uid, days) <==> WholeDue(c, uid, days)
  {
    forall x | x in c.assets
      ensures (x.id in ActiveAssets(c, uid) <==> ActiveOf(c, uid, x))
      ensures Uncovered(c, uid, x.id, days) <==> LeftOver(c, uid, x, days)
    {
      ActiveIff(c, uid, x);
      UncoveredIsLeftOver(c, uid, x, days);
    }
    forall a | a in ActiveAssets(c, uid) ensures exists x :: ActiveOf(c, uid, x) && x.id == a {
      var i :| 0 <= i < |c.assets| && c.assets[i].id == a && c.assets[i].owner == uid && c.assets[i].active;
      assert ActiveOf(c, uid, c.assets[i]);
    }
    if Attempted(c, uid, days) {
      if a :| Uncovered(c, uid, a, days) {
        var x :| x in c.assets && x.id == a;
        assert LeftOver(c, uid, x, days);
      }
    }
    if WholeDue(c, uid, days) {
      if x :| LeftOver(c, uid, x, days) {
        assert Uncovered(c, uid, x.id, days);
      }
    }
  }

  lemma HeirIsChosen(c: Config, uid: int)
    ensures var h := UserHeir(c, uid);
      && (h.Some? <==> exists k :: k in c.inheritors && k.owner == uid)
      && (h.Some? ==> ChosenHeir(c, uid, h.value))
  {}

  lemma LiveIsAlive(s: seq<Event>, uid: int, target: Option<int>)
    ensures Live(s, uid, target) <==> Alive(s, uid, target)
  {
    if e :| e in s && e.owner == uid && e.asset == target && IsLive(e) {
      var i :| 0 <= i < |s| && s[i] == e;
      assert LiveAt(s, i, uid, target);
    }
  }

  ghost predicate CreatedFor(s: seq<Event>, n: nat, t: Option<int>) {
    exists i :: n <= i < |s| && s[i].asset == t
  }

  /** Every event of `s` from `n` on follows a rule, and no two hand over the same thing. */
  ghost predicate RulesFrom(c: Config, uid: int, days: int, s: seq<Event>, n: nat) {
    && (forall i :: n <= i < |s| ==> AssetRule(c, uid, days, s[i]) || WholeRule(c, uid, s[i]))
    && (forall i, j :: n <= i < j < |s| ==> s[i].asset != s[j].asset)
  }

  lemma TriggerAppends(db: Db, uid: int, days: int)
    ensures var r := Trigger(db, uid, days); var n := |db.events|;
      && r.config == db.config && r.now == db.now && n <= |r.events| && r.events[..n] == db.events
      && r.users == (if |r.events| > n && uid in db.users
                     then db.users[uid := db.users[uid].(stage := Stage.Triggered)] else db.users)
  {
    TriggerExtends(db, uid, days);
    var r := Trigger(db, uid, days);
    assert |r.events| == |db.events| ==> r.events == r.events[..|db.events|];
  }

  lemma AllocatedFollows(c: Config, uid: int, days: int, s: seq<Event>, n: nat)
    requires n <= |s| && Allocated(c, uid, days, s[n..])
    ensures RulesFrom(c, uid, days, s, n)
  {
    var t := s[n..];
    forall i | n <= i < |s| ensures AssetRule(c, uid, days, s[i]) || WholeRule(c, uid, s[i]) {
      assert t[i - n] == s[i] && t[i - n] in t;
      CreatedFollowsRule(c, uid, days, s[i]);
    }
    forall i, j | n <= i < j < |s| ensures s[i].asset != s[j].asset {
      assert t[i - n] == s[i] && t[j - n] == s[j];
    }
  }

  lemma TriggerFollows(db: Db, uid: int, days: int)
    ensures |db.events| <= |Trigger(db, uid, days).events|
    ensures RulesFrom(db.config, uid, days, Trigger(db, uid, days).events, |db.events|)
  {
    ExactAllocation(db, uid, days);
    AllocatedFollows(db.config, uid, days, Trigger(db, uid, days).events, |db.events|);
  }

  lemma TriggerCreatesFor(db: Db, uid: int, days: int, x: Asset)
    requires ActiveOf(db.config, uid, x)
    ensures CreatedFor(Trigger(db, uid, days).events, |db.events|, Some(x.id)) <==>
      Decided(db.config, uid, x, days) && !Alive(db.events, uid, Some(x.id))
  {
    ExactAllocation(db, uid, days);
    UncoveredIsLeftOver(db.config, uid, x, days);
    LiveIsAlive(db.events, uid, Some(x.id));
    TargetsFrom(Trigger(db, uid, days).events, |db.events|, Some(x.id));
  }

  lemma TriggerCreatesWhole(db: Db, uid: int, days: int)
    ensures CreatedFor(Trigger(db, uid, days).events, |db.events|, None) <==>
      WholeDue(db.config, uid, days) && !Alive(db.events, uid, None)
      && exists h :: h in db.config.inheritors && h.owner == uid
  {
    ExactAllocation(db, uid, days);
    AttemptedIsWholeDue(db.config, uid, days);
    HeirIsChosen(db.config, uid);
    LiveIsAlive(db.events, uid, None);
    TargetsFrom(Trigger(db, uid, days).events, |db.events|, None);
  }

  /** A trigger, over the rows alone: it only appends events, and moves the owner to the triggered stage if
      there are any. An active asset gets an event of its own exactly when some binding decides about it
      and none is alive; it goes to the inheritor of that binding. One more event, for everything, is
      created exactly when everything is due, none is alive, and the owner has an inheritor; it goes to
      the default inheritor, or else to the owner's first. */
  lemma TriggerRule(db: Db, uid: int, days: int)
    ensures var r := Trigger(db, uid, days); var n := |db.events|;
      && r.config == db.config && r.now == db.now && n <= |r.events| && r.events[..n] == db.events
      && r.users == (if |r.events| > n && uid in db.users
                     then db.users[uid := db.users[uid].(stage := Stage.Triggered)] else db.users)
      && RulesFrom(db.config, uid, days, r.events, n)
      && (forall x :: ActiveOf(db.config, uid, x) ==>
            (CreatedFor(r.events, n, Some(x.id)) <==>
             Decided(db.config, uid, x, days) && !Alive(db.events, uid, Some(x.id))))
      && (CreatedFor(r.events, n, None) <==>
            WholeDue(db.config, uid, days) && !Alive(db.events, uid, None)
            && exists h :: h in db.config.inheritors && h.owner == uid)
  {
    TriggerAppends(db, uid, days);
    TriggerFollows(db, uid, days);
    forall x | ActiveOf(db.config, uid, x)
      ensures CreatedFor(Trigger(db, uid, days).events, |db.events|, Some(x.id)) <==>
        Decided(db.config, uid, x, days) && !Alive(db.events, uid, Some(x.id))
    {
      TriggerCreatesFor(db, uid, days, x);
    }
    TriggerCreatesWhole(db, uid, days);
  }

  lemma TargetsFrom(s: seq<Event>, n: nat, t: Option<int>)
    requires n <= |s|
    ensures Targets(s[n..], t) <==> CreatedFor(s, n, t)
  {
    if i :| n <= i < |s| && s[i].asset == t {
      assert s[n..][i - n].asset == t;
    }
  }

  /** The event hands an active asset to the inheritor of the binding that decides about it. */
  ghost predicate AssetRule(c: Config, uid: int, days: int, e: Event) {
    e.asset.Some? && exists x, b, h ::
      Decides(c, uid, x, days, b) && x.id == e.asset.value && h in c.inheritors && h.id == b.inheritor
      && HandsTo(e, uid, Some(x.id), h)
  }

  /** The event hands everything to the inheritor whom the owner chose, or else to the first. */
  ghost predicate WholeRule(c: Config, uid: int, e: Event) {
    e.asset.None? && exists h :: ChosenHeir(c, uid, h) && HandsTo(e, uid, None, h)
  }

  lemma CreatedFollowsRule(c: Config, uid: int, days: int, e: Event)
    requires if e.asset.Some? then GoesToGoverning(c, uid, days, e) else IsUserHandOver(c, uid, e)
    ensures AssetRule(c, uid, days, e) || WholeRule(c, uid, e)
  {
    if e.asset.Some? {
      var a := e.asset.value;
      var b :| Governs(c, uid, a, days, b) && HandOver(c, uid, a, b) == Some(e);
      var i :| 0 <= i < |c.assets| && c.assets[i].id == a && c.assets[i].owner == uid && c.assets[i].active;
      GovernsIsDecides(c, uid, c.assets[i], days, b);
      assert HandsTo(e, uid, Some(a), FindInheritor(c.inheritors, b.inheritor).value);
    } else {
      HeirIsChosen(c, uid);
      assert HandsTo(e, uid, None, UserHeir(c, uid).value);
    }
  }
}
