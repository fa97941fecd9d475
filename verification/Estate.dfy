/** The tables the dead man's switch works on, and the SQL queries and single
    statements that the handlers issue against them. Times are whole seconds, as the
    server stores them. */
module Estate {
  import opened Base

  const HOUR := 3600
  const DAY := 86400

  // ---------- rows ----------

  datatype Stage = Inactive | Triggered | Claimed

  datatype Status = Pending | Claimed | Reversed

  datatype User = User(stage: Stage, level: int, lastLogin: Option<int>, enabled: bool)

  datatype Category = Category(id: int, owner: int)

  datatype Asset = Asset(id: int, owner: int, category: Option<int>, active: bool, hasKey: bool)

  datatype Inheritor = Inheritor(id: int, owner: int, priority: int, codeHash: int)

  /** A row of asset_inheritors (target is an asset id) or of category_inheritors
      (target is a category id). */
  datatype Binding = Binding(id: int, target: int, inheritor: int, priority: int, triggerDays: Option<int>)

  /** A row of inheritance_events; asset is None for the user-level hand-over. */
  datatype Event = Event(
    owner: int, inheritor: int, codeHash: int, asset: Option<int>, status: Status,
    claimedAt: Option<int>, reversableUntil: Option<int>, reversedAt: Option<int>)

  predicate IsLive(e: Event) {
    e.status == Status.Pending || e.status == Status.Claimed
  }

  /** Auto-increment tables, kept in id order. */
  type AssetTable = s: seq<Asset> | forall i, j :: 0 <= i < j < |s| ==> s[i].id < s[j].id
  type InheritorTable = s: seq<Inheritor> | forall i, j :: 0 <= i < j < |s| ==> s[i].id < s[j].id
  type BindingTable = s: seq<Binding> | forall i, j :: 0 <= i < j < |s| ==> s[i].id < s[j].id

  type Rungs = s: seq<int> | s != [] witness [15, 60]

  /** Everything the owner configures. The scheduler only reads it. `ladders` holds the days of
      the global ladder of each user that has a readable one. */
  datatype Config = Config(
    categories: seq<Category>, assets: AssetTable, inheritors: InheritorTable,
    assetBindings: BindingTable, categoryBindings: BindingTable,
    ladders: map<int, Rungs>, defaultLadder: Rungs, defaultInheritor: map<int, int>)

  datatype Db = Db(config: Config, users: map<int, User>, events: seq<Event>, now: int)

  // ---------- queries ----------

  predicate IsActiveAsset(c: Config, uid: int, a: int) {
    exists i :: 0 <= i < |c.assets| && c.assets[i].id == a && c.assets[i].owner == uid && c.assets[i].active
  }

  predicate OwnsAsset(c: Config, uid: int, a: int) {
    exists i :: 0 <= i < |c.assets| && c.assets[i].id == a && c.assets[i].owner == uid
  }

  function ActiveAssets(c: Config, uid: int): (r: set<int>)
    ensures forall a :: a in r <==> IsActiveAsset(c, uid, a)
  {
    set i | 0 <= i < |c.assets| && c.assets[i].owner == uid && c.assets[i].active :: c.assets[i].id
  }

  predicate HasAssetBinding(c: Config, a: int) {
    exists i :: 0 <= i < |c.assetBindings| && c.assetBindings[i].target == a
  }

  function FindInheritor(s: seq<Inheritor>, id: int): (r: Option<Inheritor>)
    ensures r.Some? ==> r.value in s && r.value.id == id
    ensures r.None? ==> forall h :: h in s ==> h.id != id
  {
    if s == [] then None
    else if s[0].id == id then Some(s[0])
    else FindInheritor(s[1..], id)
  }

  /** (priority, id) order, as in ORDER BY priority ASC, id ASC. */
  predicate Before(p: int, i: int, q: int, j: int) {
    p < q || (p == q && i < j)
  }

  function InsertBinding(b: Binding, s: seq<Binding>): (r: seq<Binding>)
    ensures multiset(r) == multiset(s) + multiset{b}
  {
    if s == [] || Before(b.priority, b.id, s[0].priority, s[0].id) then [b] + s
    else
      assert s == [s[0]] + s[1..];
      [s[0]] + InsertBinding(b, s[1..])
  }

  function ByPriority(s: seq<Binding>): (r: seq<Binding>)
    ensures multiset(r) == multiset(s)
  {
    if s == [] then []
    else
      assert s == [s[0]] + s[1..];
      InsertBinding(s[0], ByPriority(s[1..]))
  }

  ghost predicate Sorted(s: seq<Binding>) {
    forall i, j :: 0 <= i < j < |s| ==> !Before(s[j].priority, s[j].id, s[i].priority, s[i].id)
  }

  lemma {:induction false} InsertBindingSorted(b: Binding, s: seq<Binding>)
    requires Sorted(s)
    ensures Sorted(InsertBinding(b, s))
  {
    if s != [] && !Before(b.priority, b.id, s[0].priority, s[0].id) {
      InsertBindingSorted(b, s[1..]);
      var t := InsertBinding(b, s[1..]);
      forall j | 0 <= j < |t| ensures !Before(t[j].priority, t[j].id, s[0].priority, s[0].id) {
        assert t[j] in multiset(t);
        assert t[j] == b || t[j] in s[1..];
      }
    }
  }

  lemma {:induction false} ByPrioritySorted(s: seq<Binding>)
    ensures Sorted(ByPriority(s))
  {
    if s != [] {
      ByPrioritySorted(s[1..]);
      InsertBindingSorted(s[0], ByPriority(s[1..]));
    }
  }

  lemma ByPriorityMembers(s: seq<Binding>)
    ensures forall b :: b in ByPriority(s) <==> b in s
  {
    forall b ensures b in ByPriority(s) <==> b in s {
      assert b in ByPriority(s) <==> b in multiset(ByPriority(s));
    }
  }

  /** One joined row of either binding query of triggerInheritance. */
  datatype Row = Row(asset: int, inheritor: int, codeHash: int, triggerDays: Option<int>)

  /** asset_inheritors JOIN inheritors JOIN assets, for the active assets of one owner. */
  function AssetRows(c: Config, uid: int, bs: seq<Binding>): seq<Row> {
    if bs == [] then []
    else
      var h := FindInheritor(c.inheritors, bs[0].inheritor);
      (if h.Some? && IsActiveAsset(c, uid, bs[0].target)
       then [Row(bs[0].target, bs[0].inheritor, h.value.codeHash, bs[0].triggerDays)] else [])
      + AssetRows(c, uid, bs[1..])
  }

  function AssetQuery(c: Config, uid: int): seq<Row> {
    AssetRows(c, uid, ByPriority(c.assetBindings))
  }

  predicate InCategory(c: Config, uid: int, cat: int, a: Asset) {
    a.owner == uid && a.active && a.category == Some(cat) && !HasAssetBinding(c, a.id)
  }

  /** The rows that one category binding contributes: its unbound active assets, in id order. */
  function RowsOfCategory(c: Config, uid: int, b: Binding, codeHash: int, assets: seq<Asset>): seq<Row> {
    if assets == [] then []
    else
      (if InCategory(c, uid, b.target, assets[0])
       then [Row(assets[0].id, b.inheritor, codeHash, b.triggerDays)] else [])
      + RowsOfCategory(c, uid, b, codeHash, assets[1..])
  }

  /** category_inheritors JOIN inheritors JOIN assets, for assets with no binding of their own. */
  function CategoryRows(c: Config, uid: int, bs: seq<Binding>): seq<Row> {
    if bs == [] then []
    else
      var h := FindInheritor(c.inheritors, bs[0].inheritor);
      (if h.Some? then RowsOfCategory(c, uid, bs[0], h.value.codeHash, c.assets) else [])
      + CategoryRows(c, uid, bs[1..])
  }

  function CategoryQuery(c: Config, uid: int): seq<Row> {
    CategoryRows(c, uid, ByPriority(c.categoryBindings))
  }

  /** SELECT ... FROM inheritors WHERE user_id = ? ORDER BY priority, id LIMIT 1. */
  function FirstInheritor(s: seq<Inheritor>, uid: int): (r: Option<Inheritor>)
    ensures r.None? <==> forall h :: h in s ==> h.owner != uid
    ensures r.Some? ==> r.value in s && r.value.owner == uid
    ensures r.Some? ==> forall h :: h in s && h.owner == uid ==> !Before(h.priority, h.id, r.value.priority, r.value.id)
  {
    if s == [] then None
    else
      var rest := FirstInheritor(s[1..], uid);
      if s[0].owner == uid && (rest.None? || !Before(rest.value.priority, rest.value.id, s[0].priority, s[0].id))
      then Some(s[0])
      else rest
  }

  /** SELECT ... FROM inheritors WHERE id = ? AND user_id = ?, for the user's default inheritor. */
  function DefaultHeir(c: Config, uid: int): Option<Inheritor> {
    if uid !in c.defaultInheritor then None
    else
      var h := FindInheritor(c.inheritors, c.defaultInheritor[uid]);
      if h.Some? && h.value.owner == uid then h else None
  }

  /** The heir of the user-level hand-over: the default one, else the first in order. */
  function UserHeir(c: Config, uid: int): (r: Option<Inheritor>)
    ensures r.None? <==> forall h :: h in c.inheritors ==> h.owner != uid
    ensures r.Some? ==> r.value in c.inheritors && r.value.owner == uid
    ensures forall h :: h in c.inheritors && h.owner == uid ==>
              (uid in c.defaultInheritor && h.id == c.defaultInheritor[uid] ==> r == Some(h))
    ensures r.Some? && (uid in c.defaultInheritor ==> r.value.id != c.defaultInheritor[uid]) ==>
              forall k :: k in c.inheritors && k.owner == uid ==>
                r.value.priority < k.priority || (r.value.priority == k.priority && r.value.id <= k.id)
  {
    var d := DefaultHeir(c, uid);
    if d.Some? then d else FirstInheritor(c.inheritors, uid)
  }

  /** COUNT(*) > 0 over the pending and claimed events of one owner for one target. */
  predicate Live(events: seq<Event>, uid: int, target: Option<int>) {
    exists i :: 0 <= i < |events| && LiveAt(events, i, uid, target)
  }

  predicate LiveAt(events: seq<Event>, i: int, uid: int, target: Option<int>)
    requires 0 <= i < |events|
  {
    events[i].owner == uid && events[i].asset == target && IsLive(events[i])
  }

  predicate Met(triggerDays: Option<int>, days: int) {
    triggerDays.None? || days >= triggerDays.value
  }

  // ---------- statements ----------

  function NewEvent(uid: int, target: Option<int>, inheritor: int, codeHash: int): Event {
    Event(uid, inheritor, codeHash, target, Status.Pending, None, None, None)
  }

  function InsertEvent(db: Db, uid: int, target: Option<int>, inheritor: int, codeHash: int): Db {
    db.(events := db.events + [NewEvent(uid, target, inheritor, codeHash)])
  }

  function SetStage(db: Db, uid: int, stage: Stage): Db {
    if uid in db.users then db.(users := db.users[uid := db.users[uid].(stage := stage)]) else db
  }

  function SetLevel(db: Db, uid: int, level: int): Db {
    if uid in db.users then db.(users := db.users[uid := db.users[uid].(level := level)]) else db
  }

  /** Insert the event, then advance the owner's stage. */
  function CreateEvent(db: Db, uid: int, target: Option<int>, inheritor: int, codeHash: int): Db {
    SetStage(InsertEvent(db, uid, target, inheritor, codeHash), uid, Stage.Triggered)
  }

  /** At most one pending or claimed event per owner and target. */
  ghost predicate LiveUnique(events: seq<Event>) {
    forall i, j :: 0 <= i < j < |events| && IsLive(events[i]) && IsLive(events[j]) ==>
      events[i].owner != events[j].owner || events[i].asset != events[j].asset
  }

  lemma AppendLive(events: seq<Event>, e: Event)
    requires IsLive(e)
    ensures forall uid, t :: Live(events + [e], uid, t) <==> Live(events, uid, t) || (e.owner == uid && e.asset == t)
  {
    var s := events + [e];
    forall uid, t ensures Live(s, uid, t) <==> Live(events, uid, t) || (e.owner == uid && e.asset == t) {
      if Live(events, uid, t) {
        var i :| 0 <= i < |events| && LiveAt(events, i, uid, t);
        assert LiveAt(s, i, uid, t);
      }
      if e.owner == uid && e.asset == t {
        assert LiveAt(s, |events|, uid, t);
      }
      if Live(s, uid, t) {
        var i :| 0 <= i < |s| && LiveAt(s, i, uid, t);
        if i < |events| {
          assert LiveAt(events, i, uid, t);
        }
      }
    }
  }

  /** Inserting keeps uniqueness exactly when the count query before it found nothing. */
  lemma AppendKeepsUnique(events: seq<Event>, e: Event)
    requires LiveUnique(events) && IsLive(e)
    ensures LiveUnique(events + [e]) <==> !Live(events, e.owner, e.asset)
  {
    var s := events + [e];
    if Live(events, e.owner, e.asset) {
      var i :| 0 <= i < |events| && LiveAt(events, i, e.owner, e.asset);
      assert IsLive(s[i]) && IsLive(s[|events|]);
    } else {
      forall i, j | 0 <= i < j < |s| && IsLive(s[i]) && IsLive(s[j])
        ensures s[i].owner != s[j].owner || s[i].asset != s[j].asset
      {
        if j == |events| {
          assert !LiveAt(events, i, e.owner, e.asset);
        }
      }
    }
  }
}
