/** The inheritance preview shown to the owner, and when it tells the truth about a trigger. */
module Preview {
  import opened Base
  import opened Estate
  import opened Inheritance
  import opened Escalation
  import opened Plain

  datatype Via = ByAsset(inheritor: int) | ByCategory(inheritor: int) | ByUser

  datatype Entry = Entry(asset: int, via: Via)

  // ---------- specification ----------

  /** The first binding of a target, whatever its trigger days. */
  function FirstFor(bs: seq<Binding>, target: int): (r: Option<Binding>)
    ensures r.Some? ==> r.value in bs && r.value.target == target
    ensures r.None? ==> forall b :: b in bs ==> b.target != target
  {
    if bs == [] then None
    else if bs[0].target == target then Some(bs[0])
    else FirstFor(bs[1..], target)
  }

  predicate OwnsCategory(c: Config, uid: int, cat: int) {
    exists i :: 0 <= i < |c.categories| && c.categories[i].id == cat && c.categories[i].owner == uid
  }

  function CategoryBinding(c: Config, uid: int, x: Asset): Option<Binding> {
    if x.category.Some? && OwnsCategory(c, uid, x.category.value)
    then FirstFor(ByPriority(c.categoryBindings), x.category.value) else None
  }

  /** The binding that the preview shows for an asset. */
  function ShownBinding(c: Config, uid: int, x: Asset): Option<Binding> {
    var b := FirstFor(ByPriority(c.assetBindings), x.id);
    if b.Some? then b else CategoryBinding(c, uid, x)
  }

  function ViaOf(c: Config, uid: int, x: Asset): Via {
    var b := FirstFor(ByPriority(c.assetBindings), x.id);
    if b.Some? then ByAsset(b.value.inheritor)
    else
      var d := CategoryBinding(c, uid, x);
      if d.Some? then ByCategory(d.value.inheritor) else ByUser
  }

  function Entries(c: Config, uid: int, assets: seq<Asset>): seq<Entry> {
    if assets == [] then []
    else
      var x := assets[|assets| - 1];
      var before := Entries(c, uid, assets[..|assets| - 1]);
      if x.owner == uid && x.active then before + [Entry(x.id, ViaOf(c, uid, x))] else before
  }

  predicate AnyByUser(s: seq<Entry>) {
    exists i :: 0 <= i < |s| && s[i].via == ByUser
  }

  /** The heir shown for the user-level hand-over. */
  function ShownHeir(c: Config, uid: int): Option<int> {
    var h := UserHeir(c, uid);
    if AnyByUser(Entries(c, uid, c.assets)) && h.Some? then Some(h.value.id) else None
  }

  function Heads(v: Via, inheritor: int): int {
    if (v.ByAsset? || v.ByCategory?) && v.inheritor == inheritor then 1 else 0
  }

  /** How many entries name an inheritor. */
  function EntryCount(s: seq<Entry>, inheritor: int): int {
    if s == [] then 0 else EntryCount(s[..|s| - 1], inheritor) + Heads(s[|s| - 1].via, inheritor)
  }

  // ---------- the handler ----------

  predicate OwnsTarget(c: Config, uid: int, category: bool, t: int) {
    if category then OwnsCategory(c, uid, t) else OwnsAsset(c, uid, t)
  }

  /** asset_inheritors JOIN assets (or category_inheritors JOIN categories) of one owner. */
  function OwnedTargets(c: Config, uid: int, category: bool, bs: seq<Binding>): seq<Binding> {
    if bs == [] then []
    else if OwnsTarget(c, uid, category, bs[0].target) then [bs[0]] + OwnedTargets(c, uid, category, bs[1..])
    else OwnedTargets(c, uid, category, bs[1..])
  }

  /** For a target of the owner, the owner's rows decide like the whole table; for others they are silent. */
  lemma {:induction false} FirstForOwned(c: Config, uid: int, category: bool, bs: seq<Binding>, t: int)
    ensures FirstFor(OwnedTargets(c, uid, category, bs), t) ==
      if OwnsTarget(c, uid, category, t) then FirstFor(bs, t) else None
  {
    if bs != [] {
      FirstForOwned(c, uid, category, bs[1..], t);
    }
  }

  ghost predicate Folds(m: map<int, int>, rows: seq<Binding>) {
    forall t :: var f := FirstFor(rows, t); if t in m then f.Some? && m[t] == f.value.inheritor else f.None?
  }

  /** The map an owner's binding rows fold into: the first row of each target wins. */
  method FirstInheritors(rows: seq<Binding>) returns (m: map<int, int>)
    ensures Folds(m, rows)
  {
    m := map[];
    var i := 0;
    while i < |rows|
      invariant 0 <= i <= |rows|
      invariant forall t :: t in m ==> FirstFor(rows, t).Some? && m[t] == FirstFor(rows, t).value.inheritor
      invariant forall t :: t !in m ==> FirstFor(rows, t) == FirstFor(rows[i..], t)
    {
      if rows[i].target !in m {
        m := m[rows[i].target := rows[i].inheritor];
      }
      i := i + 1;
    }
  }

  /** The last rung of the owner's own ladder, or of the default one without it. */
  method TriggerDays(c: Config, uid: int) returns (triggerDays: int)
    ensures triggerDays == if uid in c.ladders then c.ladders[uid][|c.ladders[uid]| - 1]
                           else c.defaultLadder[|c.defaultLadder| - 1]
    ensures triggerDays == LastRung(c, uid)
  {
    var days := c.defaultLadder;
    if uid in c.ladders {
      days := c.ladders[uid];
    }
    triggerDays := days[|days| - 1];
  }

  method InheritancePreview(c: Config, uid: int)
    returns (triggerDays: int, preview: seq<Entry>, heir: Option<int>, counts: map<int, int>)
    ensures triggerDays == LastRung(c, uid)
    ensures preview == Entries(c, uid, c.assets)
    ensures heir == ShownHeir(c, uid)
    ensures forall h :: CountIn(counts, h) == EntryCount(preview, h) + (if heir == Some(h) then 1 else 0)
  {
    triggerDays := TriggerDays(c, uid);
    var assetInheritor := FirstInheritors(OwnedTargets(c, uid, false, ByPriority(c.assetBindings)));
    var categoryInheritor := FirstInheritors(OwnedTargets(c, uid, true, ByPriority(c.categoryBindings)));
    var userLevel;
    preview, userLevel, counts := ClassifyAssets(c, uid, assetInheritor, categoryInheritor);
    heir := None;
    if userLevel {
      var h := UserHeir(c, uid);
      if h.Some? {
        heir := Some(h.value.id);
        counts := Bump(counts, h.value.id);
      }
    }
  }

  /** The loop that maps each active asset to whoever would receive it. */
  method ClassifyAssets(c: Config, uid: int, assetInheritor: map<int, int>, categoryInheritor: map<int, int>)
    returns (preview: seq<Entry>, userLevel: bool, counts: map<int, int>)
    requires Folds(assetInheritor, OwnedTargets(c, uid, false, ByPriority(c.assetBindings)))
    requires Folds(categoryInheritor, OwnedTargets(c, uid, true, ByPriority(c.categoryBindings)))
    ensures preview == Entries(c, uid, c.assets)
    ensures userLevel <==> AnyByUser(preview)
    ensures forall h :: CountIn(counts, h) == EntryCount(preview, h)
  {
    preview, userLevel, counts := [], false, map[];
    var i := 0;
    while i < |c.assets|
      invariant 0 <= i <= |c.assets| && Tally(c, uid, i, preview, userLevel, counts)
    {
      var a := c.assets[i];
      ghost var u0, c0, v := userLevel, counts, ViaOf(c, uid, a);
      TallyStep(c, uid, i, preview, userLevel, counts);
      if a.owner == uid && a.active {
        LookupIsVia(c, uid, i, assetInheritor, categoryInheritor);
        var via := ByUser;
        if a.id in assetInheritor {
          via := ByAsset(assetInheritor[a.id]);
          counts := Bump(counts, assetInheritor[a.id]);
        } else if a.category.Some? && a.category.value in categoryInheritor {
          via := ByCategory(categoryInheritor[a.category.value]);
          counts := Bump(counts, categoryInheritor[a.category.value]);
        } else {
          userLevel := true;
        }
        assert via == v && userLevel == (u0 || v.ByUser?);
        assert counts == if v.ByUser? then c0 else Bump(c0, v.inheritor);
        preview := preview + [Entry(a.id, via)];
      }
      i := i + 1;
    }
    assert c.assets[..i] == c.assets;
  }

  function CountIn(m: map<int, int>, k: int): int {
    if k in m then m[k] else 0
  }

  function Bump(m: map<int, int>, k: int): (r: map<int, int>)
    ensures forall h :: CountIn(r, h) == CountIn(m, h) + (if h == k then 1 else 0)
  {
    m[k := CountIn(m, k) + 1]
  }

  /** The state of the classification loop after the first `i` assets. */
  ghost predicate Tally(c: Config, uid: int, i: nat, preview: seq<Entry>, userLevel: bool, counts: map<int, int>)
    requires i <= |c.assets|
  {
    && preview == Entries(c, uid, c.assets[..i])
    && (userLevel <==> AnyByUser(preview))
    && forall h :: CountIn(counts, h) == EntryCount(preview, h)
  }

  lemma TallyStep(c: Config, uid: int, i: nat, preview: seq<Entry>, userLevel: bool, counts: map<int, int>)
    requires i < |c.assets| && Tally(c, uid, i, preview, userLevel, counts)
    ensures var a := c.assets[i];
      var via := ViaOf(c, uid, a);
      if a.owner == uid && a.active
      then Tally(c, uid, i + 1, preview + [Entry(a.id, via)], userLevel || via.ByUser?,
                 if via.ByUser? then counts else Bump(counts, via.inheritor))
      else Tally(c, uid, i + 1, preview, userLevel, counts)
  {
    var a := c.assets[i];
    var e := Entry(a.id, ViaOf(c, uid, a));
    EntriesNext(c, uid, i);
    if a.owner == uid && a.active {
      AppendEntry(preview, e);
      var bumped := if e.via.ByUser? then counts else Bump(counts, e.via.inheritor);
      forall h ensures CountIn(bumped, h) == EntryCount(preview + [e], h) {
        assert CountIn(counts, h) == EntryCount(preview, h);
      }
    }
  }

  lemma EntriesNext(c: Config, uid: int, i: nat)
    requires i < |c.assets|
    ensures var a := c.assets[i];
      Entries(c, uid, c.assets[..i + 1]) == Entries(c, uid, c.assets[..i])
        + (if a.owner == uid && a.active then [Entry(a.id, ViaOf(c, uid, a))] else [])
  {
    assert c.assets[..i + 1][..i] == c.assets[..i];
  }

  lemma AppendEntry(s: seq<Entry>, e: Entry)
    ensures AnyByUser(s + [e]) <==> AnyByUser(s) || e.via == ByUser
    ensures forall h :: EntryCount(s + [e], h) == EntryCount(s, h) + Heads(e.via, h)
  {
    if i :| 0 <= i < |s| && s[i].via == ByUser { assert (s + [e])[i].via == ByUser; }
    assert (s + [e])[|s|] == e;
    assert (s + [e])[..|s|] == s;
  }

  /** Looking an asset up in the two maps classifies it as specified. */
  lemma LookupIsVia(c: Config, uid: int, i: nat, assetInheritor: map<int, int>, categoryInheritor: map<int, int>)
    requires i < |c.assets| && c.assets[i].owner == uid
    requires Folds(assetInheritor, OwnedTargets(c, uid, false, ByPriority(c.assetBindings)))
    requires Folds(categoryInheritor, OwnedTargets(c, uid, true, ByPriority(c.categoryBindings)))
    ensures var a := c.assets[i];
      ViaOf(c, uid, a) ==
        if a.id in assetInheritor then ByAsset(assetInheritor[a.id])
        else if a.category.Some? && a.category.value in categoryInheritor
        then ByCategory(categoryInheritor[a.category.value])
        else ByUser
  {
    var a := c.assets[i];
    assert OwnsAsset(c, uid, a.id);
    FirstForOwned(c, uid, false, ByPriority(c.assetBindings), a.id);
    if a.category.Some? {
      FirstForOwned(c, uid, true, ByPriority(c.categoryBindings), a.category.value);
    }
  }

  // ---------- preview against trigger ----------

  /** What the schema and the binding handlers guarantee: heirs exist, no heir is bound twice to one
      target, and an asset's category belongs to the asset's owner. */
  ghost predicate Consistent(c: Config, uid: int) {
    && (forall b :: b in c.assetBindings ==> FindInheritor(c.inheritors, b.inheritor).Some?)
    && (forall b :: b in c.categoryBindings ==> FindInheritor(c.inheritors, b.inheritor).Some?)
    && NoDoubleBinding(c.assetBindings) && NoDoubleBinding(c.categoryBindings)
    && (forall x :: x in c.assets && x.owner == uid && x.category.Some? ==> OwnsCategory(c, uid, x.category.value))
  }

  ghost predicate NoDoubleBinding(table: seq<Binding>) {
    forall b, d :: b in table && d in table && b.target == d.target && b.inheritor == d.inheritor ==> b == d
  }

  /** A promise: an asset, or everything that is left, to an inheritor. */
  datatype Promise = Promise(asset: Option<int>, inheritor: int)

  ghost predicate Previewed(c: Config, uid: int, p: Promise) {
    match p.asset
    case None => ShownHeir(c, uid) == Some(p.inheritor)
    case Some(a) => exists x :: x in c.assets && IsMine(x, uid, a) && ShownTo(c, uid, x, p.inheritor)
  }

  predicate ShownTo(c: Config, uid: int, x: Asset, inheritor: int) {
    ShownBinding(c, uid, x).Some? && ShownBinding(c, uid, x).value.inheritor == inheritor
  }

  predicate IsMine(x: Asset, uid: int, a: int) {
    x.id == a && x.owner == uid && x.active
  }

  ghost predicate Performed(db: Db, uid: int, days: int, p: Promise) {
    exists e :: e in Fresh(db, uid, days) && e.asset == p.asset && e.inheritor == p.inheritor
  }

  function Fresh(db: Db, uid: int, days: int): seq<Event> {
    TriggerExtends(db, uid, days);
    Created(db, Trigger(db, uid, days))
  }

  /** The entries shown are exactly the promises about single assets. */
  lemma {:induction false} EntriesMeaning(c: Config, uid: int, assets: seq<Asset>)
    ensures forall e :: e in Entries(c, uid, assets) <==>
      exists x :: x in assets && IsMine(x, uid, e.asset) && e.via == ViaOf(c, uid, x)
  {
    if assets != [] {
      var k := |assets| - 1;
      EntriesMeaning(c, uid, assets[..k]);
      assert assets == assets[..k] + [assets[k]];
    }
  }

  lemma {:induction false} FirstForIsLeast(bs: seq<Binding>, target: int)
    requires Sorted(bs) && FirstFor(bs, target).Some?
    ensures var b := FirstFor(bs, target).value;
      forall d :: d in bs && d.target == target ==> !Before(d.priority, d.id, b.priority, b.id)
  {
    if bs[0].target != target {
      FirstForIsLeast(bs[1..], target);
      assert bs == [bs[0]] + bs[1..];
    }
  }

  /** A first binding that is met is the least met one; no other binding is. */
  lemma FirstForLeastMet(c: Config, table: BindingTable, target: int, days: int)
    requires forall b :: b in table ==> FindInheritor(c.inheritors, b.inheritor).Some?
    ensures var f := FirstFor(ByPriority(table), target);
      && (f.None? ==> forall b :: !LeastMet(c, table, target, days, b))
      && (f.Some? && Met(f.value.triggerDays, days) ==>
            && LeastMet(c, table, target, days, f.value)
            && forall b :: LeastMet(c, table, target, days, b) ==> b == f.value)
  {
    var f := FirstFor(ByPriority(table), target);
    ByPriorityMembers(table);
    if f.Some? && Met(f.value.triggerDays, days) {
      ByPrioritySorted(table);
      FirstForIsLeast(ByPriority(table), target);
      assert LeastMet(c, table, target, days, f.value);
      forall b | LeastMet(c, table, target, days, b) ensures b == f.value {
        assert b.id == f.value.id;
      }
    }
  }

  /** The asset's shown binding, if there is one, has its trigger days met. */
  predicate ShownMet(c: Config, uid: int, days: int, x: Asset) {
    ShownBinding(c, uid, x).Some? ==> Met(ShownBinding(c, uid, x).value.triggerDays, days)
  }

  lemma FallsHere(c: Config, uid: int, x: Asset, cat: int)
    requires x in c.assets && IsMine(x, uid, x.id)
    ensures FallsToCategory(c, uid, x.id, cat) <==> x.category == Some(cat) && !HasAssetBinding(c, x.id)
  {}

  ghost predicate GovernsAlone(c: Config, uid: int, a: int, days: int, b: Binding) {
    Governs(c, uid, a, days, b) && forall d :: Governs(c, uid, a, days, d) ==> d == b
  }

  /** An asset binding decides alone: the asset does not fall to a category. */
  lemma ShownByAsset(c: Config, uid: int, days: int, x: Asset)
    requires Consistent(c, uid) && x in c.assets && IsMine(x, uid, x.id) && ShownMet(c, uid, days, x)
    requires HasAssetBinding(c, x.id)
    ensures var s := ShownBinding(c, uid, x);
      s.Some? && GovernsAlone(c, uid, x.id, days, s.value)
  {
    ByPriorityMembers(c.assetBindings);
    FirstForLeastMet(c, c.assetBindings, x.id, days);
    forall cat ensures !FallsToCategory(c, uid, x.id, cat) {
      FallsHere(c, uid, x, cat);
    }
  }

  lemma ShownByCategory(c: Config, uid: int, days: int, x: Asset)
    requires Consistent(c, uid) && x in c.assets && IsMine(x, uid, x.id) && ShownMet(c, uid, days, x)
    requires !HasAssetBinding(c, x.id)
    ensures var s := ShownBinding(c, uid, x);
      && s == CategoryBinding(c, uid, x)
      && (s.None? ==> forall b :: !Governs(c, uid, x.id, days, b))
      && (s.Some? ==> GovernsAlone(c, uid, x.id, days, s.value))
  {
    ByPriorityMembers(c.assetBindings);
    assert FirstFor(ByPriority(c.assetBindings), x.id).None?;
    forall cat ensures FallsToCategory(c, uid, x.id, cat) <==> x.category == Some(cat) {
      FallsHere(c, uid, x, cat);
    }
    if x.category.Some? {
      FirstForLeastMet(c, c.categoryBindings, x.category.value, days);
    }
  }

  /** If the shown binding is met it governs the asset, alone; if there is none, nothing governs. */
  lemma ShownGoverns(c: Config, uid: int, days: int, x: Asset)
    requires Consistent(c, uid) && x in c.assets && IsMine(x, uid, x.id) && ShownMet(c, uid, days, x)
    ensures var s := ShownBinding(c, uid, x);
      && (s.None? ==> Uncovered(c, uid, x.id, days))
      && (s.Some? ==> GovernsAlone(c, uid, x.id, days, s.value))
  {
    if HasAssetBinding(c, x.id) {
      ShownByAsset(c, uid, days, x);
    } else {
      ShownByCategory(c, uid, days, x);
    }
  }

  /** If the shown binding is unmet, whoever governs the asset is another inheritor. */
  lemma UnmetShownDiffers(c: Config, uid: int, days: int, x: Asset, b: Binding)
    requires Consistent(c, uid) && x in c.assets && IsMine(x, uid, x.id) && !ShownMet(c, uid, days, x)
    requires Governs(c, uid, x.id, days, b)
    ensures b.inheritor != ShownBinding(c, uid, x).value.inheritor
  {
    ByPriorityMembers(c.assetBindings);
    ByPriorityMembers(c.categoryBindings);
    forall cat ensures FallsToCategory(c, uid, x.id, cat) <==> x.category == Some(cat) && !HasAssetBinding(c, x.id) {
      FallsHere(c, uid, x, cat);
    }
  }

  /** Every shown binding is met, and there is something to show or nobody to show. */
  ghost predicate Truthful(c: Config, uid: int, days: int) {
    && (forall x :: x in c.assets && IsMine(x, uid, x.id) ==> ShownMet(c, uid, days, x))
    && (ActiveAssets(c, uid) != {} || UserHeir(c, uid).None?)
  }

  ghost predicate NothingLive(db: Db, uid: int) {
    forall t :: !Live(db.events, uid, t)
  }

  ghost predicate Agrees(db: Db, uid: int, days: int) {
    forall p :: Performed(db, uid, days, p) <==> Previewed(db.config, uid, p)
  }

  /** Whatever governs the asset, it goes to `h`. */
  ghost predicate EntitledOnly(c: Config, uid: int, a: int, days: int, h: int) {
    Entitled(c, uid, a, days) && forall b :: Governs(c, uid, a, days, b) ==> b.inheritor == h
  }

  lemma PerformedAsset(db: Db, uid: int, days: int, a: int, h: int)
    requires NothingLive(db, uid)
    ensures Performed(db, uid, days, Promise(Some(a), h)) ==>
      exists b :: Governs(db.config, uid, a, days, b) && b.inheritor == h
    ensures EntitledOnly(db.config, uid, a, days, h) ==> Performed(db, uid, days, Promise(Some(a), h))
  {
    ExactAllocation(db, uid, days);
    var s := Fresh(db, uid, days);
    if exists b :: Governs(db.config, uid, a, days, b) {
      assert Entitled(db.config, uid, a, days);
      var i :| 0 <= i < |s| && s[i].asset == Some(a);
      assert s[i] in s && GoesToGoverning(db.config, uid, days, s[i]);
    }
  }

  lemma PerformedUser(db: Db, uid: int, days: int, h: int)
    requires NothingLive(db, uid)
    ensures Performed(db, uid, days, Promise(None, h)) <==>
      Attempted(db.config, uid, days) && UserHeir(db.config, uid).Some? && UserHeir(db.config, uid).value.id == h
  {
    ExactAllocation(db, uid, days);
    var s := Fresh(db, uid, days);
    if Targets(s, None) {
      var i :| 0 <= i < |s| && s[i].asset == None;
      assert s[i] in s && IsUserHandOver(db.config, uid, s[i]);
    }
  }

  lemma AgreesOnAsset(db: Db, uid: int, days: int, a: int, h: int)
    requires Consistent(db.config, uid) && NothingLive(db, uid)
    requires forall x :: x in db.config.assets && IsMine(x, uid, x.id) ==> ShownMet(db.config, uid, days, x)
    ensures Performed(db, uid, days, Promise(Some(a), h)) <==> Previewed(db.config, uid, Promise(Some(a), h))
  {
    var c := db.config;
    PerformedAsset(db, uid, days, a, h);
    if x :| x in c.assets && IsMine(x, uid, a) {
      ShownGoverns(c, uid, days, x);
      assert forall y :: y in c.assets && IsMine(y, uid, a) ==> y == x;
    } else {
      assert !IsActiveAsset(c, uid, a);
    }
  }

  lemma ByUserIsUncovered(c: Config, uid: int, days: int)
    requires Consistent(c, uid)
    requires forall x :: x in c.assets && IsMine(x, uid, x.id) ==> ShownMet(c, uid, days, x)
    ensures AnyByUser(Entries(c, uid, c.assets)) <==> exists a :: Uncovered(c, uid, a, days)
  {
    EntriesMeaning(c, uid, c.assets);
    var s := Entries(c, uid, c.assets);
    forall x | x in c.assets && IsMine(x, uid, x.id)
      ensures ViaOf(c, uid, x) == ByUser <==> Uncovered(c, uid, x.id, days)
    {
      ShownGoverns(c, uid, days, x);
    }
    if i :| 0 <= i < |s| && s[i].via == ByUser {
      assert s[i] in s;
      assert Uncovered(c, uid, s[i].asset, days);
    }
    if a :| Uncovered(c, uid, a, days) {
      var i :| 0 <= i < |c.assets| && c.assets[i].id == a && c.assets[i].owner == uid && c.assets[i].active;
      assert IsMine(c.assets[i], uid, a);
      assert Entry(a, ByUser) in s;
    }
  }

  /** With no live events, a trigger performs exactly what the preview promises if and only if every
      shown binding has its trigger days met, and the owner has an active asset or no inheritor. */
  lemma PreviewTruthful(db: Db, uid: int, days: int)
    requires Consistent(db.config, uid) && NothingLive(db, uid)
    ensures Agrees(db, uid, days) <==> Truthful(db.config, uid, days)
  {
    var c := db.config;
    if forall x :: x in c.assets && IsMine(x, uid, x.id) ==> ShownMet(c, uid, days, x) {
      forall a, h ensures Performed(db, uid, days, Promise(Some(a), h)) <==> Previewed(c, uid, Promise(Some(a), h)) {
        AgreesOnAsset(db, uid, days, a, h);
      }
      forall h ensures Performed(db, uid, days, Promise(None, h)) <==>
          Attempted(c, uid, days) && UserHeir(c, uid).Some? && UserHeir(c, uid).value.id == h
      {
        PerformedUser(db, uid, days, h);
      }
      ByUserIsUncovered(c, uid, days);
      if ActiveAssets(c, uid) == {} && UserHeir(c, uid).Some? {
        var p := Promise(None, UserHeir(c, uid).value.id);
        assert forall a :: !Uncovered(c, uid, a, days);
        assert Performed(db, uid, days, p) && !Previewed(c, uid, p);
      } else {
        forall p ensures Performed(db, uid, days, p) <==> Previewed(c, uid, p) {
          assert p == Promise(p.asset, p.inheritor);
          assert p.asset.Some? ==> p == Promise(Some(p.asset.value), p.inheritor);
        }
      }
    } else {
      var x :| x in c.assets && IsMine(x, uid, x.id) && !ShownMet(c, uid, days, x);
      var h := ShownBinding(c, uid, x).value.inheritor;
      PerformedAsset(db, uid, days, x.id, h);
      forall b | Governs(c, uid, x.id, days, b) ensures b.inheritor != h {
        UnmetShownDiffers(c, uid, days, x, b);
      }
      assert Previewed(c, uid, Promise(Some(x.id), h));
      assert !Performed(db, uid, days, Promise(Some(x.id), h));
    }
  }

  // ---------- the preview, over the rows alone ----------

  /** The first binding of a target in (priority, id), due or not. */
  ghost predicate FirstOf(table: seq<Binding>, target: int, b: Binding) {
    b in table && b.target == target && forall d :: d in table && d.target == target ==> NoLater(b, d)
  }

  ghost predicate CategoryOf(c: Config, uid: int, x: Asset, cat: int) {
    x.category == Some(cat) && exists k :: k in c.categories && k.id == cat && k.owner == uid
  }

  ghost predicate FirstInCategory(c: Config, uid: int, x: Asset, cat: int, b: Binding) {
    CategoryOf(c, uid, x, cat) && FirstOf(c.categoryBindings, cat, b)
  }

  /** How the asset is shown: under its own first binding, else that of its category, else at user level. */
  ghost predicate ShownVia(c: Config, uid: int, x: Asset, via: Via) {
    match via
    case ByAsset(h) => exists b :: FirstOf(c.assetBindings, x.id, b) && b.inheritor == h
    case ByCategory(h) =>
      Unbound(c, x.id)
      && exists cat, b :: FirstInCategory(c, uid, x, cat, b) && b.inheritor == h
    case ByUser =>
      Unbound(c, x.id) && forall cat, b :: !FirstInCategory(c, uid, x, cat, b)
  }

  lemma FirstForIsFirst(table: BindingTable, target: int)
    ensures var f := FirstFor(ByPriority(table), target);
      if f.Some? then forall b :: FirstOf(table, target, b) <==> b == f.value
      else forall b :: b in table ==> b.target != target
  {
    var f := FirstFor(ByPriority(table), target);
    ByPriorityMembers(table);
    if f.Some? {
      ByPrioritySorted(table);
      FirstForIsLeast(ByPriority(table), target);
      forall d | d in table && d.target == target ensures NoLater(f.value, d) {
        assert d in ByPriority(table);
      }
      forall b | FirstOf(table, target, b) ensures b == f.value {
        assert NoLater(b, f.value) && NoLater(f.value, b);
      }
    }
  }

  lemma CategoryOfIff(c: Config, uid: int, x: Asset, cat: int)
    ensures CategoryOf(c, uid, x, cat) <==> x.category == Some(cat) && OwnsCategory(c, uid, cat)
  {
    if i :| 0 <= i < |c.categories| && c.categories[i].id == cat && c.categories[i].owner == uid {
      assert c.categories[i] in c.categories;
    }
  }

  lemma FirstInCategoryIff(c: Config, uid: int, x: Asset, cat: int, b: Binding)
    ensures FirstInCategory(c, uid, x, cat, b) <==> x.category == Some(cat) && CategoryBinding(c, uid, x) == Some(b)
  {
    CategoryOfIff(c, uid, x, cat);
    FirstForIsFirst(c.categoryBindings, cat);
  }

  lemma ViaCategoryRule(c: Config, uid: int, x: Asset)
    ensures var d := CategoryBinding(c, uid, x);
      if d.Some? then forall cat, b :: FirstInCategory(c, uid, x, cat, b) <==> x.category == Some(cat) && b == d.value
      else forall cat, b :: !FirstInCategory(c, uid, x, cat, b)
  {
    forall cat, b ensures FirstInCategory(c, uid, x, cat, b) <==>
        x.category == Some(cat) && CategoryBinding(c, uid, x) == Some(b)
    {
      FirstInCategoryIff(c, uid, x, cat, b);
    }
  }

  lemma ViaRule(c: Config, uid: int, x: Asset, via: Via)
    ensures ShownVia(c, uid, x, via) <==> via == ViaOf(c, uid, x)
  {
    FirstForIsFirst(c.assetBindings, x.id);
    ViaCategoryRule(c, uid, x);
    var f, d := FirstFor(ByPriority(c.assetBindings), x.id), CategoryBinding(c, uid, x);
    if f.Some? {
      assert FirstOf(c.assetBindings, x.id, f.value) && !Unbound(c, x.id);
    } else {
      assert Unbound(c, x.id) && forall b :: !FirstOf(c.assetBindings, x.id, b);
      if d.Some? {
        assert FirstInCategory(c, uid, x, x.category.value, d.value);
      }
    }
  }

  /** The entries are one for each active asset of the owner, by id, each shown as the rules say. */
  lemma EntryRule(c: Config, uid: int)
    ensures forall a, via :: Entry(a, via) in Entries(c, uid, c.assets) <==>
      exists x :: ActiveOf(c, uid, x) && x.id == a && ShownVia(c, uid, x, via)
    ensures forall i, j :: 0 <= i < j < |Entries(c, uid, c.assets)| ==>
      Entries(c, uid, c.assets)[i].asset < Entries(c, uid, c.assets)[j].asset
  {
    EntriesMeaning(c, uid, c.assets);
    EntriesAscend(c, uid, c.assets);
    forall x, via ensures ShownVia(c, uid, x, via) <==> via == ViaOf(c, uid, x) {
      ViaRule(c, uid, x, via);
    }
    forall a, via ensures Entry(a, via) in Entries(c, uid, c.assets) <==>
        exists x :: ActiveOf(c, uid, x) && x.id == a && ShownVia(c, uid, x, via)
    {
      var e := Entry(a, via);
      if x :| ActiveOf(c, uid, x) && x.id == a && ShownVia(c, uid, x, via) {
        assert IsMine(x, uid, e.asset) && e.via == ViaOf(c, uid, x);
      }
    }
  }

  lemma {:induction false} EntriesAscend(c: Config, uid: int, assets: seq<Asset>)
    requires forall i, j :: 0 <= i < j < |assets| ==> assets[i].id < assets[j].id
    ensures forall i, j :: 0 <= i < j < |Entries(c, uid, assets)| ==>
      Entries(c, uid, assets)[i].asset < Entries(c, uid, assets)[j].asset
  {
    if assets != [] {
      EntriesAscend(c, uid, assets[..|assets| - 1]);
      EntriesMeaning(c, uid, assets[..|assets| - 1]);
    }
  }

  /** The heir shown for everything: whoever the owner chose, or the first, if some entry is at user level. */
  lemma HeirRule(c: Config, uid: int, id: int)
    ensures ShownHeir(c, uid) == Some(id) <==>
      && (exists x :: ActiveOf(c, uid, x) && ShownVia(c, uid, x, ByUser))
      && exists h :: ChosenHeir(c, uid, h) && h.id == id
  {
    EntryRule(c, uid);
    HeirIsChosen(c, uid);
    var s := Entries(c, uid, c.assets);
    if i :| 0 <= i < |s| && s[i].via == ByUser {
      assert Entry(s[i].asset, ByUser) in s;
    }
    if x :| ActiveOf(c, uid, x) && ShownVia(c, uid, x, ByUser) {
      assert Entry(x.id, ByUser) in s;
    }
    ChosenOnce(c, uid);
  }

  lemma ChosenOnce(c: Config, uid: int)
    ensures forall h, k :: ChosenHeir(c, uid, h) && ChosenHeir(c, uid, k) ==> h.id == k.id
  {}

  ghost function Naming(s: seq<Entry>, inheritor: int): set<int> {
    set i | 0 <= i < |s| && (s[i].via == ByAsset(inheritor) || s[i].via == ByCategory(inheritor))
  }

  /** The count of an inheritor is the number of entries that name them. */
  lemma {:induction false} EntryCountRule(s: seq<Entry>, inheritor: int)
    ensures EntryCount(s, inheritor) == |Naming(s, inheritor)|
  {
    if s != [] {
      var k := |s| - 1;
      EntryCountRule(s[..k], inheritor);
      var last := if Heads(s[k].via, inheritor) == 1 then {k} else {};
      assert Naming(s, inheritor) == Naming(s[..k], inheritor) + last;
    }
  }

  // ---------- preview against trigger, over the rows alone ----------

  /** Bindings name existing inheritors and no inheritor twice for one target, and the categories of the
      owner's assets are the owner's. */
  ghost predicate Linked(c: Config, uid: int) {
    && (forall b :: b in c.assetBindings ==> HasHeir(c, b.inheritor))
    && (forall b :: b in c.categoryBindings ==> HasHeir(c, b.inheritor))
    && NoDoubleBinding(c.assetBindings) && NoDoubleBinding(c.categoryBindings)
    && forall x :: x in c.assets && x.owner == uid && x.category.Some? ==> CategoryOf(c, uid, x, x.category.value)
  }

  /** Whether an answer of the preview, its entries and its heir for everything, shows the promise. */
  predicate Shows(entries: seq<Entry>, heir: Option<int>, p: Promise) {
    match p.asset
    case None => heir == Some(p.inheritor)
    case Some(a) => Entry(a, ByAsset(p.inheritor)) in entries || Entry(a, ByCategory(p.inheritor)) in entries
  }

  /** Whether the events from `n` on keep the promise. */
  ghost predicate Hands(s: seq<Event>, n: nat, p: Promise) {
    exists i :: n <= i < |s| && s[i].asset == p.asset && s[i].inheritor == p.inheritor
  }

  /** The binding under which the preview shows an asset: the first of its own, or of its category. */
  ghost predicate ShownUnder(c: Config, uid: int, x: Asset, b: Binding) {
    FirstOf(c.assetBindings, x.id, b)
    || (Unbound(c, x.id) && x.category.Some? && FirstInCategory(c, uid, x, x.category.value, b))
  }

  ghost predicate AllShownDue(c: Config, uid: int, days: int) {
    forall x, b :: ActiveOf(c, uid, x) && ShownUnder(c, uid, x, b) ==>
      (b.triggerDays.Some? ==> b.triggerDays.value <= days)
  }

  lemma ShownUnderIff(c: Config, uid: int, x: Asset, b: Binding)
    ensures ShownUnder(c, uid, x, b) <==> ShownBinding(c, uid, x) == Some(b)
  {
    FirstForIsFirst(c.assetBindings, x.id);
    var f := FirstFor(ByPriority(c.assetBindings), x.id);
    if f.Some? {
      assert FirstOf(c.assetBindings, x.id, f.value) && !Unbound(c, x.id);
    } else if x.category.Some? {
      FirstInCategoryIff(c, uid, x, x.category.value, b);
    }
  }

  lemma LinkedIsConsistent(c: Config, uid: int)
    ensures Linked(c, uid) ==> Consistent(c, uid)
  {
    forall id ensures HasHeir(c, id) <==> FindInheritor(c.inheritors, id).Some? {
      HasHeirIff(c, id);
    }
    forall x: Asset | x.category.Some?
      ensures CategoryOf(c, uid, x, x.category.value) <==> OwnsCategory(c, uid, x.category.value)
    {
      CategoryOfIff(c, uid, x, x.category.value);
    }
  }

  lemma AllShownIff(c: Config, uid: int, days: int)
    ensures AllShownDue(c, uid, days) <==>
      forall x :: x in c.assets && IsMine(x, uid, x.id) ==> ShownMet(c, uid, days, x)
  {
    forall x ensures ActiveOf(c, uid, x) <==> x in c.assets && IsMine(x, uid, x.id) {}
    forall x, b ensures ShownUnder(c, uid, x, b) <==> ShownBinding(c, uid, x) == Some(b) {
      ShownUnderIff(c, uid, x, b);
    }
    if !AllShownDue(c, uid, days) {
      var x, b :| ActiveOf(c, uid, x) && ShownUnder(c, uid, x, b) && b.triggerDays.Some? && b.triggerDays.value > days;
      assert !ShownMet(c, uid, days, x);
    }
    if x :| x in c.assets && IsMine(x, uid, x.id) && !ShownMet(c, uid, days, x) {
      assert ActiveOf(c, uid, x) && ShownUnder(c, uid, x, ShownBinding(c, uid, x).value);
    }
  }

  lemma SomeActiveIff(c: Config, uid: int)
    ensures ActiveAssets(c, uid) != {} <==> exists x :: ActiveOf(c, uid, x)
  {
    if x :| ActiveOf(c, uid, x) {
      ActiveIff(c, uid, x);
    }
    if a :| a in ActiveAssets(c, uid) {
      var i :| 0 <= i < |c.assets| && c.assets[i].id == a && c.assets[i].owner == uid && c.assets[i].active;
      assert ActiveOf(c, uid, c.assets[i]);
    }
  }

  lemma TruthfulIff(c: Config, uid: int, days: int)
    ensures Truthful(c, uid, days) <==>
      AllShownDue(c, uid, days)
      && ((exists x :: ActiveOf(c, uid, x)) || forall h :: h in c.inheritors ==> h.owner != uid)
  {
    AllShownIff(c, uid, days);
    SomeActiveIff(c, uid);
    HeirIsChosen(c, uid);
  }

  lemma ShowsIff(c: Config, uid: int, p: Promise)
    ensures Previewed(c, uid, p) <==> Shows(Entries(c, uid, c.assets), ShownHeir(c, uid), p)
  {
    EntriesMeaning(c, uid, c.assets);
  }

  lemma HandsIff(db: Db, uid: int, days: int, p: Promise)
    ensures Performed(db, uid, days, p) <==> Hands(Trigger(db, uid, days).events, |db.events|, p)
  {
    TriggerExtends(db, uid, days);
    var r, n := Trigger(db, uid, days), |db.events|;
    if i :| n <= i < |r.events| && r.events[i].asset == p.asset && r.events[i].inheritor == p.inheritor {
      assert Fresh(db, uid, days)[i - n] == r.events[i];
    }
  }

  /** With nothing alive, the trigger hands over exactly what the preview shows if and only if every binding
      that the preview shows is due, and the owner has an active asset or no inheritor. */
  lemma PreviewRule(db: Db, uid: int, days: int)
    requires Linked(db.config, uid) && forall t :: !Alive(db.events, uid, t)
    ensures var c := db.config;
      var entries, heir := Entries(c, uid, c.assets), ShownHeir(c, uid);
      (forall p :: Hands(Trigger(db, uid, days).events, |db.events|, p) <==> Shows(entries, heir, p))
      <==> AllShownDue(c, uid, days)
           && ((exists x :: ActiveOf(c, uid, x)) || forall h :: h in c.inheritors ==> h.owner != uid)
  {
    LinkedIsConsistent(db.config, uid);
    forall t ensures !Live(db.events, uid, t) {
      LiveIsAlive(db.events, uid, t);
    }
    forall p ensures Performed(db, uid, days, p) <==> Hands(Trigger(db, uid, days).events, |db.events|, p)
             ensures Previewed(db.config, uid, p) <==>
               Shows(Entries(db.config, uid, db.config.assets), ShownHeir(db.config, uid), p)
    {
      HandsIff(db, uid, days, p);
      ShowsIff(db.config, uid, p);
    }
    PreviewTruthful(db, uid, days);
    TruthfulIff(db.config, uid, days);
  }

  // ---------- where the preview is wrong ----------

  /** One asset, bound to inheritor 7 from day 100 on and to inheritor 8 at once. */
  function LateFirst(): Config {
    Config([], [Asset(1, 1, None, true, true)], [Inheritor(7, 1, 1, 99), Inheritor(8, 1, 2, 98)],
           [Binding(1, 1, 7, 1, Some(100)), Binding(2, 1, 8, 2, None)], [], map[], [15, 60], map[])
  }

  lemma LateFirstShown(c: Config)
    requires c == LateFirst()
    ensures ShownBinding(c, 1, c.assets[0]) == Some(c.assetBindings[0])
  {
    var b, d := c.assetBindings[0], c.assetBindings[1];
    assert c.assetBindings[1..] == [d] && [d][1..] == [];
    assert ByPriority([d]) == [d] && ByPriority(c.assetBindings) == [b, d];
  }

  lemma LateFirstConsistent(c: Config)
    requires c == LateFirst()
    ensures Consistent(c, 1)
  {
    assert c.inheritors[0] in c.inheritors && c.inheritors[1] in c.inheritors;
  }

  /** The preview names an inheritor whose days are not met on day 60, and who receives nothing then. */
  lemma UnmetShown(db: Db)
    requires db.config == LateFirst() && NothingLive(db, 1)
    ensures Consistent(db.config, 1) && !Agrees(db, 1, 60)
    ensures Previewed(db.config, 1, Promise(Some(1), 7)) && !Performed(db, 1, 60, Promise(Some(1), 7))
  {
    var c := db.config;
    var x := c.assets[0];
    LateFirstConsistent(c);
    LateFirstShown(c);
    assert x in c.assets && IsMine(x, 1, 1) && !ShownMet(c, 1, 60, x);
    PerformedAsset(db, 1, 60, 1, 7);
    forall b | Governs(c, 1, 1, 60, b) ensures b.inheritor != 7 {
      UnmetShownDiffers(c, 1, 60, x, b);
    }
    PreviewTruthful(db, 1, 60);
  }

  /** An owner with an inheritor and no assets: the preview shows no heir, and the trigger hands over
      everything there is to that inheritor. */
  lemma NoAssetsShown(db: Db)
    requires db.config == Config([], [], [Inheritor(7, 1, 1, 99)], [], [], map[], [15, 60], map[]) && NothingLive(db, 1)
    ensures Consistent(db.config, 1) && !Agrees(db, 1, 60)
    ensures Performed(db, 1, 60, Promise(None, 7)) && !Previewed(db.config, 1, Promise(None, 7))
  {
    assert db.config.inheritors[0] in db.config.inheritors && [Inheritor(7, 1, 1, 99)][1..] == [];
    assert ActiveAssets(db.config, 1) == {};
    PerformedUser(db, 1, 60, 7);
    PreviewTruthful(db, 1, 60);
  }
}
