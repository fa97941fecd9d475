/** The ladder and binding handlers as they change the tables step by step. */
module LadderStore {
  import opened Base
  import opened Ladders
  import opened Text

  method ValidateLadderDays(days: seq<int>) returns (ok: bool)
    ensures ok <==> |days| == 2 && 1 <= days[0] && days[0] < days[1] && days[1] <= 3650
  {
    if |days| != 2 {
      return false;
    }
    for i := 0 to |days|
      invariant i >= 1 ==> 0 < days[0] <= 3650
      invariant i >= 2 ==> days[0] < days[1] <= 3650
    {
      if days[i] <= 0 || days[i] > 3650 || (i > 0 && days[i] <= days[i - 1]) {
        return false;
      }
    }
    ok := true;
  }

  // ---------- counting and unlinking one ladder at a time ----------

  lemma BoundGrow(t: Table, gone: set<int>, id: int)
    requires id !in gone
    ensures |Bound(t, gone + {id})| == |Bound(t, gone)| + |Bound(t, {id})|
  {
    assert Bound(t, gone + {id}) == Bound(t, gone) + Bound(t, {id});
    assert Bound(t, gone) !! Bound(t, {id});
  }

  lemma ClearedGrow(t: Table, gone: set<int>, id: int)
    requires id !in gone
    ensures var now := Cleared(t, Bound(t, gone));
      Bound(now, {id}) == Bound(t, {id}) && Cleared(now, Bound(now, {id})) == Cleared(t, Bound(t, gone + {id}))
  {}

  lemma DoomedGrow(ladders: map<int, Ladder>, uid: int, ids: seq<int>, i: nat)
    requires i < |ids|
    ensures var gone, id := Doomed(ladders, uid, ids[..i]), ids[i];
      Doomed(ladders, uid, ids[..i + 1]) ==
        if Owned(ladders, id, uid) && !ladders[id].isGlobal then gone + {id} else gone
    ensures Skipped(ladders, uid, ids[..i + 1])
      == Skipped(ladders, uid, ids[..i]) + (if Owned(ladders, ids[i], uid) && ladders[ids[i]].isGlobal then 1 else 0)
  {
    assert ids[..i + 1] == ids[..i] + [ids[i]];
    assert ids[..i + 1][..i] == ids[..i];
  }

  /** The three cases of one id, for the ladders that are left. A repeated id is in none any more. */
  lemma Considered(was: map<int, Ladder>, now: map<int, Ladder>, uid: int, ids: seq<int>, i: nat)
    requires i < |ids| && now == was - Doomed(was, uid, ids[..i])
    ensures var gone, skipped := Doomed(was, uid, ids[..i]), Skipped(was, uid, ids[..i]);
      var next, id := ids[..i + 1], ids[i];
      if !Owned(now, id, uid) then Doomed(was, uid, next) == gone && Skipped(was, uid, next) == skipped
      else if now[id].isGlobal then Doomed(was, uid, next) == gone && Skipped(was, uid, next) == skipped + 1
      else id !in gone && Doomed(was, uid, next) == gone + {id} && Skipped(was, uid, next) == skipped
           && now - {id} == was - (gone + {id})
  {
    DoomedGrow(was, uid, ids, i);
    var gone := Doomed(was, uid, ids[..i]);
    if ids[i] in gone {
      assert gone + {ids[i]} == gone;
    }
    assert now - {ids[i]} == was - (gone + {ids[i]});
  }

  /** A table as the loop leaves it: unlinked already where the database enforces the foreign key,
      untouched where it does not. */
  function Pending(t: Table, gone: set<int>, enforced: bool): Table {
    if enforced then Cleared(t, Bound(t, gone)) else t
  }

  lemma PendingStep(t: Table, gone: set<int>, id: int, enforced: bool)
    requires id !in gone
    ensures var now := Pending(t, gone, enforced);
      |Bound(t, gone + {id})| == |Bound(t, gone)| + |Bound(now, {id})|
      && Pending(t, gone + {id}, enforced) == if enforced then Cleared(now, Bound(now, {id})) else now
  {
    BoundGrow(t, gone, id);
    ClearedGrow(t, gone, id);
  }

  lemma PendingEnd(t: Table, gone: set<int>, enforced: bool)
    ensures var now := Pending(t, gone, enforced); Cleared(now, Bound(now, gone)) == Cleared(t, Bound(t, gone))
    ensures gone == {} ==> Pending(t, gone, enforced) == Cleared(t, Bound(t, gone))
  {}

  lemma UnboundMoved(t: Table, uid: int, ladder: int, ids: seq<int>)
    ensures Moved(t, Cleared(t, Unbindable(t, uid, ladder, ids))) == Unbindable(t, uid, ladder, ids)
    ensures ids == [] ==> Cleared(t, Unbindable(t, uid, ladder, ids)) == t
  {}

  /** What the loop has done to one table, and counted in it. */
  ghost predicate Unlinked(was: Table, now: Table, gone: set<int>, count: nat, enforced: bool) {
    now == Pending(was, gone, enforced) && count == |Bound(was, gone)|
  }

  lemma UnlinkedStep(was: Table, now: Table, gone: set<int>, count: nat, enforced: bool, id: int)
    requires Unlinked(was, now, gone, count, enforced) && id !in gone
    ensures Unlinked(was, if enforced then Cleared(now, Bound(now, {id})) else now, gone + {id},
                     count + |Bound(now, {id})|, enforced)
  {
    PendingStep(was, gone, id, enforced);
  }

  lemma UnlinkedNone(was: Table, enforced: bool)
    ensures Unlinked(was, was, {}, 0, enforced)
  {}

  class Store {
    var users: set<int>
    var heirs: map<int, int>
    var ladders: map<int, Ladder>
    var nextLadder: int
    var assets: Table
    var categories: Table
    /** Whether the database enforces the foreign keys of the binding tables. */
    const enforced: bool
    /** The days of a new global ladder, as configured. */
    const defaultDays: seq<int>

    ghost function View(): State
      reads this
    {
      State(users, heirs, ladders, nextLadder, assets, categories, defaultDays)
    }

    constructor (enforced: bool, defaultDays: seq<int>)
      ensures View() == Empty(defaultDays)
    {
      this.enforced, this.defaultDays := enforced, defaultDays;
      users, heirs, ladders, nextLadder := {}, map[], map[], 1;
      assets, categories := Table(map[], map[], 1), Table(map[], map[], 1);
    }

    /** The id of the user's global ladder, which is created when missing; 0 for an unknown user. */
    method EnsureGlobalLadder(uid: int) returns (id: int)
      requires Sound(View())
      modifies this
      ensures View() == EnsureGlobal(old(View()), uid)
      ensures (Owned(ladders, id, uid) && ladders[id].isGlobal) || (id == 0 && uid !in users && !HasGlobal(View(), uid))
    {
      if g :| g in ladders && ladders[g].owner == uid && ladders[g].isGlobal {
        return g;
      }
      if uid !in users {
        return 0;
      }
      id := nextLadder;
      ladders := ladders[id := Ladder(uid, GLOBAL_NAME, true, defaultDays)];
      nextLadder := nextLadder + 1;
    }

    method CreateTriggerLadder(uid: int, name: string, days: seq<int>) returns (status: nat)
      modifies this
      ensures View() == CreateLadder(old(View()), uid, name, days)
      ensures status == if Acceptable(name, days) then 201 else 400
    {
      if Trim(name) == "" {
        return 400;
      }
      var ok := ValidateLadderDays(days);
      if !ok {
        return 400;
      }
      ladders := ladders[nextLadder := Ladder(uid, Trim(name), false, days)];
      nextLadder := nextLadder + 1;
      status := 201;
    }

    method UpdateTriggerLadder(uid: int, id: int, name: string, days: seq<int>) returns (status: nat)
      modifies this
      ensures View() == UpdateLadder(old(View()), uid, id, name, days)
      ensures status == if !Acceptable(name, days) then 400 else if Owned(old(ladders), id, uid) then 200 else 404
    {
      if Trim(name) == "" {
        return 400;
      }
      var ok := ValidateLadderDays(days);
      if !ok {
        return 400;
      }
      if id !in ladders || ladders[id].owner != uid {
        return 404;
      }
      ladders := ladders[id := ladders[id].(name := Trim(name), days := days)];
      status := 200;
    }

    /** Deletes one ladder after counting what it binds. */
    method DeleteOne(id: int) returns (na: nat, nc: nat)
      modifies `ladders, `assets, `categories
      ensures ladders == old(ladders) - {id}
      ensures na == |Bound(old(assets), {id})| && nc == |Bound(old(categories), {id})|
      ensures assets == if enforced then Cleared(old(assets), Bound(old(assets), {id})) else old(assets)
      ensures categories == if enforced then Cleared(old(categories), Bound(old(categories), {id})) else old(categories)
    {
      na, nc := |Bound(assets, {id})|, |Bound(categories, {id})|;
      ladders := ladders - {id};
      if enforced {
        assets := Cleared(assets, Bound(assets, {id}));
        categories := Cleared(categories, Bound(categories, {id}));
      }
    }

    /** The loop over the requested ids. */
    method DeleteEach(uid: int, ids: seq<int>)
      returns (delIds: set<int>, deleted: nat, skipped: nat, boundAssets: nat, boundCategories: nat)
      modifies `ladders, `assets, `categories
      ensures delIds == Doomed(old(ladders), uid, ids) && ladders == old(ladders) - delIds
      ensures deleted == |delIds| && skipped == Skipped(old(ladders), uid, ids)
      ensures Unlinked(old(assets), assets, delIds, boundAssets, enforced)
      ensures Unlinked(old(categories), categories, delIds, boundCategories, enforced)
    {
      ghost var L, A, C := ladders, assets, categories;
      delIds, deleted, skipped, boundAssets, boundCategories := {}, 0, 0, 0, 0;
      assert L - {} == L;
      UnlinkedNone(A, enforced);
      UnlinkedNone(C, enforced);
      for i := 0 to |ids|
        invariant delIds == Doomed(L, uid, ids[..i]) && ladders == L - delIds
        invariant deleted == |delIds| && skipped == Skipped(L, uid, ids[..i])
        invariant Unlinked(A, assets, delIds, boundAssets, enforced)
        invariant Unlinked(C, categories, delIds, boundCategories, enforced)
      {
        var id := ids[i];
        Considered(L, ladders, uid, ids, i);
        if id !in ladders || ladders[id].owner != uid {
          continue;
        }
        if ladders[id].isGlobal {
          skipped := skipped + 1;
          continue;
        }
        UnlinkedStep(A, assets, delIds, boundAssets, enforced, id);
        UnlinkedStep(C, categories, delIds, boundCategories, enforced, id);
        var na, nc := DeleteOne(id);
        deleted := deleted + 1;
        boundAssets := boundAssets + na;
        boundCategories := boundCategories + nc;
        delIds := delIds + {id};
      }
      assert ids[..|ids|] == ids;
    }

    method DeleteTriggerLadders(uid: int, ids: seq<int>)
      returns (status: nat, deleted: nat, skipped: nat, boundAssets: nat, boundCategories: nat)
      modifies `ladders, `assets, `categories
      ensures View() == if ids == [] then old(View()) else DeleteLadders(old(View()), uid, ids)
      ensures status == if ids == [] then 400 else 200
      ensures deleted == |Doomed(old(ladders), uid, ids)| && skipped == Skipped(old(ladders), uid, ids)
      ensures boundAssets == |Bound(old(assets), Doomed(old(ladders), uid, ids))|
      ensures boundCategories == |Bound(old(categories), Doomed(old(ladders), uid, ids))|
    {
      ghost var A, C := assets, categories;
      if ids == [] {
        assert Doomed(ladders, uid, ids) == {} && Bound(A, {}) == {} && Bound(C, {}) == {};
        return 400, 0, 0, 0, 0;
      }
      var delIds;
      delIds, deleted, skipped, boundAssets, boundCategories := DeleteEach(uid, ids);
      PendingEnd(A, delIds, enforced);
      PendingEnd(C, delIds, enforced);
      if delIds != {} {
        assets := Cleared(assets, Bound(assets, delIds));
        categories := Cleared(categories, Bound(categories, delIds));
      }
      status := 200;
    }

    /** Returns the named bindings of one ladder to the global one, and says how many. */
    method UnbindLadder(uid: int, ladder: int, assetIds: seq<int>, categoryIds: seq<int>)
      returns (status: nat, unboundAssets: nat, unboundCategories: nat)
      modifies `assets, `categories
      ensures View() == Unbind(old(View()), uid, ladder, assetIds, categoryIds)
      ensures status == if !Owned(ladders, ladder, uid) then 404 else if ladders[ladder].isGlobal then 400 else 200
      ensures unboundAssets == |Moved(old(assets), assets)| && unboundCategories == |Moved(old(categories), categories)|
    {
      unboundAssets, unboundCategories := 0, 0;
      assert Moved(assets, assets) == {} && Moved(categories, categories) == {};
      if ladder !in ladders || ladders[ladder].owner != uid {
        return 404, 0, 0;
      }
      if ladders[ladder].isGlobal {
        return 400, 0, 0;
      }
      UnboundMoved(assets, uid, ladder, assetIds);
      UnboundMoved(categories, uid, ladder, categoryIds);
      if assetIds != [] {
        var rows := Unbindable(assets, uid, ladder, assetIds);
        assets := Cleared(assets, rows);
        unboundAssets := |rows|;
      }
      if categoryIds != [] {
        var rows := Unbindable(categories, uid, ladder, categoryIds);
        categories := Cleared(categories, rows);
        unboundCategories := |rows|;
      }
      status := 200;
    }

    function Of(kind: Kind): Table
      reads this
    {
      match kind case Asset => assets case Category => categories
    }

    method Put(kind: Kind, t: Table)
      modifies `assets, `categories
      ensures View() == old(View()).With(kind, t)
    {
      match kind {
        case Asset => assets := t;
        case Category => categories := t;
      }
    }

    method CreateInheritor(kind: Kind, uid: int, target: int, heir: int, priority: int, ladder: Option<int>)
      returns (status: nat)
      modifies this
      ensures View() == Bind(old(View()), kind, uid, target, heir, priority, ladder)
      ensures status == if !Mine(old(Of(kind)).owners, target, uid) then 404
                        else if MayBind(old(View()), kind, uid, target, heir, ladder) then 201 else 400
    {
      var t := Of(kind);
      if target !in t.owners || t.owners[target] != uid {
        return 404;
      }
      if heir !in heirs || heirs[heir] != uid {
        return 400;
      }
      if ladder.Some? && (ladder.value !in ladders || ladders[ladder.value].owner != uid) {
        return 400;
      }
      var p := priority;
      if p < 1 {
        p := 1;
      }
      if Taken(t, target, heir) {
        return 400;
      }
      Put(kind, t.(rows := t.rows[t.next := Binding(target, heir, p, ladder)], next := t.next + 1));
      status := 201;
    }

    method UpdateInheritorLadder(kind: Kind, uid: int, target: int, b: int, ladder: Option<int>) returns (status: nat)
      modifies this
      ensures View() == Relink(old(View()), kind, uid, target, b, ladder)
      ensures status == if !Mine(old(Of(kind)).owners, target, uid) then 404
                        else if !OwnedOrNull(old(ladders), ladder, uid) then 400
                        else if MayRelink(old(View()), kind, uid, target, b, ladder) then 200 else 404
    {
      var t := Of(kind);
      if target !in t.owners || t.owners[target] != uid {
        return 404;
      }
      if ladder.Some? && (ladder.value !in ladders || ladders[ladder.value].owner != uid) {
        return 400;
      }
      if b !in t.rows || t.rows[b].target != target {
        return 404;
      }
      Put(kind, t.(rows := t.rows[b := t.rows[b].(ladder := ladder)]));
      status := 200;
    }

    method DeleteInheritor(kind: Kind, uid: int, target: int, b: int) returns (status: nat)
      modifies this
      ensures View() == Release(old(View()), kind, uid, target, b)
      ensures status == if MayRelink(old(View()), kind, uid, target, b, None) then 204 else 404
    {
      var t := Of(kind);
      if target !in t.owners || t.owners[target] != uid || b !in t.rows || t.rows[b].target != target {
        return 404;
      }
      Put(kind, t.(rows := t.rows - {b}));
      status := 204;
    }
  }
}
