/** What the rules of inheritance speak of, said over the rows alone: ids, owners, priorities, days and
    seconds. None of it uses the queries or the functions of the model. */
module Plain {
  import opened Base
  import opened Estate

  // ---------- inheritors and bindings ----------

  /** Not after `d` in ORDER BY priority ASC, id ASC. */
  predicate NoLater(b: Binding, d: Binding) {
    b.priority < d.priority || (b.priority == d.priority && b.id <= d.id)
  }

  ghost predicate HasHeir(c: Config, id: int) {
    exists h :: h in c.inheritors && h.id == id
  }

  /** `b` binds the target to somebody, and its own trigger days, if any, have passed. */
  ghost predicate Due(c: Config, table: seq<Binding>, target: int, days: int, b: Binding) {
    b in table && b.target == target && (b.triggerDays.Some? ==> b.triggerDays.value <= days) && HasHeir(c, b.inheritor)
  }

  ghost predicate FirstDue(c: Config, table: seq<Binding>, target: int, days: int, b: Binding) {
    Due(c, table, target, days, b) && forall d :: Due(c, table, target, days, d) ==> NoLater(b, d)
  }

  ghost predicate ActiveOf(c: Config, uid: int, x: Asset) {
    x in c.assets && x.owner == uid && x.active
  }

  ghost predicate Unbound(c: Config, a: int) {
    forall b :: b in c.assetBindings ==> b.target != a
  }

  /** The binding that decides who receives an active asset: the first that is due among its own, or, if
      it has none of its own, among those of its category. */
  ghost predicate Decides(c: Config, uid: int, x: Asset, days: int, b: Binding) {
    ActiveOf(c, uid, x)
    && (FirstDue(c, c.assetBindings, x.id, days, b)
        || (Unbound(c, x.id) && x.category.Some? && FirstDue(c, c.categoryBindings, x.category.value, days, b)))
  }

  ghost predicate Decided(c: Config, uid: int, x: Asset, days: int) {
    exists b :: Decides(c, uid, x, days, b)
  }

  /** Bound to somebody by a binding of its own, due or not. */
  ghost predicate OwnHeir(c: Config, a: int) {
    exists b :: b in c.assetBindings && b.target == a && HasHeir(c, b.inheritor)
  }

  /** An active asset that nothing hands over by itself. */
  ghost predicate LeftOver(c: Config, uid: int, x: Asset, days: int) {
    ActiveOf(c, uid, x) && !OwnHeir(c, x.id) && !Decided(c, uid, x, days)
  }

  /** Everything is to be handed over: there is no active asset, or one that is left over. */
  ghost predicate WholeDue(c: Config, uid: int, days: int) {
    (forall x :: !ActiveOf(c, uid, x)) || exists x :: LeftOver(c, uid, x, days)
  }

  /** The default inheritor that the owner chose is one of the owner's inheritors. */
  ghost predicate DefaultStands(c: Config, uid: int) {
    uid in c.defaultInheritor && exists k :: k in c.inheritors && k.id == c.defaultInheritor[uid] && k.owner == uid
  }

  /** Who receives everything: the default inheritor, or else the owner's first in (priority, id). */
  ghost predicate ChosenHeir(c: Config, uid: int, h: Inheritor) {
    && h in c.inheritors && h.owner == uid
    && if DefaultStands(c, uid) then h.id == c.defaultInheritor[uid]
       else forall k :: k in c.inheritors && k.owner == uid ==>
              h.priority < k.priority || (h.priority == k.priority && h.id <= k.id)
  }

  // ---------- events ----------

  /** Some event of `s` for the target is pending or claimed. */
  ghost predicate Alive(s: seq<Event>, uid: int, target: Option<int>) {
    exists e :: e in s && e.owner == uid && e.asset == target && e.status in {Status.Pending, Status.Claimed}
  }

  /** A new event that hands `target` to `h`. */
  predicate HandsTo(e: Event, uid: int, target: Option<int>, h: Inheritor) {
    e == Event(uid, h.id, h.codeHash, target, Status.Pending, None, None, None)
  }

  // ---------- ladders ----------

  /** So many seconds make at least so many whole days. A negative time, of a login after the tick of the
      scan, is cut off towards zero. */
  predicate Elapsed(seconds: int, days: int) {
    if seconds >= 0 then 86400 * days <= seconds else 86400 * days < seconds + 86400
  }

  /** Rung `k` of the user's own ladder, or of the default one without it, is reached after so many
      seconds. */
  predicate RungReached(c: Config, uid: int, k: int, seconds: int) {
    if uid in c.ladders then 0 <= k < |c.ladders[uid]| && Elapsed(seconds, c.ladders[uid][k])
    else 0 <= k < |c.defaultLadder| && Elapsed(seconds, c.defaultLadder[k])
  }

  function TopRung(c: Config, uid: int): int {
    if uid in c.ladders then |c.ladders[uid]| - 1 else |c.defaultLadder| - 1
  }

  predicate LastRungWithin(c: Config, uid: int, seconds: int) {
    RungReached(c, uid, TopRung(c, uid), seconds)
  }

  /** The asset has an heir of its own, but the trigger days of every such binding are still to come. */
  ghost predicate WaitsFor(c: Config, a: int, seconds: int) {
    && OwnHeir(c, a)
    && forall b :: b in c.assetBindings && b.target == a && HasHeir(c, b.inheritor) ==>
         b.triggerDays.Some? && !Elapsed(seconds, b.triggerDays.value)
  }
}
