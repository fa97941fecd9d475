/** The login, claim, heartbeat and toggle handlers, and the life of an event under them. */
module Handlers {
  import opened Base
  import opened Estate

  const REVERSAL_WINDOW := 72 * HOUR
  const HEARTBEAT_GATE := 12 * HOUR

  // ---------- statements ----------

  /** Whether a login at `now` takes the event back. */
  predicate Reversible(e: Event, uid: int, now: int) {
    e.owner == uid &&
    (e.status == Status.Pending
     || (e.status == Status.Claimed && (e.reversableUntil.None? || e.reversableUntil.value > now)))
  }

  function ReverseOne(e: Event, uid: int, now: int): Event {
    if Reversible(e, uid, now) then e.(status := Status.Reversed, reversedAt := Some(now)) else e
  }

  function ReverseEvents(db: Db, uid: int): Db {
    db.(events := seq(|db.events|, i requires 0 <= i < |db.events| => ReverseOne(db.events[i], uid, db.now)))
  }

  function ResetOwner(db: Db, uid: int): Db {
    if uid in db.users
    then db.(users := db.users[uid := db.users[uid].(lastLogin := Some(db.now), stage := Stage.Inactive, level := 0)])
    else db
  }

  function ClaimedAt(e: Event, t: int): Event {
    e.(status := Status.Claimed, claimedAt := Some(t), reversableUntil := Some(t + REVERSAL_WINDOW))
  }

  /** The conditional update of a claim: takes effect only on a pending event. */
  function ClaimUpdate(db: Db, id: nat): Db
    requires id < |db.events|
  {
    var e := db.events[id];
    if e.status == Status.Pending then
      db.(events := db.events[id := ClaimedAt(e, db.now)])
    else db
  }

  // ---------- handlers, each as one step ----------

  function Login(db: Db, uid: int): Db {
    if uid !in db.users then db
    else if db.users[uid].stage == Stage.Inactive then ResetOwner(db, uid)
    else ReverseEvents(ResetOwner(db, uid), uid)
  }

  /** The heartbeat of an authenticated request. */
  function Touch(db: Db, uid: int): Db {
    if uid in db.users
       && (db.users[uid].lastLogin.None? || db.users[uid].lastLogin.value < db.now - HEARTBEAT_GATE)
    then db.(users := db.users[uid := db.users[uid].(lastLogin := Some(db.now))])
    else db
  }

  function Toggle(db: Db, uid: int, on: bool): Db {
    if uid in db.users then db.(users := db.users[uid := db.users[uid].(enabled := on)]) else db
  }

  datatype Outcome =
    | UnknownEvent | WrongCode | NotPending | LostRace | KeyMissing
    | AssetKey(asset: int) | MasterKey(owner: int)

  predicate AssetKeyPresent(c: Config, a: int) {
    exists i :: 0 <= i < |c.assets| && c.assets[i].id == a && c.assets[i].hasKey
  }

  /** What a claim that won its event hands out. */
  function KeyFor(c: Config, e: Event): Outcome {
    match e.asset
    case None => MasterKey(e.owner)
    case Some(a) => if AssetKeyPresent(c, a) then AssetKey(a) else KeyMissing
  }

  /** A claim presents an event key, here the row number, and the hash of an access code. */
  function Claim(db: Db, id: int, codeHash: int): (Db, Outcome) {
    if !(0 <= id < |db.events|) then (db, UnknownEvent)
    else if db.events[id].codeHash != codeHash then (db, WrongCode)
    else if db.events[id].status != Status.Pending then (db, NotPending)
    else
      var claimed := SetStage(ClaimUpdate(db, id), db.events[id].owner, Stage.Claimed);
      (claimed, KeyFor(db.config, db.events[id]))
  }

  // ---------- the life of one event ----------

  ghost predicate SameHandOver(e: Event, f: Event) {
    e.owner == f.owner && e.inheritor == f.inheritor && e.codeHash == f.codeHash && e.asset == f.asset
  }

  /** How an event seen as `e` at time `t` may look at a later time `u`. */
  ghost predicate Evolves(e: Event, t: int, f: Event, u: int) {
    SameHandOver(e, f) &&
    match e.status
    case Reversed => f == e
    case Claimed => f == e || TakenBack(e, t, f, u)
    case Pending =>
      || f == e
      || ClaimedWithin(e, t, f, u)
      || (f == e.(status := Status.Reversed, reversedAt := f.reversedAt) && WithinTime(f.reversedAt, t, u))
      || (f.claimedAt.Some? && f.reversedAt.Some? &&
          var c := e.(status := Status.Claimed, claimedAt := f.claimedAt,
                      reversableUntil := Some(f.claimedAt.value + 259200));
          ClaimedWithin(e, t, c, f.reversedAt.value) && TakenBack(c, f.claimedAt.value, f, u))
  }

  ghost predicate WithinTime(x: Option<int>, t: int, u: int) {
    x.Some? && t <= x.value <= u
  }

  /** Claimed between `t` and `u`, with the deadline 72 hours, 259200 seconds, later. */
  ghost predicate ClaimedWithin(e: Event, t: int, f: Event, u: int) {
    WithinTime(f.claimedAt, t, u)
    && f == e.(status := Status.Claimed, claimedAt := f.claimedAt,
               reversableUntil := Some(f.claimedAt.value + 259200))
  }

  /** A claimed event reversed between `t` and `u`, strictly before its deadline if it has one. */
  ghost predicate TakenBack(e: Event, t: int, f: Event, u: int) {
    WithinTime(f.reversedAt, t, u)
    && f == e.(status := Status.Reversed, reversedAt := f.reversedAt)
    && (e.reversableUntil.Some? ==> f.reversedAt.value < e.reversableUntil.value)
  }

  /** Events are kept, and each evolves lawfully. */
  ghost predicate History(s: seq<Event>, t: int, r: seq<Event>, u: int) {
    t <= u && |s| <= |r| && forall i :: 0 <= i < |s| ==> Evolves(s[i], t, r[i], u)
  }

  lemma EvolvesTransitive(e: Event, t: int, f: Event, u: int, g: Event, v: int)
    requires t <= u <= v && Evolves(e, t, f, u) && Evolves(f, u, g, v)
    ensures Evolves(e, t, g, v)
  {}

  lemma HistoryTransitive(s: seq<Event>, t: int, r: seq<Event>, u: int, q: seq<Event>, v: int)
    requires History(s, t, r, u) && History(r, u, q, v)
    ensures History(s, t, q, v)
  {}

  /** A claimed event whose deadline has passed never changes again. */
  lemma FinalAfterDeadline(e: Event, t: int, f: Event, u: int)
    requires Evolves(e, t, f, u)
    requires e.status == Status.Claimed && e.reversableUntil.Some? && e.reversableUntil.value <= t
    ensures f == e
  {}

  // ---------- live events ----------

  /** Claiming or reversing never makes an event live. */
  ghost predicate LiveShrinks(s: seq<Event>, r: seq<Event>) {
    |r| == |s| && forall i :: 0 <= i < |s| ==> SameHandOver(s[i], r[i]) && (IsLive(r[i]) ==> IsLive(s[i]))
  }

  lemma ShrinkKeepsUnique(s: seq<Event>, r: seq<Event>)
    requires LiveShrinks(s, r) && LiveUnique(s)
    ensures LiveUnique(r)
  {}

  lemma ShrinkLive(s: seq<Event>, r: seq<Event>, uid: int, t: Option<int>)
    requires LiveShrinks(s, r) && Live(r, uid, t)
    ensures Live(s, uid, t)
  {
    var i :| 0 <= i < |r| && LiveAt(r, i, uid, t);
    assert LiveAt(s, i, uid, t);
  }

  /** Purging an asset: the foreign key of its events is set to NULL. */
  function PurgeAsset(events: seq<Event>, a: int): seq<Event> {
    seq(|events|, i requires 0 <= i < |events| =>
      if events[i].asset == Some(a) then events[i].(asset := None) else events[i])
  }

  /** Nothing else about any event changes. */
  lemma PurgeExact(events: seq<Event>, a: int)
    ensures var r := PurgeAsset(events, a);
      |r| == |events| && forall i :: 0 <= i < |r| ==>
        var e := events[i];
        r[i] == Event(e.owner, e.inheritor, e.codeHash, if e.asset == Some(a) then None else e.asset,
                      e.status, e.claimedAt, e.reversableUntil, e.reversedAt)
  {}

  /** An event made for one asset then answers with the master key of its owner. */
  lemma PurgedAnswersMasterKey(db: Db, a: int, id: int, codeHash: int)
    requires Claimable(db, id, codeHash) && db.events[id].asset == Some(a)
    ensures Claim(db, id, codeHash).1 == if AssetKeyPresent(db.config, a) then AssetKey(a) else KeyMissing
    ensures Claim(db.(events := PurgeAsset(db.events, a)), id, codeHash).1 == MasterKey(db.events[id].owner)
  {}

  /** So a purge turns the asset's live event into a user-level one, and keeps live events unique
      exactly when no owner has live events for both. */
  lemma PurgeKeepsUniqueIff(events: seq<Event>, a: int)
    requires LiveUnique(events)
    ensures LiveUnique(PurgeAsset(events, a)) <==>
      forall uid :: !(Live(events, uid, Some(a)) && Live(events, uid, None))
  {
    var r := PurgeAsset(events, a);
    if uid :| Live(events, uid, Some(a)) && Live(events, uid, None) {
      var i :| 0 <= i < |events| && LiveAt(events, i, uid, Some(a));
      var j :| 0 <= j < |events| && LiveAt(events, j, uid, None);
      assert IsLive(r[i]) && IsLive(r[j]) && r[i].owner == r[j].owner && r[i].asset == r[j].asset;
    } else {
      forall i, j | 0 <= i < j < |r| && IsLive(r[i]) && IsLive(r[j])
        ensures r[i].owner != r[j].owner || r[i].asset != r[j].asset
      {
        var uid := events[i].owner;
        assert !(Live(events, uid, Some(a)) && Live(events, uid, None));
        if events[j].owner == uid {
          assert LiveAt(events, i, uid, events[i].asset) && LiveAt(events, j, uid, events[j].asset);
        }
      }
    }
  }

  // ---------- the stage ----------

  /** Beyond the owner's reach: reversed, or claimed with the deadline in the past. */
  predicate Settled(e: Event, now: int) {
    e.status == Status.Reversed
    || (e.status == Status.Claimed && e.reversableUntil.Some? && e.reversableUntil.value <= now)
  }

  /** An inactive stage means that nothing of that owner is pending or still reversible. */
  ghost predicate StageSound(db: Db) {
    && (forall i :: 0 <= i < |db.events| ==> db.events[i].owner in db.users)
    && (forall i :: 0 <= i < |db.events| && db.users[db.events[i].owner].stage == Stage.Inactive ==>
          Settled(db.events[i], db.now))
  }

  /** A login changes three fields of the owner's row, and reverses the owner's events that are pending,
      or claimed with no deadline or one still to come, unless the stage was inactive. */
  lemma LoginExact(db: Db, uid: int)
    requires uid in db.users
    ensures var r, u := Login(db, uid), db.users[uid];
      && r.config == db.config && r.now == db.now && |r.events| == |db.events|
      && r.users == db.users[uid := User(Stage.Inactive, 0, Some(db.now), u.enabled)]
      && forall i :: 0 <= i < |db.events| ==>
           var e := db.events[i];
           r.events[i] ==
             if u.stage != Stage.Inactive && e.owner == uid
                && (e.status == Status.Pending
                    || (e.status == Status.Claimed && (e.reversableUntil.Some? ==> db.now < e.reversableUntil.value)))
             then e.(status := Status.Reversed, reversedAt := Some(db.now)) else e
  {}

  /** After a login nothing of the owner is left pending or reversible, and the switch is reset. */
  lemma LoginSettles(db: Db, uid: int)
    requires StageSound(db) && uid in db.users
    ensures var r := Login(db, uid);
      && StageSound(r)
      && (forall i :: 0 <= i < |r.events| && r.events[i].owner == uid ==> Settled(r.events[i], r.now))
      && r.users == db.users[uid := User(Stage.Inactive, 0, Some(db.now), db.users[uid].enabled)]
      && r.config == db.config && r.now == db.now
      && (forall i :: 0 <= i < |db.events| && db.events[i].owner != uid ==> r.events[i] == db.events[i])
  {}

  /** The heartbeat writes the time of the request exactly when none was recorded or the recorded one is
      more than twelve hours old, and nothing else; so afterwards it is at most twelve hours old. */
  lemma TouchExact(db: Db, uid: int)
    requires uid in db.users
    ensures var r, u := Touch(db, uid), db.users[uid];
      && r == db.(users := db.users[uid := r.users[uid]])
      && (u.lastLogin.Some? && u.lastLogin.value >= db.now - 43200 ==> r.users[uid] == u)
      && (u.lastLogin.Some? && u.lastLogin.value < db.now - 43200 ==> r.users[uid] == u.(lastLogin := Some(db.now)))
      && (u.lastLogin.None? ==> r.users[uid] == u.(lastLogin := Some(db.now)))
      && r.users[uid].lastLogin.Some? && r.users[uid].lastLogin.value >= db.now - 43200
  {}

  /** A claim that may take the event: right code, still pending. */
  predicate Claimable(db: Db, id: int, codeHash: int) {
    0 <= id < |db.events| && db.events[id].codeHash == codeHash && db.events[id].status == Status.Pending
  }

  /** Whether there is a key to hand out: always for everything, else if the asset has a wrapped key. */
  ghost predicate HasKey(c: Config, target: Option<int>) {
    target.Some? ==> exists x :: x in c.assets && x.id == target.value && x.hasKey
  }

  /** A claim takes its event exactly when it may, for 72 hours, and moves the owner to the claimed stage.
      It answers with a key exactly when, moreover, there is one, and the key is that of what the event
      hands over. A claim that takes the event of an asset without a wrapped key answers with nothing. */
  lemma ClaimOutcome(db: Db, id: int, codeHash: int)
    ensures var (r, out) := Claim(db, id, codeHash);
      && (Claimable(db, id, codeHash) ==>
            var e := db.events[id];
            && r.events == db.events[id := e.(status := Status.Claimed, claimedAt := Some(db.now),
                                              reversableUntil := Some(db.now + 259200))]
            && r.users == (if e.owner in db.users
                           then db.users[e.owner := db.users[e.owner].(stage := Stage.Claimed)] else db.users)
            && r.config == db.config && r.now == db.now)
      && (!Claimable(db, id, codeHash) ==> r == db)
      && (out.UnknownEvent? <==> !(0 <= id < |db.events|))
      && (out.WrongCode? <==> 0 <= id < |db.events| && db.events[id].codeHash != codeHash)
      && (out.AssetKey? || out.MasterKey? <==> Claimable(db, id, codeHash) && HasKey(db.config, db.events[id].asset))
      && (out.KeyMissing? <==> Claimable(db, id, codeHash) && !HasKey(db.config, db.events[id].asset))
      && (out.MasterKey? ==> db.events[id].asset.None? && out.owner == db.events[id].owner)
      && (out.AssetKey? ==> db.events[id].asset == Some(out.asset))
  {}

  /** After a claim took an event, a login of the owner `seconds` later takes it back if and only if that
      is less than 72 hours later. */
  lemma ReversedWithin72Hours(db: Db, id: int, codeHash: int, seconds: nat)
    requires Claimable(db, id, codeHash) && db.events[id].owner in db.users
    ensures var claimed := Claim(db, id, codeHash).0;
      var later := claimed.(now := claimed.now + seconds);
      var r := Login(later, db.events[id].owner);
      r.events[id] == if seconds < 259200
                      then claimed.events[id].(status := Status.Reversed, reversedAt := Some(later.now))
                      else claimed.events[id]
  {}
}
