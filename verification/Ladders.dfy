/** Trigger ladders and the bindings that name them. Assets and categories have tables of the same
    shape, each with its own handlers, so one set of functions serves both. */
module Ladders {
  import opened Base
  import opened Text

  datatype Ladder = Ladder(owner: int, name: string, isGlobal: bool, days: seq<int>)

  /** A row of asset_inheritors or category_inheritors; no ladder stands for the global one. */
  datatype Binding = Binding(target: int, heir: int, priority: int, ladder: Option<int>)

  /** The owner of every asset (or category), and the bindings of that table. */
  datatype Table = Table(owners: map<int, int>, rows: map<int, Binding>, next: int)

  datatype Kind = Asset | Category

  /** `defaultDays` are those of a new global ladder, as the server is configured. */
  datatype State = State(users: set<int>, heirs: map<int, int>, ladders: map<int, Ladder>, nextLadder: int,
                         assets: Table, categories: Table, defaultDays: seq<int>)
  {
    function Of(kind: Kind): Table {
      match kind case Asset => assets case Category => categories
    }

    function With(kind: Kind, t: Table): State {
      match kind case Asset => this.(assets := t) case Category => this.(categories := t)
    }
  }

  // ---------- what the tables keep ----------

  /** Two strictly increasing numbers of days from 1 to 3650. */
  predicate ValidDays(days: seq<int>) {
    |days| == 2 && 0 < days[0] < days[1] <= 3650
  }

  predicate Owned(ladders: map<int, Ladder>, id: int, uid: int) {
    id in ladders && ladders[id].owner == uid
  }

  predicate OwnedOrNull(ladders: map<int, Ladder>, id: Option<int>, uid: int) {
    id.Some? ==> Owned(ladders, id.value, uid)
  }

  predicate RowSound(owners: map<int, int>, heirs: map<int, int>, ladders: map<int, Ladder>, r: Binding) {
    && r.target in owners && r.heir in heirs && heirs[r.heir] == owners[r.target]
    && OwnedOrNull(ladders, r.ladder, owners[r.target]) && r.priority >= 1
  }

  predicate SamePair(r: Binding, q: Binding) {
    r.target == q.target && r.heir == q.heir
  }

  predicate BothGlobal(k: Ladder, l: Ladder) {
    k.isGlobal && l.isGlobal && k.owner == l.owner
  }

  ghost predicate TableSound(t: Table, heirs: map<int, int>, ladders: map<int, Ladder>) {
    && (forall b :: b in t.rows ==> RowSound(t.owners, heirs, ladders, t.rows[b]) && b < t.next)
    && (forall b, c :: b in t.rows && c in t.rows && SamePair(t.rows[b], t.rows[c]) ==> b == c)
  }

  /** A name that is not blank and has no white space around it, and valid days if they are custom. */
  predicate LadderSound(l: Ladder) {
    l.name != "" && Trim(l.name) == l.name && (l.isGlobal || ValidDays(l.days))
  }

  ghost predicate LaddersSound(ladders: map<int, Ladder>, next: int) {
    && (forall l :: l in ladders ==> l < next && LadderSound(ladders[l]))
    && (forall k, l :: k in ladders && l in ladders && BothGlobal(ladders[k], ladders[l]) ==> k == l)
  }

  /** Every binding has a priority from 1 on and names no ladder or an existing one of the owner of what
      it binds, an owner has at most one global ladder, and nobody is bound twice to the same thing. */
  ghost predicate Sound(s: State) {
    && LaddersSound(s.ladders, s.nextLadder)
    && TableSound(s.assets, s.heirs, s.ladders)
    && TableSound(s.categories, s.heirs, s.ladders)
  }

  ghost predicate HasGlobal(s: State, uid: int) {
    exists g :: Owned(s.ladders, g, uid) && s.ladders[g].isGlobal
  }

  // ---------- the handlers ----------

  const GLOBAL_NAME := "\U{5168}\U{5C40}"

  function EnsureGlobal(s: State, uid: int): State {
    if (exists g :: g in s.ladders && s.ladders[g].owner == uid && s.ladders[g].isGlobal) || uid !in s.users then s
    else s.(ladders := s.ladders[s.nextLadder := Ladder(uid, GLOBAL_NAME, true, s.defaultDays)],
            nextLadder := s.nextLadder + 1)
  }

  /** A name and days that a request may give a ladder. */
  predicate Acceptable(name: string, days: seq<int>) {
    Trim(name) != "" && ValidDays(days)
  }

  function CreateLadder(s: State, uid: int, name: string, days: seq<int>): State {
    if !Acceptable(name, days) then s
    else s.(ladders := s.ladders[s.nextLadder := Ladder(uid, Trim(name), false, days)], nextLadder := s.nextLadder + 1)
  }

  function UpdateLadder(s: State, uid: int, id: int, name: string, days: seq<int>): State {
    if !Acceptable(name, days) || !Owned(s.ladders, id, uid) then s
    else s.(ladders := s.ladders[id := s.ladders[id].(name := Trim(name), days := days)])
  }

  /** The ladders a delete request removes: those named that are the user's own and not global. */
  function Doomed(ladders: map<int, Ladder>, uid: int, ids: seq<int>): set<int> {
    set id | id in ids && Owned(ladders, id, uid) && !ladders[id].isGlobal
  }

  /** How many positions of the request name the user's own global ladder. */
  function Skipped(ladders: map<int, Ladder>, uid: int, ids: seq<int>): nat {
    if ids == [] then 0
    else
      var id := ids[|ids| - 1];
      Skipped(ladders, uid, ids[..|ids| - 1]) + (if Owned(ladders, id, uid) && ladders[id].isGlobal then 1 else 0)
  }

  /** The bindings that name one of `ids`. */
  function Bound(t: Table, ids: set<int>): set<int> {
    set b | b in t.rows && t.rows[b].ladder.Some? && t.rows[b].ladder.value in ids
  }

  /** The bindings in `bs` return to the global ladder. */
  function Cleared(t: Table, bs: set<int>): Table {
    t.(rows := map b | b in t.rows :: if b in bs then t.rows[b].(ladder := None) else t.rows[b])
  }

  function DeleteLadders(s: State, uid: int, ids: seq<int>): State {
    var gone := Doomed(s.ladders, uid, ids);
    s.(ladders := s.ladders - gone,
       assets := Cleared(s.assets, Bound(s.assets, gone)),
       categories := Cleared(s.categories, Bound(s.categories, gone)))
  }

  /** The bindings an unbind request touches in one table. */
  function Unbindable(t: Table, uid: int, ladder: int, ids: seq<int>): set<int> {
    set b | b in t.rows && b in ids && t.rows[b].ladder == Some(ladder)
      && t.rows[b].target in t.owners && t.owners[t.rows[b].target] == uid
  }

  function Unbind(s: State, uid: int, ladder: int, assetIds: seq<int>, categoryIds: seq<int>): State {
    if !Owned(s.ladders, ladder, uid) || s.ladders[ladder].isGlobal then s
    else s.(assets := Cleared(s.assets, Unbindable(s.assets, uid, ladder, assetIds)),
            categories := Cleared(s.categories, Unbindable(s.categories, uid, ladder, categoryIds)))
  }

  predicate Mine(owners: map<int, int>, id: int, uid: int) {
    id in owners && owners[id] == uid
  }

  predicate Taken(t: Table, target: int, heir: int) {
    exists b :: b in t.rows && t.rows[b].target == target && t.rows[b].heir == heir
  }

  predicate MayBind(s: State, kind: Kind, uid: int, target: int, heir: int, ladder: Option<int>) {
    && Mine(s.Of(kind).owners, target, uid) && Mine(s.heirs, heir, uid)
    && OwnedOrNull(s.ladders, ladder, uid) && !Taken(s.Of(kind), target, heir)
  }

  function Bind(s: State, kind: Kind, uid: int, target: int, heir: int, priority: int, ladder: Option<int>): State {
    if !MayBind(s, kind, uid, target, heir, ladder) then s
    else
      var t := s.Of(kind);
      var row := Binding(target, heir, if priority < 1 then 1 else priority, ladder);
      s.With(kind, t.(rows := t.rows[t.next := row], next := t.next + 1))
  }

  predicate MayRelink(s: State, kind: Kind, uid: int, target: int, b: int, ladder: Option<int>) {
    && Mine(s.Of(kind).owners, target, uid) && OwnedOrNull(s.ladders, ladder, uid)
    && b in s.Of(kind).rows && s.Of(kind).rows[b].target == target
  }

  function Relink(s: State, kind: Kind, uid: int, target: int, b: int, ladder: Option<int>): State {
    if !MayRelink(s, kind, uid, target, b, ladder) then s
    else
      var t := s.Of(kind);
      s.With(kind, t.(rows := t.rows[b := t.rows[b].(ladder := ladder)]))
  }

  function Release(s: State, kind: Kind, uid: int, target: int, b: int): State {
    if !MayRelink(s, kind, uid, target, b, None) then s
    else s.With(kind, s.Of(kind).(rows := s.Of(kind).rows - {b}))
  }

  // ---------- the rest of the server, as it touches these tables ----------

  function AddTarget(s: State, kind: Kind, id: int, uid: int): State {
    if id in s.Of(kind).owners then s else s.With(kind, s.Of(kind).(owners := s.Of(kind).owners[id := uid]))
  }

  /** Purging an asset or a category takes its bindings with it. */
  function DropTarget(s: State, kind: Kind, id: int): State {
    var t := s.Of(kind);
    s.With(kind, t.(owners := t.owners - {id}, rows := map b | b in t.rows && t.rows[b].target != id :: t.rows[b]))
  }

  function AddHeir(s: State, id: int, uid: int): State {
    if id in s.heirs then s else s.(heirs := s.heirs[id := uid])
  }

  function WithoutHeir(t: Table, id: int): Table {
    t.(rows := map b | b in t.rows && t.rows[b].heir != id :: t.rows[b])
  }

  function DropHeir(s: State, id: int): State {
    s.(heirs := s.heirs - {id}, assets := WithoutHeir(s.assets, id), categories := WithoutHeir(s.categories, id))
  }

  datatype Action =
    | Registering(uid: int)
    | EnsuringGlobal(uid: int)
    | CreatingLadder(uid: int, name: string, days: seq<int>)
    | UpdatingLadder(uid: int, id: int, name: string, days: seq<int>)
    | DeletingLadders(uid: int, ids: seq<int>)
    | Unbinding(uid: int, id: int, assetIds: seq<int>, categoryIds: seq<int>)
    | Binds(uid: int, kind: Kind, target: int, heir: int, priority: int, ladder: Option<int>)
    | Relinking(uid: int, kind: Kind, target: int, b: int, ladder: Option<int>)
    | Releasing(uid: int, kind: Kind, target: int, b: int)
    | AddingTarget(kind: Kind, id: int, uid: int)
    | DroppingTarget(kind: Kind, id: int)
    | AddingHeir(id: int, uid: int)
    | DroppingHeir(id: int)

  function Step(s: State, a: Action): State {
    match a
    case Registering(u) => EnsureGlobal(s.(users := s.users + {u}), u)
    case EnsuringGlobal(u) => EnsureGlobal(s, u)
    case CreatingLadder(u, name, days) => CreateLadder(s, u, name, days)
    case UpdatingLadder(u, id, name, days) => UpdateLadder(s, u, id, name, days)
    case DeletingLadders(u, ids) => DeleteLadders(s, u, ids)
    case Unbinding(u, id, xs, ys) => Unbind(s, u, id, xs, ys)
    case Binds(u, kind, target, heir, priority, ladder) => Bind(s, kind, u, target, heir, priority, ladder)
    case Relinking(u, kind, target, b, ladder) => Relink(s, kind, u, target, b, ladder)
    case Releasing(u, kind, target, b) => Release(s, kind, u, target, b)
    case AddingTarget(kind, id, u) => AddTarget(s, kind, id, u)
    case DroppingTarget(kind, id) => DropTarget(s, kind, id)
    case AddingHeir(id, u) => AddHeir(s, id, u)
    case DroppingHeir(id) => DropHeir(s, id)
  }

  function Empty(defaultDays: seq<int>): State {
    State({}, map[], map[], 1, Table(map[], map[], 1), Table(map[], map[], 1), defaultDays)
  }

  function Run(defaultDays: seq<int>, actions: seq<Action>): State {
    if actions == [] then Empty(defaultDays)
    else Step(Run(defaultDays, actions[..|actions| - 1]), actions[|actions| - 1])
  }

  // ---------- integrity ----------

  lemma TableAfterDelete(t: Table, heirs: map<int, int>, ladders: map<int, Ladder>, gone: set<int>)
    requires TableSound(t, heirs, ladders)
    ensures TableSound(Cleared(t, Bound(t, gone)), heirs, ladders - gone)
  {}

  lemma TableAfterClear(t: Table, heirs: map<int, int>, ladders: map<int, Ladder>, bs: set<int>)
    requires TableSound(t, heirs, ladders)
    ensures TableSound(Cleared(t, bs), heirs, ladders)
  {}

  /** New and changed ladders keep the tables sound as long as every ladder keeps its owner. */
  lemma TableWithLadders(t: Table, heirs: map<int, int>, ladders: map<int, Ladder>, ladders': map<int, Ladder>)
    requires TableSound(t, heirs, ladders)
    requires forall l :: l in ladders ==> l in ladders' && ladders'[l].owner == ladders[l].owner
    ensures TableSound(t, heirs, ladders')
  {}

  lemma TableWithRow(t: Table, heirs: map<int, int>, ladders: map<int, Ladder>, b: int, r: Binding)
    requires TableSound(t, heirs, ladders) && RowSound(t.owners, heirs, ladders, r) && b <= t.next
    requires forall c :: c in t.rows && SamePair(t.rows[c], r) ==> c == b
    ensures TableSound(t.(rows := t.rows[b := r], next := if b == t.next then b + 1 else t.next), heirs, ladders)
  {}

  lemma TableWithout(t: Table, heirs: map<int, int>, ladders: map<int, Ladder>, heirs': map<int, int>,
                     owners': map<int, int>, rows': map<int, Binding>)
    requires TableSound(t, heirs, ladders)
    requires forall b :: b in rows' ==> b in t.rows && rows'[b] == t.rows[b]
    requires forall b :: b in rows' ==> Kept(t, rows'[b], heirs, heirs', owners')
    ensures TableSound(Table(owners', rows', t.next), heirs', ladders)
  {}

  /** The target and the heir of a row are still there, with the owners they had. */
  predicate Kept(t: Table, r: Binding, heirs: map<int, int>, heirs': map<int, int>, owners': map<int, int>) {
    && (r.target in t.owners ==> r.target in owners' && owners'[r.target] == t.owners[r.target])
    && (r.heir in heirs ==> r.heir in heirs' && heirs'[r.heir] == heirs[r.heir])
  }

  lemma LaddersWith(ladders: map<int, Ladder>, next: int, id: int, l: Ladder)
    requires LaddersSound(ladders, next) && LadderSound(l) && id <= next
    requires forall k :: k in ladders && BothGlobal(ladders[k], l) ==> k == id
    ensures LaddersSound(ladders[id := l], if id == next then next + 1 else next)
  {}

  lemma TablesWithLadders(s: State, s': State)
    requires Sound(s) && LaddersSound(s'.ladders, s'.nextLadder)
    requires s'.heirs == s.heirs && s'.assets == s.assets && s'.categories == s.categories
    requires forall l :: l in s.ladders ==> l in s'.ladders && s'.ladders[l].owner == s.ladders[l].owner
    ensures Sound(s')
  {
    TableWithLadders(s.assets, s.heirs, s.ladders, s'.ladders);
    TableWithLadders(s.categories, s.heirs, s.ladders, s'.ladders);
  }

  lemma GlobalNameTrimmed()
    ensures GLOBAL_NAME != "" && Trim(GLOBAL_NAME) == GLOBAL_NAME
  {}

  lemma EnsureSound(s: State, uid: int)
    requires Sound(s)
    ensures Sound(EnsureGlobal(s, uid))
  {
    var s' := EnsureGlobal(s, uid);
    if s' != s {
      GlobalNameTrimmed();
      LaddersWith(s.ladders, s.nextLadder, s.nextLadder, s'.ladders[s.nextLadder]);
      TablesWithLadders(s, s');
    }
  }

  lemma CreateSound(s: State, uid: int, name: string, days: seq<int>)
    requires Sound(s)
    ensures Sound(CreateLadder(s, uid, name, days))
  {
    if Acceptable(name, days) {
      TrimTwice(name);
      LaddersWith(s.ladders, s.nextLadder, s.nextLadder, Ladder(uid, Trim(name), false, days));
      TablesWithLadders(s, CreateLadder(s, uid, name, days));
    }
  }

  lemma UpdateSound(s: State, uid: int, id: int, name: string, days: seq<int>)
    requires Sound(s)
    ensures Sound(UpdateLadder(s, uid, id, name, days))
  {
    if Acceptable(name, days) && Owned(s.ladders, id, uid) {
      TrimTwice(name);
      LaddersWith(s.ladders, s.nextLadder, id, s.ladders[id].(name := Trim(name), days := days));
      TablesWithLadders(s, UpdateLadder(s, uid, id, name, days));
    }
  }

  lemma DeleteSound(s: State, uid: int, ids: seq<int>)
    requires Sound(s)
    ensures Sound(DeleteLadders(s, uid, ids))
  {
    var gone := Doomed(s.ladders, uid, ids);
    TableAfterDelete(s.assets, s.heirs, s.ladders, gone);
    TableAfterDelete(s.categories, s.heirs, s.ladders, gone);
  }

  lemma UnbindSound(s: State, uid: int, ladder: int, assetIds: seq<int>, categoryIds: seq<int>)
    requires Sound(s)
    ensures Sound(Unbind(s, uid, ladder, assetIds, categoryIds))
  {
    TableAfterClear(s.assets, s.heirs, s.ladders, Unbindable(s.assets, uid, ladder, assetIds));
    TableAfterClear(s.categories, s.heirs, s.ladders, Unbindable(s.categories, uid, ladder, categoryIds));
  }

  lemma BindSound(s: State, kind: Kind, uid: int, target: int, heir: int, priority: int, ladder: Option<int>)
    requires Sound(s)
    ensures Sound(Bind(s, kind, uid, target, heir, priority, ladder))
  {
    if MayBind(s, kind, uid, target, heir, ladder) {
      var t := s.Of(kind);
      TableWithRow(t, s.heirs, s.ladders, t.next, Binding(target, heir, if priority < 1 then 1 else priority, ladder));
    }
  }

  lemma RelinkSound(s: State, kind: Kind, uid: int, target: int, b: int, ladder: Option<int>)
    requires Sound(s)
    ensures Sound(Relink(s, kind, uid, target, b, ladder))
    ensures Sound(Release(s, kind, uid, target, b))
  {
    var t := s.Of(kind);
    if MayRelink(s, kind, uid, target, b, ladder) {
      TableWithRow(t, s.heirs, s.ladders, b, t.rows[b].(ladder := ladder));
    }
    TableWithout(t, s.heirs, s.ladders, s.heirs, t.owners, t.rows - {b});
  }

  lemma TargetSound(s: State, kind: Kind, id: int, uid: int)
    requires Sound(s)
    ensures Sound(AddTarget(s, kind, id, uid)) && Sound(DropTarget(s, kind, id))
  {
    var t := s.Of(kind);
    if id !in t.owners {
      TableWithout(t, s.heirs, s.ladders, s.heirs, t.owners[id := uid], t.rows);
    }
    TableWithout(t, s.heirs, s.ladders, s.heirs, t.owners - {id},
                 map b | b in t.rows && t.rows[b].target != id :: t.rows[b]);
  }

  lemma HeirTable(t: Table, heirs: map<int, int>, ladders: map<int, Ladder>, id: int, uid: int)
    requires TableSound(t, heirs, ladders)
    ensures TableSound(WithoutHeir(t, id), heirs - {id}, ladders)
    ensures id !in heirs ==> TableSound(t, heirs[id := uid], ladders)
  {}

  lemma StepSound(s: State, a: Action)
    requires Sound(s)
    ensures Sound(Step(s, a))
  {
    match a {
      case Registering(u) => EnsureSound(s.(users := s.users + {u}), u);
      case EnsuringGlobal(u) => EnsureSound(s, u);
      case CreatingLadder(u, name, days) => CreateSound(s, u, name, days);
      case UpdatingLadder(u, id, name, days) => UpdateSound(s, u, id, name, days);
      case DeletingLadders(u, ids) => DeleteSound(s, u, ids);
      case Unbinding(u, id, xs, ys) => UnbindSound(s, u, id, xs, ys);
      case Binds(u, kind, target, heir, priority, ladder) => BindSound(s, kind, u, target, heir, priority, ladder);
      case Relinking(u, kind, target, b, ladder) => RelinkSound(s, kind, u, target, b, ladder);
      case Releasing(u, kind, target, b) => RelinkSound(s, kind, u, target, b, None);
      case AddingTarget(kind, id, u) => TargetSound(s, kind, id, u);
      case DroppingTarget(kind, id) => TargetSound(s, kind, id, 0);
      case AddingHeir(id, u) =>
        HeirTable(s.assets, s.heirs, s.ladders, id, u);
        HeirTable(s.categories, s.heirs, s.ladders, id, u);
      case DroppingHeir(id) =>
        HeirTable(s.assets, s.heirs, s.ladders, id, 0);
        HeirTable(s.categories, s.heirs, s.ladders, id, 0);
    }
  }

  lemma {:induction false} AlwaysSound(defaultDays: seq<int>, actions: seq<Action>)
    ensures Sound(Run(defaultDays, actions))
  {
    if actions != [] {
      AlwaysSound(defaultDays, actions[..|actions| - 1]);
      StepSound(Run(defaultDays, actions[..|actions| - 1]), actions[|actions| - 1]);
    }
  }

  lemma LaddersKept(s: State, kind: Kind)
    ensures forall t :: s.With(kind, t).ladders == s.ladders
  {}

  /** No request removes or demotes a global ladder, and nobody else's request changes any ladder. */
  lemma GlobalSurvives(s: State, a: Action, g: int)
    requires LaddersSound(s.ladders, s.nextLadder) && g in s.ladders && s.ladders[g].isGlobal
    ensures g in Step(s, a).ladders && BothGlobal(Step(s, a).ladders[g], s.ladders[g])
    ensures Step(s, a).ladders[g] != s.ladders[g] ==> a.UpdatingLadder? && a.uid == s.ladders[g].owner && a.id == g
  {
    match a {
      case Binds(u, kind, target, heir, p, ladder) => LaddersKept(s, kind);
      case Relinking(u, kind, target, b, ladder) => LaddersKept(s, kind);
      case Releasing(u, kind, target, b) => LaddersKept(s, kind);
      case AddingTarget(kind, id, u) => LaddersKept(s, kind);
      case DroppingTarget(kind, id) => LaddersKept(s, kind);
      case _ =>
    }
  }

  lemma GlobalKept(s: State, a: Action, uid: int)
    requires Sound(s) && HasGlobal(s, uid)
    ensures HasGlobal(Step(s, a), uid)
  {
    var g :| Owned(s.ladders, g, uid) && s.ladders[g].isGlobal;
    GlobalSurvives(s, a, g);
    assert Owned(Step(s, a).ladders, g, uid);
  }

  /** A user who has a global ladder at some point of a run has one ever after. */
  lemma {:induction false} GlobalForever(defaultDays: seq<int>, actions: seq<Action>, i: nat, uid: int)
    requires i <= |actions| && HasGlobal(Run(defaultDays, actions[..i]), uid)
    ensures HasGlobal(Run(defaultDays, actions), uid)
    decreases |actions|
  {
    if i == |actions| {
      assert actions[..i] == actions;
    } else {
      var before := actions[..|actions| - 1];
      assert before[..i] == actions[..i];
      GlobalForever(defaultDays, before, i, uid);
      AlwaysSound(defaultDays, before);
      GlobalKept(Run(defaultDays, before), actions[|actions| - 1], uid);
    }
  }

  // ---------- one row and one request ----------

  /** The request deletes the ladder: its owner names it, and it is not global. */
  predicate Deletes(a: Action, id: int, l: Ladder) {
    a.DeletingLadders? && id in a.ids && l.owner == a.uid && !l.isGlobal
  }

  /** A name with some character that is not white space, and two increasing numbers of days up to ten years. */
  predicate WellAsked(name: string, days: seq<int>) {
    && (exists i :: 0 <= i < |name| && !IsSpace(name[i]))
    && |days| == 2 && 1 <= days[0] && days[0] < days[1] && days[1] <= 3650
  }

  predicate Renames(a: Action, id: int, l: Ladder) {
    a.UpdatingLadder? && a.id == id && l.owner == a.uid && WellAsked(a.name, a.days)
  }

  lemma AcceptableIff(name: string, days: seq<int>)
    ensures Acceptable(name, days) <==> WellAsked(name, days)
  {
    TrimmedEmptyIff(name);
  }

  /** What becomes of a ladder: only its owner's delete removes it, and only if it is not global; only its
      owner's update changes it, in name and days and nothing else. */
  lemma LadderFate(s: State, a: Action, id: int)
    requires Sound(s) && id in s.ladders
    ensures var l, after := s.ladders[id], Step(s, a).ladders;
      && (id in after <==> !Deletes(a, id, l))
      && (id in after ==> after[id] == if Renames(a, id, l) then Ladder(l.owner, Trim(a.name), l.isGlobal, a.days)
                                       else l)
  {
    match a {
      case UpdatingLadder(u, l, name, days) => AcceptableIff(name, days);
      case Binds(u, kind, target, heir, p, ladder) => LaddersKept(s, kind);
      case Relinking(u, kind, target, b, ladder) => LaddersKept(s, kind);
      case Releasing(u, kind, target, b) => LaddersKept(s, kind);
      case AddingTarget(kind, x, u) => LaddersKept(s, kind);
      case DroppingTarget(kind, x) => LaddersKept(s, kind);
      case _ =>
    }
  }

  /** The user is known once the request is served, and had no global ladder. */
  ghost predicate NeedsGlobal(s: State, a: Action) {
    || (a.Registering? && !HasGlobal(s, a.uid))
    || (a.EnsuringGlobal? && a.uid in s.users && !HasGlobal(s, a.uid))
  }

  /** Where ladders come from: a request for a custom one with a name and days that will do, and the global
      one of a user without any, with the configured days. At most one a request, with a new id. */
  lemma LadderBirth(s: State, a: Action, id: int)
    requires Sound(s) && id !in s.ladders
    ensures var after := Step(s, a).ladders;
      id in after <==>
        id == s.nextLadder && ((a.CreatingLadder? && WellAsked(a.name, a.days)) || NeedsGlobal(s, a))
    ensures var after := Step(s, a).ladders;
      id in after ==> after[id] == if a.CreatingLadder? then Ladder(a.uid, Trim(a.name), false, a.days)
                                   else Ladder(a.uid, GLOBAL_NAME, true, s.defaultDays)
  {
    match a {
      case Registering(u) => GlobalIff(s, u);
      case EnsuringGlobal(u) => GlobalIff(s, u);
      case CreatingLadder(u, name, days) => AcceptableIff(name, days);
      case Binds(u, kind, target, heir, p, ladder) => LaddersKept(s, kind);
      case Relinking(u, kind, target, b, ladder) => LaddersKept(s, kind);
      case Releasing(u, kind, target, b) => LaddersKept(s, kind);
      case AddingTarget(kind, x, u) => LaddersKept(s, kind);
      case DroppingTarget(kind, x) => LaddersKept(s, kind);
      case _ =>
    }
  }

  lemma GlobalIff(s: State, uid: int)
    ensures HasGlobal(s, uid) <==> exists g :: g in s.ladders && s.ladders[g].owner == uid && s.ladders[g].isGlobal
  {
    if g :| g in s.ladders && s.ladders[g].owner == uid && s.ladders[g].isGlobal {
      assert Owned(s.ladders, g, uid);
    }
  }

  /** The request takes the binding away: its owner removes it, or its target or its heir goes. */
  predicate Removes(s: State, a: Action, kind: Kind, b: int, r: Binding) {
    || (a.Releasing? && a.kind == kind && a.b == b && a.target == r.target
        && r.target in s.Of(kind).owners && s.Of(kind).owners[r.target] == a.uid)
    || (a.DroppingTarget? && a.kind == kind && a.id == r.target)
    || (a.DroppingHeir? && a.id == r.heir)
  }

  /** The request gives the binding another ladder, or none: its owner asks for one of theirs. */
  predicate Relinks(s: State, a: Action, kind: Kind, b: int, r: Binding) {
    && a.Relinking? && a.kind == kind && a.b == b && a.target == r.target
    && r.target in s.Of(kind).owners && s.Of(kind).owners[r.target] == a.uid
    && (a.ladder.Some? ==> a.ladder.value in s.ladders && s.ladders[a.ladder.value].owner == a.uid)
  }

  /** The request returns the binding to the global ladder: its ladder, which is not global, is deleted by
      its owner, or unbound from this binding by its owner. */
  predicate Returns(s: State, a: Action, kind: Kind, b: int, r: Binding) {
    && r.ladder.Some? && r.ladder.value in s.ladders
    && var l := s.ladders[r.ladder.value];
      || Deletes(a, r.ladder.value, l)
      || (a.Unbinding? && a.id == r.ladder.value && l.owner == a.uid && !l.isGlobal
          && b in (if kind == Asset then a.assetIds else a.categoryIds))
  }

  /** What becomes of a binding: exactly which requests remove it, give it another ladder, or return it to
      the global one. Target, heir and priority never change. */
  lemma BindingFate(s: State, a: Action, kind: Kind, b: int)
    requires Sound(s) && b in s.Of(kind).rows
    ensures var r, after := s.Of(kind).rows[b], Step(s, a).Of(kind).rows;
      && (b in after <==> !Removes(s, a, kind, b, r))
      && (b in after ==> after[b] == Binding(r.target, r.heir, r.priority,
        if Relinks(s, a, kind, b, r) then a.ladder else if Returns(s, a, kind, b, r) then None else r.ladder))
  {}

  /** The request binds an heir to a target, both of the user, for the first time, to no ladder or one of
      the user's. */
  ghost predicate NewlyBinds(s: State, a: Action, kind: Kind) {
    && a.Binds? && a.kind == kind
    && a.target in s.Of(kind).owners && s.Of(kind).owners[a.target] == a.uid
    && a.heir in s.heirs && s.heirs[a.heir] == a.uid
    && (a.ladder.Some? ==> a.ladder.value in s.ladders && s.ladders[a.ladder.value].owner == a.uid)
    && forall b :: b in s.Of(kind).rows ==> s.Of(kind).rows[b].target != a.target || s.Of(kind).rows[b].heir != a.heir
  }

  /** Where bindings come from: one a request, as asked, except that a priority below 1 becomes 1. */
  lemma BindingBirth(s: State, a: Action, kind: Kind, b: int)
    requires Sound(s) && b !in s.Of(kind).rows
    ensures var after := Step(s, a).Of(kind).rows;
      && (b in after <==> b == s.Of(kind).next && NewlyBinds(s, a, kind))
      && (b in after ==> && (after[b].target, after[b].heir, after[b].ladder) == (a.target, a.heir, a.ladder)
                         && (a.priority >= 1 ==> after[b].priority == a.priority)
                         && (a.priority < 1 ==> after[b].priority == 1))
  {}

  /** The request sets the ladder of an existing binding. */
  predicate Resets(s: State, a: Action, kind: Kind, b: int) {
    b in s.Of(kind).rows && (Relinks(s, a, kind, b, s.Of(kind).rows[b]) || Returns(s, a, kind, b, s.Of(kind).rows[b]))
  }

  /** The state in which request `k` of a run is served. */
  function At(defaultDays: seq<int>, actions: seq<Action>, k: nat): State
    requires k <= |actions|
  {
    Run(defaultDays, actions[..k])
  }

  /** No request of the run from `from` on sets the ladder of the binding. */
  ghost predicate NeverReset(defaultDays: seq<int>, actions: seq<Action>, from: nat, kind: Kind, b: int) {
    forall k :: from <= k < |actions| ==> !Resets(At(defaultDays, actions, k), actions[k], kind, b)
  }

  /** Request `i` made the binding as it is, but for its ladder; request `j` was the last to set that. */
  ghost predicate MadeAndSet(defaultDays: seq<int>, actions: seq<Action>, kind: Kind, b: int, r: Binding,
                             i: nat, j: nat)
    requires i <= j < |actions|
  {
    var a, s := actions[j], At(defaultDays, actions, j);
    && b == At(defaultDays, actions, i).Of(kind).next && NewlyBinds(At(defaultDays, actions, i), actions[i], kind)
    && (r.target, r.heir) == (actions[i].target, actions[i].heir)
    && r.priority == (if actions[i].priority < 1 then 1 else actions[i].priority)
    && (i < j ==> Resets(s, a, kind, b))
    && r.ladder == (if a.Binds? || a.Relinking? then a.ladder else None)
    && NeverReset(defaultDays, actions, j + 1, kind, b)
  }

  /** One more request, after which the binding is as `r'` says. */
  lemma StoryGrows(defaultDays: seq<int>, actions: seq<Action>, kind: Kind, b: int, r: Binding, r': Binding,
                   i: nat, j: nat)
    requires i <= j < |actions| - 1 && MadeAndSet(defaultDays, actions[..|actions| - 1], kind, b, r, i, j)
    requires var n, s := |actions| - 1, Run(defaultDays, actions[..|actions| - 1]); var a := actions[n];
      r' == Binding(r.target, r.heir, r.priority,
                    if !Resets(s, a, kind, b) then r.ladder else if a.Relinking? then a.ladder else None)
      && (Resets(s, a, kind, b) ==> !a.Binds?)
    ensures var n, s := |actions| - 1, Run(defaultDays, actions[..|actions| - 1]);
      MadeAndSet(defaultDays, actions, kind, b, r', i, if Resets(s, actions[n], kind, b) then n else j)
  {
    var n := |actions| - 1;
    assert actions[..n][..i] == actions[..i] && actions[..n][..j] == actions[..j];
    if !Resets(Run(defaultDays, actions[..n]), actions[n], kind, b) {
      StillNeverReset(defaultDays, actions, j + 1, kind, b);
    }
  }

  /** Every binding of every run goes back to a request of its owner, who then had target and heir; it still
      has the priority asked for, and the ladder that the last request about it chose. */
  lemma {:induction false} BindingStory(defaultDays: seq<int>, actions: seq<Action>, kind: Kind, b: int)
    returns (i: nat, j: nat)
    requires b in Run(defaultDays, actions).Of(kind).rows
    ensures i <= j < |actions|
    ensures MadeAndSet(defaultDays, actions, kind, b, Run(defaultDays, actions).Of(kind).rows[b], i, j)
  {
    assert actions != [];
    var n := |actions| - 1;
    var before, a := actions[..n], actions[n];
    var s := Run(defaultDays, before);
    AlwaysSound(defaultDays, before);
    if b !in s.Of(kind).rows {
      BindingBirth(s, a, kind, b);
      i, j := n, n;
    } else {
      BindingFate(s, a, kind, b);
      i, j := BindingStory(defaultDays, before, kind, b);
      StoryGrows(defaultDays, actions, kind, b, s.Of(kind).rows[b], Run(defaultDays, actions).Of(kind).rows[b], i, j);
      j := if Resets(s, a, kind, b) then n else j;
    }
  }

  lemma StillNeverReset(defaultDays: seq<int>, actions: seq<Action>, from: nat, kind: Kind, b: int)
    requires |actions| > 0 && from < |actions| && NeverReset(defaultDays, actions[..|actions| - 1], from, kind, b)
    requires !Resets(Run(defaultDays, actions[..|actions| - 1]), actions[|actions| - 1], kind, b)
    ensures NeverReset(defaultDays, actions, from, kind, b)
  {
    var n := |actions| - 1;
    forall k | from <= k < |actions| ensures !Resets(At(defaultDays, actions, k), actions[k], kind, b) {
      if k < n {
        assert actions[..n][..k] == actions[..k];
        assert !Resets(At(defaultDays, actions[..n], k), actions[..n][k], kind, b);
      }
    }
  }

  // ---------- deleting ----------

  /** The bindings of a table whose ladder differs between two states. */
  function Moved(t: Table, t': Table): set<int> {
    set b | b in t.rows && b in t'.rows && t.rows[b].ladder != t'.rows[b].ladder
  }

  /** The bindings a delete request counts are exactly those that change: each of them belongs to the
      user, named a deleted ladder, and returns to the global one. */
  lemma ReportedIsReturned(s: State, kind: Kind, uid: int, ids: seq<int>)
    requires Sound(s)
    ensures var gone, t, t' := Doomed(s.ladders, uid, ids), s.Of(kind), DeleteLadders(s, uid, ids).Of(kind);
      && Bound(t, gone) == Moved(t, t') && t'.rows.Keys == t.rows.Keys
      && forall b :: b in Moved(t, t') ==> t'.rows[b] == t.rows[b].(ladder := None) && t.owners[t.rows[b].target] == uid
  {}

  /** The count of skipped ids is the number of positions of the request that name the user's own global
      ladder. */
  lemma {:induction false} SkippedCounts(ladders: map<int, Ladder>, uid: int, ids: seq<int>)
    ensures Skipped(ladders, uid, ids)
      == |set i | 0 <= i < |ids| && ids[i] in ladders && ladders[ids[i]].owner == uid && ladders[ids[i]].isGlobal|
  {
    if ids != [] {
      var n := |ids| - 1;
      var before := ids[..n];
      SkippedCounts(ladders, uid, before);
      var was := set i | 0 <= i < n && before[i] in ladders && ladders[before[i]].owner == uid
                         && ladders[before[i]].isGlobal;
      var all := set i | 0 <= i < |ids| && ids[i] in ladders && ladders[ids[i]].owner == uid
                         && ladders[ids[i]].isGlobal;
      assert all == if Owned(ladders, ids[n], uid) && ladders[ids[n]].isGlobal then was + {n} else was;
    }
  }

  /** Deleting again, or naming a ladder twice, changes nothing more. */
  lemma DeleteIdempotent(s: State, uid: int, ids: seq<int>)
    ensures DeleteLadders(s, uid, ids + ids) == DeleteLadders(s, uid, ids)
    ensures DeleteLadders(DeleteLadders(s, uid, ids), uid, ids) == DeleteLadders(s, uid, ids)
  {
    assert Doomed(s.ladders, uid, ids + ids) == Doomed(s.ladders, uid, ids);
    var s' := DeleteLadders(s, uid, ids);
    assert Doomed(s'.ladders, uid, ids) == {};
    assert s'.ladders - {} == s'.ladders;
    assert Cleared(s'.assets, Bound(s'.assets, {})) == s'.assets;
    assert Cleared(s'.categories, Bound(s'.categories, {})) == s'.categories;
  }

  // ---------- listing ----------

  /** The bindings listed under a ladder of the user: those without one under the global ladder,
      those naming it under any other. */
  function Listed(s: State, kind: Kind, uid: int, id: int): set<int>
    requires id in s.ladders
  {
    var t := s.Of(kind);
    set b | b in t.rows && Mine(t.owners, t.rows[b].target, uid) && t.rows[b].heir in s.heirs
      && t.rows[b].ladder == if s.ladders[id].isGlobal then None else Some(id)
  }

  /** Some ladder of the user lists the binding. */
  ghost predicate Shown(s: State, kind: Kind, uid: int, b: int) {
    exists l :: Owned(s.ladders, l, uid) && b in Listed(s, kind, uid, l)
  }

  ghost predicate UsersRow(s: State, kind: Kind, uid: int, b: int) {
    b in s.Of(kind).rows && Mine(s.Of(kind).owners, s.Of(kind).rows[b].target, uid)
  }

  /** The binding names the global ladder by its id. */
  predicate NamesGlobal(s: State, r: Binding) {
    r.ladder.Some? && r.ladder.value in s.ladders && s.ladders[r.ladder.value].isGlobal
  }

  lemma ListedOnce(s: State, kind: Kind, uid: int, k: int, l: int, b: int)
    requires Sound(s) && Owned(s.ladders, k, uid) && Owned(s.ladders, l, uid)
    requires b in Listed(s, kind, uid, k) && b in Listed(s, kind, uid, l)
    ensures k == l
  {}

  lemma ShownIff(s: State, kind: Kind, uid: int, b: int)
    requires Sound(s) && HasGlobal(s, uid) && UsersRow(s, kind, uid, b)
    ensures Shown(s, kind, uid, b) <==> !NamesGlobal(s, s.Of(kind).rows[b])
  {}

  /** The lists of a user's ladders partition the user's bindings exactly when no binding of the user
      names the global ladder by its id, which the binding handlers accept. */
  lemma ListsPartition(s: State, kind: Kind, uid: int)
    requires Sound(s) && HasGlobal(s, uid)
    ensures (forall b :: UsersRow(s, kind, uid, b) ==> Shown(s, kind, uid, b))
      <==> (forall b :: UsersRow(s, kind, uid, b) ==> !NamesGlobal(s, s.Of(kind).rows[b]))
  {}

  /** A run after which a binding is in no list. */
  function Hiding(): seq<Action> {
    [Registering(7), AddingTarget(Asset, 20, 7), AddingHeir(30, 7), Binds(7, Asset, 20, 30, 1, Some(1))]
  }

  lemma BindingUnlisted(defaultDays: seq<int>)
    ensures var s := Run(defaultDays, Hiding()); HasGlobal(s, 7) && UsersRow(s, Asset, 7, 1) && !Shown(s, Asset, 7, 1)
  {
    var all := Hiding();
    assert all[..3][..2][..1][..0] == [] && all[..3][..2] == all[..2] && all[..3][..2][..1] == all[..1];
    var s1 := EnsureGlobal(Empty(defaultDays).(users := {7}), 7);
    assert Empty(defaultDays).users + {7} == {7};
    assert Run(defaultDays, all[..1]) == s1 && Owned(s1.ladders, 1, 7) && s1.ladders[1].isGlobal;
    var s2 := AddTarget(s1, Asset, 20, 7);
    assert Run(defaultDays, all[..2]) == s2;
    var s3 := AddHeir(s2, 30, 7);
    assert Run(defaultDays, all[..3]) == s3 && MayBind(s3, Asset, 7, 20, 30, Some(1));
    var s := Run(defaultDays, all);
    assert s == Bind(s3, Asset, 7, 20, 30, 1, Some(1));
    assert Owned(s.ladders, 1, 7) && s.ladders[1].isGlobal;
    AlwaysSound(defaultDays, all);
    ShownIff(s, Asset, 7, 1);
  }
}
