/** The state of an event when its key leaves the server. The claim's update and its answer are
    different statements, and a login may take the event back between them. */
module Release {
  import opened Base
  import opened Estate
  import opened Handlers
  import opened Interleaving

  /** The last statement of a login of the owner, while the event can still be taken back. */
  predicate TakesBack(s: Sys, m: Move, e: nat) {
    m.LoginMoves? && m.l in s.logins && s.logins[m.l].OwnerReset? && s.logins[m.l].stage != Stage.Inactive
    && e < |s.db.events| && Reversible(s.db.events[e], s.logins[m.l].uid, s.db.now)
  }

  ghost predicate NeverTakenBack(s: Sys, moves: seq<Move>, e: nat) {
    forall k :: 0 <= k < |moves| ==> !TakesBack(Play(s, moves[..k]), moves[k], e)
  }

  lemma ClaimedStep(s: Sys, m: Move, e: nat)
    requires e < |s.db.events| && s.db.events[e].status != Status.Pending
    ensures e < |Take(s, m).db.events|
    ensures Take(s, m).db.events[e] ==
      if TakesBack(s, m, e) then ReverseOne(s.db.events[e], s.db.events[e].owner, s.db.now) else s.db.events[e]
  {}

  lemma NeverTakenBackPrefix(s: Sys, moves: seq<Move>, e: nat)
    requires moves != []
    ensures var before, m := moves[..|moves| - 1], moves[|moves| - 1];
      NeverTakenBack(s, moves, e) <==> NeverTakenBack(s, before, e) && !TakesBack(Play(s, before), m, e)
  {
    var before := moves[..|moves| - 1];
    assert forall k :: 0 <= k <= |before| ==> before[..k] == moves[..k];
    assert forall k :: 0 <= k < |before| ==> before[k] == moves[k];
  }

  /** Over any interleaving a claimed event stays as it is exactly when no login takes it back. */
  lemma {:induction false} ClaimedIff(s: Sys, moves: seq<Move>, e: nat)
    requires e < |s.db.events| && s.db.events[e].status == Status.Claimed
    ensures e < |Play(s, moves).db.events|
    ensures var now := Play(s, moves).db.events[e];
      if NeverTakenBack(s, moves, e) then now == s.db.events[e] else now.status == Status.Reversed
    decreases |moves|
  {
    if moves != [] {
      var before := moves[..|moves| - 1];
      ClaimedIff(s, before, e);
      ClaimedStep(Play(s, before), moves[|moves| - 1], e);
      NeverTakenBackPrefix(s, moves, e);
    }
  }

  /** The claim is about to take event `e`, which is still pending. */
  predicate AboutToWin(s: Sys, c: nat, e: nat) {
    c in s.claims && s.claims[c] == Checked(e) && e < |s.db.events| && s.db.events[e].status == Status.Pending
  }

  /** The claim is about to answer, and there is a key to answer with. */
  predicate AboutToAnswer(s: Sys, c: nat, e: nat) {
    c in s.claims && s.claims[c] == Marked(e) && e < |s.db.events| && !KeyFor(s.db.config, s.db.events[e]).KeyMissing?
  }

  lemma Wins(s: Sys, c: nat, e: nat)
    requires AboutToWin(s, c, e)
    ensures var won := ClaimStep(s, c);
      won.wins == s.wins + [Ticket(c, e)] && e < |won.db.events| && won.db.events[e].status == Status.Claimed
  {}

  lemma Answers(s: Sys, c: nat, e: nat)
    requires AboutToAnswer(s, c, e)
    ensures var r := ClaimStep(s, c); r.released == s.released + [Ticket(c, e)] && r.db == s.db
  {}

  /** When a claim that won event `e` answers with its key, the event is claimed exactly when no login
      took it back between the update and the answer; otherwise it is reversed, and the key leaves
      all the same. */
  lemma ReleasedIff(s: Sys, c: nat, e: nat, between: seq<Move>)
    requires AboutToWin(s, c, e)
    requires AboutToAnswer(Play(ClaimStep(s, c), between), c, e)
    ensures var won := ClaimStep(s, c); var ready := Play(won, between); var r := ClaimStep(ready, c);
      && won.wins == s.wins + [Ticket(c, e)] && r.released == ready.released + [Ticket(c, e)]
      && e < |r.db.events|
      && r.db.events[e].status == if NeverTakenBack(won, between, e) then Status.Claimed else Status.Reversed
  {
    Wins(s, c, e);
    ClaimedIff(ClaimStep(s, c), between, e);
    Answers(Play(ClaimStep(s, c), between), c, e);
  }

  // ---------- a key of an event that was taken back ----------

  /** A claim one statement from winning, and a login of the owner. */
  function Contest(): Sys {
    Sys(Db(Config([], [], [Inheritor(7, 1, 1, 99)], [], [], map[], [15, 60], map[]),
           map[1 := User(Stage.Triggered, 1, Some(0), true)], [NewEvent(1, None, 7, 99)], 60 * DAY),
        Idle, map[0 := Checked(0)], map[0 := Proven(1)], [], [])
  }

  /** The whole login runs between the claim's update and its answer. */
  lemma KeyOfReversedEvent()
    ensures AboutToWin(Contest(), 0, 0)
    ensures var ready := Play(ClaimStep(Contest(), 0), [LoginMoves(0), LoginMoves(0), LoginMoves(0), ClaimMoves(0)]);
      && AboutToAnswer(ready, 0, 0) && ready.db.events[0].status == Status.Reversed
      && ClaimStep(ready, 0).released == [Ticket(0, 0)]
  {
    Play4(ClaimStep(Contest(), 0), LoginMoves(0), LoginMoves(0), LoginMoves(0), ClaimMoves(0));
  }
}
