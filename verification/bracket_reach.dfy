/** The one place where two participants can meet is a place where they do meet, if both keep winning. */
module BracketReach {
  import opened Common
  import opened Matches
  import opened Seeding
  import opened BracketShape
  import opened BracketRounds
  import opened BracketPlay
  import opened BracketChampion
  import opened BracketMeeting

  lemma {:induction false} AfterAppend(rows: seq<MatchState>, s: Progress, moves: seq<Move>, m: Move)
    requires Fits(rows, s) && Legal(rows, s, moves) && Playable(rows, After(rows, s, moves), m)
    ensures Legal(rows, s, moves + [m]) && After(rows, s, moves + [m]) == Decide(rows, After(rows, s, moves), m)
    decreases |moves|
  {
    if moves == [] {
      assert (moves + [m])[1..] == [];
    } else {
      assert (moves + [m])[1..] == moves[1..] + [m];
      AfterAppend(rows, Decide(rows, s, moves[0]), moves[1..], m);
    }
  }

  /** Whenever v plays it wins, and so does w unless it plays against v. */
  ghost predicate Favours(s: Progress, x: nat, v: Id, w: Id)
    requires x < |s.seated| == |s.advanced|
  {
    && (Holds(s.seated[x], v) ==> s.advanced[x] == Some(v))
    && (Holds(s.seated[x], w) && !Holds(s.seated[x], v) ==> s.advanced[x] == Some(w))
  }

  /** Exactly the first k matches are decided, all of them in favour of v and w. */
  ghost predicate PlayedInOrder(s: Progress, k: nat, v: Id, w: Id) {
    && k <= |s.seated| == |s.advanced|
    && (forall x :: k <= x < |s.advanced| ==> s.advanced[x].None?)
    && forall x :: 0 <= x < k ==> s.advanced[x].Some? && Favours(s, x, v, w)
  }

  /** The winner that match k has or gets. */
  lemma FavouredMove(p: Plan, rows: seq<MatchState>, s: Progress, k: nat, v: Id, w: Id) returns (m: Move)
    requires Sound(p, rows, s) && PlayedInOrder(s, k, v, w) && k < |rows|
    ensures m.at == k && Playable(rows, s, m)
    ensures Holds(s.seated[k], v) ==> m.winner == v
    ensures Holds(s.seated[k], w) && !Holds(s.seated[k], v) ==> m.winner == w
  {
    var h, row := Half(|p.order|), Row(p, k, |rows| - 1);
    if k < h {
      assert s.seated[k] == PairOf(rows[k]);
    } else {
      assert SeatsFeeders(h, s, k);
      assert LeftFeeder(h, k) + 1 < k;
    }
    m := Move(k, if Holds(s.seated[k], v) then v else if Holds(s.seated[k], w) then w else s.seated[k].one.value);
  }

  lemma {:induction false} PlayInOrder(p: Plan, rows: seq<MatchState>, k: nat, v: Id, w: Id) returns (moves: seq<Move>)
    requires IsBracket(p, rows) && k <= |rows|
    ensures Legal(rows, Kickoff(rows), moves)
    ensures PlayedInOrder(After(rows, Kickoff(rows), moves), k, v, w)
  {
    if k == 0 {
      moves := [];
    } else {
      moves := PlayInOrder(p, rows, k - 1, v, w);
      var s := After(rows, Kickoff(rows), moves);
      ReachedInvariant(p, rows, moves);
      var m := FavouredMove(p, rows, s, k - 1, v, w);
      NextIsOpen(p, rows, s, m);
      AfterAppend(rows, Kickoff(rows), moves, m);
      DecidingKeepsFavours(p, rows, s, m, v, w);
      moves := moves + [m];
    }
  }

  lemma DecidingKeepsFavours(p: Plan, rows: seq<MatchState>, s: Progress, m: Move, v: Id, w: Id)
    requires Sound(p, rows, s) && Playable(rows, s, m) && PlayedInOrder(s, m.at, v, w)
    requires Holds(s.seated[m.at], v) ==> m.winner == v
    requires Holds(s.seated[m.at], w) && !Holds(s.seated[m.at], v) ==> m.winner == w
    ensures PlayedInOrder(Decide(rows, s, m), m.at + 1, v, w)
  {
    NextIsOpen(p, rows, s, m);
    var after := Decide(rows, s, m);
    forall x | 0 <= x <= m.at
      ensures after.advanced[x].Some? && Favours(after, x, v, w)
    {
      assert after.seated[x] == s.seated[x];
      assert x < m.at ==> Favours(s, x, v, w);
    }
  }

  /** Before they join, the paths of two first-round matches have not reached the final. */
  lemma BeforeTheyJoin(p: Plan, rows: seq<MatchState>, i: nat, j: nat, d: nat, e: nat)
    requires IsBracket(p, rows) && i < |rows| && j < |rows|
    requires rows[i].roundNumber == 1 && rows[j].roundNumber == 1
    requires JoinAfter(rows, i, j, d) && e < d
    ensures Follow(rows, i, e) < Follow(rows, i, e + 1) < |rows|
    ensures Follow(rows, i, e + 1) == Parent(Half(|p.order|), Follow(rows, i, e))
  {
    LinksReachTheFinal(p, rows, i, e);
    LinksReachTheFinal(p, rows, j, e);
    assert Follow(rows, i, e) != Follow(rows, j, e);
    var y := Follow(rows, i, e);
    NextIsParent(p, rows, y);
    FollowOn(rows, i, e);
    assert Follow(rows, y, 1) == Follow(rows, NextOf(rows, y).value, 0);
  }

  /** The paths climb towards the match where they join. */
  lemma {:induction false} Climbs(p: Plan, rows: seq<MatchState>, i: nat, j: nat, d: nat, e: nat)
    requires IsBracket(p, rows) && i < |rows| && j < |rows|
    requires rows[i].roundNumber == 1 && rows[j].roundNumber == 1
    requires JoinAfter(rows, i, j, d) && e <= d
    ensures e < d ==> Follow(rows, i, e) < Follow(rows, i, d)
    decreases d - e
  {
    if e < d {
      BeforeTheyJoin(p, rows, i, j, d, e);
      Climbs(p, rows, i, j, d, e + 1);
    }
  }

  lemma WinnerMovesUp(p: Plan, rows: seq<MatchState>, s: Progress, x: nat, v: Id)
    requires Sound(p, rows, s) && x < |rows| - 1 && s.advanced[x] == Some(v)
    ensures var up := Parent(Half(|p.order|), x); up < |rows| && Holds(s.seated[up], v)
  {
    var h, up := Half(|p.order|), Parent(Half(|p.order|), x);
    assert SeatsFeeders(h, s, up);
    assert x == LeftFeeder(h, up) || x == LeftFeeder(h, up) + 1;
  }

  /** A participant who wins every match before the meeting place is seated at each step of the path up to it. */
  lemma {:induction false} FavouriteArrives(
    p: Plan, rows: seq<MatchState>, s: Progress, i: nat, j: nat, d: nat, e: nat, v: Id)
    requires Sound(p, rows, s) && j < |rows| && Home(rows, i, v) && rows[j].roundNumber == 1
    requires JoinAfter(rows, i, j, d) && e <= d
    requires forall x :: 0 <= x < Follow(rows, i, d) && Holds(s.seated[x], v) ==> s.advanced[x] == Some(v)
    ensures Holds(s.seated[Follow(rows, i, e)], v)
    decreases e
  {
    if e == 0 {
      InFirstRound(p, rows, i);
    } else {
      var x := Follow(rows, i, e - 1);
      FavouriteArrives(p, rows, s, i, j, d, e - 1, v);
      BeforeTheyJoin(p, rows, i, j, d, e - 1);
      Climbs(p, rows, i, j, d, e - 1);
      WinnerMovesUp(p, rows, s, x, v);
    }
  }

  /** Any two participants can meet: some run seats both in the first common match of their paths. */
  lemma TheyCanMeet(p: Plan, input: seq<Participant>, shuffle: bool, choices: seq<nat>, rows: seq<MatchState>,
                    i: nat, j: nat, d: nat, v: Id, w: Id)
    returns (moves: seq<Move>)
    requires Generated(p, input, shuffle, choices, rows)
    requires Home(rows, i, v) && Home(rows, j, w) && v != w && JoinAfter(rows, i, j, d)
    ensures Legal(rows, Kickoff(rows), moves)
    ensures var s := After(rows, Kickoff(rows), moves);
            Holds(s.seated[Follow(rows, i, d)], v) && Holds(s.seated[Follow(rows, i, d)], w)
  {
    var place := Follow(rows, i, d);
    assert Follow(rows, j, d) == place;
    moves := PlayInOrder(p, rows, place, v, w);
    var s := After(rows, Kickoff(rows), moves);
    ReachedInvariant(p, rows, moves);
    forall x | 0 <= x < place
      ensures Holds(s.seated[x], v) ==> s.advanced[x] == Some(v)
      ensures Holds(s.seated[x], w) ==> s.advanced[x] == Some(w)
    {
      assert Favours(s, x, v, w);
      if Holds(s.seated[x], v) && Holds(s.seated[x], w) {
        MeetOnlyWhereJoined(p, input, shuffle, choices, rows, s, i, j, d, x, v, w);
      }
    }
    FavouriteArrives(p, rows, s, i, j, d, d, v);
    JoinIsSymmetric(rows, i, j, d);
    FavouriteArrives(p, rows, s, j, i, d, d, w);
  }

  lemma JoinIsSymmetric(rows: seq<MatchState>, i: nat, j: nat, d: nat)
    requires i < |rows| && j < |rows| && JoinAfter(rows, i, j, d)
    ensures JoinAfter(rows, j, i, d)
  {
    forall e: nat
      ensures Follow(rows, j, e) == Follow(rows, i, e) <==> e >= d
    {
      assert Follow(rows, i, e) == Follow(rows, j, e) <==> e >= d;
    }
  }
}
