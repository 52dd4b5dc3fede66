/** Where two participants of a bracket can meet. */
module BracketMeeting {
  import opened Common
  import opened Powers
  import opened Matches
  import opened Seeding
  import opened BracketShape
  import opened BracketRounds
  import opened BracketFirstRound
  import opened BracketPlay
  import opened BracketChampion

  /** Match y lies on the path from match i of the first round to the final. */
  predicate OnPath(rows: seq<MatchState>, i: nat, y: nat)
    requires i < |rows| && y < |rows|
  {
    rows[y].roundNumber >= 1 && Follow(rows, i, rows[y].roundNumber - 1) == y
  }

  /** One more step along the links. */
  lemma {:induction false} FollowOn(rows: seq<MatchState>, x: nat, d: nat)
    requires x < |rows|
    ensures Follow(rows, x, d + 1) == Follow(rows, Follow(rows, x, d), 1)
    decreases d
  {
    if d > 0 && NextOf(rows, x).Some? {
      FollowOn(rows, NextOf(rows, x).value, d - 1);
    }
  }

  /** Two paths that have joined stay together. */
  lemma {:induction false} PathsStayJoined(rows: seq<MatchState>, i: nat, j: nat, d: nat, e: nat)
    requires i < |rows| && j < |rows| && d <= e && Follow(rows, i, d) == Follow(rows, j, d)
    ensures Follow(rows, i, e) == Follow(rows, j, e)
    decreases e
  {
    if d < e {
      PathsStayJoined(rows, i, j, d, e - 1);
      FollowOn(rows, i, e - 1);
      FollowOn(rows, j, e - 1);
    }
  }

  /** The first match that the paths of matches i and j have in common, d links away. */
  ghost predicate JoinAfter(rows: seq<MatchState>, i: nat, j: nat, d: nat)
    requires i < |rows| && j < |rows|
  {
    forall e: nat :: Follow(rows, i, e) == Follow(rows, j, e) <==> e >= d
  }

  lemma {:induction false} FirstCommon(rows: seq<MatchState>, i: nat, j: nat, d: nat) returns (first: nat)
    requires i < |rows| && j < |rows| && Follow(rows, i, d) == Follow(rows, j, d)
    ensures JoinAfter(rows, i, j, first)
    decreases d
  {
    if d > 0 && Follow(rows, i, d - 1) == Follow(rows, j, d - 1) {
      first := FirstCommon(rows, i, j, d - 1);
    } else {
      first := d;
      forall e: nat
        ensures Follow(rows, i, e) == Follow(rows, j, e) <==> e >= d
      {
        if e >= d {
          PathsStayJoined(rows, i, j, d, e);
        } else if Follow(rows, i, e) == Follow(rows, j, e) {
          PathsStayJoined(rows, i, j, e, d - 1);
        }
      }
    }
  }

  /** The participant's first-round match. */
  ghost predicate Home(rows: seq<MatchState>, i: nat, v: Id) {
    i < |rows| && rows[i].roundNumber == 1 && Holds(PairOf(rows[i]), v)
  }

  lemma InFirstRound(p: Plan, rows: seq<MatchState>, x: nat)
    requires IsBracket(p, rows) && x < |rows|
    ensures rows[x].roundNumber == 1 <==> x < Half(|p.order|)
  {
    EntrantsOfRow(p, rows, x);
  }

  lemma HomeIsUnique(p: Plan, input: seq<Participant>, shuffle: bool, choices: seq<nat>, rows: seq<MatchState>,
                     i: nat, j: nat, v: Id)
    requires Generated(p, input, shuffle, choices, rows)
    requires Home(rows, i, v) && Home(rows, j, v)
    ensures i == j
  {
    SeedOrderIsPermutation(input, shuffle, choices);
    PermutationKeepsDistinctIds(input, p.order);
    InFirstRound(p, rows, i);
    InFirstRound(p, rows, j);
    var a, c := Row(p, i, |rows| - 1), Row(p, j, |rows| - 1);
  }

  /** The link from match a extends every path that reaches it. */
  lemma PathExtends(p: Plan, rows: seq<MatchState>, i: nat, a: nat, y: nat)
    requires IsBracket(p, rows) && i < |rows| && a < |rows| - 1 && y == Parent(Half(|p.order|), a)
    requires OnPath(rows, i, a)
    ensures y < |rows| && OnPath(rows, i, y) && rows[y].roundNumber == rows[a].roundNumber + 1
  {
    NextIsParent(p, rows, a);
    ParentIsNextRound(p, rows, a);
    FollowOn(rows, i, rows[a].roundNumber - 1);
    assert Follow(rows, a, 1) == Follow(rows, y, 0);
  }

  /** An entrant of a later match is the winner of one of its feeders. */
  lemma CameFrom(p: Plan, rows: seq<MatchState>, s: Progress, y: nat, v: Id) returns (a: nat)
    requires Sound(p, rows, s) && Half(|p.order|) <= y < |rows| && Holds(s.seated[y], v)
    ensures a < y && y == Parent(Half(|p.order|), a) && s.advanced[a] == Some(v) && Holds(s.seated[a], v)
  {
    var h := Half(|p.order|);
    assert SeatsFeeders(h, s, y);
    var left := LeftFeeder(h, y);
    a := if s.advanced[left] == Some(v) then left else left + 1;
    assert WinnerEntered(s, a);
  }

  /** Nobody is ever seated off the path from the first-round match to the final. */
  lemma {:induction false} SeatsLieOnPath(
    p: Plan, input: seq<Participant>, shuffle: bool, choices: seq<nat>, rows: seq<MatchState>,
    s: Progress, i: nat, y: nat, v: Id)
    requires Generated(p, input, shuffle, choices, rows) && Sound(p, rows, s)
    requires Home(rows, i, v) && y < |rows| && Holds(s.seated[y], v)
    ensures OnPath(rows, i, y)
    decreases y
  {
    if y < Half(|p.order|) {
      InFirstRound(p, rows, y);
      HomeIsUnique(p, input, shuffle, choices, rows, i, y, v);
    } else {
      var a := CameFrom(p, rows, s, y, v);
      SeatsLieOnPath(p, input, shuffle, choices, rows, s, i, a, v);
      PathExtends(p, rows, i, a, y);
    }
  }

  /** Two that meet in a later round came by different feeders, so their paths join there. */
  lemma MeetingJoins(p: Plan, input: seq<Participant>, shuffle: bool, choices: seq<nat>, rows: seq<MatchState>,
                     s: Progress, i: nat, j: nat, y: nat, v: Id, w: Id)
    requires Generated(p, input, shuffle, choices, rows) && Sound(p, rows, s)
    requires Home(rows, i, v) && Home(rows, j, w) && v != w
    requires Half(|p.order|) <= y < |rows| && Holds(s.seated[y], v) && Holds(s.seated[y], w)
    ensures var k := rows[y].roundNumber;
            k >= 2 && Follow(rows, i, k - 2) != Follow(rows, j, k - 2)
              && Follow(rows, i, k - 1) == Follow(rows, j, k - 1) == y
  {
    var a := CameFrom(p, rows, s, y, v);
    var c := CameFrom(p, rows, s, y, w);
    SeatsLieOnPath(p, input, shuffle, choices, rows, s, i, a, v);
    SeatsLieOnPath(p, input, shuffle, choices, rows, s, j, c, w);
    PathExtends(p, rows, i, a, y);
    PathExtends(p, rows, j, c, y);
  }

  lemma MeetOnlyWhereJoined(p: Plan, input: seq<Participant>, shuffle: bool, choices: seq<nat>, rows: seq<MatchState>,
                            s: Progress, i: nat, j: nat, d: nat, y: nat, v: Id, w: Id)
    requires Generated(p, input, shuffle, choices, rows) && Sound(p, rows, s)
    requires Home(rows, i, v) && Home(rows, j, w) && v != w && JoinAfter(rows, i, j, d)
    requires y < |rows| && Holds(s.seated[y], v) && Holds(s.seated[y], w)
    ensures y == Follow(rows, i, d)
  {
    if y < Half(|p.order|) {
      InFirstRound(p, rows, y);
      HomeIsUnique(p, input, shuffle, choices, rows, i, y, v);
      HomeIsUnique(p, input, shuffle, choices, rows, j, y, w);
      assert Follow(rows, i, 0) == Follow(rows, j, 0);
    } else {
      MeetingJoins(p, input, shuffle, choices, rows, s, i, j, y, v, w);
    }
  }

  /**
   The paths of two participants have a first common match, d links from both first-round matches,
   and in no state that any run can reach are the two ever seated together anywhere else.
   */
  lemma OnePlaceToMeet(p: Plan, input: seq<Participant>, shuffle: bool, choices: seq<nat>, rows: seq<MatchState>,
                       i: nat, j: nat, v: Id, w: Id)
    returns (d: nat)
    requires Generated(p, input, shuffle, choices, rows)
    requires Home(rows, i, v) && Home(rows, j, w) && v != w
    ensures JoinAfter(rows, i, j, d)
    ensures forall moves, y :: Legal(rows, Kickoff(rows), moves) && 0 <= y < |rows| ==>
              var s := After(rows, Kickoff(rows), moves);
              Holds(s.seated[y], v) && Holds(s.seated[y], w) ==> y == Follow(rows, i, d)
  {
    LinksReachTheFinal(p, rows, i, |rows|);
    LinksReachTheFinal(p, rows, j, |rows|);
    RoundsFit(p, rows);
    d := FirstCommon(rows, i, j, |rows|);
    forall moves, y | Legal(rows, Kickoff(rows), moves) && 0 <= y < |rows|
      ensures var s := After(rows, Kickoff(rows), moves);
              Holds(s.seated[y], v) && Holds(s.seated[y], w) ==> y == Follow(rows, i, d)
    {
      var s := After(rows, Kickoff(rows), moves);
      ReachedInvariant(p, rows, moves);
      if Holds(s.seated[y], v) && Holds(s.seated[y], w) {
        MeetOnlyWhereJoined(p, input, shuffle, choices, rows, s, i, j, d, y, v, w);
      }
    }
  }

  /** With two participants the only match holds both. */
  lemma TwoShareTheFinal(p: Plan, rows: seq<MatchState>)
    requires IsBracket(p, rows) && |p.order| == 2
    ensures Home(rows, 0, p.order[0].id) && Home(rows, 0, p.order[1].id)
    ensures |rows| == 1 && JoinAfter(rows, 0, 0, 0)
  {
    InFirstRound(p, rows, 0);
    var row := Row(p, 0, |rows| - 1);
  }

  /** With three or more, the first two of the order sit in neighbouring first-round matches, which feed one match. */
  lemma NeighboursShareRoundTwo(p: Plan, rows: seq<MatchState>)
    requires IsBracket(p, rows) && |p.order| >= 3
    ensures Home(rows, 0, p.order[0].id) && Home(rows, 1, p.order[1].id)
    ensures JoinAfter(rows, 0, 1, 1) && Follow(rows, 0, 1) == Half(|p.order|)
    ensures rows[Follow(rows, 0, 1)].roundNumber == 2
  {
    InFirstRound(p, rows, 0);
    InFirstRound(p, rows, 1);
    var first, second := Row(p, 0, |rows| - 1), Row(p, 1, |rows| - 1);
    NextIsParent(p, rows, 0);
    NextIsParent(p, rows, 1);
    ParentIsNextRound(p, rows, 0);
    var up := Half(|p.order|);
    assert Follow(rows, 0, 1) == Follow(rows, up, 0) && Follow(rows, 1, 1) == Follow(rows, up, 0);
    forall e: nat
      ensures Follow(rows, 0, e) == Follow(rows, 1, e) <==> e >= 1
    {
      if e >= 1 {
        PathsStayJoined(rows, 0, 1, 1, e);
      }
    }
  }

  lemma HalfOfFive(n: nat)
    requires n >= 2
    ensures Half(n) <= 2 <==> n <= 4
  {
    assert CeilLog2(2) == 1 && CeilLog2(3) == 2 && CeilLog2(4) == 2;
    assert Pow2(0) == 1 && Pow2(1) == 2;
  }

  /**
   Are the first two of the order kept apart until the final? Their only meeting place is the final
   exactly when there are at most four participants.
   */
  lemma TopTwoMeetInFinalIff(p: Plan, rows: seq<MatchState>) returns (i: nat, j: nat, d: nat)
    requires IsBracket(p, rows)
    ensures Home(rows, i, p.order[0].id) && Home(rows, j, p.order[1].id) && JoinAfter(rows, i, j, d)
    ensures Follow(rows, i, d) == |rows| - 1 <==> |p.order| <= 4
    ensures rows[Follow(rows, i, d)].roundNumber == if |p.order| == 2 then 1 else 2
  {
    if |p.order| == 2 {
      TwoShareTheFinal(p, rows);
      i, j, d := 0, 0, 0;
    } else {
      NeighboursShareRoundTwo(p, rows);
      HalfOfFive(|p.order|);
      i, j, d := 0, 1, 1;
    }
  }

  /** Five participants in the order given: the first two meet in match 4, one round before the final, match 6. */
  lemma FiveAreNotKeptApart(p: Plan, rows: seq<MatchState>)
    requires p.order == SeedOrder([Participant(1, None), Participant(2, None), Participant(3, None),
                                   Participant(4, None), Participant(5, None)], false, [0, 0, 0, 0, 0])
    requires IsBracket(p, rows)
    ensures |rows| == 7 && Home(rows, 0, 1) && Home(rows, 1, 2)
    ensures JoinAfter(rows, 0, 1, 1) && Follow(rows, 0, 1) == 4 && rows[4].roundNumber == 2
  {
    NeighboursShareRoundTwo(p, rows);
    assert CeilLog2(5) == 3 && Pow2(2) == 4;
  }

  /** There are at least as many matches as rounds. */
  lemma RoundsFit(p: Plan, rows: seq<MatchState>)
    requires IsBracket(p, rows)
    ensures CeilLog2(|p.order|) <= |rows|
  {
    PowerExceeds(CeilLog2(|p.order|));
  }

  lemma {:induction false} PowerExceeds(k: nat)
    ensures k < Pow2(k)
  {
    if k > 0 {
      PowerExceeds(k - 1);
    }
  }
}
