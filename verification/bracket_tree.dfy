/** The generated matches form a complete binary tree; its counts and its first round. */
module BracketTree {
  import opened Common
  import opened Powers
  import opened Matches
  import opened BracketShape

  /** Where round k of r rounds starts in the list of matches. */
  function Start(r: nat, k: nat): nat
    requires 1 <= k <= r
  {
    Pow2Monotone(r - k + 1, r);
    Pow2(r) - Pow2(r - k + 1)
  }

  /** The position of match j of round k. */
  function PositionOf(r: nat, k: nat, j: nat): nat
    requires 1 <= k <= r && 1 <= j
  {
    Start(r, k) + j - 1
  }

  lemma {:induction false} RoundBlock(h: nat, r: nat, k: nat)
    requires 1 <= k <= r && 2 * h == Pow2(r)
    ensures IsRound(h, k, Pow2(r - k))
    decreases k
  {
    if k == 1 {
      FirstRound(h);
    } else {
      RoundBlock(h, r, k - 1);
      NextRound(h, k - 1, Pow2(r - k + 1));
    }
  }

  /** A feeder's place in its round decides the place of the match above it. */
  lemma ClimbOne(h: nat, wide: nat, m: nat, feeder: nat, x: nat, j: nat)
    requires h <= x && feeder == LeftFeeder(h, x) && wide == 2 * m
    requires 1 <= j <= wide && feeder == 2 * h - 2 * wide + j - 1
    ensures j % 2 == 1 && (j + 1) / 2 <= m && x == 2 * h - 2 * m + (j + 1) / 2 - 1
  {
    var half := j / 2;
    assert j == 2 * half + 1;
    assert (j + 1) / 2 == half + 1;
  }

  lemma TwiceAsMany(r: nat, k: nat)
    requires k < r
    ensures Pow2(r - k) == 2 * Pow2(r - (k + 1))
  {
  }

  /** Every position lies in its round's block, here in terms of m, the number of matches of the round. */
  lemma {:induction false} Located(h: nat, r: nat, x: nat) returns (m: nat)
    requires r >= 1 && 2 * h == Pow2(r) && x < 2 * h - 1
    ensures RoundOf(h, x) <= r && m == Pow2(r - RoundOf(h, x))
    ensures NumberOf(h, x) <= m && x == 2 * h - 2 * m + NumberOf(h, x) - 1
    decreases x
  {
    if x < h {
      m := h;
      TwiceAsMany(r, 0);
    } else {
      var feeder := LeftFeeder(h, x);
      var wide := Located(h, r, feeder);
      OneUp(h, x);
      NotTheFinal(h, r, RoundOf(h, feeder), feeder, NumberOf(h, feeder));
      TwiceAsMany(r, RoundOf(h, feeder));
      m := Pow2(r - RoundOf(h, x));
      ClimbOne(h, wide, m, feeder, x, NumberOf(h, feeder));
    }
  }

  /** A match before the last two positions is not in the last round. */
  lemma NotTheFinal(h: nat, r: nat, k: nat, x: nat, j: nat)
    requires k <= r && x < 2 * h - 2
    requires 1 <= j <= Pow2(r - k) && x == 2 * h - 2 * Pow2(r - k) + j - 1
    ensures k < r
  {
    assert Pow2(0) == 1;
  }

  /** The definition of round and number, one level down. */
  lemma OneUp(h: nat, y: nat)
    requires h <= y < 2 * h - 1
    ensures RoundOf(h, y) == 1 + RoundOf(h, LeftFeeder(h, y))
    ensures NumberOf(h, y) == (NumberOf(h, LeftFeeder(h, y)) + 1) / 2
  {
  }

  lemma InItsRound(h: nat, r: nat, x: nat)
    requires r >= 1 && 2 * h == Pow2(r) && x < 2 * h - 1
    ensures var k, j := RoundOf(h, x), NumberOf(h, x);
            k <= r && j <= Pow2(r - k) && x == PositionOf(r, k, j)
  {
    var m := Located(h, r, x);
    assert Pow2(r - RoundOf(h, x) + 1) == 2 * m;
  }

  lemma RowPlace(p: Plan, rows: seq<MatchState>, x: nat)
    requires IsBracket(p, rows) && x < |rows|
    ensures rows[x].id == p.uuid(x)
    ensures rows[x].roundNumber == RoundOf(Half(|p.order|), x)
            && rows[x].matchNumberInRound == NumberOf(Half(|p.order|), x)
  {
    var row := Row(p, x, |rows| - 1);
  }

  /**
   Matches and (round, number) pairs correspond one to one: round k has exactly 2^(r-k) matches,
   numbered from 1 upward.
   */
  lemma RoundsAreNumbered(p: Plan, rows: seq<MatchState>)
    requires IsBracket(p, rows)
    ensures var r := CeilLog2(|p.order|);
            && |rows| == Pow2(r) - 1
            && (forall x :: 0 <= x < |rows| ==>
                  var k, j := rows[x].roundNumber, rows[x].matchNumberInRound;
                  1 <= k <= r && 1 <= j <= Pow2(r - k) && x == PositionOf(r, k, j))
            && (forall k, j {:trigger PositionOf(r, k, j)} :: 1 <= k <= r && 1 <= j <= Pow2(r - k) ==>
                  var x := PositionOf(r, k, j);
                  x < |rows| && rows[x].roundNumber == k && rows[x].matchNumberInRound == j)
  {
    var h, r := Half(|p.order|), CeilLog2(|p.order|);
    forall x | 0 <= x < |rows|
      ensures var k, j := rows[x].roundNumber, rows[x].matchNumberInRound;
              1 <= k <= r && 1 <= j <= Pow2(r - k) && x == PositionOf(r, k, j)
    {
      InItsRound(h, r, x);
      RowPlace(p, rows, x);
    }
    forall k, j | 1 <= k <= r && 1 <= j <= Pow2(r - k)
      ensures var x := PositionOf(r, k, j);
              x < |rows| && rows[x].roundNumber == k && rows[x].matchNumberInRound == j
    {
      AtPosition(p, rows, k, j);
    }
  }

  lemma AtPosition(p: Plan, rows: seq<MatchState>, k: nat, j: nat)
    requires IsBracket(p, rows)
    requires 1 <= k <= CeilLog2(|p.order|) && 1 <= j <= Pow2(CeilLog2(|p.order|) - k)
    ensures var x := PositionOf(CeilLog2(|p.order|), k, j);
            x < |rows| && rows[x].roundNumber == k && rows[x].matchNumberInRound == j
  {
    var h, r := Half(|p.order|), CeilLog2(|p.order|);
    RoundBlock(h, r, k);
    var m, x := Pow2(r - k), PositionOf(r, k, j);
    assert Pow2(r - k + 1) == 2 * m;
    assert 2 * h - 2 * m <= x < 2 * h - m;
    RowPlace(p, rows, x);
  }

  lemma IdsAreDistinct(p: Plan, rows: seq<MatchState>, x: nat, y: nat)
    requires IsBracket(p, rows) && x < |rows| && y < |rows|
    ensures rows[x].id == rows[y].id <==> x == y
  {
    RowPlace(p, rows, x);
    RowPlace(p, rows, y);
    assert FreshPair(p.uuid, x, y);
  }

  /** Match x links to match y, in terms of the ids alone. */
  predicate LinksTo(rows: seq<MatchState>, x: nat, y: nat)
    requires x < |rows| && y < |rows|
  {
    rows[x].nextMatchId == Some(rows[y].id)
  }

  lemma LinkIsParent(p: Plan, rows: seq<MatchState>, x: nat, y: nat)
    requires IsBracket(p, rows) && x < |rows| && y < |rows|
    ensures LinksTo(rows, x, y) <==> y == Parent(Half(|p.order|), x)
    ensures rows[x].nextMatchId == None <==> x == |rows| - 1
  {
    var up, row := Parent(Half(|p.order|), x), Row(p, x, |rows| - 1);
    if x < |rows| - 1 {
      RowPlace(p, rows, up);
      IdsAreDistinct(p, rows, up, y);
    }
  }

  /** Match j of a later round is fed by exactly the matches 2j - 1 and 2j of the round before. */
  lemma FedByTwo(p: Plan, rows: seq<MatchState>, x: nat, y: nat)
    requires IsBracket(p, rows) && x < |rows| && y < |rows|
    ensures LinksTo(rows, x, y) <==>
            && rows[y].roundNumber == rows[x].roundNumber + 1
            && (rows[x].matchNumberInRound == 2 * rows[y].matchNumberInRound - 1
                || rows[x].matchNumberInRound == 2 * rows[y].matchNumberInRound)
  {
    LinkIsParent(p, rows, x, y);
    RowPlace(p, rows, x);
    RowPlace(p, rows, y);
    ParentPlace(Half(|p.order|), CeilLog2(|p.order|), x, y);
  }

  lemma ParentPlace(h: nat, r: nat, x: nat, y: nat)
    requires r >= 1 && 2 * h == Pow2(r) && x < 2 * h - 1 && y < 2 * h - 1
    ensures y == Parent(h, x) <==>
            && RoundOf(h, y) == RoundOf(h, x) + 1
            && (NumberOf(h, x) == 2 * NumberOf(h, y) - 1 || NumberOf(h, x) == 2 * NumberOf(h, y))
  {
    if y == Parent(h, x) {
      PlaceOfParent(h, r, x, y);
    } else if
      && RoundOf(h, y) == RoundOf(h, x) + 1
      && (NumberOf(h, x) == 2 * NumberOf(h, y) - 1 || NumberOf(h, x) == 2 * NumberOf(h, y))
    {
      PlaceDecidesParent(h, r, x, y);
    }
  }

  lemma PlaceOfParent(h: nat, r: nat, x: nat, y: nat)
    requires r >= 1 && 2 * h == Pow2(r) && x < 2 * h - 1 && y < 2 * h - 1
    requires y == Parent(h, x)
    ensures RoundOf(h, y) == RoundOf(h, x) + 1
    ensures NumberOf(h, x) == 2 * NumberOf(h, y) - 1 || NumberOf(h, x) == 2 * NumberOf(h, y)
  {
    var left := FeederOf(h, x);
    SiblingsShareRound(h, r, left);
    OneUp(h, y);
    OddHalf(NumberOf(h, left), NumberOf(h, y));
  }

  /** A match is the left feeder of its parent or stands right behind it. */
  lemma FeederOf(h: nat, x: nat) returns (left: nat)
    ensures left == LeftFeeder(h, Parent(h, x)) && left % 2 == 0 && (x == left || x == left + 1)
  {
    left := LeftFeeder(h, Parent(h, x));
  }

  lemma OddHalf(j: nat, up: nat)
    requires j % 2 == 1 && up == (j + 1) / 2
    ensures j == 2 * up - 1
  {
  }

  lemma PlaceDecidesParent(h: nat, r: nat, x: nat, y: nat)
    requires r >= 1 && 2 * h == Pow2(r) && x < 2 * h - 1 && y < 2 * h - 1
    requires RoundOf(h, y) == RoundOf(h, x) + 1
    requires NumberOf(h, x) == 2 * NumberOf(h, y) - 1 || NumberOf(h, x) == 2 * NumberOf(h, y)
    ensures y == Parent(h, x)
  {
    var wide := Located(h, r, x);
    var m := Located(h, r, y);
    TwiceAsMany(r, RoundOf(h, x));
    HalfWay(h, m, x, NumberOf(h, x), y, NumberOf(h, y));
  }

  lemma HalfWay(h: nat, m: nat, x: nat, j: nat, y: nat, up: nat)
    requires x == 2 * h - 4 * m + j - 1 && (j == 2 * up - 1 || j == 2 * up) && y == 2 * h - 2 * m + up - 1
    ensures y == Parent(h, x)
  {
  }

  /** The two matches that feed one match stand next to each other in one round, the first at an odd number. */
  lemma SiblingsShareRound(h: nat, r: nat, x: nat)
    requires r >= 1 && 2 * h == Pow2(r) && x % 2 == 0 && x + 1 < 2 * h - 1
    ensures RoundOf(h, x + 1) == RoundOf(h, x) && NumberOf(h, x + 1) == NumberOf(h, x) + 1 && NumberOf(h, x) % 2 == 1
  {
    var m := Located(h, r, x);
    var k, j := RoundOf(h, x), NumberOf(h, x);
    NotTheFinal(h, r, k, x, j);
    TwiceAsMany(r, k);
    RoundBlock(h, r, k);
    NextInBlock(h, m, Pow2(r - (k + 1)), k, x, j);
  }

  lemma NextInBlock(h: nat, m: nat, half: nat, k: nat, x: nat, j: nat)
    requires IsRound(h, k, m) && m == 2 * half && x % 2 == 0
    requires 1 <= j <= m && x == 2 * h - 2 * m + j - 1
    ensures j % 2 == 1 && RoundOf(h, x + 1) == k && NumberOf(h, x + 1) == j + 1
  {
    assert j % 2 == 1;
    assert 2 * h - 2 * m <= x + 1 < 2 * h - m;
  }
}
