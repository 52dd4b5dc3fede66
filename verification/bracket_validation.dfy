/** BracketLogic.validateBracket, whose two checks only warn. */
module BracketValidation {
  import opened Powers
  import opened Matches
  import opened BracketShape
  import opened BracketTree
  import opened BracketRounds
  import opened BracketGenerator

  /** A match of the last round that leads nowhere. */
  predicate IsFinal(m: MatchState, numRounds: nat) {
    m.nextMatchId.None? && m.roundNumber == numRounds
  }

  function Finals(rows: seq<MatchState>, k: nat, numRounds: nat): nat
    requires k <= |rows|
  {
    if k == 0 then 0 else Finals(rows, k - 1, numRounds) + One(IsFinal(rows[k - 1], numRounds))
  }

  /** Only an empty list can be rejected; the warnings concern the number of matches and the number of finals. */
  method ValidateBracket(matches: seq<Match>, numParticipants: nat)
    returns (valid: bool, countWarning: bool, finalWarning: bool)
    ensures valid <==> |matches| > 0 || numParticipants == 0
    ensures countWarning <==>
            |matches| > 0 && numParticipants > 1 && |matches| != Pow2(CeilLog2(numParticipants)) - 1
    ensures finalWarning <==>
            && |matches| > 0 && numParticipants > 1
            && Finals(States(matches), |matches|, CeilLog2(numParticipants)) != 1
  {
    countWarning, finalWarning := false, false;
    if |matches| == 0 {
      return numParticipants == 0, false, false;
    }
    if numParticipants > 1 {
      var numRounds := CeilLog2(numParticipants);
      var expectedMatchObjects := Pow2(numRounds) - 1;
      countWarning := |matches| != expectedMatchObjects;
      var finalMatches := 0;
      for i := 0 to |matches|
        invariant finalMatches == Finals(States(matches), i, numRounds)
      {
        if matches[i].nextMatchId.None? && matches[i].roundNumber == numRounds {
          finalMatches := finalMatches + 1;
        }
      }
      finalWarning := finalMatches != 1;
    }
    return true, countWarning, finalWarning;
  }

  lemma {:induction false} FinalsBeforeLast(p: Plan, rows: seq<MatchState>, k: nat, numRounds: nat)
    requires IsBracket(p, rows) && k < |rows|
    ensures Finals(rows, k, numRounds) == 0
  {
    if k > 0 {
      LinkIsParent(p, rows, k - 1, k - 1);
      FinalsBeforeLast(p, rows, k - 1, numRounds);
    }
  }

  /** A generated bracket triggers neither warning, for any number of participants. */
  lemma GeneratedBracketPasses(p: Plan, rows: seq<MatchState>)
    requires IsBracket(p, rows)
    ensures var numRounds := CeilLog2(|p.order|);
            |rows| == Pow2(numRounds) - 1 && Finals(rows, |rows|, numRounds) == 1
  {
    FinalsBeforeLast(p, rows, |rows| - 1, CeilLog2(|p.order|));
    OnlyTheFinalIsInTheLastRound(p, rows, |rows| - 1);
    LinkIsParent(p, rows, |rows| - 1, |rows| - 1);
  }
}
