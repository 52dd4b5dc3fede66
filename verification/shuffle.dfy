/**
 The Fisher-Yates shuffle of src/domain/tournament/bracket.logic.js. The random draws are a
 parameter: choices[i] is the index drawn for position i, so 0 <= choices[i] <= i.
 */
module Shuffle {
  import opened Common

  predicate ValidChoices(choices: seq<nat>, n: nat) {
    |choices| == n && forall i :: 0 <= i < n ==> choices[i] <= i
  }

  function Swap<T>(s: seq<T>, i: nat, j: nat): seq<T>
    requires i < |s| && j < |s|
  {
    s[i := s[j]][j := s[i]]
  }

  /** The permutation a list of draws selects: the last position is settled first. */
  function Shuffled<T>(s: seq<T>, choices: seq<nat>): (r: seq<T>)
    requires ValidChoices(choices, |s|)
    ensures |r| == |s|
    decreases |s|
  {
    if |s| <= 1 then s
    else
      var last := |s| - 1;
      var swapped := Swap(s, last, choices[last]);
      Shuffled(swapped[..last], choices[..last]) + [swapped[last]]
  }

  /** The copy that the source shuffles instead of its argument. */
  method Copy<T>(input: array<T>) returns (newArray: array<T>)
    ensures fresh(newArray) && newArray[..] == input[..]
  {
    newArray := new T[input.Length](k requires 0 <= k < input.Length reads input => input[k]);
  }

  method ShuffleArray<T>(input: array<T>, choices: seq<nat>) returns (newArray: array<T>)
    requires ValidChoices(choices, input.Length)
    ensures fresh(newArray)
    ensures newArray[..] == Shuffled(input[..], choices)
  {
    newArray := Copy(input);
    ghost var result := Shuffled(input[..], choices);
    NothingSettled(newArray[..], choices);
    var i := newArray.Length - 1;
    while i > 0
      invariant -1 <= i < newArray.Length
      invariant HalfShuffled(newArray[..], choices, if i < 0 then 0 else i + 1) == result
    {
      HalfShuffledStep(newArray[..], choices, i);
      SwapElements(newArray, i, choices[i]);
      i := i - 1;
    }
  }

  method SwapElements<T>(a: array<T>, i: nat, j: nat)
    requires i < a.Length && j < a.Length
    modifies a
    ensures a[..] == Swap(old(a[..]), i, j)
  {
    a[i], a[j] := a[j], a[i];
  }

  lemma NothingSettled<T>(s: seq<T>, choices: seq<nat>)
    requires ValidChoices(choices, |s|)
    ensures HalfShuffled(s, choices, |s|) == Shuffled(s, choices)
    ensures s == [] ==> HalfShuffled(s, choices, 0) == Shuffled(s, choices)
  {
    assert s[..|s|] == s && choices[..|s|] == choices;
  }

  /** The result the loop still owes when only the first n positions are unsettled. */
  ghost function HalfShuffled<T>(s: seq<T>, choices: seq<nat>, n: nat): (r: seq<T>)
    requires ValidChoices(choices, |s|) && n <= |s|
    ensures n <= 1 ==> r == s
  {
    Shuffled(s[..n], choices[..n]) + s[n..]
  }

  /** One swap of the loop settles one more position of the result. */
  lemma HalfShuffledStep<T>(s: seq<T>, choices: seq<nat>, i: nat)
    requires ValidChoices(choices, |s|) && 0 < i < |s|
    ensures HalfShuffled(s, choices, i + 1) == HalfShuffled(Swap(s, i, choices[i]), choices, i)
  {
    var head, next := s[..i + 1], Swap(s, i, choices[i]);
    assert Swap(head, i, choices[..i + 1][i])[..i] == next[..i];
    assert choices[..i + 1][..i] == choices[..i];
    assert [next[i]] + s[i + 1..] == next[i..];
  }

  lemma SwapIsPermutation<T>(s: seq<T>, i: nat, j: nat)
    requires i < |s| && j < |s|
    ensures multiset(Swap(s, i, j)) == multiset(s)
  {
  }

  lemma SwapKeepsDistinct<T>(s: seq<T>, i: nat, j: nat)
    requires i < |s| && j < |s| && Distinct(s)
    ensures Distinct(Swap(s, i, j))
  {
  }

  lemma SplitLast<T>(s: seq<T>)
    requires |s| > 0
    ensures s == s[..|s| - 1] + [s[|s| - 1]]
    ensures multiset(s) == multiset(s[..|s| - 1]) + multiset{s[|s| - 1]}
  {
    assert s == s[..|s| - 1] + [s[|s| - 1]];
  }

  /** Every list of draws gives a permutation of the input. */
  lemma {:induction false} ShuffledIsPermutation<T>(s: seq<T>, choices: seq<nat>)
    requires ValidChoices(choices, |s|)
    ensures multiset(Shuffled(s, choices)) == multiset(s)
    decreases |s|
  {
    if |s| > 1 {
      var last := |s| - 1;
      var swapped := Swap(s, last, choices[last]);
      SwapIsPermutation(s, last, choices[last]);
      ShuffledIsPermutation(swapped[..last], choices[..last]);
      SplitLast(swapped);
    }
  }

  /** Different draws give different permutations of distinct elements. */
  lemma {:induction false} DrawsAreUnique<T>(s: seq<T>, c: seq<nat>, d: seq<nat>)
    requires Distinct(s) && ValidChoices(c, |s|) && ValidChoices(d, |s|)
    requires Shuffled(s, c) == Shuffled(s, d)
    ensures c == d
    decreases |s|
  {
    if |s| > 1 {
      var last := |s| - 1;
      var x, y := Swap(s, last, c[last]), Swap(s, last, d[last]);
      assert Shuffled(s, c)[last] == x[last] == s[c[last]];
      assert Shuffled(s, d)[last] == y[last] == s[d[last]];
      assert c[last] == d[last];
      assert Shuffled(x[..last], c[..last]) == Shuffled(s, c)[..last];
      assert Shuffled(x[..last], d[..last]) == Shuffled(s, d)[..last];
      SwapKeepsDistinct(s, last, c[last]);
      DrawsAreUnique(x[..last], c[..last], d[..last]);
      SplitLast(c);
      SplitLast(d);
    }
  }

  /** Every permutation of distinct elements is reached by some list of draws. */
  lemma {:induction false} DrawsFor<T>(s: seq<T>, t: seq<T>) returns (choices: seq<nat>)
    requires Distinct(s) && multiset(t) == multiset(s)
    ensures ValidChoices(choices, |s|) && Shuffled(s, choices) == t
    decreases |s|
  {
    if |s| == 0 {
      EmptyPermutation(t);
      choices := [];
    } else {
      var last := |s| - 1;
      var j := LastDraw(s, t);
      var swapped := Swap(s, last, j);
      var rest := DrawsFor(swapped[..last], t[..last]);
      choices := rest + [j];
      assert choices[..last] == rest;
      SplitLast(t);
    }
  }

  lemma EmptyPermutation<T>(t: seq<T>)
    requires multiset(t) == multiset{}
    ensures t == []
  {
    assert |t| == |multiset(t)|;
  }

  /** The draw that puts t's last element in place. */
  lemma LastDraw<T>(s: seq<T>, t: seq<T>) returns (j: nat)
    requires |s| > 0 && Distinct(s) && multiset(t) == multiset(s)
    ensures |t| == |s| && j < |s| && s[j] == t[|t| - 1]
    ensures Distinct(Swap(s, |s| - 1, j)[..|s| - 1])
    ensures multiset(Swap(s, |s| - 1, j)[..|s| - 1]) == multiset(t[..|t| - 1])
  {
    SameLength(s, t);
    var last := |s| - 1;
    j := PlaceOf(s, t, last);
    SwapKeepsDistinct(s, last, j);
    PrefixIsDistinct(Swap(s, last, j), last);
    SwapIsPermutation(s, last, j);
    SameLastSamePrefix(Swap(s, last, j), t);
  }

  lemma PlaceOf<T>(s: seq<T>, t: seq<T>, k: nat) returns (j: nat)
    requires multiset(t) == multiset(s) && k < |t|
    ensures j < |s| && s[j] == t[k]
  {
    assert t[k] in multiset(s);
    j :| 0 <= j < |s| && s[j] == t[k];
  }

  lemma PrefixIsDistinct<T>(s: seq<T>, n: nat)
    requires Distinct(s) && n <= |s|
    ensures Distinct(s[..n])
  {
  }

  lemma SameLength<T>(s: seq<T>, t: seq<T>)
    requires multiset(s) == multiset(t)
    ensures |s| == |t|
  {
    assert |s| == |multiset(s)| == |multiset(t)| == |t|;
  }

  lemma SameLastSamePrefix<T>(s: seq<T>, t: seq<T>)
    requires |s| == |t| > 0 && multiset(s) == multiset(t) && s[|s| - 1] == t[|t| - 1]
    ensures multiset(s[..|s| - 1]) == multiset(t[..|t| - 1])
  {
    SplitLast(s);
    SplitLast(t);
    var x := multiset{s[|s| - 1]};
    assert multiset(s[..|s| - 1]) == multiset(s) - x;
    assert multiset(t[..|t| - 1]) == multiset(t) - x;
  }

  /**
   For distinct elements the shuffle is a bijection between lists of draws and permutations:
   t is a permutation of s exactly when some draws give t, and those draws are the only ones.
   */
  lemma ShuffleIsBijection<T(!new)>(s: seq<T>, t: seq<T>)
    requires Distinct(s)
    ensures multiset(t) == multiset(s) <==>
            exists c :: ValidChoices(c, |s|) && Shuffled(s, c) == t
    ensures forall c, d ::
              ValidChoices(c, |s|) && ValidChoices(d, |s|) && Shuffled(s, c) == t && Shuffled(s, d) == t ==> c == d
  {
    if multiset(t) == multiset(s) {
      var c := DrawsFor(s, t);
      assert ValidChoices(c, |s|) && Shuffled(s, c) == t;
    }
    forall c | ValidChoices(c, |s|) && Shuffled(s, c) == t
      ensures multiset(t) == multiset(s)
    {
      ShuffledIsPermutation(s, c);
    }
    forall c, d | ValidChoices(c, |s|) && ValidChoices(d, |s|) && Shuffled(s, c) == t && Shuffled(s, d) == t
      ensures c == d
    {
      DrawsAreUnique(s, c, d);
    }
  }
}
