/** Values shared by every component of the model. */
module Common {

  datatype Option<+T> = None | Some(value: T)

  /** The error classes thrown by the entities and use cases (plain `Error` is Invalid). */
  datatype Error = Invalid | BadRequest | NotFound | Forbidden | Conflict | Internal

  datatype Result<+T> = Ok(value: T) | Err(error: Error)

  datatype Outcome = Done | Failed(error: Error)

  /**
   Identifiers are only ever compared, so numbers stand for the UUID strings; None stands for
   null and for every other falsy value an optional identifier can have.
   */
  type Id = nat

  ghost predicate Distinct<T>(s: seq<T>) {
    forall i, j :: 0 <= i < j < |s| ==> s[i] != s[j]
  }

  /** A list without its element at position j. */
  function Without<T>(s: seq<T>, j: nat): (r: seq<T>)
    requires j < |s|
    ensures |r| == |s| - 1
  {
    s[..j] + s[j + 1..]
  }

  lemma WithoutRemovesOne<T>(s: seq<T>, j: nat)
    requires j < |s|
    ensures multiset(Without(s, j)) == multiset(s) - multiset{s[j]}
  {
    assert s == s[..j] + [s[j]] + s[j + 1..];
  }
}
