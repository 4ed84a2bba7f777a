/**
 * The tagged result of src/types.ts, used by every operation of the model that can fail,
 * and the usual Option for nullable columns and lookups that may find nothing.
 */
module Types {

  /** `Ok` carries the value of a successful operation, `Err` the message of a failed one. */
  datatype Result<+T> = Ok(value: T) | Err(message: string)
  {
    /** `isOk()`: true for `Ok`, false for `Err`. */
    predicate IsOk() { Ok? }

    /** `isErr()`: defined once, as the negation of `isOk()`. */
    predicate IsErr() { !IsOk() }
  }

  datatype Option<+T> = None | Some(value: T)

  /** `Result.ok` and `Result.err`: the two factory functions. */
  function MakeOk<T>(v: T): (r: Result<T>)
    ensures r.IsOk() && !r.IsErr() && r.value == v
  {
    Ok(v)
  }

  function MakeErr<T>(m: string): (r: Result<T>)
    ensures r.IsErr() && !r.IsOk() && r.message == m
  {
    Err(m)
  }

  /** The first components of a list of pairs, in order: the codes of minted cards, the symbols of a count list. */
  function Firsts<A, B>(pairs: seq<(A, B)>): (r: seq<A>)
    ensures |r| == |pairs| && forall k :: 0 <= k < |pairs| ==> r[k] == pairs[k].0
  {
    seq(|pairs|, k requires 0 <= k < |pairs| => pairs[k].0)
  }

  /** A result is exactly one of Ok or Err, and the two tag methods always disagree. */
  lemma {:induction false} ExactlyOneTag<T>(r: Result<T>)
    ensures r.IsOk() <==> !r.IsErr()
    ensures r.Ok? != r.Err?
  {
  }
}
