/** Types and real-number helpers shared by every component of the model. */
module Common {

  datatype Option<+T> = None | Some(value: T)

  function OrElse<T>(a: Option<T>, b: Option<T>): Option<T> {
    if a.Some? then a else b
  }

  /** Amounts below this are dust. */
  const EPSILON: real := 0.000000001

  /** Order side: a buy rests on the bid side, a sell on the ask side. */
  datatype Side = Buy | Sell

  function Abs(x: real): real {
    if x < 0.0 then -x else x
  }

  function Max(x: real, y: real): real {
    if x < y then y else x
  }

  function Min(x: real, y: real): real {
    if x < y then x else y
  }

  function Multiple(k: int, tick: real): real {
    (k as real) * tick
  }

  /** A whole number of ticks. */
  ghost predicate OnGrid(x: real, tick: real) {
    exists k: int :: x == Multiple(k, tick)
  }

  function Sum(s: seq<real>): real {
    if s == [] then 0.0 else Sum(s[..|s| - 1]) + s[|s| - 1]
  }

  /** The last `n` elements of `s`, or all of `s` when it is shorter. */
  function LastN<T>(s: seq<T>, n: nat): seq<T> {
    if |s| <= n then s else s[|s| - n..]
  }

  lemma LastNAppend<T>(s: seq<T>, x: T, n: nat)
    ensures LastN(LastN(s, n) + [x], n) == LastN(s + [x], n)
  {
  }

  /** Induction along the steps of a run. */
  lemma {:induction false} Along(holds: nat -> bool, k: nat)
    requires holds(0) && forall i :: 0 <= i < k && holds(i) ==> holds(i + 1)
    ensures holds(k)
  {
    if k > 0 {
      Along(holds, k - 1);
    }
  }
}
