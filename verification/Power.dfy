/** Power cuts and failing effects, as the crash-recoverable layers meet them. */
module Power {

  /** How a step ends: normally, by a power cut, or in undefined behaviour of the C code. */
  datatype Flow<+T> = Done(value: T) | Crash | Stuck
  {
    predicate IsFailure() {
      !Done?
    }

    function PropagateFailure<U>(): Flow<U>
      requires !Done?
    {
      if Crash? then Crash else Stuck
    }

    function Extract(): T
      requires Done?
    {
      value
    }
  }

  /** What becomes of one effect or read: the power may go before or after an effect, and amid an image call. */
  datatype Fate = Goes | Fails | CutBefore | CutAmid | CutAfter

  /** Fate n of a list; behind its end everything goes well. */
  function FateAt(fates: seq<Fate>, n: nat): Fate {
    if n < |fates| then fates[n] else Goes
  }

  function After(fates: seq<Fate>, n: nat): seq<Fate> {
    if n <= |fates| then fates[n..] else []
  }

  lemma Later(fates: seq<Fate>, a: nat, b: nat)
    ensures FateAt(After(fates, a), b) == FateAt(fates, a + b)
    ensures After(After(fates, a), b) == After(fates, a + b)
  {
  }
}
