/** Small value types shared by every module of the model. */
module Common {

  datatype Option<+T> = None | Some(value: T)

  const U64_MAX: nat := 0xFFFF_FFFF_FFFF_FFFF

  /** Largest integer JavaScript represents exactly; the wire's bound on identifiers and timestamps. */
  const MAX_SAFE_INTEGER: nat := 9_007_199_254_740_991

  /** Identifiers and sequence numbers on the wire. */
  predicate InSequence(n: nat) {
    1 <= n <= MAX_SAFE_INTEGER
  }

  /** Nanoseconds. */
  const MILLISECOND: nat := 1_000_000

  function Reverse<T>(s: seq<T>): (r: seq<T>)
    ensures |r| == |s|
    ensures forall i :: 0 <= i < |s| ==> r[i] == s[|s| - 1 - i]
  {
    if s == [] then [] else [s[|s| - 1]] + Reverse(s[..|s| - 1])
  }

  lemma {:induction false} SubsetSize<T>(a: set<T>, b: set<T>)
    requires a <= b
    ensures |a| <= |b|
  {
    if a != {} {
      var x :| x in a;
      SubsetSize(a - {x}, b - {x});
    }
  }

  ghost predicate Distinct<T>(s: seq<T>) {
    forall i, j :: 0 <= i < j < |s| ==> s[i] != s[j]
  }
}
