/** Comparison of dotted version numbers component by component, missing
    components counting as 0. Both `compareVersions` (src/installer.ts) and
    `isNewerVersion` (src/utils/version-check.ts) compare this way. */
module VersionParts {

  /** `parts[i] || 0`. */
  function Part(parts: seq<int>, i: nat): int {
    if i < |parts| then parts[i] else 0
  }

  function Rest(parts: seq<int>): seq<int> {
    if parts == [] then [] else parts[1..]
  }

  /** -1, 0 or 1: the sign of the first component where `a` and `b` differ. */
  function Compare(a: seq<int>, b: seq<int>): int
    decreases |a| + |b|
  {
    if a == [] && b == [] then 0
    else if Part(a, 0) < Part(b, 0) then -1
    else if Part(a, 0) > Part(b, 0) then 1
    else Compare(Rest(a), Rest(b))
  }

  /** `a` and `b` agree on every component before `k`. */
  predicate AgreeBefore(a: seq<int>, b: seq<int>, k: nat) {
    forall i :: 0 <= i < k ==> Part(a, i) == Part(b, i)
  }

  lemma RestPart(parts: seq<int>, i: nat)
    ensures Part(Rest(parts), i) == Part(parts, i + 1)
  {
  }

  /** Reference characterisation: the result is the sign of the first
      differing component. */
  lemma {:induction false} CompareAtFirstDifference(a: seq<int>, b: seq<int>, k: nat)
    requires AgreeBefore(a, b, k) && Part(a, k) != Part(b, k)
    ensures Compare(a, b) == if Part(a, k) < Part(b, k) then -1 else 1
    decreases |a| + |b|
  {
    if k > 0 {
      assert Part(a, 0) == Part(b, 0);
      forall i | 0 <= i < k - 1 ensures Part(Rest(a), i) == Part(Rest(b), i) {
        RestPart(a, i);
        RestPart(b, i);
      }
      RestPart(a, k - 1);
      RestPart(b, k - 1);
      CompareAtFirstDifference(Rest(a), Rest(b), k - 1);
    }
  }

  /** Reference characterisation: equal components everywhere give 0. */
  lemma {:induction false} CompareAllEqual(a: seq<int>, b: seq<int>)
    requires AgreeBefore(a, b, if |a| < |b| then |b| else |a|)
    ensures Compare(a, b) == 0
    decreases |a| + |b|
  {
    if a != [] || b != [] {
      assert Part(a, 0) == Part(b, 0);
      var n := if |a| < |b| then |b| else |a|;
      forall i | 0 <= i < n - 1 ensures Part(Rest(a), i) == Part(Rest(b), i) {
        RestPart(a, i);
        RestPart(b, i);
      }
      CompareAllEqual(Rest(a), Rest(b));
    }
  }

  /** The result is always -1, 0 or 1, and 0 exactly when every component
      agrees. */
  lemma {:induction false} CompareRange(a: seq<int>, b: seq<int>)
    ensures -1 <= Compare(a, b) <= 1
    ensures Compare(a, b) == 0 <==> forall i: nat :: Part(a, i) == Part(b, i)
    decreases |a| + |b|
  {
    if a != [] || b != [] {
      CompareRange(Rest(a), Rest(b));
      if Compare(a, b) == 0 {
        forall i: nat ensures Part(a, i) == Part(b, i) {
          if i > 0 {
            RestPart(a, i - 1);
            RestPart(b, i - 1);
          }
        }
      } else if forall i: nat :: Part(a, i) == Part(b, i) {
        forall i: nat ensures Part(Rest(a), i) == Part(Rest(b), i) {
          RestPart(a, i);
          RestPart(b, i);
        }
      }
    }
  }

  /** Conversely, a result of 1 has a first differing component, where
      `a` is the larger. */
  lemma {:induction false} CompareOneWitness(a: seq<int>, b: seq<int>)
    requires Compare(a, b) == 1
    ensures exists k: nat :: AgreeBefore(a, b, k) && Part(a, k) > Part(b, k)
    decreases |a| + |b|
  {
    if Part(a, 0) <= Part(b, 0) {
      CompareOneWitness(Rest(a), Rest(b));
      var k: nat :| AgreeBefore(Rest(a), Rest(b), k) && Part(Rest(a), k) > Part(Rest(b), k);
      RestPart(a, k);
      RestPart(b, k);
      forall i | 0 <= i < k + 1 ensures Part(a, i) == Part(b, i) {
        if i > 0 {
          RestPart(a, i - 1);
          RestPart(b, i - 1);
        }
      }
      assert AgreeBefore(a, b, k + 1) && Part(a, k + 1) > Part(b, k + 1);
    } else {
      assert AgreeBefore(a, b, 0);
    }
  }

  /** Swapping the arguments negates the result. */
  lemma {:induction false} CompareAntisymmetric(a: seq<int>, b: seq<int>)
    ensures Compare(b, a) == -Compare(a, b)
    decreases |a| + |b|
  {
    if a != [] || b != [] {
      CompareAntisymmetric(Rest(a), Rest(b));
    }
  }

  /** Trailing zero components do not matter: `1.0` equals `1.0.0`. */
  lemma TrailingZero(a: seq<int>)
    ensures Compare(a, a + [0]) == 0
  {
    var b := a + [0];
    forall i | 0 <= i < |b| ensures Part(a, i) == Part(b, i) {
    }
    CompareAllEqual(a, b);
  }

  /** The index loop of both sources: stop at the first differing component. */
  method CompareLoop(a: seq<int>, b: seq<int>) returns (r: int)
    ensures r == Compare(a, b)
  {
    var n := if |a| < |b| then |b| else |a|;
    for i := 0 to n
      invariant AgreeBefore(a, b, i)
    {
      var x := if i < |a| then a[i] else 0;
      var y := if i < |b| then b[i] else 0;
      if x < y {
        CompareAtFirstDifference(a, b, i);
        return -1;
      }
      if x > y {
        CompareAtFirstDifference(a, b, i);
        return 1;
      }
    }
    CompareAllEqual(a, b);
    return 0;
  }
}
