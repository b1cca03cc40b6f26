/** Small shared vocabulary: optional values, results that carry an error, and
    facts about sequences without repeats. */
module Common {

  datatype Option<+T> = None | Some(value: T)

  datatype Result<+T, +E> = Ok(value: T) | Err(error: E)

  datatype Outcome<+E> = Pass | Fail(error: E)

  /** No element of s occurs twice. */
  ghost predicate Distinct<T>(s: seq<T>) {
    forall i, j :: 0 <= i < j < |s| ==> s[i] != s[j]
  }

  function Elements<T>(s: seq<T>): set<T> {
    set x | x in s
  }

  /** A sequence is as long as its set of elements exactly when nothing repeats. */
  lemma {:induction false} DistinctIffSize<T>(s: seq<T>)
    ensures |Elements(s)| <= |s|
    ensures Distinct(s) <==> |Elements(s)| == |s|
  {
    if s != [] {
      var front, last := s[..|s| - 1], s[|s| - 1];
      DistinctIffSize(front);
      assert s == front + [last];
      assert Elements(s) == Elements(front) + {last};
      if last in front {
        assert Elements(s) == Elements(front);
      } else if Distinct(front) {
        forall i, j | 0 <= i < j < |s| ensures s[i] != s[j] {
          assert s[i] in front && (j < |front| ==> s[j] == front[j] && s[i] == front[i]);
        }
      }
    }
  }

  lemma SubsetSize<T>(a: set<T>, b: set<T>)
    requires a <= b
    ensures |a| <= |b|
    ensures a < b ==> |a| < |b|
  {
    assert b == a + (b - a);
    if a < b {
      var x :| x in b && x !in a;
      assert x in b - a;
    }
  }

  /** Pigeonhole: a sequence longer than the set it draws from repeats an element. */
  lemma Pigeonhole<T>(s: seq<T>, universe: set<T>) returns (i: nat, j: nat)
    requires Elements(s) <= universe
    requires |s| > |universe|
    ensures i < j < |s| && s[i] == s[j]
  {
    if Distinct(s) {
      DistinctIffSize(s);
      SubsetSize(Elements(s), universe);
      assert false;
    }
    i, j :| 0 <= i < j < |s| && s[i] == s[j];
  }
}
