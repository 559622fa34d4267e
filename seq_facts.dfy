/** Facts about sequences without repeated elements. */
module SeqFacts {

  /** No element of `s` occurs twice. */
  ghost predicate Distinct<T>(s: seq<T>) {
    forall i, j :: 0 <= i < j < |s| ==> s[i] != s[j]
  }

  /** The elements of `s`, as a set. */
  function Elements<T>(s: seq<T>): set<T> {
    set x | x in s
  }

  /** A sequence without repeats has as many distinct elements as it has positions. */
  lemma {:induction false} DistinctCardinality<T>(s: seq<T>)
    requires Distinct(s)
    ensures |Elements(s)| == |s|
  {
    if s != [] {
      var tail := s[1..];
      assert Distinct(tail) by {
        forall i, j | 0 <= i < j < |tail| ensures tail[i] != tail[j] {
          assert tail[i] == s[i + 1] && tail[j] == s[j + 1];
        }
      }
      DistinctCardinality(tail);
      assert s[0] !in Elements(tail) by {
        forall k | 0 <= k < |tail| ensures tail[k] != s[0] {
          assert tail[k] == s[k + 1];
        }
      }
      assert Elements(s) == {s[0]} + Elements(tail) by {
        assert s == [s[0]] + tail;
      }
    }
  }
}
