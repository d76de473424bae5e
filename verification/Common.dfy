/** Small datatypes shared by the modules. */
module Common {
  datatype Option<+T> = None | Some(value: T)

  datatype Result<+T> = Ok(value: T) | Err(message: string)

  ghost predicate Unique<T(!new)>(s: seq<T>) {
    forall i, j :: 0 <= i < j < |s| ==> s[i] != s[j]
  }

  /** A list of complaints grows by one message when something is broken. */
  function Noted(errors: seq<string>, broken: bool, message: string): (r: seq<string>)
    ensures r == [] <==> errors == [] && !broken
  {
    if broken then errors + [message] else errors
  }

  /** Comparing a list with the set of its elements detects repetition. */
  lemma {:induction false} DistinctCount<T(!new)>(s: seq<T>)
    ensures |set x | x in s| <= |s|
    ensures |set x | x in s| == |s| <==> Unique(s)
  {
    if s != [] {
      var n := |s| - 1;
      DistinctCount(s[..n]);
      var before := set x | x in s[..n];
      assert s == s[..n] + [s[n]];
      assert (set x | x in s) == before + {s[n]};
      if s[n] in s[..n] {
        assert before + {s[n]} == before;
        var i :| 0 <= i < n && s[i] == s[n];
      }
    }
  }

  function Bit(b: bool): int {
    if b then 1 else 0
  }

  lemma SubsetSize<T>(a: set<T>, b: set<T>)
    requires a <= b
    ensures |a| <= |b|
  {
    assert b == a + (b - a);
  }
}
