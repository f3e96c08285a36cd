/** Sequence helpers: removing one position, and duplicate-freedom measured the way Python does it. */
module Sequences {

  /**
    `s` without position `i`; any other `i` removes nothing. This is what both
    `arr.filter((_, k) => k !== i)` and `arr.splice(i, 1)` (for `i >= 0`) leave.
  */
  function RemoveAt<T>(s: seq<T>, i: int): (r: seq<T>)
    ensures 0 <= i < |s| ==> |r| == |s| - 1
    ensures 0 <= i < |s| ==> forall k :: 0 <= k < |r| ==> r[k] == (if k < i then s[k] else s[k + 1])
    ensures !(0 <= i < |s|) ==> r == s
  {
    if 0 <= i < |s| then s[..i] + s[i + 1..] else s
  }

  /** No element occurs twice. */
  predicate Distinct<T(==)>(s: seq<T>) {
    forall i, j :: 0 <= i < j < |s| ==> s[i] != s[j]
  }

  /** Python's `set(s)`. */
  function ToSet<T>(s: seq<T>): set<T> {
    set x | x in s
  }

  lemma {:induction false} ToSetSize<T>(s: seq<T>)
    ensures |ToSet(s)| <= |s|
  {
    if s != [] {
      assert ToSet(s) == {s[0]} + ToSet(s[1..]);
      ToSetSize(s[1..]);
    }
  }

  /** Python's duplicate test `len(set(s)) != len(s)` holds exactly when some element occurs twice. */
  lemma {:induction false} SetSizeIffDistinct<T>(s: seq<T>)
    ensures |ToSet(s)| == |s| <==> Distinct(s)
  {
    if s != [] {
      var rest := s[1..];
      assert ToSet(s) == {s[0]} + ToSet(rest);
      SetSizeIffDistinct(rest);
      ToSetSize(rest);
      if s[0] in rest {
        var j :| 0 <= j < |rest| && rest[j] == s[0];
        assert s[0] == s[j + 1];
        assert ToSet(s) == ToSet(rest);
      } else {
        assert ToSet(s) == ToSet(rest) + {s[0]};
        assert |ToSet(s)| == |ToSet(rest)| + 1;
        if Distinct(rest) {
          forall i, j | 0 <= i < j < |s| ensures s[i] != s[j] {
            if i > 0 {
              assert s[i] == rest[i - 1] && s[j] == rest[j - 1];
            } else {
              assert s[j] == rest[j - 1];
            }
          }
        } else {
          var i, j :| 0 <= i < j < |rest| && rest[i] == rest[j];
          assert s[i + 1] == s[j + 1];
        }
      }
    }
  }
}
