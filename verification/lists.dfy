/**
 * Sequences standing for the intrusive `wl_list`s that the gamma-control
 * manager threads its controls and bound resources through.
 */
module IntrusiveList {

  /** No element occurs twice: a `wl_link` can be in a list at most once. */
  ghost predicate NoDup<T>(s: seq<T>)
  {
    forall i, j :: 0 <= i < j < |s| ==> s[i] != s[j]
  }

  /**
   * `wl_list_remove`: unlink `x`. A node that is not in the list (a link that
   * was only `wl_list_init`ed) is left alone; a linked node is cut out
   * where it stands, so the other nodes keep their order.
   */
  function Remove<T(==)>(s: seq<T>, x: T): (r: seq<T>)
    ensures forall y :: y in r ==> y in s && y != x
    ensures forall y :: y in s && y != x ==> y in r
    ensures x !in s ==> r == s
    ensures NoDup(s) ==> NoDup(r)
    ensures NoDup(s) && x in s ==> |r| == |s| - 1
    ensures |s| > 0 && s[0] == x && NoDup(s) ==> r == s[1..]
  {
    if s == [] then []
    else if s[0] == x then Remove(s[1..], x)
    else
      var t := Remove(s[1..], x);
      assert NoDup(s) ==> NoDup(s[1..]) && s[0] !in s[1..] by {
        if NoDup(s) {
          forall k | 0 <= k < |s| - 1 ensures s[1..][k] != s[0] {
            assert s[1..][k] == s[k + 1];
          }
        }
      }
      ConsNoDup(s[0], t);
      [s[0]] + t
  }

  /**
   * In a list without duplicates, `Remove` cuts the node out where it
   * stands: the nodes before it and after it stay, in their order.
   */
  lemma {:induction false} RemoveCutsOut<T>(s: seq<T>, x: T) returns (i: nat)
    requires NoDup(s) && x in s
    ensures i < |s| && s[i] == x
    ensures Remove(s, x) == s[..i] + s[i + 1..]
  {
    if s[0] == x {
      i := 0;
      assert x !in s[1..] by {
        forall k | 0 <= k < |s| - 1 ensures s[1..][k] != x {
          assert s[1..][k] == s[k + 1];
        }
      }
    } else {
      assert NoDup(s[1..]) by {
        forall a, b | 0 <= a < b < |s| - 1 ensures s[1..][a] != s[1..][b] {
          assert s[1..][a] == s[a + 1] && s[1..][b] == s[b + 1];
        }
      }
      var j := RemoveCutsOut(s[1..], x);
      i := j + 1;
      assert Remove(s, x) == [s[0]] + Remove(s[1..], x);
      assert s[..i] == [s[0]] + s[1..][..j];
      assert s[i + 1..] == s[1..][j + 1..];
    }
  }

  /** Putting a node that is not yet linked at the head keeps the list free of duplicates. */
  lemma ConsNoDup<T>(a: T, t: seq<T>)
    ensures a !in t && NoDup(t) ==> NoDup([a] + t)
  {
    if a !in t && NoDup(t) {
      var s := [a] + t;
      forall i, j | 0 <= i < j < |s| ensures s[i] != s[j] {
        assert s[j] == t[j - 1];
        if i > 0 { assert s[i] == t[i - 1]; }
      }
    }
  }
}
