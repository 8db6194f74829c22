/**
 * Sequence helpers behind the roster and the player selection of the
 * poker ledger: duplicate-freedom, `filter(y => y !== x)` and the
 * add-or-remove toggle of a selection button.
 */
module Lists {

  /** No value occurs twice in `s`. */
  predicate Distinct<T(==)>(s: seq<T>) {
    forall i, j :: 0 <= i < j < |s| ==> s[i] != s[j]
  }

  /** `s.filter(y => y !== x)`: every occurrence of `x` dropped, the rest kept in order. */
  function RemoveAll<T(==)>(s: seq<T>, x: T): (r: seq<T>)
    ensures x !in r
    ensures forall y :: y in r ==> y in s
    ensures forall y :: y in s && y != x ==> y in r
    ensures |r| <= |s|
    ensures Distinct(s) ==> Distinct(r)
  {
    if s == [] then []
    else if s[0] == x then RemoveAll(s[1..], x)
    else
      var rest := RemoveAll(s[1..], x);
      assert Distinct(s) ==> s[0] !in s[1..];
      [s[0]] + rest
  }

  /** Removing a value that is not there changes nothing. */
  lemma {:induction false} RemoveAbsent<T>(s: seq<T>, x: T)
    requires x !in s
    ensures RemoveAll(s, x) == s
  {
    if s != [] {
      RemoveAbsent(s[1..], x);
    }
  }

  /**
   * On a duplicate-free sequence, removing the value at position `k`
   * cuts out exactly that position: the others keep their relative order.
   */
  lemma {:induction false} RemoveDistinctAt<T>(s: seq<T>, k: nat)
    requires Distinct(s) && k < |s|
    ensures RemoveAll(s, s[k]) == s[..k] + s[k + 1..]
  {
    if k == 0 {
      RemoveAbsent(s[1..], s[0]);
    } else {
      assert s[1..][k - 1] == s[k];
      assert s[0] != s[k];
      RemoveDistinctAt(s[1..], k - 1);
      assert s[..k] + s[k + 1..] == [s[0]] + (s[1..][..k - 1] + s[1..][k..]);
    }
  }

  /**
   * The selection button: `prev.includes(x) ? prev.filter(n => n !== x) : [...prev, x]`.
   */
  function Toggle<T(==)>(s: seq<T>, x: T): (r: seq<T>)
    ensures x in r <==> x !in s
    ensures forall y :: y in r && y != x ==> y in s
    ensures forall y :: y in s && y != x ==> y in r
    ensures Distinct(s) ==> Distinct(r)
  {
    if x in s then RemoveAll(s, x)
    else
      assert Distinct(s) ==> Distinct(s + [x]) by {
        if Distinct(s) {
          forall i, j | 0 <= i < j < |s + [x]| ensures (s + [x])[i] != (s + [x])[j] {
            if j == |s| { assert (s + [x])[i] == s[i]; }
          }
        }
      }
      s + [x]
  }

  /** An unselected value is appended at the end, after the current selection. */
  lemma ToggleAppends<T>(s: seq<T>, x: T)
    requires x !in s
    ensures Toggle(s, x) == s + [x]
  {
  }

  /** A selected value leaves the selection from its place, the others keeping their order. */
  lemma ToggleRemovesAt<T>(s: seq<T>, k: nat)
    requires Distinct(s) && k < |s|
    ensures Toggle(s, s[k]) == s[..k] + s[k + 1..]
  {
    RemoveDistinctAt(s, k);
  }

  /** Removing the value just appended to a sequence that lacked it gives the sequence back. */
  lemma {:induction false} RemoveAppended<T>(s: seq<T>, x: T)
    requires x !in s
    ensures RemoveAll(s + [x], x) == s
  {
    if s == [] {
      assert [x][1..] == [];
    } else {
      assert (s + [x])[1..] == s[1..] + [x];
      RemoveAppended(s[1..], x);
    }
  }

  /** Selecting and then deselecting a player restores the selection. */
  lemma ToggleTwice<T>(s: seq<T>, x: T)
    requires x !in s
    ensures Toggle(Toggle(s, x), x) == s
  {
    assert x in s + [x];
    RemoveAppended(s, x);
  }
}
