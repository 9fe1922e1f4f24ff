/**
 * The list operations `delete` and `do` apply to the lines of the
 * pending file: Python's `list.remove`, which drops the first element equal
 * to its argument, and the removal of one position that it is compared
 * with.
 */
module LineOps {
  import opened Text

  /** The position of the first element of `s` equal to `x`. */
  function FirstIndex<T(==)>(s: seq<T>, x: T): (k: nat)
    requires x in s
    ensures k < |s| && s[k] == x
    ensures forall j :: 0 <= j < k ==> s[j] != x
  {
    if s[0] == x then 0 else 1 + FirstIndex(s[1..], x)
  }

  /** `s.remove(x)`: one element fewer. */
  function RemoveFirst<T(==)>(s: seq<T>, x: T): (r: seq<T>)
    requires x in s
    ensures |r| == |s| - 1
  {
    if s[0] == x then s[1..] else [s[0]] + RemoveFirst(s[1..], x)
  }

  /**
   * `remove` deletes exactly the first occurrence: what comes before it and
   * what comes after it stay, in their order.
   */
  lemma {:induction false} RemoveFirstSplice<T>(s: seq<T>, x: T)
    requires x in s
    ensures RemoveFirst(s, x) == s[..FirstIndex(s, x)] + s[FirstIndex(s, x) + 1..]
  {
    if s[0] != x {
      var t := s[1..];
      var k := FirstIndex(t, x);
      assert FirstIndex(s, x) == k + 1;
      assert RemoveFirst(t, x) == t[..k] + t[k + 1..] by { RemoveFirstSplice(t, x); }
      assert RemoveFirst(s, x) == [s[0]] + (t[..k] + t[k + 1..]);
      Associative([s[0]], t[..k], t[k + 1..]);
      assert [s[0]] + t[..k] == s[..k + 1];
      assert t[k + 1..] == s[k + 2..];
    }
  }

  /** `remove` takes away one copy of `x` and nothing else. */
  lemma RemoveFirstMultiset<T>(s: seq<T>, x: T)
    requires x in s
    ensures multiset(RemoveFirst(s, x)) == multiset(s) - multiset{x}
  {
    var k := FirstIndex(s, x);
    var t := s[..k] + s[k + 1..];
    assert RemoveFirst(s, x) == t by { RemoveFirstSplice(s, x); }
    assert multiset(t) == multiset(s) - multiset{x} by { DropOneMultiset(s, k); }
  }

  /** Dropping position `j` takes away one copy of the element there. */
  lemma DropOneMultiset<T>(s: seq<T>, j: nat)
    requires j < |s|
    ensures multiset(s[..j] + s[j + 1..]) == multiset(s) - multiset{s[j]}
  {
    var a, b := s[..j], s[j + 1..];
    assert s == a + [s[j]] + b;
    assert multiset(s) == multiset(a) + multiset{s[j]} + multiset(b);
    assert multiset(a + b) == multiset(a) + multiset(b);
  }

  /**
   * Removing the element at position `i` itself: the reference that the
   * by-value removal of `delete` and `do` is compared with.
   */
  function RemoveAt<T>(s: seq<T>, i: nat): (r: seq<T>)
    requires i < |s|
    ensures |r| == |s| - 1
    ensures forall j :: 0 <= j < i ==> r[j] == s[j]
    ensures forall j :: i <= j < |r| ==> r[j] == s[j + 1]
  {
    s[..i] + s[i + 1..]
  }

  /**
   * Removing the value found at position `i` removes the line at `i` itself
   * when no earlier line is equal to it.
   */
  lemma RemoveByValueAtPosition<T>(s: seq<T>, i: nat)
    requires i < |s|
    requires forall j :: 0 <= j < i ==> s[j] != s[i]
    ensures RemoveFirst(s, s[i]) == RemoveAt(s, i)
  {
    RemoveFirstSplice(s, s[i]);
    assert FirstIndex(s, s[i]) == i;
  }

  /** Either way, the same lines remain, counted with multiplicity. */
  lemma RemoveByValueSameLines<T>(s: seq<T>, i: nat)
    requires i < |s|
    ensures multiset(RemoveFirst(s, s[i])) == multiset(RemoveAt(s, i))
  {
    RemoveFirstMultiset(s, s[i]);
    DropOneMultiset(s, i);
  }

  /** With a duplicated line, `remove` can take a different line than the one addressed. */
  lemma DuplicateRemovesEarlier()
    ensures RemoveFirst(["x\n", "y\n", "x\n"], "x\n") == ["y\n", "x\n"]
    ensures RemoveAt(["x\n", "y\n", "x\n"], 2) == ["x\n", "y\n"]
  {
    var s := ["x\n", "y\n", "x\n"];
    assert s[1..] == ["y\n", "x\n"];
  }
}
