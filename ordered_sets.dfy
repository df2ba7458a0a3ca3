/** A JavaScript `Set` as a duplicate-free sequence: iteration (and so
    `Array.from(set)`) follows insertion order, `add` of a present element
    changes nothing, `delete` keeps the order of the others. */
module OrderedSets {

  ghost predicate Distinct<T>(s: seq<T>) {
    forall i, j :: 0 <= i < j < |s| ==> s[i] != s[j]
  }

  /** `set.add(x)`. */
  function Add<T(==,!new)>(s: seq<T>, x: T): (r: seq<T>)
    ensures forall y :: y in r <==> y in s || y == x
    ensures |r| == if x in s then |s| else |s| + 1
    ensures Distinct(s) ==> Distinct(r)
    ensures x in s ==> r == s
    ensures r[..|s|] == s
  {
    if x in s then s else s + [x]
  }

  /** The position of the first `x` in `s`. */
  function IndexOf<T(==)>(s: seq<T>, x: T): (k: nat)
    requires x in s
    ensures k < |s| && s[k] == x && forall i :: 0 <= i < k ==> s[i] != x
  {
    if s[0] == x then 0 else 1 + IndexOf(s[1..], x)
  }

  /** `set.delete(x)`. */
  function Delete<T(==,!new)>(s: seq<T>, x: T): (r: seq<T>)
    ensures forall y :: y in r <==> y in s && y != x
    ensures |r| <= |s|
    ensures Distinct(s) ==> Distinct(r) && |r| == if x in s then |s| - 1 else |s|
    ensures x !in s ==> r == s
  {
    if s == [] then []
    else if s[0] == x then Delete(s[1..], x)
    else
      var rest := Delete(s[1..], x);
      assert Distinct(s) ==> s[0] !in s[1..];
      [s[0]] + rest
  }

  /** The recursion of `Delete` without its contract, to reason about order in
      a small context. */
  function Remove<T(==)>(s: seq<T>, x: T): seq<T> {
    if s == [] then [] else (if s[0] == x then [] else [s[0]]) + Remove(s[1..], x)
  }

  lemma {:induction false} DeleteIsRemove<T(!new)>(s: seq<T>, x: T)
    ensures Delete(s, x) == Remove(s, x)
  {
    if s != [] {
      DeleteIsRemove(s[1..], x);
    }
  }

  lemma {:induction false} RemoveAbsent<T>(s: seq<T>, x: T)
    requires forall i :: 0 <= i < |s| ==> s[i] != x
    ensures Remove(s, x) == s
  {
    if s != [] {
      RemoveAbsent(s[1..], x);
    }
  }

  /** Removing cuts out the first occurrence, at `k`, and removes on in the rest. */
  lemma {:induction false} RemoveCutsFirst<T>(s: seq<T>, x: T, k: nat)
    requires k < |s| && s[k] == x && forall i :: 0 <= i < k ==> s[i] != x
    ensures Remove(s, x) == s[..k] + Remove(s[k + 1..], x)
    decreases k
  {
    if k == 0 {
      assert s[..0] + Remove(s[1..], x) == Remove(s[1..], x);
    } else {
      var t := s[1..];
      RemoveCutsFirst(t, x, k - 1);
      assert s[k + 1..] == t[k..];
      assert s[..k] == [s[0]] + t[..k - 1];
    }
  }

  /** Deleting a present element of a set cuts it out at its position: the
      others keep their order. */
  lemma {:induction false} DeleteKeepsOrder<T(!new)>(s: seq<T>, x: T)
    requires Distinct(s) && x in s
    ensures Delete(s, x) == s[..IndexOf(s, x)] + s[IndexOf(s, x) + 1..]
  {
    var k := IndexOf(s, x);
    DeleteIsRemove(s, x);
    RemoveCutsFirst(s, x, k);
    var rest := s[k + 1..];
    forall j | 0 <= j < |rest| ensures rest[j] != x {
      assert s[k] != s[k + 1 + j];
    }
    RemoveAbsent(rest, x);
  }

  /** Adding and then deleting a new element gives back the set, order included. */
  lemma {:induction false} DeleteUndoesAdd<T(!new)>(s: seq<T>, x: T)
    requires x !in s
    ensures Delete(Add(s, x), x) == s
  {
    var a := s + [x];
    assert Add(s, x) == a;
    if s == [] {
      assert a[1..] == [];
    } else {
      assert a[0] == s[0] && s[0] != x;
      assert a[1..] == s[1..] + [x];
      assert Delete(a, x) == [s[0]] + Delete(s[1..] + [x], x);
      DeleteUndoesAdd(s[1..], x);
      assert Add(s[1..], x) == s[1..] + [x];
    }
  }
}
