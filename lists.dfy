/** Python list operations the engine relies on, on Dafny sequences. */
module Lists {

  predicate NoDup<T(==)>(s: seq<T>)
  {
    forall i, j :: 0 <= i < j < |s| ==> s[i] != s[j]
  }

  /** `list.remove(x)`: drops the first occurrence of `x`. The source raises
      when `x` is absent; callers test `x in s` for that case, and here the
      list is then returned unchanged. */
  function RemoveFirst<T(==)>(s: seq<T>, x: T): (r: seq<T>)
    ensures x in s ==> |r| == |s| - 1
    ensures x !in s ==> r == s
  {
    if |s| == 0 then s
    else if s[0] == x then
      assert s == [s[0]] + s[1..];
      s[1..]
    else
      assert s == [s[0]] + s[1..];
      [s[0]] + RemoveFirst(s[1..], x)
  }

  /** `remove(x)` takes exactly one occurrence of `x` out of the list, and
      none of anything else. */
  lemma {:induction false} RemoveFirstMultiset<T>(s: seq<T>, x: T)
    ensures multiset(RemoveFirst(s, x)) == multiset(s) - multiset{x}
  {
    if |s| > 0 {
      assert s == [s[0]] + s[1..];
      RemoveFirstMultiset(s[1..], x);
    }
  }

  /** Removing the first occurrence of `x`, found at index `i`, deletes
      exactly position `i` and keeps every other element in order. */
  lemma {:induction false} RemoveFirstAt<T>(s: seq<T>, x: T, i: nat)
    requires i < |s| && s[i] == x && x !in s[..i]
    ensures RemoveFirst(s, x) == s[..i] + s[i + 1..]
  {
    if i > 0 {
      assert s[0] != x by { assert s[0] == s[..i][0]; }
      assert x !in s[1..][..i - 1] by { assert s[1..][..i - 1] == s[..i][1..]; }
      RemoveFirstAt(s[1..], x, i - 1);
      assert s[1..][..i - 1] == s[1..i];
      assert s[..i] == [s[0]] + s[1..i];
    }
  }

  /** The list without position `i`: later elements shift down by one. */
  function Without<T>(s: seq<T>, i: nat): (r: seq<T>)
    requires i < |s|
    ensures |r| == |s| - 1
    ensures forall k :: 0 <= k < i ==> r[k] == s[k]
    ensures forall k :: i <= k < |s| - 1 ==> r[k] == s[k + 1]
  {
    s[..i] + s[i + 1..]
  }

  /** In a list without duplicates, `remove(x)` drops exactly the element
      `x` and leaves a list without duplicates. */
  lemma RemoveFirstNoDup<T>(s: seq<T>, x: T)
    requires NoDup(s)
    ensures NoDup(RemoveFirst(s, x))
    ensures forall y :: y in RemoveFirst(s, x) <==> y in s && y != x
  {
    if x in s {
      var i :| 0 <= i < |s| && s[i] == x;
      assert x !in s[..i];
      RemoveFirstAt(s, x, i);
      var r := Without(s, i);
      assert RemoveFirst(s, x) == r;
      forall a, b | 0 <= a < b < |r| ensures r[a] != r[b] {
        if b < i {
          assert r[a] == s[a] && r[b] == s[b];
        } else if a < i {
          assert r[a] == s[a] && r[b] == s[b + 1];
        } else {
          assert r[a] == s[a + 1] && r[b] == s[b + 1];
        }
      }
      forall y | y in r ensures y in s && y != x {
        var k :| 0 <= k < |r| && r[k] == y;
        if k < i {
          assert r[k] == s[k];
        } else {
          assert r[k] == s[k + 1];
        }
      }
      forall y | y in s && y != x ensures y in r {
        var k :| 0 <= k < |s| && s[k] == y;
        if k < i {
          assert r[k] == y;
        } else {
          assert k != i;
          assert r[k - 1] == y;
        }
      }
    }
  }

  /** The elements of `s` that satisfy `p`, in their original order
      (a list built by appending inside a loop). */
  function Filter<T>(s: seq<T>, p: T -> bool): (r: seq<T>)
    ensures |r| <= |s|
  {
    if |s| == 0 then []
    else
      var init := s[..|s| - 1];
      assert s == init + [s[|s| - 1]];
      Filter(init, p) + (if p(s[|s| - 1]) then [s[|s| - 1]] else [])
  }

  /** The filtered list holds exactly the elements of `s` that pass. */
  lemma {:induction false} FilterMembers<T>(s: seq<T>, p: T -> bool)
    ensures forall x :: x in Filter(s, p) <==> x in s && p(x)
  {
    if |s| > 0 {
      var init := s[..|s| - 1];
      FilterMembers(init, p);
      assert s == init + [s[|s| - 1]];
    }
  }

  /** The elements of `s` at the positions where `keep` is true, in order. */
  function Select<T>(s: seq<T>, keep: seq<bool>): (r: seq<T>)
    requires |keep| == |s|
    ensures |r| <= |s|
    ensures multiset(r) <= multiset(s)
  {
    if |s| == 0 then []
    else
      assert s == [s[0]] + s[1..];
      (if keep[0] then [s[0]] else []) + Select(s[1..], keep[1..])
  }

  /** A selection from a list without duplicates has none either. */
  lemma {:induction false} SelectNoDup<T>(s: seq<T>, keep: seq<bool>)
    requires |keep| == |s| && NoDup(s)
    ensures NoDup(Select(s, keep))
  {
    if |s| > 0 {
      assert NoDup(s[1..]);
      SelectNoDup(s[1..], keep[1..]);
      var rest := Select(s[1..], keep[1..]);
      if keep[0] {
        assert s[0] !in multiset(rest) by {
          assert s[0] !in s[1..];
        }
      }
    }
  }

  /** Appending one element extends the filtered list by it when it passes. */
  lemma FilterSnoc<T>(s: seq<T>, x: T, p: T -> bool)
    ensures Filter(s + [x], p) == Filter(s, p) + (if p(x) then [x] else [])
  {
    assert (s + [x])[..|s|] == s;
  }
}
