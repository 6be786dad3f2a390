/** The order of link identifiers and the in-place insertion sort over them. */
module StringOrder {

  /** Byte-wise lexicographic order, as the source compares strings. */
  predicate Less(a: string, b: string) {
    if b == "" then false
    else if a == "" then true
    else a[0] < b[0] || (a[0] == b[0] && Less(a[1..], b[1..]))
  }

  lemma {:induction false} LessIsTotal(a: string, b: string)
    ensures Less(a, b) || Less(b, a) || a == b
  {
    if a != "" && b != "" && a[0] == b[0] {
      LessIsTotal(a[1..], b[1..]);
      assert a == [a[0]] + a[1..] && b == [b[0]] + b[1..];
    }
  }

  lemma {:induction false} LessIsStrict(a: string, b: string)
    ensures !(Less(a, b) && Less(b, a)) && !Less(a, a)
  {
    if a != "" && b != "" {
      LessIsStrict(a[1..], b[1..]);
    } else if a != "" {
      LessIsStrict(a[1..], b);
    }
  }

  lemma {:induction false} LessIsTransitive(a: string, b: string, c: string)
    requires !Less(b, a) && !Less(c, b)
    ensures !Less(c, a)
  {
    if a != "" && c != "" {
      if b != "" && a[0] == b[0] == c[0] {
        LessIsTransitive(a[1..], b[1..], c[1..]);
      }
    }
  }

  /** The strings agree up to `i`, where the first ends or has the smaller character. */
  predicate SmallerAt(a: string, b: string, i: nat) {
    && i <= |a| && i < |b| && a[..i] == b[..i]
    && (i == |a| || a[i] < b[i])
  }

  /** One string is before another exactly when it is a proper prefix or smaller where they first differ. */
  lemma {:induction false} LessExactlyWhen(a: string, b: string)
    ensures Less(a, b) <==> exists i: nat :: SmallerAt(a, b, i)
  {
    if a != "" && b != "" && a[0] == b[0] {
      LessExactlyWhen(a[1..], b[1..]);
      assert a == [a[0]] + a[1..] && b == [b[0]] + b[1..];
      if i: nat :| SmallerAt(a[1..], b[1..], i) {
        assert a[..i + 1] == [a[0]] + a[1..][..i] && b[..i + 1] == [b[0]] + b[1..][..i];
        assert SmallerAt(a, b, i + 1);
      }
      if i: nat :| SmallerAt(a, b, i) {
        assert i > 0 && a[1..][..i - 1] == a[..i][1..] && b[1..][..i - 1] == b[..i][1..];
        assert SmallerAt(a[1..], b[1..], i - 1);
      }
    } else if b != "" && (a == "" || a[0] < b[0]) {
      assert SmallerAt(a, b, 0);
    } else {
      forall i: nat ensures !SmallerAt(a, b, i) {
        if 0 < i <= |a| && i < |b| {
          assert a[..i][0] == a[0] && b[..i][0] == b[0];
        }
      }
    }
  }

  predicate Sorted(s: seq<string>) {
    forall i, j | 0 <= i < j < |s| :: !Less(s[j], s[i])
  }

  lemma SameFirst(s: seq<string>, t: seq<string>)
    requires Sorted(s) && Sorted(t) && s != [] && t != [] && s[0] in t && t[0] in s
    ensures s[0] == t[0]
  {
    LessIsTotal(s[0], t[0]);
  }

  lemma RestOf(s: seq<string>)
    requires s != []
    ensures multiset(s[1..]) == multiset(s) - multiset{s[0]}
  {
    assert s == [s[0]] + s[1..];
  }

  /** Sorting is determined by the elements alone. */
  lemma {:induction false} SortedIsUnique(s: seq<string>, t: seq<string>)
    requires Sorted(s) && Sorted(t) && multiset(s) == multiset(t)
    ensures s == t
  {
    if s == [] {
      assert |t| == |multiset(t)| == 0;
    } else {
      assert s[0] in multiset(t);
      assert t[0] in multiset(s);
      SameFirst(s, t);
      RestOf(s);
      RestOf(t);
      SortedIsUnique(s[1..], t[1..]);
      assert s == [s[0]] + s[1..] && t == [t[0]] + t[1..];
    }
  }

  // ---------- insertion sort ----------

  /** Sorted, except that position `j` may be too far right. */
  predicate SortedExcept(s: seq<string>, j: nat) {
    forall p, q | 0 <= p < q < |s| && q != j :: !Less(s[q], s[p])
  }

  function Swapped(s: seq<string>, j: nat): seq<string>
    requires 0 < j < |s|
  {
    s[j := s[j - 1]][j - 1 := s[j]]
  }

  lemma SwapKeeps(s: seq<string>, j: nat)
    requires 0 < j < |s| && SortedExcept(s, j) && Less(s[j], s[j - 1])
    ensures SortedExcept(Swapped(s, j), j - 1)
    ensures multiset(Swapped(s, j)) == multiset(s)
  {
    LessIsStrict(s[j], s[j - 1]);
  }

  lemma InsertedIsSorted(s: seq<string>, j: nat)
    requires j < |s| && SortedExcept(s, j) && (j > 0 ==> !Less(s[j], s[j - 1]))
    ensures Sorted(s)
  {
    forall p | 0 <= p < j ensures !Less(s[j], s[p]) {
      if p < j - 1 {
        LessIsTransitive(s[p], s[j - 1], s[j]);
      }
    }
  }

  /** Moves element `i` left to its place among the sorted ones before it. */
  method Insert(a: array<string>, i: nat)
    requires i < a.Length && Sorted(a[..i])
    modifies a
    ensures Sorted(a[..i + 1]) && a[i + 1..] == old(a[i + 1..])
    ensures multiset(a[..i + 1]) == multiset(old(a[..i + 1]))
  {
    var j := i;
    while j > 0 && Less(a[j], a[j - 1])
      invariant 0 <= j <= i
      invariant SortedExcept(a[..i + 1], j)
      invariant multiset(a[..i + 1]) == multiset(old(a[..i + 1]))
      invariant a[i + 1..] == old(a[i + 1..])
    {
      SwapKeeps(a[..i + 1], j);
      ghost var next := Swapped(a[..i + 1], j);
      a[j], a[j - 1] := a[j - 1], a[j];
      assert a[..i + 1] == next;
      j := j - 1;
    }
    InsertedIsSorted(a[..i + 1], j);
  }

  method SortStrings(a: array<string>)
    modifies a
    ensures Sorted(a[..]) && multiset(a[..]) == multiset(old(a[..]))
  {
    var i := 1;
    while i < a.Length
      invariant 1 <= i
      invariant i <= a.Length || a.Length == 0
      invariant i <= a.Length ==> Sorted(a[..i]) && multiset(a[..]) == multiset(old(a[..]))
      invariant a.Length == 0 ==> a[..] == old(a[..])
    {
      ghost var before, rest := a[..i + 1], a[i + 1..];
      assert a[..] == before + rest;
      Insert(a, i);
      assert a[..] == a[..i + 1] + rest;
      i := i + 1;
    }
    assert a.Length > 0 ==> a[..i] == a[..];
  }
}
