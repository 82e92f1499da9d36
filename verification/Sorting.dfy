/** Sorting a slice by a comparison, and why a strictly sorted result does not depend on the order it was built in. */
module Sorting {
  import opened MigTypes
  import opened GoStrings
  import opened Counting

  ghost predicate StrictWeakOrder<T(!new)>(less: (T, T) -> bool) {
    && (forall x :: !less(x, x))
    && (forall x, y, z :: less(x, y) && less(y, z) ==> less(x, z))
    && (forall x, y, z {:trigger less(x, y), less(y, z)} :: less(x, z) ==> less(x, y) || less(y, z))
  }

  ghost predicate Sorted<T(!new)>(s: seq<T>, less: (T, T) -> bool) {
    forall i, j | 0 <= i < j < |s| :: !less(s[j], s[i])
  }

  /** `sort.Slice`: some permutation of `s` in which no later element is less than an earlier one. */
  method SortBy<T(!new)>(s: seq<T>, less: (T, T) -> bool) returns (r: seq<T>)
    requires StrictWeakOrder(less)
    ensures Sorted(r, less)
    ensures multiset(r) == multiset(s)
  {
    r := [];
    for n := 0 to |s|
      invariant Sorted(r, less)
      invariant multiset(r) == multiset(s[..n])
    {
      var k := |r|;
      while k > 0 && less(s[n], r[k - 1])
        invariant 0 <= k <= |r|
        invariant forall i | k <= i < |r| :: less(s[n], r[i])
      {
        k := k - 1;
      }
      InsertSorted(r, k, s[n], less);
      assert s[..n + 1] == s[..n] + [s[n]];
      assert r == r[..k] + r[k..];
      r := r[..k] + [s[n]] + r[k..];
    }
    assert s[..|s|] == s;
  }

  lemma InsertSorted<T(!new)>(r: seq<T>, k: nat, x: T, less: (T, T) -> bool)
    requires StrictWeakOrder(less) && Sorted(r, less) && k <= |r|
    requires forall i | k <= i < |r| :: less(x, r[i])
    requires k > 0 ==> !less(x, r[k - 1])
    ensures Sorted(r[..k] + [x] + r[k..], less)
  {
    forall i | 0 <= i < k ensures !less(x, r[i]) {
      assert i < k - 1 ==> !less(r[k - 1], r[i]);
    }
  }

  // ----- descriptors by ID -----

  function ByID(): (CapabilityDescriptor, CapabilityDescriptor) -> bool {
    (a: CapabilityDescriptor, b: CapabilityDescriptor) => Less(a.id, b.id)
  }

  lemma ByIDIsOrder()
    ensures StrictWeakOrder(ByID())
  {
    forall x: CapabilityDescriptor ensures !Less(x.id, x.id) { LessIrreflexive(x.id); }
    forall x: CapabilityDescriptor, y: CapabilityDescriptor, z: CapabilityDescriptor
      | Less(x.id, y.id) && Less(y.id, z.id)
      ensures Less(x.id, z.id)
    {
      LessTransitive(x.id, y.id, z.id);
    }
    forall x: CapabilityDescriptor, y: CapabilityDescriptor, z: CapabilityDescriptor | Less(x.id, z.id)
      ensures Less(x.id, y.id) || Less(y.id, z.id)
    {
      LessTotal(x.id, y.id);
      if Less(y.id, x.id) { LessTransitive(y.id, x.id, z.id); }
    }
  }

  predicate StrictlyByID(s: seq<CapabilityDescriptor>) {
    forall i, j | 0 <= i < j < |s| :: Less(s[i].id, s[j].id)
  }

  /** Sorting descriptors with pairwise different IDs leaves no ties. */
  lemma DistinctSortsStrictly(s: seq<CapabilityDescriptor>, r: seq<CapabilityDescriptor>)
    requires forall i, j | 0 <= i < j < |s| :: s[i].id != s[j].id
    requires Sorted(r, ByID()) && multiset(r) == multiset(s)
    ensures StrictlyByID(r)
  {
    forall i, j | 0 <= i < j < |r| ensures Less(r[i].id, r[j].id) {
      LessTotal(r[i].id, r[j].id);
      if r[i].id == r[j].id {
        SameIDOnce(s, r, i, j);
      }
    }
  }

  lemma SameIDOnce(s: seq<CapabilityDescriptor>, r: seq<CapabilityDescriptor>, i: nat, j: nat)
    requires forall i, j | 0 <= i < j < |s| :: s[i].id != s[j].id
    requires multiset(r) == multiset(s) && i < j < |r|
    ensures r[i].id != r[j].id
  {
    assert r[i] in multiset(r) && r[j] in multiset(r);
    assert r[i] in s && r[j] in s;
    OnceEach(s);
    TwiceCounts(r, i, j);
  }

  lemma {:induction false} OnceEach<T>(s: seq<T>)
    requires forall i, j | 0 <= i < j < |s| :: s[i] != s[j]
    ensures forall x | x in multiset(s) :: multiset(s)[x] == 1
  {
    if s != [] {
      var n := |s| - 1;
      OnceEach(s[..n]);
      assert s == s[..n] + [s[n]];
      assert s[n] !in s[..n];
    }
  }

  lemma TwiceCounts<T>(r: seq<T>, i: nat, j: nat)
    requires i < j < |r|
    ensures r[i] == r[j] ==> multiset(r)[r[i]] >= 2
  {
    assert r == r[..j] + r[j..];
    assert r[..j][i] == r[i] && r[j..][0] == r[j];
    assert r[i] in multiset(r[..j]) && r[j] in multiset(r[j..]);
  }

  /** A strictly sorted list is determined by its elements. */
  lemma {:induction false} StrictlyByIDUnique(a: seq<CapabilityDescriptor>, b: seq<CapabilityDescriptor>)
    requires StrictlyByID(a) && StrictlyByID(b)
    requires forall d :: d in a <==> d in b
    ensures a == b
  {
    if a == [] {
      forall x ensures multiset(b)[x] == 0 {
        assert x in b <==> x in multiset(b);
      }
      assert multiset(b) == multiset{} && |b| == |multiset(b)|;
    } else {
      assert a[0] in b;
      assert b[0] in a;
      HeadsAgree(a, b);
      TailElements(a, b);
      StrictlyByIDUnique(a[1..], b[1..]);
      assert a == [a[0]] + a[1..] && b == [b[0]] + b[1..];
    }
  }

  lemma HeadsAgree(a: seq<CapabilityDescriptor>, b: seq<CapabilityDescriptor>)
    requires StrictlyByID(a) && StrictlyByID(b)
    requires a != [] && b != [] && a[0] in b && b[0] in a
    ensures a[0] == b[0]
  {
    var i :| 0 <= i < |b| && b[i] == a[0];
    var j :| 0 <= j < |a| && a[j] == b[0];
    if i != 0 && j != 0 {
      LessTransitive(a[0].id, b[0].id, a[0].id);
      LessIrreflexive(a[0].id);
    }
  }

  lemma TailElements(a: seq<CapabilityDescriptor>, b: seq<CapabilityDescriptor>)
    requires StrictlyByID(a) && StrictlyByID(b) && a != [] && b != [] && a[0] == b[0]
    requires forall d :: d in a <==> d in b
    ensures forall d :: d in a[1..] <==> d in b[1..]
  {
    LessIrreflexive(a[0].id);
    assert a[0] !in a[1..] && a[0] !in b[1..];
    forall d ensures d in a[1..] <==> d in b[1..] {
      assert a == [a[0]] + a[1..] && b == [a[0]] + b[1..];
      assert d in a <==> d == a[0] || d in a[1..];
    }
  }

  /** Filtering keeps a strictly sorted list strictly sorted, with exactly the elements that pass. */
  lemma {:induction false} FilterStrictlyByID(s: seq<CapabilityDescriptor>, p: CapabilityDescriptor -> bool)
    requires StrictlyByID(s)
    ensures StrictlyByID(Filter(s, p))
    ensures forall d :: d in Filter(s, p) <==> d in s && p(d)
  {
    if s != [] {
      FilterStrictlyByID(s[1..], p);
      assert s == [s[0]] + s[1..];
      var rest := Filter(s[1..], p);
      forall i | 0 <= i < |rest| ensures Less(s[0].id, rest[i].id) {
        assert rest[i] in s[1..];
        var j :| 0 <= j < |s[1..]| && s[1..][j] == rest[i];
        assert s[j + 1] == rest[i];
      }
    }
  }
}
