/** `final_list.sort(key=lambda x: x['published'], reverse=True)`: records ordered
    newest first by their ISO-8601 `published` string. Python's sort is stable, also
    with `reverse=True`: records with equal timestamps keep their order. */
module Sorting {
  import opened Records
  import opened StringOrder

  /** No record is older than a record after it. */
  ghost predicate NewestFirst(s: seq<Video>) {
    forall p, q :: 0 <= p < q < |s| ==> Leq(s[q].published, s[p].published)
  }

  /** `[x]` when `x`'s timestamp is `k`, else nothing. */
  function Tie(x: Video, k: string): seq<Video> {
    if x.published == k then [x] else []
  }

  /** The records of `s` whose timestamp is `k`, in their order in `s`. */
  function WithPublished(s: seq<Video>, k: string): seq<Video>
    decreases |s|
  {
    if s == [] then [] else WithPublished(s[..|s| - 1], k) + Tie(s[|s| - 1], k)
  }

  lemma WithPublishedSnoc(u: seq<Video>, y: Video, k: string)
    ensures WithPublished(u + [y], k) == WithPublished(u, k) + Tie(y, k)
  {
    assert (u + [y])[..|u|] == u;
  }

  /** `t` with `x` placed after every record of `t`, counted from the end, that is
      not strictly older than `x`: where one step of the insertion sort leaves `x`. */
  function Insert(t: seq<Video>, x: Video): (r: seq<Video>)
    ensures multiset(r) == multiset(t) + multiset{x}
    decreases |t|
  {
    if t != [] && Less(t[|t| - 1].published, x.published) then
      assert t == t[..|t| - 1] + [t[|t| - 1]];
      Insert(t[..|t| - 1], x) + [t[|t| - 1]]
    else
      t + [x]
  }

  /** The stable newest-first sort of `s`: its records inserted one by one, in order. */
  function StableSort(s: seq<Video>): (r: seq<Video>)
    ensures multiset(r) == multiset(s)
    decreases |s|
  {
    if s == [] then []
    else
      assert s == s[..|s| - 1] + [s[|s| - 1]];
      Insert(StableSort(s[..|s| - 1]), s[|s| - 1])
  }

  /** Every record of `Insert(t, x)` is `x` or a record of `t`. */
  lemma InsertMember(t: seq<Video>, x: Video, z: Video)
    requires z in Insert(t, x)
    ensures z == x || z in t
  {
    assert z in multiset(Insert(t, x));
  }

  /** Appending a record no newer than any before it keeps a list newest first. */
  lemma NewestFirstSnoc(u: seq<Video>, y: Video)
    requires NewestFirst(u)
    requires forall p :: 0 <= p < |u| ==> Leq(y.published, u[p].published)
    ensures NewestFirst(u + [y])
  {
  }

  /** Inserting into a newest-first list keeps it newest first. */
  lemma {:induction false} InsertNewestFirst(t: seq<Video>, x: Video)
    requires NewestFirst(t)
    ensures NewestFirst(Insert(t, x))
    decreases |t|
  {
    if t == [] {
    } else {
      var t', y := t[..|t| - 1], t[|t| - 1];
      LeqTotal(x.published, y.published);
      if Less(y.published, x.published) {
        assert NewestFirst(t');
        InsertNewestFirst(t', x);
        var u := Insert(t', x);
        forall p | 0 <= p < |u|
          ensures Leq(y.published, u[p].published)
        {
          InsertMember(t', x, u[p]);
          if u[p] != x {
            var m :| 0 <= m < |t'| && t'[m] == u[p];
            assert t[m] == u[p];
          }
        }
        NewestFirstSnoc(u, y);
      } else {
        forall p | 0 <= p < |t|
          ensures Leq(x.published, t[p].published)
        {
          if p < |t| - 1 {
            LeqTransitive(x.published, y.published, t[p].published);
          }
        }
        NewestFirstSnoc(t, x);
      }
    }
  }

  /** Inserting `x` moves it only past records with other timestamps, so each
      timestamp's records keep their order, with `x` last among its own. */
  lemma {:induction false} InsertTies(t: seq<Video>, x: Video, k: string)
    ensures WithPublished(Insert(t, x), k) == WithPublished(t, k) + Tie(x, k)
    decreases |t|
  {
    if t != [] && Less(t[|t| - 1].published, x.published) {
      var t', y := t[..|t| - 1], t[|t| - 1];
      LeqReflexive(x.published);
      assert Tie(x, k) == [] || Tie(y, k) == [];
      calc {
        WithPublished(Insert(t, x), k);
        WithPublished(Insert(t', x) + [y], k);
        { WithPublishedSnoc(Insert(t', x), y, k); }
        WithPublished(Insert(t', x), k) + Tie(y, k);
        { InsertTies(t', x, k); }
        WithPublished(t', k) + Tie(x, k) + Tie(y, k);
        WithPublished(t', k) + Tie(y, k) + Tie(x, k);
        WithPublished(t, k) + Tie(x, k);
      }
    } else {
      WithPublishedSnoc(t, x, k);
    }
  }

  /** The records with timestamp `k` in a prefix of `s` are a prefix of those in `s`. */
  lemma {:induction false} WithPublishedPrefix(s: seq<Video>, n: nat, k: string)
    requires n <= |s|
    ensures WithPublished(s[..n], k) <= WithPublished(s, k)
    decreases |s|
  {
    if n < |s| {
      var s' := s[..|s| - 1];
      assert s'[..n] == s[..n];
      WithPublishedPrefix(s', n, k);
    } else {
      assert s[..n] == s;
    }
  }

  /** The sort is newest first. */
  lemma {:induction false} StableSortNewestFirst(s: seq<Video>)
    ensures NewestFirst(StableSort(s))
    decreases |s|
  {
    if s != [] {
      StableSortNewestFirst(s[..|s| - 1]);
      InsertNewestFirst(StableSort(s[..|s| - 1]), s[|s| - 1]);
    }
  }

  /** The sort is stable: the records with any one timestamp come out in the order
      they went in. */
  lemma {:induction false} StableSortTies(s: seq<Video>, k: string)
    ensures WithPublished(StableSort(s), k) == WithPublished(s, k)
    decreases |s|
  {
    if s != [] {
      var s', x := s[..|s| - 1], s[|s| - 1];
      calc {
        WithPublished(StableSort(s), k);
        WithPublished(Insert(StableSort(s'), x), k);
        { InsertTies(StableSort(s'), x, k); }
        WithPublished(StableSort(s'), k) + Tie(x, k);
        { StableSortTies(s', k); }
        WithPublished(s', k) + Tie(x, k);
        WithPublished(s, k);
      }
    }
  }

  /** When `x` is newer than every record of `t` from position `j` on, and the
      record before position `j` is not strictly older, the insertion puts `x` at
      position `j`. */
  lemma {:induction false} InsertAt(t: seq<Video>, x: Video, j: nat)
    requires j <= |t|
    requires forall p :: j <= p < |t| ==> Less(t[p].published, x.published)
    requires j == 0 || !Less(t[j - 1].published, x.published)
    ensures Insert(t, x) == t[..j] + [x] + t[j..]
    decreases |t|
  {
    if j < |t| {
      var t', y := t[..|t| - 1], t[|t| - 1];
      assert Insert(t, x) == Insert(t', x) + [y];
      InsertAt(t', x, j);
      SpliceSnoc(t, x, j);
    } else {
      assert t[..j] == t && t[j..] == [];
    }
  }

  lemma SpliceSnoc(t: seq<Video>, x: Video, j: nat)
    requires j < |t|
    ensures t[..|t| - 1][..j] + [x] + t[..|t| - 1][j..] + [t[|t| - 1]] == t[..j] + [x] + t[j..]
  {
    assert t[..|t| - 1][..j] == t[..j];
    assert t[..|t| - 1][j..] + [t[|t| - 1]] == t[j..];
  }

  /** `r` is `t` with `x` placed at position `j`. */
  lemma Spliced(t: seq<Video>, x: Video, j: nat, r: seq<Video>)
    requires j <= |t| && |r| == |t| + 1
    requires forall p :: 0 <= p < j ==> r[p] == t[p]
    requires r[j] == x
    requires forall p :: j < p <= |t| ==> r[p] == t[p - 1]
    ensures r == t[..j] + [x] + t[j..]
  {
  }

  method Swap(a: array<Video>, i: nat, j: nat)
    requires i < a.Length && j < a.Length
    modifies a
    ensures a[i] == old(a[j]) && a[j] == old(a[i])
    ensures forall p :: 0 <= p < a.Length && p != i && p != j ==> a[p] == old(a[p])
  {
    a[i], a[j] := a[j], a[i];
  }

  /** One pass of the insertion sort: `a[i]` moves left past the strictly older
      records of the sorted `a[..i]`. */
  method SiftLeft(a: array<Video>, i: nat)
    requires i < a.Length
    modifies a
    ensures a[..i + 1] == Insert(old(a[..i]), old(a[i]))
    ensures forall p :: i < p < a.Length ==> a[p] == old(a[p])
  {
    ghost var t, x := a[..i], a[i];
    var j := i;
    while j > 0 && Less(a[j - 1].published, a[j].published)
      invariant 0 <= j <= i
      invariant forall p :: 0 <= p < j ==> a[p] == t[p]
      invariant a[j] == x
      invariant forall p :: j < p <= i ==> a[p] == t[p - 1]
      invariant forall p :: i < p < a.Length ==> a[p] == old(a[p])
      invariant forall p :: j <= p < i ==> Less(t[p].published, x.published)
    {
      Swap(a, j - 1, j);
      j := j - 1;
    }
    Spliced(t, x, j, a[..i + 1]);
    InsertAt(t, x, j);
  }

  lemma StableSortStep(s: seq<Video>, i: nat)
    requires i < |s|
    ensures StableSort(s[..i + 1]) == Insert(StableSort(s[..i]), s[i])
  {
    assert s[..i + 1][..i] == s[..i];
  }

  /** Insertion sort, newest first: each record in turn moves left past the
      records before it that are strictly older. The result is `StableSort` of the
      old contents, so it is newest first (`StableSortNewestFirst`), a permutation
      (`StableSort`'s contract) and keeps equal timestamps in order
      (`StableSortTies`). */
  method SortByPublishedDescending(a: array<Video>)
    modifies a
    ensures a[..] == StableSort(old(a[..]))
  {
    ghost var s := a[..];
    var i := 0;
    while i < a.Length
      invariant i <= a.Length
      invariant a[..i] == StableSort(s[..i])
      invariant forall p :: i <= p < a.Length ==> a[p] == s[p]
    {
      StableSortStep(s, i);
      SiftLeft(a, i);
      i := i + 1;
    }
    assert a[..] == a[..i] && s == s[..i];
  }
}
