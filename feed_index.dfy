/** The id-keyed collection the feed job fills: a Python dict from video id to
    record, which keeps its keys in first-insertion order. */
module FeedIndex {
  import opened Records

  /** `entries` maps each id to its record; `order` lists the ids in the order
      they were first inserted (overwriting a key keeps its position). */
  datatype Index = Index(entries: map<string, Video>, order: seq<string>)

  const Empty: Index := Index(map[], [])

  predicate Distinct(s: seq<string>) {
    forall p, q :: 0 <= p < q < |s| ==> s[p] != s[q]
  }

  /** `order` lists each key once, and every record is stored under its own id. */
  ghost predicate Valid(d: Index) {
    && Distinct(d.order)
    && (forall k :: k in d.entries <==> k in d.order)
    && (forall k :: k in d.entries ==> d.entries[k].id == k)
  }

  /** The ids of some records. */
  function Ids(vs: seq<Video>): set<string> {
    set v | v in vs :: v.id
  }

  /** `vs[i]` is the last record of `vs` with its id. */
  predicate LastWithId(vs: seq<Video>, i: nat)
    requires i < |vs|
  {
    forall j :: i < j < |vs| ==> vs[j].id != vs[i].id
  }

  /** `d[v['id']] = v`. */
  function Put(d: Index, v: Video): Index {
    Index(d.entries[v.id := v], if v.id in d.entries then d.order else d.order + [v.id])
  }

  /** `for v in vs: d[v['id']] = v`, as the writes made so far. */
  function PutAll(d: Index, vs: seq<Video>): Index
    decreases |vs|
  {
    if vs == [] then d else Put(PutAll(d, vs[..|vs| - 1]), vs[|vs| - 1])
  }

  lemma PutValid(d: Index, v: Video)
    requires Valid(d)
    ensures Valid(Put(d, v))
    ensures d.order <= Put(d, v).order
  {
  }

  lemma IdsSnoc(vs: seq<Video>)
    requires vs != []
    ensures Ids(vs) == Ids(vs[..|vs| - 1]) + {vs[|vs| - 1].id}
  {
    assert vs == vs[..|vs| - 1] + [vs[|vs| - 1]];
  }

  /** The ids present after the writes are the earlier ids and the ids written;
      the index stays valid, and earlier ids keep their positions. */
  lemma {:induction false} PutAllShape(d: Index, vs: seq<Video>)
    requires Valid(d)
    ensures PutAll(d, vs).entries.Keys == d.entries.Keys + Ids(vs)
    ensures Valid(PutAll(d, vs))
    ensures d.order <= PutAll(d, vs).order
    decreases |vs|
  {
    if vs != [] {
      PutAllShape(d, vs[..|vs| - 1]);
      IdsSnoc(vs);
      PutValid(PutAll(d, vs[..|vs| - 1]), vs[|vs| - 1]);
    }
  }

  /** Last write wins: an id written by `vs` maps to the last record of `vs` with it. */
  lemma {:induction false} PutAllLastWins(d: Index, vs: seq<Video>, i: nat)
    requires i < |vs| && LastWithId(vs, i)
    ensures vs[i].id in PutAll(d, vs).entries
    ensures PutAll(d, vs).entries[vs[i].id] == vs[i]
    decreases |vs|
  {
    if i < |vs| - 1 {
      var init := vs[..|vs| - 1];
      assert LastWithId(init, i);
      PutAllLastWins(d, init, i);
    }
  }

  /** An id that `vs` never writes keeps its earlier record. */
  lemma {:induction false} PutAllKeepsOthers(d: Index, vs: seq<Video>, k: string)
    requires k in d.entries && k !in Ids(vs)
    ensures k in PutAll(d, vs).entries && PutAll(d, vs).entries[k] == d.entries[k]
    decreases |vs|
  {
    if vs != [] {
      IdsSnoc(vs);
      PutAllKeepsOthers(d, vs[..|vs| - 1], k);
    }
  }

  /** `list(d.values())`: the records in insertion order of their ids. The two
      ensures only unfold this definition for callers; `ValuesPut` and
      `ValuesAreEntries` state what the list promises. */
  function Values(d: Index): (vs: seq<Video>)
    requires Valid(d)
    ensures |vs| == |d.order|
    ensures forall i :: 0 <= i < |vs| ==> vs[i] == d.entries[d.order[i]]
  {
    seq(|d.order|, i requires 0 <= i < |d.order| => d.entries[d.order[i]])
  }

  /** One write keeps the values list in insertion order: overwriting an id
      replaces its record in place, a new id appends its record at the end. */
  lemma ValuesPut(d: Index, v: Video)
    requires Valid(d)
    ensures Valid(Put(d, v))
    ensures v.id in d.entries ==>
              |Values(Put(d, v))| == |Values(d)| &&
              forall i :: 0 <= i < |Values(d)| ==>
                Values(Put(d, v))[i] == if d.order[i] == v.id then v else Values(d)[i]
    ensures v.id !in d.entries ==> Values(Put(d, v)) == Values(d) + [v]
  {
    PutValid(d, v);
    if v.id !in d.entries {
      assert forall i :: 0 <= i < |d.order| ==> d.order[i] != v.id;
    }
  }

  /** Writing two runs of records one after the other is writing their concatenation. */
  lemma {:induction false} PutAllAppend(d: Index, a: seq<Video>, b: seq<Video>)
    ensures PutAll(d, a + b) == PutAll(PutAll(d, a), b)
    decreases |b|
  {
    if b == [] {
      assert a + b == a;
    } else {
      var b' := b[..|b| - 1];
      assert (a + b)[..|a + b| - 1] == a + b';
      PutAllAppend(d, a, b');
    }
  }

  lemma {:induction false} DistinctCardinality(s: seq<string>)
    requires Distinct(s)
    ensures |set k | k in s| == |s|
  {
    if s != [] {
      var rest := s[1..];
      assert Distinct(rest);
      DistinctCardinality(rest);
      assert (set k | k in s) == {s[0]} + (set k | k in rest);
      assert s[0] !in rest;
    }
  }

  /** A valid index holds as many records as its order lists ids. */
  lemma EntryCount(d: Index)
    requires Valid(d)
    ensures |d.entries| == |d.order|
  {
    DistinctCardinality(d.order);
    assert d.entries.Keys == set k | k in d.order;
  }

  /** The values list is the map's values, once each: its length is the number of
      ids, no two of its records share an id, and each record is the one stored
      under its id. */
  lemma ValuesAreEntries(d: Index)
    requires Valid(d)
    ensures |Values(d)| == |d.entries|
    ensures forall p, q :: 0 <= p < q < |Values(d)| ==> Values(d)[p].id != Values(d)[q].id
    ensures forall i :: 0 <= i < |Values(d)| ==>
              Values(d)[i].id in d.entries && d.entries[Values(d)[i].id] == Values(d)[i]
    ensures forall k :: k in d.entries ==> d.entries[k] in Values(d)
  {
    var vs := Values(d);
    EntryCount(d);
    assert forall i :: 0 <= i < |vs| ==> vs[i].id == d.order[i];
    forall k | k in d.entries
      ensures d.entries[k] in vs
    {
      var i :| 0 <= i < |d.order| && d.order[i] == k;
      assert vs[i] == d.entries[k];
    }
  }
}
