/**
 An insertion-ordered dictionary from `country_id` to its entry, represented
 as the sequence of its values in insertion order. This is what the merge of
 a record's country list builds: looking a key up finds its position,
 assigning to a present key overwrites the entry where it stands, and
 assigning to an absent key appends it.
 */
module CountryMap {
  import opened Wrappers
  import opened Models

  /** The keys of an ordered map, in order. */
  function Ids(cs: seq<Country>): seq<string>
  {
    seq(|cs|, i requires 0 <= i < |cs| => cs[i].id)
  }

  /** The keys of an ordered map, as a set. */
  function IdSet(cs: seq<Country>): set<string>
  {
    set x | x in Ids(cs)
  }

  /** No two entries share a `country_id`. */
  ghost predicate UniqueIds(cs: seq<Country>)
  {
    forall i, j :: 0 <= i < j < |cs| ==> cs[i].id != cs[j].id
  }

  /** Position of the first entry keyed by `id`, or `|m|` when there is none. */
  function IndexOf(m: seq<Country>, id: string): (k: nat)
    ensures k <= |m|
    ensures k < |m| ==> m[k].id == id
    ensures forall j :: 0 <= j < k ==> m[j].id != id
  {
    if m == [] then 0
    else if m[0].id == id then 0
    else 1 + IndexOf(m[1..], id)
  }

  /** `m[c.id] = c`: overwrite in place when the key is present, append otherwise. */
  function Upsert(m: seq<Country>, c: Country): seq<Country>
  {
    var k := IndexOf(m, c.id);
    if k < |m| then m[k := c] else m + [c]
  }

  /** Assign every entry of `cs` into `m`, from first to last. */
  function UpsertAll(m: seq<Country>, cs: seq<Country>): seq<Country>
    decreases |cs|
  {
    if cs == [] then m
    else Upsert(UpsertAll(m, cs[..|cs| - 1]), cs[|cs| - 1])
  }

  /** The probability stored under `id`, if any. */
  function Lookup(m: seq<Country>, id: string): Option<Prob>
  {
    var k := IndexOf(m, id);
    if k < |m| then Some(m[k].probability) else None
  }

  /** Reference definition: the probability of the LAST entry of `cs` keyed by `id`. */
  function LastProb(cs: seq<Country>, id: string): Option<Prob>
    decreases |cs|
  {
    if cs == [] then None
    else if cs[|cs| - 1].id == id then Some(cs[|cs| - 1].probability)
    else LastProb(cs[..|cs| - 1], id)
  }

  /** Reference definition: the ids of `ids` not in `seen`, each once, in the
      order of their first occurrence in `ids`. */
  function Fresh(seen: set<string>, ids: seq<string>): seq<string>
    decreases |ids|
  {
    if ids == [] then []
    else
      var f := Fresh(seen, ids[..|ids| - 1]);
      var x := ids[|ids| - 1];
      if x in seen || x in f then f else f + [x]
  }

  /** Position of the first occurrence of `x` in `s`, or `|s|` when there is none. */
  function FirstIndex(s: seq<string>, x: string): (k: nat)
    ensures k <= |s|
    ensures k < |s| ==> s[k] == x
    ensures forall j :: 0 <= j < k ==> s[j] != x
  {
    if s == [] then 0
    else if s[0] == x then 0
    else 1 + FirstIndex(s[1..], x)
  }

  /** The ids of `ids`, each once, in the order of their first occurrence. */
  function Dedup(ids: seq<string>): seq<string>
  {
    Fresh({}, ids)
  }

  /** The country-list merge: a dictionary built from the existing list, then
      every incoming entry assigned into it; the result is its values. */
  function Merge(existing: seq<Country>, incoming: seq<Country>): seq<Country>
  {
    UpsertAll(UpsertAll([], existing), incoming)
  }

  // ---------------------------------------------------------------------
  // Lookup by position

  lemma IndexOfFirst(m: seq<Country>, id: string, k: nat)
    requires k < |m| && m[k].id == id
    requires forall j :: 0 <= j < k ==> m[j].id != id
    ensures IndexOf(m, id) == k
  {
  }

  lemma IndexOfAbsent(m: seq<Country>, id: string)
    requires forall j :: 0 <= j < |m| ==> m[j].id != id
    ensures IndexOf(m, id) == |m|
  {
  }

  /** A key is found exactly when it is one of the map's keys. */
  lemma IndexOfFound(m: seq<Country>, id: string)
    ensures IndexOf(m, id) < |m| <==> id in IdSet(m)
  {
    if id in Ids(m) {
      var j :| 0 <= j < |m| && Ids(m)[j] == id;
      assert m[j].id == id;
    }
    if IndexOf(m, id) < |m| {
      assert Ids(m)[IndexOf(m, id)] == id;
    }
  }

  /** In a map without duplicate keys, every entry is what its key looks up. */
  lemma LookupAt(m: seq<Country>, i: nat)
    requires UniqueIds(m) && i < |m|
    ensures Lookup(m, m[i].id) == Some(m[i].probability)
  {
    IndexOfFirst(m, m[i].id, i);
  }

  /** Two maps without duplicate keys that have the same keys in the same order
      and agree on every lookup are the same map. */
  lemma Extensionality(a: seq<Country>, b: seq<Country>)
    requires UniqueIds(a) && UniqueIds(b)
    requires Ids(a) == Ids(b)
    requires forall id :: Lookup(a, id) == Lookup(b, id)
    ensures a == b
  {
    assert |a| == |Ids(a)| == |b|;
    forall i | 0 <= i < |a|
      ensures a[i] == b[i]
    {
      assert a[i].id == Ids(a)[i] == b[i].id;
      LookupAt(a, i);
      LookupAt(b, i);
    }
  }

  // ---------------------------------------------------------------------
  // One assignment

  lemma UpsertIds(m: seq<Country>, c: Country)
    ensures Ids(Upsert(m, c)) == if c.id in IdSet(m) then Ids(m) else Ids(m) + [c.id]
  {
    IndexOfFound(m, c.id);
    var k := IndexOf(m, c.id);
    if k < |m| {
      assert Ids(m[k := c]) == Ids(m);
    } else {
      assert Ids(m + [c]) == Ids(m) + [c.id];
    }
  }

  lemma UpsertLookup(m: seq<Country>, c: Country, id: string)
    ensures Lookup(Upsert(m, c), id) == if id == c.id then Some(c.probability) else Lookup(m, id)
  {
    var k := IndexOf(m, c.id);
    var m' := Upsert(m, c);
    assert m'[k] == c;
    assert forall j :: 0 <= j < |m'| && j != k ==> m'[j] == m[j];
    if id == c.id {
      IndexOfFirst(m', id, k);
    } else {
      var r := IndexOf(m, id);
      if r < |m| {
        IndexOfFirst(m', id, r);
      } else {
        IndexOfAbsent(m', id);
      }
    }
  }

  lemma UpsertUnique(m: seq<Country>, c: Country)
    requires UniqueIds(m)
    ensures UniqueIds(Upsert(m, c))
  {
  }

  // ---------------------------------------------------------------------
  // A sequence of assignments

  lemma {:induction false} UpsertAllUnique(m: seq<Country>, cs: seq<Country>)
    requires UniqueIds(m)
    ensures UniqueIds(UpsertAll(m, cs))
    decreases |cs|
  {
    if cs != [] {
      UpsertAllUnique(m, cs[..|cs| - 1]);
      UpsertUnique(UpsertAll(m, cs[..|cs| - 1]), cs[|cs| - 1]);
    }
  }

  lemma IdsPrefix(cs: seq<Country>)
    requires cs != []
    ensures Ids(cs)[..|cs| - 1] == Ids(cs[..|cs| - 1])
    ensures Ids(cs)[|cs| - 1] == cs[|cs| - 1].id
  {
  }

  /** Assigning `cs` keeps the keys of `m` in place and appends the new keys in
      the order they first occur in `cs`. */
  lemma {:induction false} UpsertAllIds(m: seq<Country>, cs: seq<Country>)
    ensures Ids(UpsertAll(m, cs)) == Ids(m) + Fresh(IdSet(m), Ids(cs))
    decreases |cs|
  {
    if cs == [] {
      assert Ids(cs) == [];
    } else {
      var p, c := cs[..|cs| - 1], cs[|cs| - 1];
      var acc := UpsertAll(m, p);
      UpsertAllIds(m, p);
      IdsPrefix(cs);
      UpsertIds(acc, c);
      var f := Fresh(IdSet(m), Ids(p));
      assert Ids(acc) == Ids(m) + f;
      assert c.id in IdSet(acc) <==> c.id in IdSet(m) || c.id in f by {
        assert c.id in IdSet(acc) <==> c.id in Ids(m) + f;
      }
    }
  }

  /** The last assignment to a key wins; keys not assigned keep their value. */
  lemma {:induction false} UpsertAllLookup(m: seq<Country>, cs: seq<Country>, id: string)
    ensures Lookup(UpsertAll(m, cs), id) == if LastProb(cs, id).Some? then LastProb(cs, id) else Lookup(m, id)
    decreases |cs|
  {
    if cs != [] {
      UpsertAllLookup(m, cs[..|cs| - 1], id);
      UpsertLookup(UpsertAll(m, cs[..|cs| - 1]), cs[|cs| - 1], id);
    }
  }

  /** A list without duplicate ids, assigned into an empty map, gives back itself. */
  lemma {:induction false} UpsertAllOfUnique(s: seq<Country>)
    requires UniqueIds(s)
    ensures UpsertAll([], s) == s
    decreases |s|
  {
    if s != [] {
      var p, c := s[..|s| - 1], s[|s| - 1];
      UpsertAllOfUnique(p);
      IndexOfAbsent(p, c.id);
      assert p + [c] == s;
    }
  }

  lemma {:induction false} LastProbFound(cs: seq<Country>, id: string)
    ensures LastProb(cs, id).Some? <==> id in IdSet(cs)
    decreases |cs|
  {
    if cs != [] {
      var p := cs[..|cs| - 1];
      LastProbFound(p, id);
      IdsPrefix(cs);
      assert Ids(cs) == Ids(p) + [cs[|cs| - 1].id];
    }
  }

  lemma {:induction false} FreshMembers(seen: set<string>, ids: seq<string>, x: string)
    ensures x in Fresh(seen, ids) <==> x in ids && x !in seen
    decreases |ids|
  {
    if ids != [] {
      var p := ids[..|ids| - 1];
      FreshMembers(seen, p, x);
      assert ids == p + [ids[|ids| - 1]];
    }
  }

  lemma {:induction false} FreshDistinct(seen: set<string>, ids: seq<string>)
    ensures forall i, j :: 0 <= i < j < |Fresh(seen, ids)| ==> Fresh(seen, ids)[i] != Fresh(seen, ids)[j]
    decreases |ids|
  {
    if ids != [] {
      FreshDistinct(seen, ids[..|ids| - 1]);
    }
  }

  lemma FirstIndexIs(s: seq<string>, x: string, k: nat)
    requires k < |s| && s[k] == x
    requires forall j :: 0 <= j < k ==> s[j] != x
    ensures FirstIndex(s, x) == k
  {
  }

  /** `Fresh` lists its ids in the order of their first occurrence in `ids`. */
  lemma {:induction false} FreshOrder(seen: set<string>, ids: seq<string>)
    ensures forall i, j :: 0 <= i < j < |Fresh(seen, ids)| ==>
              FirstIndex(ids, Fresh(seen, ids)[i]) < FirstIndex(ids, Fresh(seen, ids)[j])
    decreases |ids|
  {
    if ids != [] {
      var p, x := ids[..|ids| - 1], ids[|ids| - 1];
      var f := Fresh(seen, p);
      FreshOrder(seen, p);
      forall y | y in f
        ensures FirstIndex(p, y) < |p| && FirstIndex(ids, y) == FirstIndex(p, y)
      {
        FreshMembers(seen, p, y);
        var k := FirstIndex(p, y);
        FirstIndexIs(ids, y, k);
      }
      if !(x in seen || x in f) {
        FreshMembers(seen, p, x);
        FirstIndexIs(ids, x, |p|);
      }
    }
  }

  lemma {:induction false} FreshOfSeen(seen: set<string>, ids: seq<string>)
    requires forall x :: x in ids ==> x in seen
    ensures Fresh(seen, ids) == []
    decreases |ids|
  {
    if ids != [] {
      assert ids[|ids| - 1] in ids;
      FreshOfSeen(seen, ids[..|ids| - 1]);
    }
  }

  // ---------------------------------------------------------------------
  // Laws of the merge

  /** After the merge no two entries share a `country_id`. */
  lemma MergeUnique(existing: seq<Country>, incoming: seq<Country>)
    ensures UniqueIds(Merge(existing, incoming))
  {
    UpsertAllUnique([], existing);
    UpsertAllUnique(UpsertAll([], existing), incoming);
  }

  /** The merged ids are exactly the existing ids and the incoming ids. */
  lemma MergeIdSet(existing: seq<Country>, incoming: seq<Country>)
    ensures IdSet(Merge(existing, incoming)) == IdSet(existing) + IdSet(incoming)
  {
    var base := UpsertAll([], existing);
    UpsertAllIds([], existing);
    UpsertAllIds(base, incoming);
    assert Ids([]) == [] && IdSet([]) == {};
    assert Ids(base) == Fresh({}, Ids(existing));
    var merged := Merge(existing, incoming);
    forall x
      ensures x in IdSet(merged) <==> x in IdSet(existing) || x in IdSet(incoming)
    {
      FreshMembers({}, Ids(existing), x);
      FreshMembers(IdSet(base), Ids(incoming), x);
      assert x in Ids(merged) <==> x in Ids(base) || x in Fresh(IdSet(base), Ids(incoming));
    }
  }

  /** Every id carries the probability of its last incoming entry; an id that is
      not incoming keeps the probability it had (the last existing entry's, as
      the dictionary built from the existing list keeps the last duplicate). */
  lemma MergeLookup(existing: seq<Country>, incoming: seq<Country>, id: string)
    ensures Lookup(Merge(existing, incoming), id)
         == if id in IdSet(incoming) then LastProb(incoming, id) else LastProb(existing, id)
  {
    UpsertAllLookup(UpsertAll([], existing), incoming, id);
    UpsertAllLookup([], existing, id);
    LastProbFound(incoming, id);
    LastProbFound(existing, id);
    assert Lookup([], id) == None;
  }

  /** Ordering: the existing ids come first, once each, in the order of their
      first occurrence; the ids not previously present follow in the order of
      their first occurrence among the incoming entries. */
  lemma MergeOrder(existing: seq<Country>, incoming: seq<Country>)
    ensures Ids(Merge(existing, incoming)) == Dedup(Ids(existing)) + Fresh(IdSet(existing), Ids(incoming))
  {
    var base := UpsertAll([], existing);
    UpsertAllIds([], existing);
    UpsertAllIds(base, incoming);
    assert Ids([]) == [] && IdSet([]) == {};
    assert Ids(base) == Dedup(Ids(existing));
    forall x
      ensures x in IdSet(base) <==> x in IdSet(existing)
    {
      FreshMembers({}, Ids(existing), x);
    }
    assert IdSet(base) == IdSet(existing);
  }

  /** When the existing list has no duplicate ids, each existing entry keeps its
      position; its probability is overwritten only by an incoming entry with
      the same id, and then by the last one. */
  lemma MergeInPlace(existing: seq<Country>, incoming: seq<Country>, i: nat)
    requires UniqueIds(existing) && i < |existing|
    ensures i < |Merge(existing, incoming)|
    ensures Merge(existing, incoming)[i].id == existing[i].id
    ensures existing[i].id !in IdSet(incoming) ==> Merge(existing, incoming)[i] == existing[i]
    ensures existing[i].id in IdSet(incoming) ==>
              Some(Merge(existing, incoming)[i].probability) == LastProb(incoming, existing[i].id)
  {
    var merged := Merge(existing, incoming);
    UpsertAllOfUnique(existing);
    UpsertAllIds(existing, incoming);
    assert Ids(merged)[i] == Ids(existing)[i];
    assert merged[i].id == Ids(merged)[i];
    MergeUnique(existing, incoming);
    LookupAt(merged, i);
    LookupAt(existing, i);
    UpsertAllLookup(existing, incoming, existing[i].id);
    LastProbFound(incoming, existing[i].id);
  }

  /** Assigning the same entries a second time changes nothing. */
  lemma UpsertAllTwice(m: seq<Country>, cs: seq<Country>)
    requires UniqueIds(m)
    ensures UpsertAll(UpsertAll(m, cs), cs) == UpsertAll(m, cs)
  {
    var once := UpsertAll(m, cs);
    var twice := UpsertAll(once, cs);
    UpsertAllUnique(m, cs);
    UpsertAllUnique(once, cs);
    UpsertAllIds(once, cs);
    UpsertAllIds(m, cs);
    forall x | x in Ids(cs)
      ensures x in IdSet(once)
    {
      FreshMembers(IdSet(m), Ids(cs), x);
    }
    FreshOfSeen(IdSet(once), Ids(cs));
    assert Ids(twice) == Ids(once);
    forall id
      ensures Lookup(twice, id) == Lookup(once, id)
    {
      UpsertAllLookup(once, cs, id);
      UpsertAllLookup(m, cs, id);
    }
    Extensionality(twice, once);
  }

  /** Idempotence: merging the same incoming list twice gives the same list as
      merging it once. */
  lemma MergeIdempotent(existing: seq<Country>, incoming: seq<Country>)
    ensures Merge(Merge(existing, incoming), incoming) == Merge(existing, incoming)
  {
    var base := UpsertAll([], existing);
    var once := Merge(existing, incoming);
    UpsertAllUnique([], existing);
    MergeUnique(existing, incoming);
    UpsertAllOfUnique(once);
    UpsertAllTwice(base, incoming);
  }

}
