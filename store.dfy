/**
 * The catalog store (src/lib/store.ts): one mutable list of entries, newest
 * first, replaced wholesale by add, update and delete. The clock (`new Date()`)
 * and the id generator (`generateId`) are parameters of the operations.
 */
module Store {
  import opened Types
  import opened Seqs

  /** Some entry of `cs` has identifier `id`. */
  predicate HasId(cs: seq<Collection>, id: string) {
    exists i :: 0 <= i < |cs| && cs[i].id == id
  }

  /** No two entries of `cs` share an identifier. */
  predicate DistinctIds(cs: seq<Collection>) {
    forall i, j :: 0 <= i < j < |cs| ==> cs[i].id != cs[j].id
  }

  /** Every entry was last updated no earlier than it was created. */
  predicate TimesOrdered(cs: seq<Collection>) {
    forall i :: 0 <= i < |cs| ==> cs[i].createdAt <= cs[i].updatedAt
  }

  /** `Array.prototype.find` by id: the first entry with identifier `id`, if any. */
  function Find(cs: seq<Collection>, id: string): (r: Option<Collection>)
    ensures r.None? <==> !HasId(cs, id)
    ensures r.Some? ==> exists i :: 0 <= i < |cs| && cs[i] == r.value && r.value.id == id &&
                                    forall j :: 0 <= j < i ==> cs[j].id != id
  {
    if cs == [] then None
    else if cs[0].id == id then Some(cs[0])
    else
      var r := Find(cs[1..], id);
      assert HasId(cs[1..], id) ==> HasId(cs, id);
      assert HasId(cs, id) ==> HasId(cs[1..], id) by {
        if HasId(cs, id) {
          var i :| 0 <= i < |cs| && cs[i].id == id;
          assert cs[1..][i - 1].id == id;
        }
      }
      if r.Some? then
        ghost var i :| 0 <= i < |cs[1..]| && cs[1..][i] == r.value && r.value.id == id &&
                       forall j :: 0 <= j < i ==> cs[1..][j].id != id;
        assert cs[i + 1] == r.value && forall j :: 0 <= j < i + 1 ==> cs[j].id != id;
        r
      else
        r
  }

  /**
   * The list after `updateCollection(id, data)` at time `now`: `collections.map`
   * replacing each entry with identifier `id` by `Apply(entry, data, now)`.
   */
  function UpdateWhere(cs: seq<Collection>, id: string, data: CollectionFormData, now: Time): (r: seq<Collection>)
    ensures |r| == |cs|
    ensures forall i :: 0 <= i < |cs| ==> r[i] == if cs[i].id == id then Apply(cs[i], data, now) else cs[i]
  {
    if cs == [] then []
    else [if cs[0].id == id then Apply(cs[0], data, now) else cs[0]] + UpdateWhere(cs[1..], id, data, now)
  }

  /** The list after `deleteCollection(id)`: the entries whose identifier is not `id`. */
  function RemoveId(cs: seq<Collection>, id: string): (r: seq<Collection>)
    ensures |r| <= |cs|
  {
    Filter(cs, (c: Collection) => c.id != id)
  }

  /** The three entries the store starts with, stamped with the time `now` it was created. */
  function Seed(now: Time): (r: seq<Collection>)
    ensures |r| == 3
    ensures r[0].category == Video && r[1].category == Audio && r[2].category == Hadist
    ensures r[0].createdAt == now && r[1].createdAt == now && r[2].createdAt == now
    ensures r[0].updatedAt == now && r[1].updatedAt == now && r[2].updatedAt == now
    ensures r[0].id == "sample1" && r[1].id == "sample2" && r[2].id == "sample3"
  {
    [SampleVideo(now), SampleAudio(now), SampleHadist(now)]
  }

  /** The sample video entry. */
  function SampleVideo(now: Time): (c: Collection)
    ensures c.id == "sample1" && c.category == Video && c.createdAt == now && c.updatedAt == now
  {
    Collection("sample1", "Memahami Shalat dengan Benar", Video, "https://example.com/video1",
               "Pembahasan tentang tata cara shalat yang benar sesuai dengan sunah.",
               "https://images.unsplash.com/photo-1564694202883-46e7448c1b26?q=80&w=1000&auto=format&fit=crop",
               "Ustadz Abdul Somad", now, now)
  }

  /** The sample audio entry. */
  function SampleAudio(now: Time): (c: Collection)
    ensures c.id == "sample2" && c.category == Audio && c.createdAt == now && c.updatedAt == now
  {
    Collection("sample2", "Ceramah Puasa Ramadhan", Audio, "https://example.com/audio1",
               "Kajian tentang keutamaan puasa di bulan Ramadhan.",
               "https://images.unsplash.com/photo-1542816050-4b5eb09f2ab9?q=80&w=1000&auto=format&fit=crop",
               "Ustadz Adi Hidayat", now, now)
  }

  /** The sample hadist entry. */
  function SampleHadist(now: Time): (c: Collection)
    ensures c.id == "sample3" && c.category == Hadist && c.createdAt == now && c.updatedAt == now
  {
    Collection("sample3", "HR. Bukhari: Tentang Kebersihan", Hadist, "https://example.com/hadith1",
               "Hadist riwayat Bukhari tentang pentingnya menjaga kebersihan.",
               "https://images.unsplash.com/photo-1519817650390-64a93db51149?q=80&w=1000&auto=format&fit=crop",
               "Imam Bukhari", now, now)
  }

  /** The sample entries are one per category, with distinct identifiers. */
  lemma SeedShape(now: Time)
    ensures |Seed(now)| == 3 && DistinctIds(Seed(now)) && TimesOrdered(Seed(now))
    ensures Seed(now)[0].category == Video && Seed(now)[1].category == Audio && Seed(now)[2].category == Hadist
  {
    var cs := Seed(now);
    assert cs[0].id[6] == '1' && cs[1].id[6] == '2' && cs[2].id[6] == '3';
  }

  // ---------------------------------------------------------------------------
  // Add

  /** A freshly added entry is found under its own identifier. */
  lemma AddThenFind(cs: seq<Collection>, data: CollectionFormData, newId: string, now: Time)
    ensures Find([NewCollection(data, newId, now)] + cs, newId) == Some(NewCollection(data, newId, now))
  {
  }

  /** Identifiers stay pairwise distinct after an add, provided the generated one is fresh. */
  lemma AddKeepsIdsDistinct(cs: seq<Collection>, data: CollectionFormData, newId: string, now: Time)
    requires DistinctIds(cs) && !HasId(cs, newId)
    ensures DistinctIds([NewCollection(data, newId, now)] + cs)
  {
    var r := [NewCollection(data, newId, now)] + cs;
    forall i, j | 0 <= i < j < |r| ensures r[i].id != r[j].id {
      if i == 0 {
        assert r[j] == cs[j - 1];
      }
    }
  }

  /** Deleting the identifier of a fresh entry undoes its add. */
  lemma AddThenDelete(cs: seq<Collection>, data: CollectionFormData, newId: string, now: Time)
    requires !HasId(cs, newId)
    ensures RemoveId([NewCollection(data, newId, now)] + cs, newId) == cs
  {
    var p := (c: Collection) => c.id != newId;
    FilterCons(NewCollection(data, newId, now), cs, p);
    forall c | c in cs ensures p(c) {
      var i :| 0 <= i < |cs| && cs[i] == c;
    }
    FilterKeepsAll(cs, p);
  }

  // ---------------------------------------------------------------------------
  // Update

  /** An update changes no identifier, so it keeps them pairwise distinct. */
  lemma UpdateKeepsIds(cs: seq<Collection>, id: string, data: CollectionFormData, now: Time)
    ensures forall i :: 0 <= i < |cs| ==> UpdateWhere(cs, id, data, now)[i].id == cs[i].id
    ensures DistinctIds(cs) ==> DistinctIds(UpdateWhere(cs, id, data, now))
  {
  }

  /** An update for an identifier that is not present leaves the list as it was. */
  lemma {:induction false} UpdateMissing(cs: seq<Collection>, id: string, data: CollectionFormData, now: Time)
    requires !HasId(cs, id)
    ensures UpdateWhere(cs, id, data, now) == cs
  {
    if cs != [] {
      UpdateMissing(cs[1..], id, data, now);
      assert cs[0].id != id;
      assert cs == [cs[0]] + cs[1..];
    }
  }

  /** After an update, looking the identifier up gives the old entry with the new form data and time. */
  lemma UpdateThenFind(cs: seq<Collection>, id: string, data: CollectionFormData, now: Time)
    requires HasId(cs, id)
    ensures Find(UpdateWhere(cs, id, data, now), id) == Some(Apply(Find(cs, id).value, data, now))
  {
    var r := UpdateWhere(cs, id, data, now);
    var i := FirstPosition(cs, id);
    assert r[i] == Apply(cs[i], data, now);
    assert forall j :: 0 <= j < i ==> r[j].id != id by {
      forall j | 0 <= j < i ensures r[j].id != id {
        assert r[j] == cs[j];
      }
    }
    FindAt(r, id, i);
  }

  /** The position of the entry `Find` returns: the first one holding identifier `id`. */
  lemma FirstPosition(cs: seq<Collection>, id: string) returns (i: nat)
    requires HasId(cs, id)
    ensures i < |cs| && cs[i] == Find(cs, id).value && cs[i].id == id
    ensures forall j :: 0 <= j < i ==> cs[j].id != id
  {
    var found := Find(cs, id).value;
    i :| 0 <= i < |cs| && cs[i] == found && found.id == id && forall j :: 0 <= j < i ==> cs[j].id != id;
  }

  /** `Find` returns the entry at `i` when `i` is the first position holding identifier `id`. */
  lemma {:induction false} FindAt(cs: seq<Collection>, id: string, i: nat)
    requires i < |cs| && cs[i].id == id
    requires forall j :: 0 <= j < i ==> cs[j].id != id
    ensures Find(cs, id) == Some(cs[i])
  {
    if i > 0 {
      FindAt(cs[1..], id, i - 1);
    }
  }

  /** An update keeps every entry's creation time no later than its update time, if the clock has not gone back. */
  lemma UpdateKeepsTimesOrdered(cs: seq<Collection>, id: string, data: CollectionFormData, now: Time)
    requires TimesOrdered(cs)
    requires forall i :: 0 <= i < |cs| ==> cs[i].createdAt <= now
    ensures TimesOrdered(UpdateWhere(cs, id, data, now))
  {
  }

  // ---------------------------------------------------------------------------
  // Delete

  /**
   * Delete removes exactly the entries with identifier `id`: it keeps every other
   * entry as often as it occurred, in the original order.
   */
  lemma DeleteExact(cs: seq<Collection>, id: string)
    ensures IsSubsequence(RemoveId(cs, id), cs)
    ensures forall c :: c in RemoveId(cs, id) <==> c in cs && c.id != id
    ensures forall c: Collection :: c.id != id ==> multiset(RemoveId(cs, id))[c] == multiset(cs)[c]
    ensures !HasId(RemoveId(cs, id), id)
  {
    var p := (c: Collection) => c.id != id;
    FilterIsSubsequence(cs, p);
    FilterMembers(cs, p);
    FilterCounts(cs, p);
  }

  /** A second delete of the same identifier changes nothing. */
  lemma DeleteIdempotent(cs: seq<Collection>, id: string)
    ensures RemoveId(RemoveId(cs, id), id) == RemoveId(cs, id)
  {
    FilterIdempotent(cs, (c: Collection) => c.id != id);
  }

  /** After a delete the identifier is no longer found. */
  lemma DeleteThenFind(cs: seq<Collection>, id: string)
    ensures Find(RemoveId(cs, id), id) == None
  {
    DeleteExact(cs, id);
  }

  /**
   * With distinct identifiers, a delete shortens the list by exactly one when the
   * identifier is present and leaves it unchanged when it is not.
   */
  lemma DeleteLength(cs: seq<Collection>, id: string)
    requires DistinctIds(cs)
    ensures HasId(cs, id) ==> |RemoveId(cs, id)| == |cs| - 1
    ensures !HasId(cs, id) ==> RemoveId(cs, id) == cs
  {
    var p := (c: Collection) => c.id != id;
    if HasId(cs, id) {
      var i :| 0 <= i < |cs| && cs[i].id == id;
      assert cs == cs[..i] + [cs[i]] + cs[i + 1..];
      FilterAppend(cs[..i] + [cs[i]], cs[i + 1..], p);
      FilterAppend(cs[..i], [cs[i]], p);
      forall c | c in cs[..i] ensures p(c) {
        var j :| 0 <= j < i && cs[..i][j] == c;
      }
      forall c | c in cs[i + 1..] ensures p(c) {
        var j :| 0 <= j < |cs| - i - 1 && cs[i + 1..][j] == c;
        assert cs[i + 1 + j] == c;
      }
      FilterKeepsAll(cs[..i], p);
      FilterKeepsAll(cs[i + 1..], p);
      FilterCons(cs[i], [], p);
    } else {
      forall c | c in cs ensures p(c) {
        var j :| 0 <= j < |cs| && cs[j] == c;
      }
      FilterKeepsAll(cs, p);
    }
  }

  /** Keeping only some entries keeps identifiers pairwise distinct. */
  lemma {:induction false} FilterKeepsIdsDistinct(cs: seq<Collection>, p: Collection -> bool)
    requires DistinctIds(cs)
    ensures DistinctIds(Filter(cs, p))
  {
    if cs != [] {
      var rest := cs[1..];
      assert DistinctIds(rest) by {
        forall i, j | 0 <= i < j < |rest| ensures rest[i].id != rest[j].id {
          assert rest[i] == cs[i + 1] && rest[j] == cs[j + 1];
        }
      }
      FilterKeepsIdsDistinct(rest, p);
      if p(cs[0]) {
        FilterMembers(rest, p);
        var r := [cs[0]] + Filter(rest, p);
        forall i, j | 0 <= i < j < |r| ensures r[i].id != r[j].id {
          if i == 0 {
            assert r[j] in Filter(rest, p);
            var m :| 0 <= m < |rest| && rest[m] == r[j];
            assert cs[m + 1] == r[j];
          }
        }
      }
    }
  }

  /** A delete keeps identifiers pairwise distinct. */
  lemma DeleteKeepsIdsDistinct(cs: seq<Collection>, id: string)
    requires DistinctIds(cs)
    ensures DistinctIds(RemoveId(cs, id))
  {
    FilterKeepsIdsDistinct(cs, (c: Collection) => c.id != id);
  }

  /** A delete keeps every remaining entry's creation time no later than its update time. */
  lemma DeleteKeepsTimesOrdered(cs: seq<Collection>, id: string)
    requires TimesOrdered(cs)
    ensures TimesOrdered(RemoveId(cs, id))
  {
    var r := RemoveId(cs, id);
    DeleteExact(cs, id);
    forall i | 0 <= i < |r| ensures r[i].createdAt <= r[i].updatedAt {
      assert r[i] in r;
      var j :| 0 <= j < |cs| && cs[j] == r[i];
    }
  }

  /** An add keeps every entry's creation time no later than its update time. */
  lemma AddKeepsTimesOrdered(cs: seq<Collection>, data: CollectionFormData, newId: string, now: Time)
    requires TimesOrdered(cs)
    ensures TimesOrdered([NewCollection(data, newId, now)] + cs)
  {
    var r := [NewCollection(data, newId, now)] + cs;
    forall i | 0 < i < |r| ensures r[i].createdAt <= r[i].updatedAt {
      assert r[i] == cs[i - 1];
    }
  }

  /** The catalog store: the list of entries it exclusively owns. */
  class CollectionStore {
    var collections: seq<Collection>

    /** The store as created: the three sample entries. */
    constructor (now: Time)
      ensures collections == Seed(now)
      ensures DistinctIds(collections) && TimesOrdered(collections)
    {
      SeedShape(now);
      collections := Seed(now);
    }

    /**
     * `addCollection`: prepends a new entry built from `data`, with identifier
     * `newId` (the generator's output) and both timestamps `now`; returns its id.
     */
    method AddCollection(data: CollectionFormData, newId: string, now: Time) returns (id: string)
      modifies this
      ensures id == newId
      ensures collections == [NewCollection(data, newId, now)] + old(collections)
      ensures old(DistinctIds(collections)) && !old(HasId(collections, newId)) ==> DistinctIds(collections)
      ensures old(TimesOrdered(collections)) ==> TimesOrdered(collections)
    {
      var entry := NewCollection(data, newId, now);
      if DistinctIds(collections) && !HasId(collections, newId) {
        AddKeepsIdsDistinct(collections, data, newId, now);
      }
      if TimesOrdered(collections) {
        AddKeepsTimesOrdered(collections, data, newId, now);
      }
      collections := [entry] + collections;
      id := entry.id;
    }

    /** `updateCollection`: rewrites every entry with identifier `id`; a missing id changes nothing. */
    method UpdateCollection(id: string, data: CollectionFormData, now: Time)
      modifies this
      ensures collections == UpdateWhere(old(collections), id, data, now)
      ensures !old(HasId(collections, id)) ==> collections == old(collections)
      ensures old(DistinctIds(collections)) ==> DistinctIds(collections)
      ensures old(TimesOrdered(collections)) && (forall i :: 0 <= i < old(|collections|) ==> old(collections[i].createdAt) <= now) ==>
        TimesOrdered(collections)
    {
      if !HasId(collections, id) {
        UpdateMissing(collections, id, data, now);
      }
      UpdateKeepsIds(collections, id, data, now);
      if TimesOrdered(collections) && forall i :: 0 <= i < |collections| ==> collections[i].createdAt <= now {
        UpdateKeepsTimesOrdered(collections, id, data, now);
      }
      collections := UpdateWhere(collections, id, data, now);
    }

    /** `deleteCollection`: drops every entry with identifier `id`. */
    method DeleteCollection(id: string)
      modifies this
      ensures collections == RemoveId(old(collections), id)
      ensures !HasId(collections, id)
      ensures old(DistinctIds(collections)) ==> DistinctIds(collections)
      ensures old(TimesOrdered(collections)) ==> TimesOrdered(collections)
    {
      DeleteExact(collections, id);
      if DistinctIds(collections) {
        DeleteKeepsIdsDistinct(collections, id);
      }
      if TimesOrdered(collections) {
        DeleteKeepsTimesOrdered(collections, id);
      }
      collections := RemoveId(collections, id);
    }

    /** `getCollection`: the first entry with identifier `id`, or nothing. */
    method GetCollection(id: string) returns (r: Option<Collection>)
      ensures r == Find(collections, id)
      ensures r.Some? ==> r.value in collections && r.value.id == id
      ensures r.None? <==> !HasId(collections, id)
    {
      r := Find(collections, id);
    }
  }
}
