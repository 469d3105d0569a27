/**
 * The case-insensitive name lookup the views run against the exercise
 * catalog before adding to it.
 */
module Catalog {
  import opened Types
  import opened Text

  /**
   * `db.some(ex => ex.name.toLowerCase() === name.toLowerCase())`, scanning
   * from the front: true exactly when some entry's name equals `name` ignoring case.
   */
  predicate InCatalog(db: seq<CatalogEntry>, name: string): (found: bool)
    ensures found <==> exists k :: 0 <= k < |db| && ToLower(db[k].name) == ToLower(name)
  {
    if db == [] then false
    else if ToLower(db[0].name) == ToLower(name) then true
    else
      var found := InCatalog(db[1..], name);
      assert forall k :: 0 <= k < |db| - 1 ==> db[1..][k] == db[k + 1];
      found
  }

  /** After an entry is appended, the lookup also finds every name equal to its name ignoring case. */
  lemma InCatalogAppend(db: seq<CatalogEntry>, e: CatalogEntry, name: string)
    ensures InCatalog(db + [e], name) <==> InCatalog(db, name) || ToLower(e.name) == ToLower(name)
  {
    var db' := db + [e];
    assert forall k :: 0 <= k < |db| ==> db'[k] == db[k];
    assert db'[|db|] == e;
  }

  /** No two catalog names differ only in letter case. */
  predicate DistinctIgnoringCase(db: seq<CatalogEntry>) {
    forall i, j :: 0 <= i < j < |db| ==> ToLower(db[i].name) != ToLower(db[j].name)
  }

  /** Appending a name the lookup does not find keeps the names distinct ignoring case. */
  lemma AddUnknownKeepsDistinct(db: seq<CatalogEntry>, e: CatalogEntry)
    requires DistinctIgnoringCase(db)
    requires !InCatalog(db, e.name)
    ensures DistinctIgnoringCase(db + [e])
  {
    var db' := db + [e];
    forall i, j | 0 <= i < j < |db'| ensures ToLower(db'[i].name) != ToLower(db'[j].name) {
      assert db'[i] == db[i];
      if j == |db| {
        assert ToLower(db[i].name) != ToLower(e.name);
      } else {
        assert db'[j] == db[j];
      }
    }
  }

  /** `db.filter(ex => ex.muscleGroup === group)`: the entries of one group, in catalog order. */
  function InGroup(db: seq<CatalogEntry>, group: string): (r: seq<CatalogEntry>)
    ensures forall e :: e in r <==> e in db && e.muscleGroup == group
    ensures |r| <= |db|
  {
    if db == [] then []
    else
      InGroup(db[..|db| - 1], group) + (if db[|db| - 1].muscleGroup == group then [db[|db| - 1]] else [])
  }

  /** Filtering a concatenation filters each part: the group keeps catalog order. */
  lemma {:induction false} InGroupAppend(a: seq<CatalogEntry>, b: seq<CatalogEntry>, group: string)
    ensures InGroup(a + b, group) == InGroup(a, group) + InGroup(b, group)
  {
    if b == [] {
      assert a + b == a;
    } else {
      assert (a + b)[..|a + b| - 1] == a + b[..|b| - 1];
      InGroupAppend(a, b[..|b| - 1], group);
    }
  }

  /** The group holds each of its entries as many times as the catalog does. */
  lemma {:induction false} InGroupCounts(db: seq<CatalogEntry>, group: string, e: CatalogEntry)
    requires e.muscleGroup == group
    ensures multiset(InGroup(db, group))[e] == multiset(db)[e]
  {
    if db != [] {
      var init := db[..|db| - 1];
      assert db == init + [db[|db| - 1]];
      InGroupCounts(init, group, e);
    }
  }

  /** In a catalog of case-distinct names, no entry is found among the entries before it. */
  lemma DistinctPassesGuard(db: seq<CatalogEntry>)
    requires DistinctIgnoringCase(db)
    ensures forall i :: 0 <= i < |db| ==> !InCatalog(db[..i], db[i].name)
  {
    forall i | 0 <= i < |db| ensures !InCatalog(db[..i], db[i].name) {
      assert forall k :: 0 <= k < i ==> db[..i][k] == db[k];
    }
  }
}
