/**
 * The library screen (src/components/LibraryView.tsx): template cards with a
 * short preview of their exercises, and the exercise catalog grouped by
 * muscle group with `reduce` into an object of arrays. The object is a list
 * of keys in insertion order beside a map from key to array, which is how
 * `Object.entries` sees an object whose keys are not integer-like.
 */
module Library {
  import opened Wrappers
  import opened Types
  import opened Text
  import opened Catalog
  import opened Seqs

  // ---- the templates tab ----

  /** How many exercise names a card lists before the "+k more" line. */
  const PreviewLength := 3

  /** A card's preview: the names listed, and the "+k more" line when there is one. */
  datatype Preview = Preview(names: seq<string>, moreLine: Option<string>)

  /** The first three exercise names, then "+k more" for the k not listed. */
  function TemplatePreview(t: WorkoutTemplate): (p: Preview)
    ensures |p.names| == if |t.exercises| < PreviewLength then |t.exercises| else PreviewLength
    ensures forall i :: 0 <= i < |p.names| ==> p.names[i] == t.exercises[i].name
    ensures p.moreLine.Some? <==> |t.exercises| > PreviewLength
  {
    var shown := if |t.exercises| < PreviewLength then t.exercises else t.exercises[..PreviewLength];
    var names := seq(|shown|, i requires 0 <= i < |shown| => shown[i].name);
    if |t.exercises| > PreviewLength then
      Preview(names, Some("+" + NatToString(|t.exercises| - PreviewLength) + " more"))
    else
      Preview(names, None)
  }

  /** The number a "+k more" line announces, read back from the text. */
  function HiddenCount(line: string): Option<nat> {
    if |line| >= 6 && line[0] == '+' && line[|line| - 5..] == " more" then ParseNat(line[1..|line| - 5])
    else None
  }

  /** The names listed and the count the "+k more" line announces add up to the exercises. */
  lemma PreviewCoversAll(t: WorkoutTemplate)
    ensures var p := TemplatePreview(t);
      |p.names| + (if p.moreLine.Some? then HiddenCount(p.moreLine.value).value else 0) == |t.exercises|
    ensures var p := TemplatePreview(t);
      p.moreLine.Some? ==> HiddenCount(p.moreLine.value) == Some(|t.exercises| - PreviewLength)
  {
    var p := TemplatePreview(t);
    if |t.exercises| > PreviewLength {
      var digits := NatToString(|t.exercises| - PreviewLength);
      var line := "+" + digits + " more";
      ParseNatRoundTrip(|t.exercises| - PreviewLength);
      assert line[1..|line| - 5] == digits;
      assert line[|line| - 5..] == " more";
    }
  }

  /** The templates tab shows either the empty state or one card per template. */
  datatype TemplatesTab = EmptyState | Cards(previews: seq<Preview>)

  function TemplatesContent(templates: seq<WorkoutTemplate>): (r: TemplatesTab)
    ensures r.EmptyState? <==> templates == []
    ensures r.Cards? ==> |r.previews| == |templates|
    ensures r.Cards? ==> forall i :: 0 <= i < |templates| ==> r.previews[i] == TemplatePreview(templates[i])
  {
    if templates == [] then EmptyState
    else Cards(seq(|templates|, i requires 0 <= i < |templates| => TemplatePreview(templates[i])))
  }

  // ---- the exercises tab: grouping by muscle group ----

  /** The accumulator of the `reduce`: its keys in insertion order and its arrays. */
  datatype Grouped = Grouped(keys: seq<string>, groups: map<string, seq<CatalogEntry>>)

  const NoGroups := Grouped([], map[])

  /** One step of the `reduce`: create the entry's array if its key is absent, then push the entry. */
  function GroupStep(acc: Grouped, ex: CatalogEntry): Grouped {
    var g := ex.muscleGroup;
    var created := if g !in acc.groups then Grouped(acc.keys + [g], acc.groups[g := []]) else acc;
    Grouped(created.keys, created.groups[g := created.groups[g] + [ex]])
  }

  /** The `reduce` over `db`, continuing from `acc`. */
  function GroupFrom(acc: Grouped, db: seq<CatalogEntry>): Grouped {
    if db == [] then acc else GroupStep(GroupFrom(acc, db[..|db| - 1]), db[|db| - 1])
  }

  /** `Object.entries`: each key with its array, in key order. */
  function Entries(acc: Grouped): seq<(string, seq<CatalogEntry>)> {
    seq(|acc.keys|, i requires 0 <= i < |acc.keys| =>
      (acc.keys[i], if acc.keys[i] in acc.groups then acc.groups[acc.keys[i]] else []))
  }

  /** The groups the exercises tab lists. */
  function LibraryGroups(db: seq<CatalogEntry>): seq<(string, seq<CatalogEntry>)> {
    Entries(GroupFrom(NoGroups, db))
  }

  /** The muscle group of each entry, in catalog order. */
  function GroupNames(db: seq<CatalogEntry>): (r: seq<string>)
    ensures |r| == |db| && forall i :: 0 <= i < |db| ==> r[i] == db[i].muscleGroup
  {
    seq(|db|, i requires 0 <= i < |db| => db[i].muscleGroup)
  }

  /** The accumulator after `db`: keys in order of first occurrence, each with exactly its entries. */
  ghost predicate GroupsMatch(acc: Grouped, db: seq<CatalogEntry>) {
    && acc.keys == Dedup(GroupNames(db))
    && (forall g :: g in acc.groups <==> g in acc.keys)
    && (forall g :: g in acc.groups ==> acc.groups[g] == InGroup(db, g))
  }

  lemma GroupNamesSnoc(db: seq<CatalogEntry>, ex: CatalogEntry)
    ensures GroupNames(db + [ex]) == GroupNames(db) + [ex.muscleGroup]
  {
  }

  lemma InGroupSnoc(db: seq<CatalogEntry>, ex: CatalogEntry, g: string)
    ensures InGroup(db + [ex], g) == InGroup(db, g) + (if ex.muscleGroup == g then [ex] else [])
  {
    assert (db + [ex])[..|db|] == db;
  }

  /** A group is empty exactly when no entry names it. */
  lemma {:induction false} InGroupEmptyIff(db: seq<CatalogEntry>, g: string)
    ensures InGroup(db, g) == [] <==> g !in GroupNames(db)
  {
    if db != [] {
      var init, ex := db[..|db| - 1], db[|db| - 1];
      assert db == init + [ex];
      InGroupEmptyIff(init, g);
      GroupNamesSnoc(init, ex);
    }
  }

  /** One step of the `reduce` keeps the accumulator matched to the entries seen. */
  lemma GroupStepMatches(acc: Grouped, db: seq<CatalogEntry>, ex: CatalogEntry)
    requires GroupsMatch(acc, db)
    ensures GroupsMatch(GroupStep(acc, ex), db + [ex])
  {
    var g := ex.muscleGroup;
    var next := GroupStep(acc, ex);
    GroupNamesSnoc(db, ex);
    DedupSnoc(GroupNames(db), g);
    assert next.keys == Dedup(GroupNames(db + [ex]));
    assert forall h :: h in next.groups <==> h in acc.groups || h == g;
    forall h | h in next.groups
      ensures next.groups[h] == InGroup(db + [ex], h)
    {
      InGroupSnoc(db, ex, h);
      if h == g && g !in acc.groups {
        InGroupEmptyIff(db, g);
      }
    }
  }

  lemma {:induction false} GroupingCorrect(db: seq<CatalogEntry>)
    ensures GroupsMatch(GroupFrom(NoGroups, db), db)
  {
    if db != [] {
      var init, ex := db[..|db| - 1], db[|db| - 1];
      GroupingCorrect(init);
      assert db == init + [ex];
      GroupStepMatches(GroupFrom(NoGroups, init), init, ex);
    }
  }

  /** Sum of the group sizes, over the listed groups. */
  function TotalSize(groups: seq<(string, seq<CatalogEntry>)>): nat {
    if groups == [] then 0 else TotalSize(groups[..|groups| - 1]) + |groups[|groups| - 1].1|
  }

  /** A group is as large as the number of entries naming it. */
  lemma {:induction false} InGroupSize(db: seq<CatalogEntry>, g: string)
    ensures |InGroup(db, g)| == Count(GroupNames(db), g)
  {
    if db != [] {
      var init, ex := db[..|db| - 1], db[|db| - 1];
      assert db == init + [ex];
      InGroupSize(init, g);
      GroupNamesSnoc(init, ex);
      CountSnoc(GroupNames(init), ex.muscleGroup, g);
    }
  }

  /** Groups whose sizes are the counts of their keys add up to the sum of those counts. */
  lemma {:induction false} TotalSizeOfCounts(es: seq<(string, seq<CatalogEntry>)>, names: seq<string>,
                                             keys: seq<string>, n: nat)
    requires |es| == |keys| && n <= |es|
    requires forall i :: 0 <= i < |es| ==> |es[i].1| == Count(names, keys[i])
    ensures TotalSize(es[..n]) == CountSum(names, keys[..n])
  {
    if n > 0 {
      TotalSizeOfCounts(es, names, keys, n - 1);
      assert es[..n][..n - 1] == es[..n - 1];
      assert keys[..n][..n - 1] == keys[..n - 1];
    }
  }

  lemma EntrySize(db: seq<CatalogEntry>, acc: Grouped, i: nat)
    requires GroupsMatch(acc, db)
    requires i < |acc.keys|
    ensures |Entries(acc)[i].1| == Count(GroupNames(db), acc.keys[i])
  {
    InGroupSize(db, acc.keys[i]);
  }

  /** The group names of a listing, in order. */
  function KeysOf(es: seq<(string, seq<CatalogEntry>)>): (r: seq<string>)
    ensures |r| == |es| && forall k :: 0 <= k < |es| ==> r[k] == es[k].0
  {
    seq(|es|, k requires 0 <= k < |es| => es[k].0)
  }

  /** The listed groups are the muscle groups of the catalog, each once, in order of first occurrence. */
  lemma LibraryGroupKeys(db: seq<CatalogEntry>)
    ensures KeysOf(LibraryGroups(db)) == Dedup(GroupNames(db))
  {
    GroupingCorrect(db);
    assert KeysOf(LibraryGroups(db)) == GroupFrom(NoGroups, db).keys;
  }

  /** Each listed group holds exactly the entries of its muscle group, in catalog order, and is not empty. */
  lemma LibraryGroupContents(db: seq<CatalogEntry>, k: nat)
    requires k < |LibraryGroups(db)|
    ensures LibraryGroups(db)[k].1 == InGroup(db, LibraryGroups(db)[k].0)
    ensures LibraryGroups(db)[k].1 != []
  {
    var acc := GroupFrom(NoGroups, db);
    GroupingCorrect(db);
    var g := acc.keys[k];
    assert g in Dedup(GroupNames(db));
    InGroupEmptyIff(db, g);
  }

  /** The sizes of a matched accumulator's groups add up to the counts of its keys. */
  lemma GroupedSizes(db: seq<CatalogEntry>, acc: Grouped)
    requires GroupsMatch(acc, db)
    ensures TotalSize(Entries(acc)) == CountSum(GroupNames(db), acc.keys)
  {
    var es := Entries(acc);
    forall i | 0 <= i < |es| ensures |es[i].1| == Count(GroupNames(db), acc.keys[i]) {
      EntrySize(db, acc, i);
    }
    TotalSizeOfCounts(es, GroupNames(db), acc.keys, |es|);
    assert es[..|es|] == es;
    assert acc.keys[..|es|] == acc.keys;
  }

  /** The group sizes add up to the catalog's length. */
  lemma LibraryGroupSizes(db: seq<CatalogEntry>)
    ensures TotalSize(LibraryGroups(db)) == |db|
  {
    var acc := GroupFrom(NoGroups, db);
    GroupingCorrect(db);
    GroupedSizes(db, acc);
    DedupCountSum(GroupNames(db));
  }

  /**
   * The exercises tab partitions the catalog: each entry lies in the one
   * group named by its muscle group, and in no other.
   */
  lemma LibraryGroupsPartition(db: seq<CatalogEntry>, e: CatalogEntry)
    requires e in db
    ensures exists k :: 0 <= k < |LibraryGroups(db)| && e in LibraryGroups(db)[k].1
    ensures forall k :: 0 <= k < |LibraryGroups(db)| && e in LibraryGroups(db)[k].1 ==>
      LibraryGroups(db)[k].0 == e.muscleGroup
  {
    var es := LibraryGroups(db);
    LibraryGroupKeys(db);
    var i :| 0 <= i < |db| && db[i] == e;
    assert GroupNames(db)[i] == e.muscleGroup;
    var k := FirstIndex(KeysOf(es), e.muscleGroup);
    LibraryGroupContents(db, k);
    assert e in es[k].1;
    forall k' | 0 <= k' < |es| && e in es[k'].1 ensures es[k'].0 == e.muscleGroup {
      LibraryGroupContents(db, k');
    }
  }

  /** The `reduce` and `Object.entries` of the exercises tab. */
  method GroupByMuscle(db: seq<CatalogEntry>) returns (entries: seq<(string, seq<CatalogEntry>)>)
    ensures entries == LibraryGroups(db)
    ensures KeysOf(entries) == Dedup(GroupNames(db))
    ensures TotalSize(entries) == |db|
  {
    var acc := NoGroups;
    var i := 0;
    while i < |db|
      invariant 0 <= i <= |db|
      invariant acc == GroupFrom(NoGroups, db[..i])
    {
      var ex := db[i];
      assert db[..i + 1][..i] == db[..i];
      if ex.muscleGroup !in acc.groups {
        acc := Grouped(acc.keys + [ex.muscleGroup], acc.groups[ex.muscleGroup := []]);
      }
      acc := acc.(groups := acc.groups[ex.muscleGroup := acc.groups[ex.muscleGroup] + [ex]]);
      i := i + 1;
    }
    assert db[..i] == db;
    entries := Entries(acc);
    LibraryGroupKeys(db);
    LibraryGroupSizes(db);
  }
}
