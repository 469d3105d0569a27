/**
 * `exercises.filter(ex => ex.id !== id)`: the remove button of the template
 * builders (src/App.tsx and src/components/CreateTemplateView.tsx).
 */
module ExerciseLists {
  import opened Types

  /** Drops every exercise with the given id and keeps the others in their order. */
  function RemoveById(es: seq<Exercise>, id: string): (r: seq<Exercise>)
    ensures |r| <= |es|
  {
    if es == [] then []
    else RemoveById(es[..|es| - 1], id) + (if es[|es| - 1].id != id then [es[|es| - 1]] else [])
  }

  /** The filter keeps exactly the exercises whose id differs. */
  lemma {:induction false} RemoveByIdMembers(es: seq<Exercise>, id: string, e: Exercise)
    ensures e in RemoveById(es, id) <==> e in es && e.id != id
  {
    if es != [] {
      var init, last := es[..|es| - 1], es[|es| - 1];
      assert es == init + [last];
      RemoveByIdMembers(init, id, e);
    }
  }

  /** Filtering a concatenation filters each part: the kept entries stay in order. */
  lemma {:induction false} RemoveByIdAppend(a: seq<Exercise>, b: seq<Exercise>, id: string)
    ensures RemoveById(a + b, id) == RemoveById(a, id) + RemoveById(b, id)
  {
    if b == [] {
      assert a + b == a;
    } else {
      var init, last := b[..|b| - 1], b[|b| - 1];
      assert a + b == (a + init) + [last];
      assert (a + b)[..|a + b| - 1] == a + init;
      RemoveByIdAppend(a, init, id);
    }
  }

  /** A list without that id is kept whole. */
  lemma {:induction false} RemoveByIdAbsent(es: seq<Exercise>, id: string)
    requires forall k :: 0 <= k < |es| ==> es[k].id != id
    ensures RemoveById(es, id) == es
  {
    if es != [] {
      var init, last := es[..|es| - 1], es[|es| - 1];
      assert es == init + [last];
      RemoveByIdAbsent(init, id);
    }
  }

  /** Removing twice is removing once. */
  lemma RemoveByIdIdempotent(es: seq<Exercise>, id: string)
    ensures RemoveById(RemoveById(es, id), id) == RemoveById(es, id)
  {
    var r := RemoveById(es, id);
    forall k | 0 <= k < |r| ensures r[k].id != id {
      RemoveByIdMembers(es, id, r[k]);
    }
    RemoveByIdAbsent(r, id);
  }
}
