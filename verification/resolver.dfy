/** The lookup-or-create helper of the PDF import (`findOrCreate`, App.tsx). */
module Resolver {
  import opened Wrappers
  import opened Text
  import opened Types

  /** The index of the first entity whose name matches `name` up to case and surrounding white space. */
  function Find(coll: seq<Named>, name: string): (r: Option<nat>)
    ensures r.Some? ==> r.value < |coll| && SameName(coll[r.value].name, name)
    ensures r.Some? ==> forall j :: 0 <= j < r.value ==> !SameName(coll[j].name, name)
    ensures r.None? <==> forall j :: 0 <= j < |coll| ==> !SameName(coll[j].name, name)
  {
    if |coll| == 0 then None
    else if SameName(coll[0].name, name) then Some(0)
    else
      assert forall k :: 1 <= k < |coll| ==> coll[k] == coll[1..][k - 1];
      match Find(coll[1..], name)
      case None => None
      case Some(j) => Some(j + 1)
  }

  /** `collection.find(...)`: the first matching entity itself. */
  function Lookup(coll: seq<Named>, name: string): (r: Option<Named>)
    ensures r.Some? <==> Find(coll, name).Some?
    ensures r.Some? ==> r.value == coll[Find(coll, name).value]
  {
    match Find(coll, name)
    case None => None
    case Some(i) => Some(coll[i])
  }

  /** What resolving one name yields: the entity, the collection afterwards and the unused fresh ids. */
  datatype Resolution = Resolution(item: Named, collection: seq<Named>, ids: seq<string>)

  /**
   * Finds the first entity named like `name`; when there is none, appends
   * a new entity carrying the next fresh id and the trimmed name.
   */
  function FindOrCreate(coll: seq<Named>, name: string, ids: seq<string>): (r: Resolution)
    requires |ids| > 0
    ensures coll <= r.collection && |r.collection| <= |coll| + 1
    ensures Lookup(r.collection, name) == Some(r.item)
    ensures Find(coll, name).Some? ==> r.collection == coll && r.ids == ids
    ensures Find(coll, name).None? ==>
      && r.collection == coll + [r.item]
      && r.item == Named(ids[0], Trim(name))
      && r.ids == ids[1..]
  {
    match Lookup(coll, name)
    case Some(item) => Resolution(item, coll, ids)
    case None =>
      var item := Named(ids[0], Trim(name));
      TrimmedNameIsSameName(name);
      assert Find(coll + [item], name) == Some(|coll|) by {
        var longer := coll + [item];
        assert forall j :: 0 <= j < |coll| ==> longer[j] == coll[j];
        assert SameName(longer[|coll|].name, name);
      }
      Resolution(item, coll + [item], ids[1..])
  }

  /** A first match survives appending more entities behind it. */
  lemma {:induction false} FindInExtension(coll: seq<Named>, longer: seq<Named>, name: string)
    requires coll <= longer
    requires Find(coll, name).Some?
    ensures Find(longer, name) == Find(coll, name)
    decreases |coll|
  {
    assert longer[0] == coll[0];
    if !SameName(coll[0].name, name) {
      assert coll[1..] <= longer[1..];
      FindInExtension(coll[1..], longer[1..], name);
    }
  }

  /** Resolving a name again, or any case or white-space variant of it, finds the same entity and creates nothing. */
  lemma ResolveAgainIsStable(coll: seq<Named>, name: string, ids: seq<string>, variant: string, ids': seq<string>)
    requires |ids| > 0 && |ids'| > 0
    requires SameName(variant, name)
    ensures var first := FindOrCreate(coll, name, ids);
            FindOrCreate(first.collection, variant, ids') == Resolution(first.item, first.collection, ids')
  {
    var first := FindOrCreate(coll, name, ids);
    assert Find(first.collection, variant) == Find(first.collection, name);
  }

  /** Entities appended to `coll` to reach `longer` have names no earlier entity shares. */
  predicate NewNamesDistinct(coll: seq<Named>, longer: seq<Named>)
    requires coll <= longer
  {
    forall i, j :: |coll| <= i < |longer| && 0 <= j < i ==> !SameName(longer[j].name, longer[i].name)
  }

  /** Names that differ only by case or surrounding white space find the same entity. */
  lemma VariantsFindOneEntity(coll: seq<Named>, name1: string, name2: string)
    requires SameName(name1, name2)
    ensures Find(coll, name1) == Find(coll, name2)
  {
    forall j | 0 <= j < |coll| ensures SameName(coll[j].name, name1) <==> SameName(coll[j].name, name2) {
    }
  }

  /** Among entities appended without repeated names, at most one carries a given name. */
  lemma NewNamesAtMostOnce(coll: seq<Named>, longer: seq<Named>, name: string)
    requires coll <= longer && NewNamesDistinct(coll, longer)
    ensures forall i, j :: |coll| <= i < j < |longer| ==>
      !(SameName(longer[i].name, name) && SameName(longer[j].name, name))
  {
    forall i, j | |coll| <= i < j < |longer|
      ensures !(SameName(longer[i].name, name) && SameName(longer[j].name, name))
    {
      assert !SameName(longer[i].name, longer[j].name);
    }
  }

  /** Creation only happens for a name nothing in the collection matches. */
  lemma FindOrCreateAddsNewName(coll: seq<Named>, name: string, ids: seq<string>)
    requires |ids| > 0
    ensures var r := FindOrCreate(coll, name, ids); NewNamesDistinct(coll, r.collection)
  {
    var r := FindOrCreate(coll, name, ids);
    if |r.collection| > |coll| {
      TrimmedNameIsSameName(name);
      assert forall j :: 0 <= j < |coll| ==> r.collection[j] == coll[j];
    }
  }

  /** Name distinctness of appended entities composes along a chain of extensions. */
  lemma NewNamesDistinctTrans(a: seq<Named>, b: seq<Named>, c: seq<Named>)
    requires a <= b <= c
    requires NewNamesDistinct(a, b) && NewNamesDistinct(b, c)
    ensures NewNamesDistinct(a, c)
  {
    forall i, j | |a| <= i < |c| && 0 <= j < i
      ensures !SameName(c[j].name, c[i].name)
    {
      if i < |b| {
        assert c[i] == b[i] && c[j] == b[j];
      }
    }
  }

  /** Appending an entity that carries the next fresh id keeps ids unique and the rest of the supply fresh. */
  lemma AppendFreshEntity(coll: seq<Named>, item: Named, ids: seq<string>, others: set<string>)
    requires |ids| > 0 && item.id == ids[0]
    requires UniqueIds(coll) && FreshIds(ids, Ids(coll) + others)
    ensures UniqueIds(coll + [item]) && FreshIds(ids[1..], Ids(coll + [item]) + others)
  {
    var longer := coll + [item];
    assert Ids(longer) == Ids(coll) + {ids[0]} by {
      assert forall j :: 0 <= j < |coll| ==> longer[j] == coll[j];
      assert longer[|coll|] == item;
    }
    forall i, j | 0 <= i < j < |longer| ensures longer[i].id != longer[j].id {
      if j == |coll| {
        assert coll[i].id in Ids(coll);
      }
    }
    forall i | 0 <= i < |ids[1..]| ensures ids[1..][i] !in Ids(longer) + others {
      assert ids[1..][i] == ids[i + 1];
    }
  }

  /** Creating an entity from a fresh id keeps ids unique and the rest of the supply fresh. */
  lemma FindOrCreateKeepsIdsFresh(coll: seq<Named>, name: string, ids: seq<string>, others: set<string>)
    requires |ids| > 0
    requires UniqueIds(coll) && FreshIds(ids, Ids(coll) + others)
    ensures var r := FindOrCreate(coll, name, ids);
            UniqueIds(r.collection) && FreshIds(r.ids, Ids(r.collection) + others)
  {
    var r := FindOrCreate(coll, name, ids);
    if Find(coll, name).None? {
      AppendFreshEntity(coll, r.item, ids, others);
    }
  }
}
