/** The managed models as users see them: an ordered list whose head is the default. */
module ModelCatalog {

  /** The models in order, whether the first is the default, who provides each, and the
      providers there are, with their keys' references. */
  datatype Catalog = Catalog(ids: seq<string>, flagged: bool, owner: map<string, string>,
                             providers: map<string, string>)

  function Without(ids: seq<string>, gone: set<string>): seq<string> {
    if ids == [] then []
    else (if ids[0] in gone then [] else [ids[0]]) + Without(ids[1..], gone)
  }

  lemma {:induction false} WithoutMembers(ids: seq<string>, gone: set<string>)
    ensures forall id :: id in Without(ids, gone) <==> id in ids && id !in gone
  {
    if ids != [] {
      WithoutMembers(ids[1..], gone);
      assert ids == [ids[0]] + ids[1..];
    }
  }

  predicate Distinct(ids: seq<string>) {
    forall i, j | 0 <= i < j < |ids| :: ids[i] != ids[j]
  }

  predicate Permutation(a: seq<string>, b: set<string>) {
    Distinct(a) && (forall id | id in a :: id in b) && (forall id | id in b :: id in a)
  }

  /** Saving a model: a new or existing default goes to the front, a model that is already
      there keeps its place, any other goes to the end. Saving the default as an ordinary
      model leaves no default. */
  function SaveInList(c: Catalog, id: string, provider: string, makeDefault: bool): Catalog {
    var first := makeDefault || c.ids == [];
    Catalog(
      if first then [id] + Without(c.ids, {id}) else if id in c.ids then c.ids else c.ids + [id],
      first || (c.flagged && c.ids[0] != id),
      c.owner[id := provider],
      c.providers)
  }

  /** Removing models: if the default goes, the first model left takes over. */
  function RemoveFromList(c: Catalog, gone: set<string>): Catalog {
    var rest := Without(c.ids, gone);
    Catalog(rest, c.flagged && rest != [], c.owner - gone, c.providers)
  }

  function OwnedBy(c: Catalog, provider: string): set<string> {
    set id | id in c.owner && c.owner[id] == provider
  }

  /** The listing refuses everything but a rearrangement of itself. */
  function ReorderList(c: Catalog, ids: seq<string>): Catalog {
    c.(ids := ids, flagged := true)
  }
}
