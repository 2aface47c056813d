/** The table of ModelTable implements the list of ModelCatalog, operation by operation and
    over every run. */
module ModelRefinement {
  import opened Text
  import opened ModelCatalog
  import opened ModelTable

  /** Dropping rows and changing orders without reordering keeps the listing. */
  lemma {:induction false} AscendingWithout(rows: map<string, Row>, rows': map<string, Row>,
                                            ids: seq<string>, gone: set<string>)
    requires (forall id | id in ids :: id in rows) && Ascending(rows, ids)
    requires forall id | id in ids && id !in gone :: id in rows'
    requires forall a, b | a in ids && b in ids && a !in gone && b !in gone && rows[a].sortOrder < rows[b].sortOrder ::
               rows'[a].sortOrder < rows'[b].sortOrder
    ensures (forall id | id in Without(ids, gone) :: id in rows') && Ascending(rows', Without(ids, gone))
  {
    WithoutMembers(ids, gone);
    if ids != [] {
      var rest := ids[1..];
      AscendingWithout(rows, rows', rest, gone);
      WithoutMembers(rest, gone);
      if ids[0] !in gone {
        assert Without(ids, gone)[1..] == Without(rest, gone);
      } else {
        assert Without(ids, gone) == Without(rest, gone);
      }
    }
  }

  lemma {:induction false} AscendingSameOrders(rows: map<string, Row>, rows': map<string, Row>, ids: seq<string>)
    requires (forall id | id in ids :: id in rows) && Ascending(rows, ids)
    requires forall id | id in ids :: id in rows' && rows'[id].sortOrder == rows[id].sortOrder
    ensures Ascending(rows', ids)
  {
    if ids != [] { AscendingSameOrders(rows, rows', ids[1..]); }
  }

  lemma {:induction false} AscendingSnoc(rows: map<string, Row>, ids: seq<string>, last: string)
    requires (forall id | id in ids :: id in rows) && Ascending(rows, ids) && last in rows
    requires forall id | id in ids :: rows[id].sortOrder < rows[last].sortOrder
    ensures (forall id | id in ids + [last] :: id in rows) && Ascending(rows, ids + [last])
  {
    if ids != [] {
      assert (ids + [last])[1..] == ids[1..] + [last];
      AscendingSnoc(rows, ids[1..], last);
    }
  }

  // ---------- saving ----------

  ghost predicate Acceptable(t: Table, id: string, f: Fields) {
    id != "" && f.provider in t.providers
  }

  /** The bulk shift keeps the order of any two other rows and leaves room below them, even
      when it is skipped because the row is already the default. */
  lemma ShiftKeepsOrder(t: Table, id: string, f: Fields, a: string, b: string)
    requires Sound(t) && a in t.rows && b in t.rows && a != id && b != id
    requires t.rows[a].sortOrder < t.rows[b].sortOrder
    ensures var rows' := Saved(t, id, f, true).rows;
            a in rows' && b in rows' && rows'[a].sortOrder < rows'[b].sortOrder
  {
    if id in t.rows { assert t.rows[b].sortOrder != t.rows[id].sortOrder; }
  }

  lemma ShiftLeavesRoom(t: Table, id: string, f: Fields, a: string)
    requires Sound(t) && a in t.rows && a != id
    ensures var rows' := Saved(t, id, f, true).rows;
            id in rows' && a in rows' && rows'[id].sortOrder < rows'[a].sortOrder
  {
    assert SoundRow(t, a);
    if id in t.rows { assert SoundRow(t, id) && t.rows[a].sortOrder != t.rows[id].sortOrder; }
  }

  /** A new or existing default moves to the front and the others keep their order. */
  lemma SaveFirstAscends(t: Table, c: Catalog, id: string, f: Fields)
    requires Represents(t, c) && Sound(t)
    ensures var rows' := Saved(t, id, f, true).rows;
            var ids' := [id] + Without(c.ids, {id});
            (forall k | k in ids' :: k in rows') && Ascending(rows', ids')
  {
    hide Sound, Without, Saved;
    var rows' := Saved(t, id, f, true).rows;
    var others := Without(c.ids, {id});
    WithoutMembers(c.ids, {id});
    assert ([id] + others)[1..] == others;
    forall a, b | a in c.ids && b in c.ids && a !in {id} && b !in {id} && t.rows[a].sortOrder < t.rows[b].sortOrder
      ensures a in rows' && b in rows' && rows'[a].sortOrder < rows'[b].sortOrder
    {
      ShiftKeepsOrder(t, id, f, a, b);
    }
    forall k | k in c.ids && k !in {id}
      ensures id in rows' && k in rows' && rows'[id].sortOrder < rows'[k].sortOrder
    {
      ShiftLeavesRoom(t, id, f, k);
    }
    SavedKeys(t, id, f, true);
    AscendingWithout(t.rows, rows', c.ids, {id});
  }

  lemma SavedKeys(t: Table, id: string, f: Fields, makeDefault: bool)
    requires Sound(t)
    ensures Saved(t, id, f, makeDefault).rows.Keys == t.rows.Keys + {id}
  {}

  lemma SavePlainAscends(t: Table, c: Catalog, id: string, f: Fields)
    requires Represents(t, c) && Sound(t) && t.rows != map[]
    ensures var rows' := Saved(t, id, f, false).rows;
            var ids' := if id in c.ids then c.ids else c.ids + [id];
            (forall k | k in ids' :: k in rows') && Ascending(rows', ids')
  {
    var rows' := Saved(t, id, f, false).rows;
    AscendingSameOrders(t.rows, rows', c.ids);
    if id !in c.ids {
      AscendingSnoc(rows', c.ids, id);
    }
  }

  lemma {:induction false} EmptyTable(t: Table, c: Catalog)
    requires Represents(t, c)
    ensures c.ids == [] <==> t.rows == map[]
  {
    if c.ids != [] { assert c.ids[0] in t.rows; }
    if t.rows != map[] {
      assert t.rows.Keys != {};
      var k :| k in t.rows;
      assert k in c.ids;
    }
  }

  /** Every row of the saved table is sound, and its default is the head of the new list. */
  lemma SavedRow(t: Table, c: Catalog, id: string, f: Fields, makeDefault: bool, k: string)
    requires Represents(t, c) && Sound(t) && Acceptable(t, id, f) && (k in t.rows || k == id)
    ensures var t', c' := Saved(t, id, f, makeDefault), SaveInList(c, id, f.provider, makeDefault);
            && k in t'.rows && SoundRow(t', k)
            && (t'.rows[k].isDefault <==> c'.flagged && k == c'.ids[0])
  {
    hide Without, DistinctOrders, DefaultIsLeast, Ascending;
    EmptyTable(t, c);
    if k in t.rows {
      assert SoundRow(t, k);
    } else if t.rows != map[] {
      var top :| top in t.rows && NextOrder(t.rows) == t.rows[top].sortOrder + 1;
      assert SoundRow(t, top);
    }
  }

  lemma SavedOwners(t: Table, c: Catalog, id: string, f: Fields, makeDefault: bool)
    requires Represents(t, c) && Sound(t) && Acceptable(t, id, f)
    ensures var t', c' := Saved(t, id, f, makeDefault), SaveInList(c, id, f.provider, makeDefault);
            && t'.providers == t.providers && c'.providers == c.providers
            && c'.owner == (map k | k in t'.rows :: t'.rows[k].fields.provider)
            && (forall k :: k in c'.ids <==> k in t'.rows)
            && (c'.flagged ==> c'.ids != [])
  {
    hide Ascending, SoundRow, DistinctOrders, DefaultIsLeast, Without;
    WithoutMembers(c.ids, {id});
    SavedKeys(t, id, f, makeDefault);
  }

  lemma SavedAscends(t: Table, c: Catalog, id: string, f: Fields, makeDefault: bool)
    requires Represents(t, c) && Sound(t)
    ensures var rows', ids' := Saved(t, id, f, makeDefault).rows, SaveInList(c, id, f.provider, makeDefault).ids;
            (forall k | k in ids' :: k in rows') && Ascending(rows', ids')
  {
    hide Ascending, Sound, Without;
    EmptyTable(t, c);
    if makeDefault || c.ids == [] {
      assert Saved(t, id, f, makeDefault) == Saved(t, id, f, true);
      SaveFirstAscends(t, c, id, f);
    } else {
      SavePlainAscends(t, c, id, f);
    }
  }

  lemma SaveRefines(t: Table, c: Catalog, id: string, f: Fields, makeDefault: bool)
    requires Represents(t, c) && Acceptable(t, id, f)
    ensures Sound(t) && Represents(Saved(t, id, f, makeDefault), SaveInList(c, id, f.provider, makeDefault))
  {
    RepresentsSound(t, c);
    hide Ascending, SoundRow, Saved, SaveInList, Sound, Acceptable;
    SavedOwners(t, c, id, f, makeDefault);
    SavedAscends(t, c, id, f, makeDefault);
    SavedKeys(t, id, f, makeDefault);
    forall k | k in Saved(t, id, f, makeDefault).rows
      ensures var t', c' := Saved(t, id, f, makeDefault), SaveInList(c, id, f.provider, makeDefault);
              SoundRow(t', k) && (t'.rows[k].isDefault <==> c'.flagged && k == c'.ids[0])
    {
      SavedRow(t, c, id, f, makeDefault, k);
    }
  }

  // ---------- deleting ----------

  lemma LeastIsHead(t: Table, c: Catalog, least: string)
    requires Represents(t, c) && IsLeast(t.rows, t.rows.Keys, least)
    ensures c.ids != [] && least == c.ids[0]
  {
    assert least in c.ids;
    if least != c.ids[0] { AscendingDistinct(t.rows, c.ids, c.ids[0], least); }
  }

  /** Without its default rows the table stands for a list without a default. */
  lemma LeftRefines(t: Table, c: Catalog, gone: set<string>, c': Catalog)
    requires Represents(t, c)
    requires c' == Catalog(Without(c.ids, gone), c.flagged && c.ids[0] !in gone, c.owner - gone, c.providers)
    ensures Represents(t.(rows := t.rows - gone), c')
  {
    var t' := t.(rows := t.rows - gone);
    assert c.flagged ==> c.ids != [];
    hide Represents, Ascending, SoundRow, Without;
    LeftMembers(t, c, gone);
    LeftRows(t, c, gone, c');
    LeftHead(c, gone, c');
    LeftOwners(t, c, gone);
    RepresentsByParts(t', c');
  }

  lemma LeftOwners(t: Table, c: Catalog, gone: set<string>)
    requires Represents(t, c)
    ensures c.providers == t.providers
    ensures c.owner - gone == (map id | id in t.rows - gone :: t.rows[id].fields.provider)
  {
    hide Ascending, SoundRow;
  }

  lemma RepresentsByParts(t: Table, c: Catalog)
    requires t.providers == c.providers && c.owner == (map id | id in t.rows :: t.rows[id].fields.provider)
    requires (forall id :: id in c.ids <==> id in t.rows) && Ascending(t.rows, c.ids)
    requires c.flagged ==> c.ids != []
    requires forall id | id in t.rows :: SoundRow(t, id) && (t.rows[id].isDefault <==> c.flagged && id == c.ids[0])
    ensures Represents(t, c)
  {
    hide Ascending, SoundRow;
  }

  lemma LeftMembers(t: Table, c: Catalog, gone: set<string>)
    requires Represents(t, c)
    ensures var rows, ids := t.rows - gone, Without(c.ids, gone);
            (forall id :: id in ids <==> id in rows) && Ascending(rows, ids)
  {
    hide SoundRow;
    WithoutMembers(c.ids, gone);
    AscendingWithout(t.rows, t.rows - gone, c.ids, gone);
  }

  lemma LeftHead(c: Catalog, gone: set<string>, c': Catalog)
    requires c.flagged ==> c.ids != []
    requires c' == Catalog(Without(c.ids, gone), c.flagged && c.ids[0] !in gone, c.owner - gone, c.providers)
    ensures c'.flagged ==> c'.ids != [] && c'.ids[0] == c.ids[0]
  {}

  lemma LeftRows(t: Table, c: Catalog, gone: set<string>, c': Catalog)
    requires Represents(t, c)
    requires c' == Catalog(Without(c.ids, gone), c.flagged && c.ids[0] !in gone, c.owner - gone, c.providers)
    ensures var t' := t.(rows := t.rows - gone);
            forall k | k in t'.rows :: SoundRow(t', k) && (t'.rows[k].isDefault <==> c'.flagged && k == c.ids[0])
  {
    hide Ascending, Without;
  }

  lemma PromoteTakesHead(t: Table, c: Catalog)
    requires Represents(t, c) && c.ids != [] && DistinctOrders(t.rows)
    ensures c.ids[0] in t.rows && PromoteLeast(t.rows) == t.rows[c.ids[0] := t.rows[c.ids[0]].(isDefault := true)]
  {
    hide DistinctOrders, Ascending, SoundRow;
    EmptyTable(t, c);
    HasTopAndLeast(t.rows, t.rows.Keys);
    var least :| IsLeast(t.rows, t.rows.Keys, least)
              && PromoteLeast(t.rows) == t.rows[least := t.rows[least].(isDefault := true)];
    LeastIsHead(t, c, least);
  }

  lemma FlagHead(t: Table, c: Catalog)
    requires Represents(t, c) && !c.flagged && c.ids != []
    ensures c.ids[0] in t.rows
    ensures Represents(t.(rows := t.rows[c.ids[0] := t.rows[c.ids[0]].(isDefault := true)]), c.(flagged := true))
  {
    hide Ascending;
    var h := c.ids[0];
    var t' := t.(rows := t.rows[h := t.rows[h].(isDefault := true)]);
    AscendingSameOrders(t.rows, t'.rows, c.ids);
    forall k | k in t'.rows ensures SoundRow(t', k) && (t'.rows[k].isDefault <==> k == h) {
      assert SoundRow(t, k);
    }
    assert c.owner == map k | k in t'.rows :: t'.rows[k].fields.provider;
  }

  lemma PromoteRefines(t: Table, c: Catalog)
    requires Represents(t, c) && !c.flagged && DistinctOrders(t.rows)
    ensures Represents(t.(rows := PromoteLeast(t.rows)), c.(flagged := c.ids != []))
  {
    EmptyTable(t, c);
    if c.ids != [] {
      PromoteTakesHead(t, c);
      hide PromoteLeast, DistinctOrders, Ascending;
      FlagHead(t, c);
    }
  }

  lemma RemoveRefines(t: Table, c: Catalog, gone: set<string>)
    requires Represents(t, c)
    ensures Sound(t) && Represents(Removed(t, gone), RemoveFromList(c, gone))
  {
    RepresentsSound(t, c);
    hide PromoteLeast, Ascending;
    var left := Catalog(Without(c.ids, gone), c.flagged && c.ids[0] !in gone, c.owner - gone, c.providers);
    LeftRefines(t, c, gone, left);
    RepresentsSound(t.(rows := t.rows - gone), left);
    if c.flagged && c.ids[0] in gone {
      assert c.ids[0] in t.rows;
      PromoteRefines(t.(rows := t.rows - gone), left);
    } else {
      assert !exists id :: id in gone && id in t.rows && t.rows[id].isDefault;
      WithoutMembers(c.ids, gone);
      if c.flagged { assert c.ids[0] in Without(c.ids, gone); }
    }
  }

  lemma ProvidedIsOwned(t: Table, c: Catalog, provider: string)
    requires Represents(t, c)
    ensures ProvidedBy(t, provider) == OwnedBy(c, provider)
  {}

  /** Deleting a provider takes its models first, so no model is left without one. */
  lemma ProviderGoneRefines(t: Table, c: Catalog, provider: string)
    requires Represents(t, c) && OwnedBy(c, provider) == {}
    ensures Represents(t.(providers := t.providers - {provider}), c.(providers := c.providers - {provider}))
  {
    var t' := t.(providers := t.providers - {provider});
    forall k | k in t'.rows ensures SoundRow(t', k) {
      assert SoundRow(t, k);
      assert k in c.owner && k !in OwnedBy(c, provider);
    }
  }

  // ---------- reordering ----------

  lemma {:induction false} PositionOf(ids: seq<string>, k: nat)
    requires k < |ids| && Distinct(ids)
    ensures PlaceOf(ids, ids[k]) == k
  {
    if k > 0 {
      assert ids[1..][k - 1] == ids[k] && ids[0] != ids[k];
      PositionOf(ids[1..], k - 1);
    }
  }

  lemma {:induction false} AscendingByPosition(rows: map<string, Row>, ids: seq<string>, k: nat)
    requires k <= |ids| && Distinct(ids)
    requires forall id | id in ids :: id in rows && rows[id].sortOrder == PlaceOf(ids, id)
    ensures Ascending(rows, ids[k..])
    decreases |ids| - k
  {
    if k < |ids| {
      var tail := ids[k..];
      assert tail[1..] == ids[k + 1..];
      AscendingByPosition(rows, ids, k + 1);
      PositionOf(ids, k);
      forall id | id in tail[1..] ensures rows[tail[0]].sortOrder < rows[id].sortOrder {
        var j :| 0 <= j < |tail[1..]| && tail[1..][j] == id;
        PositionOf(ids, k + 1 + j);
      }
    }
  }

  /** The catalog of a table whose rows are numbered by their place in `ids`. */
  function Numbered(t: Table, ids: seq<string>, flagged: bool): Catalog {
    Catalog(ids, flagged, map id | id in t.rows :: t.rows[id].fields.provider, t.providers)
  }

  lemma NumberedRepresents(t: Table, ids: seq<string>, flagged: bool)
    requires Permutation(ids, t.rows.Keys) && (flagged ==> ids != [])
    requires forall id | id in t.rows :: id != "" && t.rows[id].fields.provider in t.providers
    requires forall id | id in t.rows ::
               t.rows[id].sortOrder == PlaceOf(ids, id) && (t.rows[id].isDefault <==> flagged && id == ids[0])
    ensures Represents(t, Numbered(t, ids, flagged))
  {
    hide Ascending, Distinct, PlaceOf;
    AscendingByPosition(t.rows, ids, 0);
    assert ids[0..] == ids;
  }

  lemma ReorderRefines(t: Table, c: Catalog, ids: seq<string>)
    requires Represents(t, c) && ids != [] && Permutation(ids, t.rows.Keys)
    ensures Represents(Reordered(t, ids), ReorderList(c, ids))
  {
    hide Ascending, Distinct, PlaceOf;
    var t' := Reordered(t, ids);
    forall id | id in t'.rows ensures id != "" && t'.rows[id].fields.provider in t'.providers {
      assert SoundRow(t, id);
    }
    NumberedRepresents(t', ids, true);
    assert ReorderList(c, ids) == Numbered(t', ids, true);
  }

  /** The migration that adds `sort_order` numbers the rows of an older table, the default
      first if there is one; the unique index allows one default at most. */
  lemma MigrationRepresents(t: Table, ids: seq<string>, t': Table)
    requires OneDefault(t.rows) && Permutation(ids, t.rows.Keys)
    requires forall id | id in t.rows :: id != "" && t.rows[id].fields.provider in t.providers
    requires forall i, j | 0 <= i < j < |ids| && t.rows[ids[j]].isDefault :: t.rows[ids[i]].isDefault
    requires t' == t.(rows := map id | id in t.rows :: t.rows[id].(sortOrder := PlaceOf(ids, id)))
    ensures Represents(t', Numbered(t', ids, ids != [] && t.rows[ids[0]].isDefault))
  {
    hide Represents, PlaceOf;
    forall id | id in t.rows && t.rows[id].isDefault
      ensures id == ids[0]
    {
      assert id in ids;
      var j :| 0 <= j < |ids| && ids[j] == id;
      assert ids[0] in ids;
    }
    NumberedRepresents(t', ids, ids != [] && t.rows[ids[0]].isDefault);
  }

  // ---------- every run ----------

  /** What the operation does to the list, and when it is accepted. */
  function ListStep(c: Catalog, op: Op): Catalog {
    match op
    case SaveProvider(p, name, base, ref) =>
      if ProviderAccepted(c.providers, p, name, base, ref) then c.(providers := c.providers[Trim(p) := ref]) else c
    case DeleteProvider(p) =>
      if Trim(p) == "" || Trim(p) !in c.providers then c
      else RemoveFromList(c, OwnedBy(c, Trim(p))).(providers := c.providers - {Trim(p)})
    case Save(id, f, makeDefault) =>
      if SaveAccepted(c.providers.Keys, id, f) then SaveInList(c, Trim(id), Trim(f.provider), makeDefault) else c
    case Delete(id) => if Trim(id) in c.ids then RemoveFromList(c, {Trim(id)}) else c
    case Reorder(ids) =>
      if ids != [] && Permutation(TrimAll(ids), set id | id in c.ids) then ReorderList(c, TrimAll(ids)) else c
  }

  lemma StepRefines(t: Table, c: Catalog, op: Op)
    requires Represents(t, c)
    ensures Sound(t) && Represents(Step(t, op), ListStep(c, op))
  {
    RepresentsSound(t, c);
    hide Sound, Ascending, Saved, SaveInList, Removed, RemoveFromList, Reordered, ReorderList, Trim, TrimAll, SoundRow;
    match op {
    case SaveProvider(p, name, base, ref) =>
      if ProviderAccepted(t.providers, p, name, base, ref) { MoreProviders(t, c, Trim(p), ref); }
    case DeleteProvider(p) =>
      if Trim(p) != "" && Trim(p) in t.providers {
        var gone := OwnedBy(c, Trim(p));
        ProvidedIsOwned(t, c, Trim(p));
        RemoveRefines(t, c, gone);
        RemovedOwners(c, gone, Trim(p));
        RemovedProviders(t, gone);
        ProviderGoneRefines(Removed(t, gone), RemoveFromList(c, gone), Trim(p));
      }
    case Save(id, f, makeDefault) =>
      if SaveAccepted(t.providers.Keys, id, f) { SaveRefines(t, c, Trim(id), Trimmed(f), makeDefault); }
    case Delete(id) =>
      if Trim(id) in t.rows { RemoveRefines(t, c, {Trim(id)}); }
    case Reorder(ids) =>
      assert (set id | id in c.ids) == t.rows.Keys;
      if ids != [] && Permutation(TrimAll(ids), t.rows.Keys) { ReorderRefines(t, c, TrimAll(ids)); }
    }
  }

  lemma MoreProviders(t: Table, c: Catalog, p: string, ref: string)
    requires Represents(t, c)
    ensures Represents(t.(providers := t.providers[p := ref]), c.(providers := c.providers[p := ref]))
  {
    var t' := t.(providers := t.providers[p := ref]);
    forall k | k in t'.rows ensures SoundRow(t', k) {
      assert SoundRow(t, k);
    }
  }

  lemma RemovedOwners(c: Catalog, gone: set<string>, p: string)
    requires gone == OwnedBy(c, p)
    ensures OwnedBy(RemoveFromList(c, gone), p) == {} && RemoveFromList(c, gone).providers == c.providers
  {}

  lemma RemovedProviders(t: Table, gone: set<string>)
    requires Sound(t)
    ensures Removed(t, gone).providers == t.providers
  {}

  const EMPTY := Catalog([], false, map[], map[])
  const EMPTY_TABLE := Table(map[], map[])

  function Run(t: Table, c: Catalog, ops: seq<Op>): Table
    requires Represents(t, c)
    decreases |ops|
  {
    if ops == [] then t
    else
      StepRefines(t, c, ops[0]);
      Run(Step(t, ops[0]), ListStep(c, ops[0]), ops[1..])
  }

  function ListRun(c: Catalog, ops: seq<Op>): Catalog
    decreases |ops|
  {
    if ops == [] then c else ListRun(ListStep(c, ops[0]), ops[1..])
  }

  /** Through every run, from any table that stands for a list, the table stands for the list
      the operations describe; in particular every reachable table is sound. */
  lemma {:induction false} RunRefines(t: Table, c: Catalog, ops: seq<Op>)
    requires Represents(t, c)
    ensures Represents(Run(t, c, ops), ListRun(c, ops)) && Sound(Run(t, c, ops))
    decreases |ops|
  {
    hide Represents, Sound, Step, ListStep;
    if ops == [] {
      RepresentsSound(t, c);
    } else {
      StepRefines(t, c, ops[0]);
      RunRefines(Step(t, ops[0]), ListStep(c, ops[0]), ops[1..]);
    }
  }

  lemma EmptyRepresents()
    ensures Represents(EMPTY_TABLE, EMPTY)
  {}

  /** So every run from the empty table does. */
  lemma RunFromEmpty(ops: seq<Op>)
    ensures Represents(EMPTY_TABLE, EMPTY)
    ensures Represents(Run(EMPTY_TABLE, EMPTY, ops), ListRun(EMPTY, ops)) && Sound(Run(EMPTY_TABLE, EMPTY, ops))
  {
    EmptyRepresents();
    RunRefines(EMPTY_TABLE, EMPTY, ops);
  }

  // ---------- when there is a default ----------

  /** After a save there is a default exactly if it was asked for, the table was empty, or another model is
      the default: saving the default as an ordinary model leaves none. */
  lemma SavedHasDefault(t: Table, id: string, f: Fields, makeDefault: bool)
    requires Sound(t)
    ensures HasDefault(Saved(t, id, f, makeDefault)) <==>
            makeDefault || t.rows == map[] || exists k :: k in t.rows && k != id && t.rows[k].isDefault
  {
    hide Sound, NextOrder;
    var t' := Saved(t, id, f, makeDefault);
    if makeDefault || t.rows == map[] {
      assert id in t'.rows && t'.rows[id].isDefault;
    } else if k :| k in t.rows && k != id && t.rows[k].isDefault {
      assert k in t'.rows && t'.rows[k].isDefault;
    }
  }

  /** A delete keeps a default exactly if there was one and a model is left. */
  lemma RemovedHasDefault(t: Table, gone: set<string>)
    requires Sound(t)
    ensures HasDefault(Removed(t, gone)) <==> HasDefault(t) && exists k :: k in t.rows && k !in gone
  {
    var left := t.rows - gone;
    if exists id :: id in gone && id in t.rows && t.rows[id].isDefault {
      if k :| k in t.rows && k !in gone {
        assert k in left;
        HasTopAndLeast(left, left.Keys);
        var least :| IsLeast(left, left.Keys, least)
                     && PromoteLeast(left) == left[least := left[least].(isDefault := true)];
        assert least in Removed(t, gone).rows && Removed(t, gone).rows[least].isDefault;
      }
    } else if id :| id in t.rows && t.rows[id].isDefault {
      assert id in left && Removed(t, gone).rows[id].isDefault;
    }
  }

  /** A reorder always leaves one. */
  lemma ReorderedHasDefault(t: Table, ids: seq<string>)
    requires ids != [] && Permutation(ids, t.rows.Keys)
    ensures HasDefault(Reordered(t, ids))
  {
    assert ids[0] in ids && ids[0] in Reordered(t, ids).rows;
  }

  /** The operations that take the default away: saving it as an ordinary model, and removing the last
      models. */
  predicate LosesDefault(t: Table, op: Op) {
    match op
    case SaveProvider(_, _, _, _) => false
    case DeleteProvider(p) =>
      Trim(p) != "" && Trim(p) in t.providers && forall k | k in t.rows :: t.rows[k].fields.provider == Trim(p)
    case Save(id, f, makeDefault) =>
      SaveAccepted(t.providers.Keys, id, f) && !makeDefault && Trim(id) in t.rows && t.rows[Trim(id)].isDefault
    case Delete(id) => Trim(id) in t.rows && forall k | k in t.rows :: k == Trim(id)
    case Reorder(_) => false
  }

  lemma DefaultLostExactly(t: Table, op: Op)
    requires Sound(t) && HasDefault(t)
    ensures HasDefault(Step(t, op)) <==> !LosesDefault(t, op)
  {
    hide Sound, Saved, Removed, Reordered, Trim, TrimAll;
    var d :| d in t.rows && t.rows[d].isDefault;
    match op {
      case SaveProvider(_, _, _, _) => assert d in Step(t, op).rows;
      case DeleteProvider(p) =>
        if Trim(p) != "" && Trim(p) in t.providers { RemovedHasDefault(t, ProvidedBy(t, Trim(p))); }
      case Save(id, f, makeDefault) =>
        if SaveAccepted(t.providers.Keys, id, f) {
          SavedHasDefault(t, Trim(id), Trimmed(f), makeDefault);
          OnlyDefault(t, d);
        }
      case Delete(id) =>
        if Trim(id) in t.rows { RemovedHasDefault(t, {Trim(id)}); }
      case Reorder(ids) =>
        if ids != [] && Permutation(TrimAll(ids), t.rows.Keys) { ReorderedHasDefault(t, TrimAll(ids)); }
    }
  }

  lemma OnlyDefault(t: Table, d: string)
    requires Sound(t) && d in t.rows && t.rows[d].isDefault
    ensures forall k | k in t.rows && t.rows[k].isDefault :: k == d
  {}

  /** Such an input: the only model, saved again without the flag. */
  lemma DefaultSavedPlainly()
    ensures var f := Fields("p", "M", "m", "{}");
            var t := Table(map["m" := Row(f, true, 0)], map["p" := "ref"]);
            Sound(t) && HasDefault(t) && !HasDefault(Saved(t, "m", f, false))
  {
    var f := Fields("p", "M", "m", "{}");
    var t := Table(map["m" := Row(f, true, 0)], map["p" := "ref"]);
    assert "m" in t.rows && SoundRow(t, "m");
    SavedHasDefault(t, "m", f, false);
  }

  // ---------- the listing ----------

  /** Rows by ascending order: the least first, then the rest. */
  ghost function Sorted(rows: map<string, Row>, ids: set<string>): seq<string>
    requires ids <= rows.Keys && DistinctOrders(rows)
  {
    if ids == {} then []
    else
      HasTopAndLeast(rows, ids);
      var least :| IsLeast(rows, ids, least);
      [least] + Sorted(rows, ids - {least})
  }

  lemma {:induction false} SortedAscends(rows: map<string, Row>, ids: set<string>)
    requires ids <= rows.Keys && DistinctOrders(rows)
    ensures (forall id :: id in Sorted(rows, ids) <==> id in ids) && Ascending(rows, Sorted(rows, ids))
  {
    if ids != {} {
      HasTopAndLeast(rows, ids);
      var least :| IsLeast(rows, ids, least) && Sorted(rows, ids) == [least] + Sorted(rows, ids - {least});
      SortedAscends(rows, ids - {least});
      assert Sorted(rows, ids)[1..] == Sorted(rows, ids - {least});
    }
  }

  /** The list a sound table stands for. */
  ghost function ListOf(t: Table): Catalog
    requires Sound(t)
  {
    Catalog(Sorted(t.rows, t.rows.Keys), exists id :: id in t.rows && t.rows[id].isDefault,
            map id | id in t.rows :: t.rows[id].fields.provider, t.providers)
  }

  /** The invariant in the table's own terms is exactly that it stands for a list. */
  lemma SoundRepresents(t: Table)
    requires Sound(t)
    ensures Represents(t, ListOf(t))
  {
    SortedAscends(t.rows, t.rows.Keys);
    hide Ascending, Sorted;
    var c := ListOf(t);
    forall id | id in t.rows
      ensures t.rows[id].isDefault <==> c.flagged && id == c.ids[0]
    {
      HeadIsDefault(t, c, id);
    }
  }

  lemma HeadIsDefault(t: Table, c: Catalog, id: string)
    requires Sound(t) && (forall k :: k in c.ids <==> k in t.rows) && Ascending(t.rows, c.ids)
    requires id in t.rows
    ensures c.ids != []
    ensures t.rows[id].isDefault <==> (exists k :: k in t.rows && t.rows[k].isDefault) && id == c.ids[0]
  {
    assert id in c.ids;
    if k :| k in t.rows && t.rows[k].isDefault {
      assert k in c.ids;
      if k != c.ids[0] {
        AscendingDistinct(t.rows, c.ids, c.ids[0], k);
      }
    }
  }

  lemma StepSound(t: Table, op: Op)
    requires Sound(t)
    ensures Sound(Step(t, op)) && Represents(Step(t, op), ListStep(ListOf(t), op))
  {
    hide Represents, Sound, Step, ListStep;
    SoundRepresents(t);
    StepRefines(t, ListOf(t), op);
    RepresentsSound(Step(t, op), ListStep(ListOf(t), op));
  }

  /** `list_managed_models`: the rows whose provider exists, by ascending `sort_order`. */
  ghost predicate IsListing(t: Table, ids: seq<string>) {
    && (forall id :: id in ids <==> id in t.rows && t.rows[id].fields.provider in t.providers)
    && Ascending(t.rows, ids)
  }

  lemma {:induction false} ListingUnique(rows: map<string, Row>, a: seq<string>, b: seq<string>)
    requires (forall id :: id in a <==> id in b) && forall id | id in a :: id in rows
    requires Ascending(rows, a) && Ascending(rows, b)
    ensures a == b
  {
    assert b != [] ==> b[0] in b;
    if a != [] {
      assert a[0] in b && b[0] in a;
      if a[0] != b[0] {
        AscendingDistinct(rows, a, a[0], b[0]);
      }
      assert a == [a[0]] + a[1..] && b == [b[0]] + b[1..];
      ListingUnique(rows, a[1..], b[1..]);
    }
  }

  /** The query's join drops no row, and its answer is the list. */
  lemma ListingIsList(t: Table, c: Catalog, ids: seq<string>)
    requires Represents(t, c)
    ensures IsListing(t, ids) <==> ids == c.ids
  {
    hide Ascending;
    forall id | id in t.rows ensures t.rows[id].fields.provider in t.providers {
      assert SoundRow(t, id);
    }
    if IsListing(t, ids) { ListingUnique(t.rows, ids, c.ids); }
  }
}
