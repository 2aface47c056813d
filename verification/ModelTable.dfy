/** The managed-model tables of the database (core/src/db.rs): bulk updates of `sort_order`
    and `is_default` that implement the plain list of ModelCatalog. */
module ModelTable {
  import opened Text
  import opened ModelCatalog

  datatype Fields = Fields(provider: string, displayName: string, model: string, options: string)

  datatype Row = Row(fields: Fields, isDefault: bool, sortOrder: int)

  /** `managed_models` by id, and the API-key reference of each provider. */
  datatype Table = Table(rows: map<string, Row>, providers: map<string, string>)

  datatype Error = InvalidArgs

  // ---------- what every table keeps ----------

  /** Listed in this order, sort orders increase strictly. */
  ghost predicate Ascending(rows: map<string, Row>, ids: seq<string>)
    requires forall id | id in ids :: id in rows
  {
    ids == [] ||
    ((forall id | id in ids[1..] :: rows[ids[0]].sortOrder < rows[id].sortOrder) && Ascending(rows, ids[1..]))
  }

  /** The table stands for the catalog. */
  ghost predicate Represents(t: Table, c: Catalog) {
    && t.providers == c.providers
    && c.owner == (map id | id in t.rows :: t.rows[id].fields.provider)
    && (forall id :: id in c.ids <==> id in t.rows)
    && Ascending(t.rows, c.ids)
    && (forall id | id in t.rows :: SoundRow(t, id) && (t.rows[id].isDefault <==> c.flagged && id == c.ids[0]))
    && (c.flagged ==> c.ids != [])
  }

  predicate SoundRow(t: Table, id: string)
    requires id in t.rows
  {
    id != "" && t.rows[id].sortOrder >= 0 && t.rows[id].fields.provider in t.providers
  }

  predicate DistinctOrders(rows: map<string, Row>) {
    forall a, b | a in rows && b in rows && a != b :: rows[a].sortOrder != rows[b].sortOrder
  }

  predicate DefaultIsLeast(rows: map<string, Row>) {
    forall a, b | a in rows && b in rows && a != b && rows[a].isDefault :: rows[a].sortOrder < rows[b].sortOrder
  }

  /** The invariant in the table's own terms. */
  predicate Sound(t: Table) {
    (forall id | id in t.rows :: SoundRow(t, id)) && DistinctOrders(t.rows) && DefaultIsLeast(t.rows)
  }

  lemma {:induction false} AscendingDistinct(rows: map<string, Row>, ids: seq<string>, a: string, b: string)
    requires forall id | id in ids :: id in rows
    requires Ascending(rows, ids) && a in ids && b in ids && a != b
    ensures rows[a].sortOrder != rows[b].sortOrder
    ensures a == ids[0] ==> rows[a].sortOrder < rows[b].sortOrder
  {
    if a != ids[0] && b != ids[0] {
      AscendingDistinct(rows, ids[1..], a, b);
    }
  }

  lemma RepresentsSound(t: Table, c: Catalog)
    requires Represents(t, c)
    ensures Sound(t)
  {
    forall a, b | a in t.rows && b in t.rows && a != b
      ensures t.rows[a].sortOrder != t.rows[b].sortOrder
      ensures t.rows[a].isDefault ==> t.rows[a].sortOrder < t.rows[b].sortOrder
    {
      AscendingDistinct(t.rows, c.ids, a, b);
    }
  }

  // ---------- the statements ----------

  predicate IsTop(rows: map<string, Row>, ids: set<string>, top: string)
    requires ids <= rows.Keys
  {
    top in ids && forall id | id in ids :: rows[id].sortOrder <= rows[top].sortOrder
  }

  predicate IsLeast(rows: map<string, Row>, ids: set<string>, least: string)
    requires ids <= rows.Keys
  {
    least in ids && forall id | id in ids :: rows[least].sortOrder <= rows[id].sortOrder
  }

  lemma {:induction false} HasTopAndLeast(rows: map<string, Row>, ids: set<string>)
    requires ids != {} && ids <= rows.Keys
    ensures exists top :: IsTop(rows, ids, top)
    ensures exists least :: IsLeast(rows, ids, least)
  {
    var x :| x in ids;
    var rest := ids - {x};
    if rest == {} {
      assert ids == {x};
      assert IsTop(rows, ids, x) && IsLeast(rows, ids, x);
    } else {
      HasTopAndLeast(rows, rest);
      var t :| IsTop(rows, rest, t);
      var l :| IsLeast(rows, rest, l);
      assert IsTop(rows, ids, if rows[t].sortOrder < rows[x].sortOrder then x else t);
      assert IsLeast(rows, ids, if rows[x].sortOrder < rows[l].sortOrder then x else l);
    }
  }

  /** `COALESCE(MAX(sort_order), -1) + 1`. */
  function NextOrder(rows: map<string, Row>): (next: int)
    requires DistinctOrders(rows)
    ensures forall id | id in rows :: rows[id].sortOrder < next
    ensures rows == map[] ==> next == 0
    ensures rows != map[] ==> exists id :: id in rows && next == rows[id].sortOrder + 1
  {
    if rows == map[] then 0
    else
      HasTopAndLeast(rows, rows.Keys);
      var top :| IsTop(rows, rows.Keys, top);
      rows[top].sortOrder + 1
  }

  /** `set_latest_model_default`: the row with the least order becomes the default. */
  function PromoteLeast(rows: map<string, Row>): map<string, Row>
    requires DistinctOrders(rows)
  {
    if rows == map[] then rows
    else
      HasTopAndLeast(rows, rows.Keys);
      var least :| IsLeast(rows, rows.Keys, least);
      rows[least := rows[least].(isDefault := true)]
  }

  function ClearDefaults(rows: map<string, Row>): map<string, Row> {
    map id | id in rows :: rows[id].(isDefault := false)
  }

  /** `UPDATE ... SET sort_order = sort_order + 1 WHERE id != ? AND sort_order < ?`. */
  function ShiftBelow(rows: map<string, Row>, except: string, bound: int): map<string, Row> {
    map id | id in rows ::
      if id != except && rows[id].sortOrder < bound then rows[id].(sortOrder := rows[id].sortOrder + 1) else rows[id]
  }

  function ShiftAll(rows: map<string, Row>): map<string, Row> {
    map id | id in rows :: rows[id].(sortOrder := rows[id].sortOrder + 1)
  }

  predicate HasDefault(t: Table) {
    exists id :: id in t.rows && t.rows[id].isDefault
  }

  /** The unique index on `is_default = 1`. */
  predicate OneDefault(rows: map<string, Row>) {
    forall a, b | a in rows && b in rows && rows[a].isDefault && rows[b].isDefault :: a == b
  }

  // ---------- what each operation leaves ----------

  /** Saving a model: its row, and every other row with its order after the bulk shift. */
  function Saved(t: Table, id: string, f: Fields, makeDefault: bool): Table
    requires Sound(t)
  {
    var rows := t.rows;
    var first := makeDefault || rows == map[];
    t.(rows := map k | k in rows.Keys + {id} ::
      if k == id then
        Row(f, first, if first then 0 else if id in rows then rows[id].sortOrder else NextOrder(rows))
      else if !first then rows[k]
      else
        var moved := id !in rows || (!rows[id].isDefault && rows[k].sortOrder < rows[id].sortOrder);
        rows[k].(isDefault := false, sortOrder := rows[k].sortOrder + if moved then 1 else 0))
  }

  function Removed(t: Table, gone: set<string>): Table
    requires Sound(t)
  {
    var left := t.rows - gone;
    t.(rows := if exists id :: id in gone && id in t.rows && t.rows[id].isDefault then PromoteLeast(left) else left)
  }

  function ProvidedBy(t: Table, provider: string): set<string> {
    set id | id in t.rows && t.rows[id].fields.provider == provider
  }

  function PlaceOf(ids: seq<string>, id: string): (k: nat)
    requires id in ids
    ensures k < |ids| && ids[k] == id
  {
    if ids[0] == id then 0 else 1 + PlaceOf(ids[1..], id)
  }

  function Reordered(t: Table, ids: seq<string>): Table
    requires ids != [] && forall id | id in t.rows :: id in ids
  {
    t.(rows := map id | id in t.rows :: t.rows[id].(isDefault := id == ids[0], sortOrder := PlaceOf(ids, id)))
  }

  // ---------- operations as given ----------

  function Trimmed(f: Fields): Fields {
    Fields(Trim(f.provider), Trim(f.displayName), Trim(f.model), f.options)
  }

  function TrimAll(ids: seq<string>): (trimmed: seq<string>)
    ensures |trimmed| == |ids| && forall i | 0 <= i < |ids| :: trimmed[i] == Trim(ids[i])
  {
    seq(|ids|, i requires 0 <= i < |ids| => Trim(ids[i]))
  }

  predicate SaveAccepted(providers: set<string>, id: string, f: Fields) {
    Trim(id) != "" && Trim(f.provider) in providers && Trim(f.provider) != ""
    && Trim(f.displayName) != "" && Trim(f.model) != ""
  }

  /** No field blank, and no other provider with the same key reference: that column is unique. */
  predicate ProviderAccepted(providers: map<string, string>, provider: string, displayName: string,
                             apiBase: string, apiKeyRef: string) {
    Trim(provider) != "" && Trim(displayName) != "" && Trim(apiBase) != ""
    && forall p | p in providers && p != Trim(provider) :: providers[p] != apiKeyRef
  }

  datatype Op =
    | SaveProvider(provider: string, displayName: string, apiBase: string, apiKeyRef: string)
    | DeleteProvider(provider: string)
    | Save(id: string, fields: Fields, makeDefault: bool)
    | Delete(id: string)
    | Reorder(ids: seq<string>)

  /** The table after an operation; a refused operation leaves it alone. */
  function Step(t: Table, op: Op): Table
    requires Sound(t)
  {
    match op
    case SaveProvider(p, name, base, ref) =>
      if ProviderAccepted(t.providers, p, name, base, ref) then t.(providers := t.providers[Trim(p) := ref]) else t
    case DeleteProvider(p) =>
      if Trim(p) == "" || Trim(p) !in t.providers then t
      else Removed(t, ProvidedBy(t, Trim(p))).(providers := t.providers - {Trim(p)})
    case Save(id, f, makeDefault) =>
      if SaveAccepted(t.providers.Keys, id, f) then Saved(t, Trim(id), Trimmed(f), makeDefault) else t
    case Delete(id) => if Trim(id) in t.rows then Removed(t, {Trim(id)}) else t
    case Reorder(ids) =>
      if ids != [] && Permutation(TrimAll(ids), t.rows.Keys) then Reordered(t, TrimAll(ids)) else t
  }
}
