/** The database's managed-model operations, statement by statement (core/src/db.rs), and the
    provisioning client that relies on their invariant (core/src/yole_provisioning.rs). */
module ModelStore {
  import opened Rows
  import opened Text
  import opened ModelCatalog
  import opened ModelTable
  import opened ModelRefinement

  /** A delete's answer: bad arguments, nothing there, or gone. */
  datatype Deletion<+T> = BadArgs | Absent | Gone(value: T)

  class Store {
    var rows: map<string, Row>
    var providers: map<string, string>

    function Current(): Table
      reads this
    {
      Table(rows, providers)
    }

    constructor ()
      ensures Current() == Table(map[], map[])
    {
      rows, providers := map[], map[];
    }

    method UpsertProvider(provider: string, displayName: string, apiBase: string, apiKeyRef: string)
      returns (ok: bool)
      requires Sound(Current())
      modifies this
      ensures ok <==> ProviderAccepted(old(providers), provider, displayName, apiBase, apiKeyRef)
      ensures Current() == Step(old(Current()), SaveProvider(provider, displayName, apiBase, apiKeyRef))
    {
      var key := Trim(provider);
      if key == "" || Trim(displayName) == "" || Trim(apiBase) == "" { return false; }
      if exists p :: p in providers && p != key && providers[p] == apiKeyRef { return false; }
      providers := providers[key := apiKeyRef];
      ok := true;
    }

    method UpsertModel(id: string, f: Fields, makeDefault: bool) returns (ok: bool)
      requires Sound(Current())
      modifies this
      ensures ok <==> SaveAccepted(old(providers).Keys, id, f)
      ensures Current() == Step(old(Current()), Save(id, f, makeDefault))
    {
      var key, fields := Trim(id), Trimmed(f);
      if key == "" || fields.provider == "" || fields.displayName == "" || fields.model == ""
         || fields.provider !in providers {
        return false;
      }
      hide Trim, Trimmed, NextOrder, Saved, Sound;
      var existing := if key in rows then Some(rows[key]) else None;
      var first := makeDefault || |rows| == 0;
      NoRows(rows);
      var target := if first then 0 else if existing.Some? then existing.value.sortOrder else NextOrder(rows);
      if first {
        rows := ClearDefaults(rows);
        if existing.Some? {
          if !existing.value.isDefault {
            rows := ShiftBelow(rows, key, existing.value.sortOrder);
          }
        } else {
          rows := ShiftAll(rows);
        }
      }
      rows := rows[key := Row(fields, first, target)];
      UpsertStatements(old(Current()), key, fields, makeDefault);
      ok := true;
    }

    method DeleteModel(id: string) returns (r: Deletion<()>)
      requires Sound(Current())
      modifies this
      ensures r == if Trim(id) == "" then BadArgs else if Trim(id) in old(rows) then Gone(()) else Absent
      ensures Current() == Step(old(Current()), Delete(id))
    {
      var key := Trim(id);
      if key == "" { return BadArgs; }
      if key !in rows { return Absent; }
      var wasDefault := rows[key].isDefault;
      rows := rows - {key};
      assert Removed(old(Current()), {key}).rows == if wasDefault then PromoteLeast(rows) else rows;
      if wasDefault {
        rows := PromoteLeast(rows);
      }
      r := Gone(());
    }

    method DeleteProvider(provider: string) returns (r: Deletion<string>)
      requires Sound(Current())
      modifies this
      ensures r == if Trim(provider) == "" then BadArgs
                   else if Trim(provider) in old(providers) then Gone(old(providers)[Trim(provider)]) else Absent
      ensures Current() == Step(old(Current()), Op.DeleteProvider(provider))
    {
      var key := Trim(provider);
      if key == "" { return BadArgs; }
      if key !in providers { return Absent; }
      r := Gone(providers[key]);
      ghost var gone := ProvidedBy(Current(), key);
      var wasDefault := exists id :: id in rows && rows[id].fields.provider == key && rows[id].isDefault;
      rows := map id | id in rows && rows[id].fields.provider != key :: rows[id];
      assert rows == old(rows) - gone;
      providers := providers - {key};
      assert wasDefault <==> exists id :: id in gone && id in old(rows) && old(rows)[id].isDefault;
      if wasDefault {
        rows := PromoteLeast(rows);
      }
    }

    /** Accepted exactly when the trimmed ids are a rearrangement of the stored ones. */
    method ReorderModels(ids: seq<string>) returns (ok: bool)
      requires Sound(Current())
      modifies this
      ensures ok <==> ids != [] && Permutation(TrimAll(ids), old(rows).Keys)
      ensures Current() == Step(old(Current()), Reorder(ids))
    {
      if ids == [] { return false; }
      var ordered := TrimAll(ids);
      var valid := DistinctIds(ordered);
      var seen := set id | id in ordered;
      if !valid || |rows| != |ordered| || exists id :: id in rows && id !in seen {
        RefusedOrder(Current(), ordered, valid);
        return false;
      }
      SubsetSize(rows.Keys, seen);
      hide Sound, Reordered, Distinct;
      Renumber(ordered);
      ok := true;
    }

    method Renumber(ordered: seq<string>)
      requires ordered != [] && Permutation(ordered, rows.Keys)
      modifies `rows
      ensures Current() == Reordered(old(Current()), ordered)
    {
      hide Distinct;
      rows := ClearDefaults(rows);
      var n := 0;
      while n < |ordered|
        invariant 0 <= n <= |ordered| && rows == Renumbered(old(rows), ordered, n)
      {
        PositionOf(ordered, n);
        RenumberOne(old(rows), ordered, n);
        rows := rows[ordered[n] := rows[ordered[n]].(sortOrder := n)];
        n := n + 1;
      }
      assert ordered[0] in rows;
      rows := rows[ordered[0] := rows[ordered[0]].(isDefault := true)];
    }
  }

  /** The check of the given order: no empty id, none twice. */
  method DistinctIds(ids: seq<string>) returns (valid: bool)
    ensures valid ==> Distinct(ids) && "" !in ids && |set id | id in ids| == |ids|
    ensures !valid ==> !Distinct(ids) || "" in ids
  {
    var seen: set<string> := {};
    for i := 0 to |ids|
      invariant seen == set id | id in ids[..i]
      invariant |seen| == i && Distinct(ids[..i]) && "" !in ids[..i]
    {
      assert ids[..i + 1] == ids[..i] + [ids[i]];
      if ids[i] == "" { return false; }
      if ids[i] in seen {
        assert ids[i] in ids[..i];
        return false;
      }
      seen := seen + {ids[i]};
    }
    assert ids[..|ids|] == ids;
    valid := true;
  }

  /** The rows after the first `n` renumbering statements. */
  function Renumbered(rows: map<string, Row>, ids: seq<string>, n: nat): map<string, Row>
    requires forall id | id in rows :: id in ids
  {
    map id | id in rows ::
      rows[id].(isDefault := false,
                sortOrder := if PlaceOf(ids, id) < n then PlaceOf(ids, id) else rows[id].sortOrder)
  }

  lemma RenumberOne(rows: map<string, Row>, ids: seq<string>, n: nat)
    requires (forall id | id in rows :: id in ids) && n < |ids| && ids[n] in rows && PlaceOf(ids, ids[n]) == n
    ensures var before := Renumbered(rows, ids, n);
            Renumbered(rows, ids, n + 1) == before[ids[n] := before[ids[n]].(sortOrder := n)]
  {}

  lemma RefusedOrder(t: Table, ids: seq<string>, valid: bool)
    requires Sound(t)
    requires !valid ==> !Distinct(ids) || "" in ids
    requires valid ==> |set id | id in ids| == |ids|
    requires !valid || |t.rows| != |ids| || exists id :: id in t.rows && id !in ids
    ensures !Permutation(ids, t.rows.Keys)
  {
    forall id | id in t.rows ensures id != "" { assert SoundRow(t, id); }
    assert Permutation(ids, t.rows.Keys) ==> (set id | id in ids) == t.rows.Keys;
  }

  lemma NoRows(rows: map<string, Row>)
    ensures |rows| == 0 <==> rows == map[]
  {}

  /** The rows after the statements of an upsert: the flags cleared, the shift that applies,
      and the model's own row. */
  function AfterUpsert(t: Table, id: string, f: Fields, makeDefault: bool): map<string, Row>
    requires Sound(t)
  {
    var first := makeDefault || t.rows == map[];
    var cleared := if first then ClearDefaults(t.rows) else t.rows;
    var shifted :=
      if !first then cleared
      else if id !in t.rows then ShiftAll(cleared)
      else if t.rows[id].isDefault then cleared
      else ShiftBelow(cleared, id, t.rows[id].sortOrder);
    shifted[id := Row(f, first, if first then 0 else if id in t.rows then t.rows[id].sortOrder else NextOrder(t.rows))]
  }

  lemma UpsertStatements(t: Table, id: string, f: Fields, makeDefault: bool)
    requires Sound(t)
    ensures AfterUpsert(t, id, f, makeDefault) == Saved(t, id, f, makeDefault).rows
  {
    hide NextOrder, SoundRow, DefaultIsLeast, DistinctOrders;
    assert AfterUpsert(t, id, f, makeDefault).Keys == Saved(t, id, f, makeDefault).rows.Keys;
  }

  /** No statement of an upsert trips over the unique index on the default. */
  lemma UpsertKeepsOneDefault(t: Table, id: string, f: Fields, makeDefault: bool)
    requires Sound(t)
    ensures OneDefault(t.rows) && OneDefault(ClearDefaults(t.rows))
    ensures OneDefault(AfterUpsert(t, id, f, makeDefault))
  {
    hide NextOrder, SoundRow;
  }
}
