/** What the managed-model operations (core/src/db.rs) leave of each model's own fields, of the set of
    models and of the providers' keys, told from the operation alone. */
module ModelFields {
  import opened Text
  import opened ModelCatalog
  import opened ModelTable
  import opened ModelRefinement

  predicate Saves(op: Op, id: string) {
    op.Save? && Trim(op.id) == id
  }

  lemma PromoteKeepsFields(rows: map<string, Row>)
    requires DistinctOrders(rows)
    ensures PromoteLeast(rows).Keys == rows.Keys
    ensures forall k | k in rows :: PromoteLeast(rows)[k].fields == rows[k].fields
  {}

  /** A model there before and after an operation that does not save it keeps all its fields. */
  lemma StepKeepsFields(t: Table, op: Op, k: string)
    requires Sound(t) && k in t.rows && k in Step(t, op).rows && !Saves(op, k)
    ensures Step(t, op).rows[k].fields == t.rows[k].fields
  {
    hide Trim, Trimmed, TrimAll, NextOrder, PromoteLeast;
    match op {
      case Delete(id) => PromoteKeepsFields(t.rows - {Trim(id)});
      case DeleteProvider(p) => PromoteKeepsFields(t.rows - ProvidedBy(t, Trim(p)));
      case _ =>
    }
  }

  /** A model is saved unless a name in it is blank or its provider is not there; a provider, unless a name is
      blank or another one has its key's reference. */
  lemma AcceptedExactly(t: Table, id: string, f: Fields, p: string, name: string, base: string, ref: string)
    ensures SaveAccepted(t.providers.Keys, id, f) <==>
            !Blank(id) && !Blank(f.provider) && !Blank(f.displayName) && !Blank(f.model)
            && Trim(f.provider) in t.providers
    ensures ProviderAccepted(t.providers, p, name, base, ref) <==>
            !Blank(p) && !Blank(name) && !Blank(base)
            && forall q | q in t.providers && t.providers[q] == ref :: q == Trim(p)
  {
    BlankExactly(id);
    BlankExactly(f.provider);
    BlankExactly(f.displayName);
    BlankExactly(f.model);
    BlankExactly(p);
    BlankExactly(name);
    BlankExactly(base);
    hide Trim, Blank;
  }

  /** A saved model has the fields given, without the blanks around them. */
  lemma SaveStoresFields(t: Table, id: string, f: Fields, makeDefault: bool)
    requires Sound(t) && SaveAccepted(t.providers.Keys, id, f)
    ensures var rows := Step(t, Save(id, f, makeDefault)).rows;
            && Trim(id) in rows
            && rows[Trim(id)].fields.provider == Trim(f.provider)
            && rows[Trim(id)].fields.displayName == Trim(f.displayName)
            && rows[Trim(id)].fields.model == Trim(f.model)
            && rows[Trim(id)].fields.options == f.options
  {
    hide Trim, Sound, NextOrder;
  }

  /** Which models an operation leaves: a save adds its own, deletes take what they name, and a provider
      takes its models with it. */
  lemma StepMembers(t: Table, op: Op, k: string)
    requires Sound(t)
    ensures k in Step(t, op).rows <==>
            match op
            case SaveProvider(_, _, _, _) => k in t.rows
            case DeleteProvider(p) => k in t.rows && (Trim(p) == "" || t.rows[k].fields.provider != Trim(p))
            case Save(id, f, _) => k in t.rows || (k == Trim(id) && SaveAccepted(t.providers.Keys, id, f))
            case Delete(id) => k in t.rows && k != Trim(id)
            case Reorder(_) => k in t.rows
  {
    if k in t.rows { assert SoundRow(t, k); }
    hide Trim, Trimmed, TrimAll, NextOrder, PromoteLeast;
    match op {
      case Delete(id) => PromoteKeepsFields(t.rows - {Trim(id)});
      case DeleteProvider(p) =>
        PromoteKeepsFields(t.rows - ProvidedBy(t, Trim(p)));
      case _ =>
    }
  }

  /** The providers and their keys' references: only the one an operation names changes. */
  lemma StepProviders(t: Table, op: Op, p: string)
    requires Sound(t)
    ensures var after := Step(t, op).providers;
            if op.SaveProvider? && Trim(op.provider) == p
               && ProviderAccepted(t.providers, op.provider, op.displayName, op.apiBase, op.apiKeyRef)
            then p in after && after[p] == op.apiKeyRef
            else if op.DeleteProvider? && Trim(op.provider) == p && p != "" then p !in after
            else (p in after <==> p in t.providers) && (p in after ==> after[p] == t.providers[p])
  {
    hide Trim, Trimmed, TrimAll, Sound, NextOrder, PromoteLeast;
  }

  /** Through a run that does not save a model, it keeps its fields as long as it is there, and does not
      come back once it has gone. */
  lemma {:induction false} RunKeepsFields(t: Table, c: Catalog, ops: seq<Op>, k: string)
    requires Represents(t, c) && forall op | op in ops :: !Saves(op, k)
    ensures k in Run(t, c, ops).rows ==> k in t.rows && Run(t, c, ops).rows[k].fields == t.rows[k].fields
    decreases |ops|
  {
    hide Represents, Step, ListStep, Sound, Saves;
    if ops != [] {
      assert ops[0] in ops;
      StepRefines(t, c, ops[0]);
      RunKeepsFields(Step(t, ops[0]), ListStep(c, ops[0]), ops[1..], k);
      if k in Run(t, c, ops).rows {
        NotAdded(t, ops[0], k);
        StepKeepsFields(t, ops[0], k);
      }
    }
  }

  lemma NotAdded(t: Table, op: Op, k: string)
    requires Sound(t) && !Saves(op, k) && k in Step(t, op).rows
    ensures k in t.rows
  {
    StepMembers(t, op, k);
  }

  /** So a model shows what its last save gave it. */
  lemma RunShowsLastSave(t: Table, c: Catalog, id: string, f: Fields, makeDefault: bool, rest: seq<Op>)
    requires Represents(t, c) && SaveAccepted(t.providers.Keys, id, f)
    requires forall op | op in rest :: !Saves(op, Trim(id))
    ensures var after := Run(t, c, [Save(id, f, makeDefault)] + rest).rows;
            Trim(id) in after ==>
              after[Trim(id)].fields == Fields(Trim(f.provider), Trim(f.displayName), Trim(f.model), f.options)
  {
    var op := Save(id, f, makeDefault);
    StepRefines(t, c, op);
    SaveStoresFields(t, id, f, makeDefault);
    assert ([op] + rest)[1..] == rest;
    hide Represents, Step, ListStep, Sound, Saves, Trim;
    RunKeepsFields(Step(t, op), ListStep(c, op), rest, Trim(id));
  }
}
