/** The provisioning client that keeps Yole's two catalog models in the table
    (core/src/yole_provisioning.rs). Its flags rely on the table's invariant. */
module YoleProvisioning {
  import opened Text
  import opened ModelCatalog
  import opened ModelTable
  import opened ModelRefinement
  import opened ModelStore

  const PROVIDER_ID := "yole"
  const MODEL_ID := "yole-default"
  const GPT_MODEL_ID := "yole-gpt-5-5"

  /** A listed model, as far as the client looks at it. */
  datatype Existing = Existing(id: string, isDefault: bool)

  /** Display name, model name and options of a catalog model; none of the names is blank. */
  datatype Product = Product(displayName: string, model: string, options: string)

  const TEXT_MODEL := Product("DeepSeek V4 Pro", "deepseek-v4-pro", "text")
  const GPT_MODEL := Product("GPT-5.5", "gpt-5.5", "text,image")

  function FieldsOf(p: Product): Fields {
    Fields(PROVIDER_ID, p.displayName, p.model, p.options)
  }

  /** `existing` is what listing the table gives. */
  ghost predicate Listed(t: Table, existing: seq<Existing>) {
    && (forall e | e in existing :: e.id in t.rows && e.isDefault == t.rows[e.id].isDefault)
    && (forall id | id in t.rows :: exists e :: e in existing && e.id == id)
  }

  method EnsureExistingCatalogModels(store: Store, existing: seq<Existing>)
    requires Sound(store.Current()) && Listed(store.Current(), existing)
    modifies store
    ensures store.Current() == Ensured(old(store.Current()))
  {
    hide Sound, Saved, Removed, Trim;
    if PROVIDER_ID !in store.providers { return; }
    var t := store.Current();
    var anyDefault := exists e :: e in existing && e.isDefault;
    var textDefault := (exists e :: e in existing && e.id == MODEL_ID && e.isDefault) || !anyDefault;
    var gptDefault := exists e :: e in existing && e.id == GPT_MODEL_ID && e.isDefault;
    assert anyDefault <==> HasDefault(t);
    assert textDefault <==> (MODEL_ID in t.rows && t.rows[MODEL_ID].isDefault) || !HasDefault(t);
    assert gptDefault <==> GPT_MODEL_ID in t.rows && t.rows[GPT_MODEL_ID].isDefault;
    var ok := store.UpsertModel(MODEL_ID, FieldsOf(TEXT_MODEL), textDefault);
    StepSound(t, Save(MODEL_ID, FieldsOf(TEXT_MODEL), textDefault));
    ok := store.UpsertModel(GPT_MODEL_ID, FieldsOf(GPT_MODEL), gptDefault);
  }

  function FirstSave(t: Table): Op {
    Save(MODEL_ID, FieldsOf(TEXT_MODEL), (MODEL_ID in t.rows && t.rows[MODEL_ID].isDefault) || !HasDefault(t))
  }

  function SecondSave(t: Table): Op {
    Save(GPT_MODEL_ID, FieldsOf(GPT_MODEL), GPT_MODEL_ID in t.rows && t.rows[GPT_MODEL_ID].isDefault)
  }

  function Ensured(t: Table): Table
    requires Sound(t)
  {
    if PROVIDER_ID !in t.providers then t
    else
      StepSound(t, FirstSave(t));
      Step(Step(t, FirstSave(t)), SecondSave(t))
  }

  lemma NamesAccepted(t: Table, id: string, p: Product)
    requires PROVIDER_ID in t.providers
    requires (id == MODEL_ID && p == TEXT_MODEL) || (id == GPT_MODEL_ID && p == GPT_MODEL)
    ensures SaveAccepted(t.providers.Keys, id, FieldsOf(p)) && Trim(id) == id && Trimmed(FieldsOf(p)) == FieldsOf(p)
  {
    hide Trim;
    Untrimmed("yole");
    Untrimmed(id);
    Untrimmed(FieldsOf(p).displayName);
    Untrimmed(FieldsOf(p).model);
  }

  /** Text without blank ends stays as it is. */
  lemma Untrimmed(s: string)
    requires s != "" && !IsSpace(s[0]) && !IsSpace(s[|s| - 1])
    ensures Trim(s) == s
  {}

  /** The two saves in the table's terms. */
  lemma EnsuredIsTwoSaves(t: Table)
    requires Sound(t) && PROVIDER_ID in t.providers
    ensures var t1 := Saved(t, MODEL_ID, FieldsOf(TEXT_MODEL), FirstSave(t).makeDefault);
            Sound(t1) && Sound(Ensured(t))
            && Ensured(t) == Saved(t1, GPT_MODEL_ID, FieldsOf(GPT_MODEL), SecondSave(t).makeDefault)
  {
    hide Sound, Saved, Trim, SaveAccepted, Trimmed, FieldsOf;
    NamesAccepted(t, MODEL_ID, TEXT_MODEL);
    StepSound(t, FirstSave(t));
    var t1 := Step(t, FirstSave(t));
    SavedProviders(t, MODEL_ID, FieldsOf(TEXT_MODEL), FirstSave(t).makeDefault);
    NamesAccepted(t1, GPT_MODEL_ID, GPT_MODEL);
    StepSound(t1, SecondSave(t));
  }

  lemma SavedProviders(t: Table, id: string, f: Fields, makeDefault: bool)
    requires Sound(t)
    ensures Saved(t, id, f, makeDefault).providers == t.providers
  {}

  /** Saving with the flag the row already has, in a table with a default, moves nothing. */
  predicate SameFlag(t: Table, id: string, makeDefault: bool) {
    HasDefault(t) && makeDefault == (id in t.rows && t.rows[id].isDefault)
  }

  lemma SameFlagKeeps(t: Table, id: string, f: Fields, makeDefault: bool)
    requires Sound(t) && SameFlag(t, id, makeDefault)
    ensures var t' := Saved(t, id, f, makeDefault);
            && (forall k | k in t.rows && k != id :: k in t'.rows && t'.rows[k] == t.rows[k])
            && id in t'.rows && t'.rows[id].fields == f && t'.rows[id].isDefault == makeDefault
            && (id in t.rows ==> t'.rows[id].sortOrder == if makeDefault then 0 else t.rows[id].sortOrder)
            && (id !in t.rows ==> forall k | k in t.rows :: t.rows[k].sortOrder < t'.rows[id].sortOrder)
            && t'.rows.Keys == t.rows.Keys + {id} && HasDefault(t')
  {
    var d :| d in t.rows && t.rows[d].isDefault;
    var t' := Saved(t, id, f, makeDefault);
    SoundOneDefault(t);
    assert d in t'.rows && t'.rows[d].isDefault;
  }

  lemma FirstSaveLeavesDefault(t: Table)
    requires Sound(t) && t.rows != map[]
    ensures var t1 := Saved(t, MODEL_ID, FieldsOf(TEXT_MODEL), FirstSave(t).makeDefault);
            && HasDefault(t1)
            && SameFlag(t1, GPT_MODEL_ID, SecondSave(t).makeDefault)
  {
    hide Sound, FieldsOf;
    var t1 := Saved(t, MODEL_ID, FieldsOf(TEXT_MODEL), FirstSave(t).makeDefault);
    if HasDefault(t) {
      SameFlagKeeps(t, MODEL_ID, FieldsOf(TEXT_MODEL), FirstSave(t).makeDefault);
    } else {
      assert t1.rows[MODEL_ID].isDefault;
    }
  }

  /** The client leaves exactly one default: the one there was, or Yole's text model. */
  lemma EnsuredDefault(t: Table)
    requires Sound(t) && PROVIDER_ID in t.providers && t.rows != map[]
    ensures HasDefault(Ensured(t)) && OneDefault(Ensured(t).rows)
    ensures forall id | id in t.rows && t.rows[id].isDefault :: id in Ensured(t).rows && Ensured(t).rows[id].isDefault
    ensures !HasDefault(t) ==> MODEL_ID in Ensured(t).rows && Ensured(t).rows[MODEL_ID].isDefault
  {
    EnsuredIsTwoSaves(t);
    FirstSaveLeavesDefault(t);
    SoundOneDefault(Ensured(t));
    hide Sound, Saved, OneDefault, FieldsOf, Ensured, SameFlag, FirstSave, SecondSave;
    var first, second := FirstSave(t).makeDefault, SecondSave(t).makeDefault;
    var t1 := Saved(t, MODEL_ID, FieldsOf(TEXT_MODEL), first);
    SameFlagKeeps(t1, GPT_MODEL_ID, FieldsOf(GPT_MODEL), second);
    FlagSurvives(t1, GPT_MODEL_ID, FieldsOf(GPT_MODEL), second);
    if HasDefault(t) {
      FirstSaveSameFlag(t);
      FlagSurvives(t, MODEL_ID, FieldsOf(TEXT_MODEL), first);
    } else {
      FirstSaveSameFlag(t);
      SavedAsDefault(t, MODEL_ID, FieldsOf(TEXT_MODEL));
    }
  }

  /** The client leaves its two models with the catalog's fields under Yole's provider, and every other
      model and provider as it was but for the model's place and flag. */
  lemma EnsuredFields(t: Table)
    requires Sound(t) && PROVIDER_ID in t.providers
    ensures var t' := Ensured(t);
            && t'.providers == t.providers
            && t'.rows.Keys == t.rows.Keys + {"yole-default", "yole-gpt-5-5"}
            && t'.rows["yole-default"].fields == Fields("yole", "DeepSeek V4 Pro", "deepseek-v4-pro", "text")
            && t'.rows["yole-gpt-5-5"].fields == Fields("yole", "GPT-5.5", "gpt-5.5", "text,image")
            && forall k | k in t.rows && k != "yole-default" && k != "yole-gpt-5-5" ::
                 t'.rows[k].fields == t.rows[k].fields
  {
    EnsuredIsTwoSaves(t);
    CatalogFields();
    hide Sound, Saved, Ensured, FieldsOf, FirstSave, SecondSave;
    TwoSavesFields(t, MODEL_ID, FieldsOf(TEXT_MODEL), FirstSave(t).makeDefault,
                   GPT_MODEL_ID, FieldsOf(GPT_MODEL), SecondSave(t).makeDefault);
  }

  lemma TwoSavesFields(t: Table, a: string, f: Fields, aDefault: bool, b: string, g: Fields, bDefault: bool)
    requires Sound(t) && Sound(Saved(t, a, f, aDefault)) && a != b
    ensures var t' := Saved(Saved(t, a, f, aDefault), b, g, bDefault);
            && t'.providers == t.providers && t'.rows.Keys == t.rows.Keys + {a, b}
            && t'.rows[a].fields == f && t'.rows[b].fields == g
            && forall k | k in t.rows && k != a && k != b :: t'.rows[k].fields == t.rows[k].fields
  {
    SavedFields(t, a, f, aDefault);
    hide Sound, Saved;
    SavedFields(Saved(t, a, f, aDefault), b, g, bDefault);
  }

  lemma CatalogFields()
    ensures MODEL_ID != GPT_MODEL_ID
    ensures FieldsOf(TEXT_MODEL) == Fields("yole", "DeepSeek V4 Pro", "deepseek-v4-pro", "text")
    ensures FieldsOf(GPT_MODEL) == Fields("yole", "GPT-5.5", "gpt-5.5", "text,image")
  {
    assert MODEL_ID[5] != GPT_MODEL_ID[5];
  }

  lemma SavedFields(t: Table, id: string, f: Fields, makeDefault: bool)
    requires Sound(t)
    ensures var t' := Saved(t, id, f, makeDefault);
            && t'.providers == t.providers && t'.rows.Keys == t.rows.Keys + {id} && t'.rows[id].fields == f
            && forall k | k in t.rows && k != id :: t'.rows[k].fields == t.rows[k].fields
  {}

  lemma FirstSaveSameFlag(t: Table)
    ensures if HasDefault(t) then SameFlag(t, MODEL_ID, FirstSave(t).makeDefault) else FirstSave(t).makeDefault
  {}

  lemma FlagSurvives(t: Table, id: string, f: Fields, makeDefault: bool)
    requires Sound(t) && SameFlag(t, id, makeDefault)
    ensures var t' := Saved(t, id, f, makeDefault);
            forall k | k in t.rows && t.rows[k].isDefault :: k in t'.rows && t'.rows[k].isDefault
  {
    SameFlagKeeps(t, id, f, makeDefault);
    hide Saved, Sound;
  }

  lemma SavedAsDefault(t: Table, id: string, f: Fields)
    requires Sound(t)
    ensures var t' := Saved(t, id, f, true); id in t'.rows && t'.rows[id].isDefault
  {}

  lemma SoundOneDefault(t: Table)
    requires Sound(t)
    ensures OneDefault(t.rows)
  {
    hide DistinctOrders, SoundRow;
  }

  /** Models keep their relative order; only a text model promoted for want of a default moves. */
  lemma EnsuredKeepsOrder(t: Table, a: string, b: string)
    requires Sound(t) && PROVIDER_ID in t.providers
    requires a in t.rows && b in t.rows && t.rows[a].sortOrder < t.rows[b].sortOrder
    requires HasDefault(t) || (a != MODEL_ID && b != MODEL_ID)
    ensures var t' := Ensured(t); a in t'.rows && b in t'.rows && t'.rows[a].sortOrder < t'.rows[b].sortOrder
  {
    EnsuredIsTwoSaves(t);
    FirstSaveLeavesDefault(t);
    hide Ensured, FieldsOf;
    var t1 := Saved(t, MODEL_ID, FieldsOf(TEXT_MODEL), FirstSave(t).makeDefault);
    if HasDefault(t) {
      SameFlagKeepsOrder(t, MODEL_ID, FieldsOf(TEXT_MODEL), FirstSave(t).makeDefault, a, b);
    } else {
      ShiftKeepsOrder(t, MODEL_ID, FieldsOf(TEXT_MODEL), a, b);
    }
    SameFlagKeepsOrder(t1, GPT_MODEL_ID, FieldsOf(GPT_MODEL), SecondSave(t).makeDefault, a, b);
  }

  lemma SameFlagKeepsOrder(t: Table, id: string, f: Fields, makeDefault: bool, a: string, b: string)
    requires Sound(t) && SameFlag(t, id, makeDefault)
    requires a in t.rows && b in t.rows && t.rows[a].sortOrder < t.rows[b].sortOrder
    ensures var t' := Saved(t, id, f, makeDefault);
            a in t'.rows && b in t'.rows && t'.rows[a].sortOrder < t'.rows[b].sortOrder
  {
    SameFlagKeeps(t, id, f, makeDefault);
    hide Saved;
    assert SoundRow(t, a) && SoundRow(t, b);
  }

  /** A second run changes nothing. */
  lemma EnsuredTwice(t: Table)
    requires Sound(t) && PROVIDER_ID in t.providers && t.rows != map[]
    ensures Sound(Ensured(t)) && Ensured(Ensured(t)) == Ensured(t)
  {
    EnsuredIsTwoSaves(t);
    FirstSaveLeavesDefault(t);
    var f1, f2 := FieldsOf(TEXT_MODEL), FieldsOf(GPT_MODEL);
    var t1 := Saved(t, MODEL_ID, f1, FirstSave(t).makeDefault);
    var t2 := Ensured(t);
    SavedProviders(t, MODEL_ID, f1, FirstSave(t).makeDefault);
    SavedProviders(t1, GPT_MODEL_ID, f2, SecondSave(t).makeDefault);
    SameFlagKeeps(t1, GPT_MODEL_ID, f2, SecondSave(t).makeDefault);
    EnsuredIsTwoSaves(t2);
    hide Sound, FieldsOf, Ensured, OneDefault;
    SavedInPlace(t, MODEL_ID, f1, FirstSave(t).makeDefault);
    SavedInPlace(t1, GPT_MODEL_ID, f2, SecondSave(t).makeDefault);
    SettledSave(t2, MODEL_ID, f1);
    SettledSave(t2, GPT_MODEL_ID, f2);
  }

  /** A default sits at order 0 once it has been saved. */
  lemma SavedInPlace(t: Table, id: string, f: Fields, makeDefault: bool)
    requires Sound(t)
    ensures var r := Saved(t, id, f, makeDefault).rows; id in r && InPlace(r[id], f)
  {}

  predicate InPlace(r: Row, f: Fields) {
    r.fields == f && (r.isDefault ==> r.sortOrder == 0)
  }

  lemma SettledSave(t: Table, id: string, f: Fields)
    requires Sound(t) && HasDefault(t) && id in t.rows && InPlace(t.rows[id], f)
    ensures Saved(t, id, f, t.rows[id].isDefault) == t
  {
    SameFlagKeeps(t, id, f, t.rows[id].isDefault);
    SavedProviders(t, id, f, t.rows[id].isDefault);
    assert Saved(t, id, f, t.rows[id].isDefault).rows == t.rows;
  }
}
