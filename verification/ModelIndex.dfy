/** Which model a number means: the socket's name lookup (core/src/socket_listener.rs), the runner's
    start-up (core/src/runner_commands.rs) and the Python configuration (runner/managed_runtime.py)
    each count the listed models on their own. */
module ModelIndex {
  import opened Rows
  import opened Text

  datatype Protocol = Anthropic | OpenAi
  datatype AuthKind = ApiKey | CodexOauth

  /** What an advanced option does to a setting Python requires: nothing, or replaces it by a value that
      Python takes for true or for false. */
  datatype Override = Keeps | Truthy | Falsy

  datatype Overrides = Overrides(apiKey: Override, apiBase: Override, model: Override)

  /** A listed model: whether a secret row is stored for it, and what reading the secret gives. */
  datatype Model = Model(id: string, displayName: string, model: string, protocol: Protocol,
                         auth: AuthKind, apiBase: string, advanced: Overrides,
                         stored: bool, secret: Option<string>)

  /** The id is the table's primary key, and a secret can be read only from a stored row. */
  predicate Listing(models: seq<Model>) {
    && (forall i, j | 0 <= i < j < |models| :: models[i].id != models[j].id)
    && forall m | m in models :: m.secret.Some? ==> m.stored
  }

  // ---------- the socket: a model by name ----------

  datatype Selection = NoName | Selected(index: nat, key: string, displayName: string) | UnknownName

  function Stored(): Model -> bool {
    (m: Model) => m.stored
  }

  function DisplayName(m: Model): string {
    if Trim(m.displayName) == "" then m.model else Trim(m.displayName)
  }

  /** `lower` is Rust's `to_lowercase`. */
  predicate Named(lower: string -> string, m: Model, name: string) {
    lower(DisplayName(m)) == lower(name) || lower(m.model) == lower(name)
  }

  /** A model answers to its shown name and to its model name, in either case. */
  lemma AnswersTo(lower: string -> string, m: Model, name: string)
    ensures lower(name) == lower(m.model) ==> Named(lower, m, name)
    ensures Trim(m.displayName) != "" && lower(name) == lower(Trim(m.displayName)) ==> Named(lower, m, name)
    ensures Named(lower, m, name) ==>
              lower(name) == lower(m.model) || (Trim(m.displayName) != "" && lower(name) == lower(Trim(m.displayName)))
  {}

  /** The first stored model of that name, counted among the stored ones. */
  method ResolveManagedLlmName(models: seq<Model>, lower: string -> string, name: Option<string>)
    returns (r: Selection)
    ensures r.NoName? <==> name.None?
    ensures r.Selected? ==>
              exists i | 0 <= i < |models| ::
                && models[i].stored && Named(lower, models[i], name.value)
                && (forall j | 0 <= j < i :: models[j].stored ==> !Named(lower, models[j], name.value))
                && r == Selected(Position(models, Stored(), i), models[i].id,
                                 if Trim(models[i].displayName) == "" then models[i].model
                                 else Trim(models[i].displayName))
    ensures r.UnknownName? ==> forall m | m in models :: m.stored ==> !Named(lower, m, name.value)
  {
    if name.None? { return NoName; }
    var target := lower(name.value);
    var index := 0;
    for i := 0 to |models|
      invariant index == Position(models, Stored(), i)
      invariant forall j | 0 <= j < i :: models[j].stored ==> !Named(lower, models[j], name.value)
    {
      PositionNext(models, Stored(), i);
      if !models[i].stored { continue; }
      var displayName := DisplayName(models[i]);
      if lower(displayName) == target || lower(models[i].model) == target {
        return Selected(index, models[i].id, displayName);
      }
      index := index + 1;
    }
    r := UnknownName;
  }

  // ---------- the runner: a model by id ----------

  /** An entry of the configuration handed to Python. */
  datatype Entry = Entry(id: string, protocol: Protocol, apiKey: string, apiBase: string, model: string,
                         advanced: Overrides)

  predicate HasSecret(m: Model) {
    m.secret.Some? && Trim(m.secret.value) != ""
  }

  function Usable(): Model -> bool {
    (m: Model) => HasSecret(m)
  }

  function EntryOf(m: Model): Entry {
    Entry(m.id, m.protocol,
          if m.auth.ApiKey? && m.secret.Some? then m.secret.value else "yole-codex-oauth",
          m.apiBase, m.model, m.advanced)
  }

  function Entries(models: seq<Model>): seq<Entry> {
    seq(|models|, i requires 0 <= i < |models| => EntryOf(models[i]))
  }

  lemma EntriesConcat(a: seq<Model>, b: seq<Model>)
    ensures Entries(a + b) == Entries(a) + Entries(b)
  {}

  /** The entry at a place is the model's: its id, protocol, base, name and options, and the secret as key
      for a model with an API key, the stand-in for a Codex model. */
  predicate Carries(entries: seq<Entry>, n: nat, m: Model) {
    && n < |entries|
    && entries[n].id == m.id && entries[n].protocol == m.protocol && entries[n].apiBase == m.apiBase
    && entries[n].model == m.model && entries[n].advanced == m.advanced
    && (m.auth.ApiKey? ==> m.secret == Some(entries[n].apiKey))
    && (m.auth.CodexOauth? ==> entries[n].apiKey == "yole-codex-oauth")
  }

  lemma EntryCarries(models: seq<Model>, kept: Model -> bool, i: nat)
    requires i < |models| && kept(models[i]) && HasSecret(models[i])
    ensures Carries(Entries(Keep(models, kept)), Position(models, kept, i), models[i])
  {
    KeptAtPosition(models, kept, i);
  }

  /** Preparing fails when no model is usable. */
  datatype Prepared = NotConfigured | Ready(entries: seq<Entry>, index: Option<nat>)

  /** The number the runner gives the model at `i`: its place among the usable ones, if it is one. */
  function RunnerNumber(models: seq<Model>, i: nat): Option<nat>
    requires i < |models|
  {
    if HasSecret(models[i]) then Some(Position(models, Usable(), i)) else None
  }

  /** The usable models in order, and the requested model's number. */
  method PrepareRuntimeModels(models: seq<Model>, requested: Option<string>) returns (r: Prepared)
    requires Listing(models)
    ensures r.NotConfigured? <==> forall m | m in models :: !HasSecret(m)
    ensures r.Ready? ==> r.entries == Entries(Keep(models, Usable()))
    ensures r.Ready? ==>
              forall i | 0 <= i < |models| && HasSecret(models[i]) ::
                Carries(r.entries, Position(models, Usable(), i), models[i])
    ensures r.Ready? ==>
              forall i | 0 <= i < |models| && requested == Some(models[i].id) :: r.index == RunnerNumber(models, i)
    ensures r.Ready? && (forall m | m in models :: requested != Some(m.id)) ==> r.index == None
  {
    var entries: seq<Entry>, index: Option<nat> := [], None;
    for i := 0 to |models|
      invariant entries == Entries(Keep(models[..i], Usable()))
      invariant forall j | 0 <= j < i && requested == Some(models[j].id) :: index == RunnerNumber(models, j)
      invariant (forall j | 0 <= j < i :: requested != Some(models[j].id)) ==> index == None
    {
      PositionNext(models, Usable(), i);
      var m := models[i];
      match m.auth {
        case ApiKey => if m.secret.None? || Trim(m.secret.value) == "" { continue; }
        case CodexOauth => if m.secret.None? || Trim(m.secret.value) == "" { continue; }
      }
      if requested == Some(m.id) {
        index := Some(|entries|);
      }
      EntriesConcat(Keep(models[..i], Usable()), [m]);
      entries := entries + [EntryOf(m)];
    }
    assert models[..|models|] == models;
    AnyKept(models);
    if entries == [] { return NotConfigured; }
    forall i | 0 <= i < |models| && HasSecret(models[i])
      ensures Carries(entries, Position(models, Usable(), i), models[i])
    {
      EntryCarries(models, Usable(), i);
    }
    r := Ready(entries, index);
  }

  lemma AnyKept(models: seq<Model>)
    ensures Keep(models, Usable()) == [] <==> forall m | m in models :: !HasSecret(m)
  {
    KeepMembers(models, Usable());
    var kept := Keep(models, Usable());
    if kept != [] { assert kept[0] in kept; }
  }

  datatype Spawn = SpawnFailed | SpawnWith(llmIndex: Option<nat>)

  /** `prepare_managed_spawn_args`: a model id decides the index; without one the stored index stays. */
  method PrepareSpawnIndex(models: seq<Model>, llmKey: Option<string>, llmIndex: Option<nat>) returns (r: Spawn)
    requires Listing(models)
    ensures r.SpawnFailed? <==> forall m | m in models :: !HasSecret(m)
    ensures r.SpawnWith? && llmKey.None? ==> r.llmIndex == llmIndex
    ensures r.SpawnWith? ==>
              forall i | 0 <= i < |models| && llmKey == Some(models[i].id) :: r.llmIndex == RunnerNumber(models, i)
    ensures r.SpawnWith? && llmKey.Some? && (forall m | m in models :: m.id != llmKey.value) ==> r.llmIndex == None
  {
    var context := PrepareRuntimeModels(models, llmKey);
    if context.NotConfigured? { return SpawnFailed; }
    r := SpawnWith(if llmKey.Some? then context.index else llmIndex);
  }

  // ---------- Python: the ordered configuration ----------

  function StripSlashes(s: string): string {
    if s != "" && s[|s| - 1] == '/' then StripSlashes(s[..|s| - 1]) else s
  }

  predicate Holds(o: Override, value: string) {
    o.Truthy? || (o.Keeps? && value != "")
  }

  /** Python keeps an entry whose key, base and model all count as true. */
  predicate Complete(e: Entry) {
    Holds(e.advanced.apiKey, e.apiKey) && Holds(e.advanced.apiBase, StripSlashes(e.apiBase))
    && Holds(e.advanced.model, e.model)
  }

  function Configured(): Entry -> bool {
    (e: Entry) => Complete(e)
  }

  function ConfigKey(e: Entry, idx: nat): string {
    (if e.protocol.Anthropic? then "native_claude_config_" else "native_oai_config_") + Digits(idx)
  }

  lemma ConfigKeysDiffer(e: Entry, i: nat, f: Entry, j: nat)
    requires i != j
    ensures ConfigKey(e, i) != ConfigKey(f, j)
  {
    var p := if e.protocol.Anthropic? then "native_claude_config_" else "native_oai_config_";
    var q := if f.protocol.Anthropic? then "native_claude_config_" else "native_oai_config_";
    if p + Digits(i) == q + Digits(j) {
      LastUnderscore(p, Digits(i), q, Digits(j));
      DigitsInjective(i, j);
    }
  }

  /** Python builds a Claude client exactly when the key says so. */
  lemma KeyTellsProtocol(e: Entry, idx: nat)
    ensures Contains(ConfigKey(e, idx), "claude") <==> e.protocol.Anthropic?
  {
    var key := ConfigKey(e, idx);
    if e.protocol.Anthropic? {
      assert OccursAt(key, "claude", 7);
    } else {
      assert 'l' !in key;
      forall k ensures !OccursAt(key, "claude", k) {
        if OccursAt(key, "claude", k) { OccursHas(key, "claude", k, 1); }
      }
    }
  }

  lemma OccursHas(text: string, needle: string, k: int, i: nat)
    requires OccursAt(text, needle, k) && i < |needle|
    ensures needle[i] in text
  {
    assert text[k + i] == needle[i];
  }

  /** A Python dictionary in insertion order. */
  type Dict = seq<(string, Entry)>

  predicate HasKey(d: Dict, key: string) {
    exists k | 0 <= k < |d| :: d[k].0 == key
  }

  function Assigned(d: Dict, key: string, e: Entry): Dict {
    if HasKey(d, key) then
      seq(|d|, k requires 0 <= k < |d| => if d[k].0 == key then (key, e) else d[k])
    else d + [(key, e)]
  }

  /** The configured entries in order, none overwriting another; an error when there are none. */
  method ManagedModelConfigFromEnv(entries: seq<Entry>) returns (r: Option<Dict>)
    ensures r.None? <==> forall e | e in entries :: !Complete(e)
    ensures r.Some? ==> |r.value| == |Keep(entries, Configured())|
    ensures r.Some? ==> forall k | 0 <= k < |r.value| :: r.value[k].1 == Keep(entries, Configured())[k]
    ensures r.Some? ==> forall j, k | 0 <= j < k < |r.value| :: r.value[j].0 != r.value[k].0
    ensures r.Some? ==> forall k | 0 <= k < |r.value| ::
              exists i: nat | i < |entries| :: r.value[k] == (ConfigKey(entries[i], i), entries[i])
  {
    if entries == [] { return None; }
    var out: Dict := [];
    for idx := 0 to |entries|
      invariant |out| == |Keep(entries[..idx], Configured())|
      invariant forall k | 0 <= k < |out| :: out[k].1 == Keep(entries[..idx], Configured())[k]
      invariant forall k | 0 <= k < |out| :: exists i: nat | i < idx :: out[k] == (ConfigKey(entries[i], i), entries[i])
      invariant forall j, k | 0 <= j < k < |out| :: out[j].0 != out[k].0
    {
      PositionNext(entries, Configured(), idx);
      var e := entries[idx];
      var key := ConfigKey(e, idx);
      forall k | 0 <= k < |out| ensures out[k].0 != key {
        var i: nat :| i < idx && out[k] == (ConfigKey(entries[i], i), entries[i]);
        ConfigKeysDiffer(entries[i], i, e, idx);
      }
      if !Complete(e) { continue; }
      out := Assigned(out, key, e);
    }
    assert entries[..|entries|] == entries;
    AnyConfigured(entries);
    if out == [] { return None; }
    r := Some(out);
  }

  lemma AnyConfigured(entries: seq<Entry>)
    ensures Keep(entries, Configured()) == [] <==> forall e | e in entries :: !Complete(e)
  {
    KeepMembers(entries, Configured());
    var kept := Keep(entries, Configured());
    if kept != [] { assert kept[0] in kept; }
  }

  // ---------- do the three agree? ----------

  predicate CanRun(m: Model) {
    HasSecret(m) && Complete(EntryOf(m))
  }

  function Runs(): Model -> bool {
    (m: Model) => CanRun(m)
  }

  /** Without overriding options, a model runs exactly when it has a secret, a base of more than slashes
      and a model name; the stand-in key of a Codex model always counts. */
  lemma RunsExactly(m: Model)
    requires m.advanced == Overrides(Keeps, Keeps, Keeps)
    ensures CanRun(m) <==> HasSecret(m) && (exists i | 0 <= i < |m.apiBase| :: m.apiBase[i] != '/') && m.model != ""
  {
    StrippedAway(m.apiBase);
    if m.secret == Some("") { assert Trim("") == ""; }
  }

  lemma {:induction false} StrippedAway(s: string)
    ensures StripSlashes(s) != "" <==> exists i | 0 <= i < |s| :: s[i] != '/'
  {
    if s != "" && s[|s| - 1] == '/' {
      var front := s[..|s| - 1];
      StrippedAway(front);
      if exists i | 0 <= i < |s| :: s[i] != '/' {
        var i :| 0 <= i < |s| && s[i] != '/';
        assert front[i] != '/';
      }
    }
  }

  /** The clients Python ends up with: the configured entries of the usable models. */
  function Clients(models: seq<Model>): seq<Entry> {
    Keep(Entries(Keep(models, Usable())), Configured())
  }

  lemma {:induction false} ClientsAreRunning(models: seq<Model>)
    ensures Clients(models) == Entries(Keep(models, Runs()))
  {
    if models != [] {
      var m, rest := models[0], models[1..];
      ClientsAreRunning(rest);
      KeepHead(models, Usable());
      KeepHead(models, Runs());
      hide HasSecret, Complete, EntryOf, Keep;
      if HasSecret(m) {
        var entries := Entries(Keep(models, Usable()));
        EntriesHead(m, Keep(rest, Usable()));
        KeepHead(entries, Configured());
        assert entries[0] == EntryOf(m) && entries[1..] == Entries(Keep(rest, Usable()));
        EntriesHead(m, Keep(rest, Runs()));
        if !CanRun(m) { assert [] + Keep(rest, Runs()) == Keep(rest, Runs()); }
      } else {
        assert [] + Keep(rest, Usable()) == Keep(rest, Usable()) && [] + Keep(rest, Runs()) == Keep(rest, Runs());
      }
    }
  }

  lemma EntriesHead(m: Model, rest: seq<Model>)
    ensures Entries([m] + rest) == [EntryOf(m)] + Entries(rest)
  {}

  /** A running model's client carries what the model has. */
  lemma ClientCarries(models: seq<Model>, i: nat)
    requires i < |models| && CanRun(models[i])
    ensures Carries(Clients(models), Position(models, Runs(), i), models[i])
  {
    ClientsAreRunning(models);
    EntryCarries(models, Runs(), i);
  }

  /** The lookup gives numbers to stored models only. Its number is the one the runner gives exactly when
      the model and every stored model before it have a usable secret. */
  lemma ResolvedIsRequestedExactly(models: seq<Model>, i: nat)
    requires Listing(models) && i < |models| && models[i].stored
    ensures RunnerNumber(models, i) == Some(Position(models, Stored(), i)) <==>
            forall j | 0 <= j <= i :: models[j].stored ==> HasSecret(models[j])
  {
    PositionsAgreeExactly(models, Stored(), Usable(), i);
  }

  /** The client at the lookup's number is the model meant exactly when the model and every stored model
      before it run. */
  lemma ResolvedClientExactly(models: seq<Model>, i: nat)
    requires Listing(models) && i < |models| && models[i].stored
    ensures var n := Position(models, Stored(), i);
            (n < |Clients(models)| && Clients(models)[n].id == models[i].id) <==>
            forall j | 0 <= j <= i :: models[j].stored ==> CanRun(models[j])
  {
    PositionsAgreeExactly(models, Stored(), Runs(), i);
    ClientAt(models, i, Position(models, Stored(), i));
  }

  /** The same for a number the runner gives, and the usable models. */
  lemma RequestedClientExactly(models: seq<Model>, i: nat)
    requires Listing(models) && i < |models| && RunnerNumber(models, i).Some?
    ensures var n := RunnerNumber(models, i).value;
            (n < |Clients(models)| && Clients(models)[n].id == models[i].id) <==>
            forall j | 0 <= j <= i :: HasSecret(models[j]) ==> CanRun(models[j])
  {
    PositionsAgreeExactly(models, Usable(), Runs(), i);
    ClientAt(models, i, Position(models, Usable(), i));
  }

  /** Ids being distinct, a model is the client at one number only, and at none unless it runs. */
  lemma ClientAt(models: seq<Model>, i: nat, n: nat)
    requires Listing(models) && i < |models|
    ensures (n < |Clients(models)| && Clients(models)[n].id == models[i].id) <==>
            CanRun(models[i]) && n == Position(models, Runs(), i)
  {
    var kept, p := Keep(models, Runs()), Position(models, Runs(), i);
    ClientsAreRunning(models);
    KeepMembers(models, Runs());
    if n < |kept| {
      assert kept[n] in kept;
      OneOfEachId(models, i, kept[n]);
    }
    if CanRun(models[i]) {
      KeptAtPosition(models, Runs(), i);
      if n < |kept| { KeptOnce(models, n, p); }
    }
  }

  lemma OneOfEachId(models: seq<Model>, i: nat, m: Model)
    requires Listing(models) && i < |models| && m in models
    ensures m.id == models[i].id ==> m == models[i]
  {}

  lemma KeptOnce(models: seq<Model>, n: nat, p: nat)
    requires Listing(models) && n < |Keep(models, Runs())| && p < |Keep(models, Runs())|
    ensures Keep(models, Runs())[n].id == Keep(models, Runs())[p].id ==> n == p
  {
    var kept := Keep(models, Runs());
    var differ := (a: Model, b: Model) => a.id != b.id;
    assert Pairwise(models, differ);
    KeepPairwise(models, Runs(), differ);
    if n < p {
      assert differ(kept[n], kept[p]);
    } else if p < n {
      assert differ(kept[p], kept[n]);
    }
  }

  /** A model whose own stored secret can no longer be read has a number in the lookup and none in the
      runner. */
  lemma UnreadableModelHasNoNumber(m: Model)
    requires m.stored && m.secret.None?
    ensures Listing([m]) && Position([m], Stored(), 0) == 0 && RunnerNumber([m], 0) == None
    ensures Clients([m]) == []
  {
    assert Keep([m], Usable()) == [] by { assert [m][1..] == []; }
  }

  /** A stored model with a plain base and name. */
  function Plain(id: string, secret: Option<string>): Model {
    Model(id, "A", "a", OpenAi, ApiKey, "u", Overrides(Keeps, Keeps, Keeps), true, secret)
  }

  lemma PlainRuns(id: string)
    ensures CanRun(Plain(id, Some("k"))) && !CanRun(Plain(id, None))
  {
    assert TrimStart("k") == "k" && TrimEnd("k") == "k" by { assert !IsSpace('k'); }
    assert StripSlashes("u") == "u";
  }

  lemma TwoRunOneDoesNot(a: Model, b: Model, c: Model)
    requires !CanRun(a) && CanRun(b) && CanRun(c)
    ensures |Clients([a, b, c])| == 2
  {
    hide CanRun, Keep, EntryOf;
    ClientsAreRunning([a, b, c]);
    KeepOf(a, [b, c], Runs());
    KeepOf(b, [c], Runs());
    KeepOf(c, [], Runs());
    assert [a, b, c] == [a] + [b, c] && [b, c] == [b] + [c] && [c] == [c] + [];
  }

  /** A stored secret that can no longer be read makes the lookup's number mean another model. */
  lemma UnreadableSecretShiftsNumbers()
    ensures exists models: seq<Model>, i: nat ::
              && Listing(models) && i < |models| && CanRun(models[i])
              && var n := Position(models, Stored(), i);
                 n < |Clients(models)| && Clients(models)[n].id != models[i].id
  {
    hide CanRun, Keep, Clients;
    var a, b, c := Plain("a", None), Plain("b", Some("k")), Plain("c", Some("k"));
    var models := [a, b, c];
    assert "a"[0] != "b"[0] && "b"[0] != "c"[0] && "a"[0] != "c"[0];
    PlainRuns("a");
    PlainRuns("b");
    PlainRuns("c");
    TwoRunOneDoesNot(a, b, c);
    assert models[0] == a && models[1] == b;
    ResolvedClientExactly(models, 1);
    KeepOf(a, [], Stored());
    assert models[..1] == [a] + [] == [a];
    assert Position(models, Stored(), 1) == 1;
    assert Listing(models) && Clients(models)[1].id != models[1].id;
  }
}
