/** The chat handler's provider cache against the provider records it is built from. */
module ProviderCache {
  import opened Options

  datatype Record = Record(id: string, name: string, displayName: string, kind: string, config: map<string, string>,
                           enabled: bool, isDefault: bool)

  datatype ProviderConfig = ProviderConfig(name: string, displayName: string, kind: string, config: map<string, string>, model: string)

  /** A client for one provider is determined by the settings it was built with. */
  datatype Provider = Provider(settings: ProviderConfig)

  /** The records in the database and the read-only one from the configuration, if any. */
  datatype Store = Store(records: map<string, Record>, builtIn: Option<Record>)

  /** Which of the three store queries fail. */
  datatype Faults = Faults(get: bool, default: bool, list: bool)

  datatype Result = Failed | Got(id: string, provider: Provider)

  type Cache = map<string, Provider>

  const FROM_CONFIG := "FROM_CONFIG"

  function SettingsOf(r: Record): ProviderConfig {
    ProviderConfig(r.name, r.displayName, r.kind, r.config, if "model" in r.config then r.config["model"] else "")
  }

  ghost predicate WellKeyed(store: Store) {
    && (forall k :: k in store.records ==> store.records[k].id == k)
    && FROM_CONFIG !in store.records
    && (store.builtIn.Some? ==> store.builtIn.value.id == FROM_CONFIG)
  }

  /** The record that currently has this id. */
  function Current(store: Store, id: string): Option<Record> {
    if id in store.records then Some(store.records[id])
    else if store.builtIn.Some? && store.builtIn.value.id == id then store.builtIn
    else None
  }

  /** Every cached provider is the one its current record describes, and that record is enabled. */
  ghost predicate Coherent(cache: Cache, store: Store) {
    && WellKeyed(store)
    && forall id :: id in cache ==> Serves(store, id, cache[id])
  }

  /** The provider of an enabled current record, with its current settings. */
  ghost predicate Serves(store: Store, id: string, provider: Provider) {
    var record := Current(store, id);
    record.Some? && record.value.enabled && provider == Provider(SettingsOf(record.value))
  }

  // ---------- What a lookup may return ----------

  ghost predicate Creates(record: Record, builds: ProviderConfig -> bool, before: Cache, r: Result, after: Cache) {
    if builds(SettingsOf(record)) then
      r == Got(record.id, Provider(SettingsOf(record))) && after == before[record.id := Provider(SettingsOf(record))]
    else r == Failed && after == before
  }

  function EnabledRecords(store: Store): set<Record> {
    (set k | k in store.records && store.records[k].enabled :: store.records[k]) +
    (if store.builtIn.Some? && store.builtIn.value.enabled then {store.builtIn.value} else {})
  }

  /** The record is the default the store may name: a default one, or else the only enabled one. */
  ghost predicate DefaultRecord(store: Store, faults: Faults, record: Record) {
    !faults.default &&
    if exists k :: k in store.records && IsDefault(store.records[k])
    then record.id in store.records && store.records[record.id] == record && IsDefault(record)
    else !faults.list && EnabledRecords(store) == {record}
  }

  predicate IsDefault(r: Record) {
    r.isDefault && r.enabled
  }

  predicate Loadable(store: Store, faults: Faults, id: string) {
    !faults.get && id in store.records && store.records[id].enabled
  }

  /** The possible results of a lookup for a chatbot that wants `wanted`, "" meaning the default. */
  ghost predicate Gets(before: Cache, store: Store, faults: Faults, builds: ProviderConfig -> bool, wanted: string, r: Result, after: Cache) {
    if wanted != "" && wanted in before then r == Got(wanted, before[wanted]) && after == before
    else if wanted != "" && Loadable(store, faults, wanted) then Creates(store.records[wanted], builds, before, r, after)
    else if before != map[] then r.Got? && r.id in before && r.provider == before[r.id] && after == before
    else if exists record :: DefaultRecord(store, faults, record)
    then exists record :: DefaultRecord(store, faults, record) && Creates(record, builds, before, r, after)
    else r == Failed && after == before
  }

  class Backend {
    var store: Store
    var providers: Cache

    constructor (store: Store)
      requires WellKeyed(store)
      ensures this.store == store && providers == map[] && Coherent(providers, store)
    {
      this.store, providers := store, map[];
    }

    method InvalidateProvider(id: string)
      modifies this`providers
      ensures providers == if id == "" then old(providers) else old(providers) - {id}
    {
      if id == "" {
        return;
      }
      providers := providers - {id};
    }

    method CreateAndCache(record: Record, builds: ProviderConfig -> bool) returns (r: Result)
      modifies this`providers
      ensures Creates(record, builds, old(providers), r, providers)
    {
      var model := if "model" in record.config then record.config["model"] else "";
      var settings := ProviderConfig(record.name, record.displayName, record.kind, record.config, model);
      if !builds(settings) {
        return Failed;
      }
      providers := providers[record.id := Provider(settings)];
      r := Got(record.id, Provider(settings));
    }

    method FindDefault(faults: Faults) returns (record: Option<Record>)
      requires WellKeyed(store)
      ensures if record.Some? then DefaultRecord(store, faults, record.value) else forall x :: !DefaultRecord(store, faults, x)
    {
      if faults.default {
        return None;
      }
      var defaults := set k | k in store.records && IsDefault(store.records[k]);
      assert forall k :: k in store.records && IsDefault(store.records[k]) ==> k in defaults;
      if defaults != {} {
        var k :| k in defaults;
        return Some(store.records[k]);
      }
      var enabled := EnabledRecords(store);
      if !faults.list && |enabled| == 1 {
        var only :| only in enabled;
        OnlyElement(enabled, only);
        return Some(only);
      }
      assert forall x: Record :: |{x}| == 1;
      record := None;
    }

    method GetProvider(wanted: string, faults: Faults, builds: ProviderConfig -> bool) returns (r: Result)
      requires WellKeyed(store)
      modifies this`providers
      ensures Gets(old(providers), store, faults, builds, wanted, r, providers)
    {
      if wanted != "" {
        if wanted in providers {
          return Got(wanted, providers[wanted]);
        }
        if !faults.get && wanted in store.records && store.records[wanted].enabled {
          r := CreateAndCache(store.records[wanted], builds);
          return;
        }
      }
      if |providers| > 0 {
        assert providers != map[];
        var id :| id in providers;
        return Got(id, providers[id]);
      }
      var record := FindDefault(faults);
      if record.None? {
        return Failed;
      }
      r := CreateAndCache(record.value, builds);
    }

    /** A record change by the administrator, followed by the invalidation of that record's provider. */
    method UpdateProvider(id: string, record: Record, fails: bool)
      requires record.id == id
      modifies this
      ensures if id == FROM_CONFIG || fails || id !in old(store).records then store == old(store) && providers == old(providers)
              else store == old(store).(records := old(store).records[id := record.(isDefault := old(store).records[id].isDefault)])
                   && providers == (if id == "" then old(providers) else old(providers) - {id})
    {
      if id == FROM_CONFIG || fails || id !in store.records {
        return;
      }
      store := store.(records := store.records[id := record.(isDefault := store.records[id].isDefault)]);
      InvalidateProvider(id);
    }

    /** Deleting or promoting an unknown provider fails, and the transaction is rolled back. */
    method DeleteProvider(id: string, fails: bool)
      modifies this
      ensures if id == FROM_CONFIG || fails || id !in old(store).records then store == old(store) && providers == old(providers)
              else store == old(store).(records := old(store).records - {id})
                   && providers == (if id == "" then old(providers) else old(providers) - {id})
    {
      if id == FROM_CONFIG || fails || id !in store.records {
        return;
      }
      store := store.(records := store.records - {id});
      InvalidateProvider(id);
    }

    method SetDefaultProvider(id: string, fails: bool)
      modifies this
      ensures if id == FROM_CONFIG || fails || id !in old(store).records then store == old(store) && providers == old(providers)
              else store == MadeDefault(old(store), id) && providers == (if id == "" then old(providers) else old(providers) - {id})
    {
      if id == FROM_CONFIG || fails || id !in store.records {
        return;
      }
      store := store.(records := map k | k in store.records :: store.records[k].(isDefault := k == id));
      InvalidateProvider(id);
    }
  }

  function MadeDefault(store: Store, id: string): Store {
    store.(records := map k | k in store.records :: store.records[k].(isDefault := k == id))
  }

  lemma OnlyElement<T>(s: set<T>, x: T)
    requires x in s && |s| == 1
    ensures s == {x}
  {
    assert |s - {x}| == 0;
  }

  // ---------- Coherence over runs ----------

  /** One step of the system: a chat lookup, or a record change with its invalidation. */
  datatype Step =
    | Chat(wanted: string, faults: Faults)
    | Update(id: string, record: Record)
    | Delete(id: string)
    | SetDefault(id: string)
    | Create(record: Record)

  ghost predicate StepAllowed(before: Cache, store: Store, builds: ProviderConfig -> bool, s: Step, after: Cache, store': Store) {
    match s
    case Chat(wanted, faults) => store' == store && exists r :: Gets(before, store, faults, builds, wanted, r, after)
    case Update(id, record) => id != "" && id in store.records && record.id == id
                               && store' == store.(records := store.records[id := record]) && after == before - {id}
    case Delete(id) => id != "" && id in store.records && store' == store.(records := store.records - {id}) && after == before - {id}
    case SetDefault(id) => id != "" && id in store.records && store' == MadeDefault(store, id) && after == before - {id}
    case Create(record) => record.id != FROM_CONFIG && record.id !in store.records
                           && store' == store.(records := store.records[record.id := record]) && after == before
  }

  lemma LookupCoherent(before: Cache, store: Store, faults: Faults, builds: ProviderConfig -> bool, wanted: string, r: Result, after: Cache)
    requires Coherent(before, store) && Gets(before, store, faults, builds, wanted, r, after)
    ensures Coherent(after, store)
    ensures r.Got? ==> Serves(store, r.id, r.provider)
  {
    hide SettingsOf;
    if !(wanted != "" && wanted in before) && !(wanted != "" && Loadable(store, faults, wanted)) && before == map[] {
      if exists record :: DefaultRecord(store, faults, record) {
        var record :| DefaultRecord(store, faults, record) && Creates(record, builds, before, r, after);
        DefaultIsCurrent(store, faults, record);
      }
    }
  }

  lemma DefaultIsCurrent(store: Store, faults: Faults, record: Record)
    requires WellKeyed(store) && DefaultRecord(store, faults, record)
    ensures Current(store, record.id) == Some(record) && record.enabled
  {
    if !exists k :: k in store.records && IsDefault(store.records[k]) {
      assert record in EnabledRecords(store);
    }
  }

  ghost predicate Runs(builds: ProviderConfig -> bool, steps: seq<Step>, caches: seq<Cache>, stores: seq<Store>) {
    && |caches| == |stores| == |steps| + 1
    && forall i :: 0 <= i < |steps| ==> StepAllowed(caches[i], stores[i], builds, steps[i], caches[i + 1], stores[i + 1])
  }

  lemma StepCoherent(before: Cache, store: Store, builds: ProviderConfig -> bool, s: Step, after: Cache, store': Store)
    requires Coherent(before, store) && StepAllowed(before, store, builds, s, after, store')
    ensures Coherent(after, store')
  {
    hide SettingsOf;
    match s
    case Chat(wanted, faults) =>
      var r :| Gets(before, store, faults, builds, wanted, r, after);
      LookupCoherent(before, store, faults, builds, wanted, r, after);
    case SetDefault(id) =>
      DefaultKeepsSettings(store, id);
    case _ =>
  }

  lemma DefaultKeepsSettings(store: Store, id: string)
    ensures forall k :: k in store.records ==> SettingsOf(MadeDefault(store, id).records[k]) == SettingsOf(store.records[k])
  {
  }

  /** Over any run in which every record change is followed by its invalidation, the cache stays
      coherent: what a lookup returns is current, and never a disabled provider. */
  lemma {:induction false} RunsCoherent(builds: ProviderConfig -> bool, steps: seq<Step>, caches: seq<Cache>, stores: seq<Store>, i: nat)
    requires Runs(builds, steps, caches, stores) && i <= |steps|
    requires Coherent(caches[0], stores[0])
    ensures Coherent(caches[i], stores[i])
  {
    if i > 0 {
      RunsCoherent(builds, steps, caches, stores, i - 1);
      StepCoherent(caches[i - 1], stores[i - 1], builds, steps[i - 1], caches[i], stores[i]);
    }
  }

  /** A chatbot whose configured provider is enabled gets exactly that provider, with its current
      settings, or the failure to build it; and never a stand-in, unless the record cannot be read. */
  lemma ConfiguredProviderServed(cache: Cache, store: Store, faults: Faults, builds: ProviderConfig -> bool, wanted: string, r: Result, after: Cache)
    requires Coherent(cache, store) && Gets(cache, store, faults, builds, wanted, r, after)
    requires wanted != "" && wanted in store.records && store.records[wanted].enabled && (!faults.get || wanted in cache)
    ensures var settings := SettingsOf(store.records[wanted]);
            r == if wanted in cache || builds(settings) then Got(wanted, Provider(settings)) else Failed
  {
  }

  /** After making `id` the default, a chatbot without a provider of its own gets the new default
      exactly when no other provider is cached: otherwise one of those is used. */
  lemma NewDefaultServedExactly(cache: Cache, store: Store, id: string, builds: ProviderConfig -> bool, r: Result, after: Cache)
    requires Coherent(cache, store) && id != "" && id in store.records && store.records[id].enabled
    requires builds(SettingsOf(store.records[id]))
    requires Gets(cache - {id}, MadeDefault(store, id), Faults(false, false, false), builds, "", r, after)
    ensures r.Got?
    ensures r.id == id <==> cache.Keys <= {id}
  {
    var made := MadeDefault(store, id);
    DefaultKeepsSettings(store, id);
    assert IsDefault(made.records[id]);
    if cache.Keys <= {id} {
      assert cache - {id} == map[];
      assert DefaultRecord(made, Faults(false, false, false), made.records[id]);
    } else {
      var other :| other in cache.Keys && other != id;
      assert other in cache - {id};
    }
  }

  /** Two enabled providers, the first one cached: after the second is made the default, a chatbot
      without a provider of its own still gets the first. */
  lemma NewDefaultNotServed(r: Result, after: Cache)
    requires var first, second := Record("1", "first", "First", "openai", map[], true, true), Record("2", "second", "Second", "openai", map[], true, false);
             var store, cache := Store(map["1" := first, "2" := second], None), map["1" := Provider(SettingsOf(first))];
             Gets(cache - {"2"}, MadeDefault(store, "2"), Faults(false, false, false), settings => true, "", r, after)
    ensures r.Got? && r.id == "1"
  {
    var cache: Cache := map["1" := Provider(SettingsOf(Record("1", "first", "First", "openai", map[], true, true)))];
    assert "1"[0] != "2"[0];
    assert cache - {"2"} == cache && "1" in cache;
  }

  /** A lookup evicts and replaces nothing; it caches at most what it returns, and nothing when it fails. */
  lemma LookupAddsOnly(before: Cache, store: Store, faults: Faults, builds: ProviderConfig -> bool, wanted: string, r: Result, after: Cache)
    requires Gets(before, store, faults, builds, wanted, r, after)
    ensures r == Failed ==> after == before
    ensures r.Got? ==> r.id in after && after[r.id] == r.provider && after == before[r.id := r.provider]
    ensures r.Got? && r.id in before && WellKeyed(store) ==> after == before
  {
    if r.Got? && r.id in before && before != map[] {
      assert before[r.id := before[r.id]] == before;
    }
  }

  /** A served provider has the settings of its current record, field by field; its model is the one
      the record's configuration names, or none. */
  lemma ServedSettings(cache: Cache, store: Store, faults: Faults, builds: ProviderConfig -> bool, wanted: string, r: Result, after: Cache)
    requires Coherent(cache, store) && Gets(cache, store, faults, builds, wanted, r, after) && r.Got?
    ensures Current(store, r.id).Some?
    ensures var record, s := Current(store, r.id).value, r.provider.settings;
            && s.name == record.name && s.displayName == record.displayName && s.kind == record.kind && s.config == record.config
            && ("model" in record.config ==> s.model == record.config["model"]) && ("model" !in record.config ==> s.model == "")
  {
    LookupCoherent(cache, store, faults, builds, wanted, r, after);
  }

  /** Making a provider the default leaves exactly one default and changes nothing else. */
  lemma DefaultMoves(store: Store, id: string, k: string)
    requires k in store.records
    ensures var made := MadeDefault(store, id);
            && made.builtIn == store.builtIn && made.records.Keys == store.records.Keys
            && (made.records[k].isDefault <==> k == id)
            && made.records[k].(isDefault := store.records[k].isDefault) == store.records[k]
  {
  }

  /** What a chatbot without a provider of its own gets while nothing is cached: an enabled default, or
      without one the only enabled provider, the one from the configuration included; and nothing
      when several are enabled. */
  lemma FirstProvider(store: Store, builds: ProviderConfig -> bool, r: Result, after: Cache, j: string, k: string)
    requires WellKeyed(store) && Gets(map[], store, Faults(false, false, false), builds, "", r, after)
    ensures r.Got? && (exists d :: d in store.records && store.records[d].isDefault && store.records[d].enabled) ==>
              r.id in store.records && store.records[r.id].isDefault && store.records[r.id].enabled
    ensures r.Got? && !(exists d :: d in store.records && store.records[d].isDefault && store.records[d].enabled) ==>
              && (k in store.records && store.records[k].enabled ==> k == r.id)
              && (store.builtIn.Some? && store.builtIn.value.enabled ==> r.id == "FROM_CONFIG")
    ensures r == Failed && !(exists d :: d in store.records && store.records[d].isDefault && store.records[d].enabled)
            && k in store.records && store.records[k].enabled && builds(SettingsOf(store.records[k])) ==>
              (exists e :: e in store.records && e != k && store.records[e].enabled) || (store.builtIn.Some? && store.builtIn.value.enabled)
  {
    hide SettingsOf;
    if exists d :: d in store.records && store.records[d].isDefault && store.records[d].enabled {
      var d :| d in store.records && store.records[d].isDefault && store.records[d].enabled;
      assert IsDefault(store.records[d]);
    } else {
      assert !exists d :: d in store.records && IsDefault(store.records[d]);
      OnlyOneEnabled(store, k);
      if k in store.records && EnabledRecords(store) == {store.records[k]} {
        assert DefaultRecord(store, Faults(false, false, false), store.records[k]);
      }
    }
  }

  lemma OnlyOneEnabled(store: Store, k: string)
    requires WellKeyed(store)
    ensures forall record :: EnabledRecords(store) == {record} ==>
              && (k in store.records && store.records[k].enabled ==> record == store.records[k])
              && (store.builtIn.Some? && store.builtIn.value.enabled ==> record == store.builtIn.value)
    ensures k in store.records && store.records[k].enabled
            && !(exists e :: e in store.records && e != k && store.records[e].enabled) && !(store.builtIn.Some? && store.builtIn.value.enabled) ==>
              EnabledRecords(store) == {store.records[k]}
  {
    if k in store.records && store.records[k].enabled {
      assert store.records[k] in EnabledRecords(store);
    }
    if store.builtIn.Some? && store.builtIn.value.enabled {
      assert store.builtIn.value in EnabledRecords(store);
    }
  }
}
