/** The VA configuration service: a database of key-value settings behind a read-through cache. */
module VaConfig {
  import opened Wrappers

  type Config = map<string, string>

  const ALLOWED_KEYS: set<string> := {
    "if_server_id", "test", "callsign_prefix", "callsign_suffix", "airtable_api_key", "airtable_va_base",
    "airtable_callsign_col_prefix", "at_table_pilots", "at_table_routes", "at_table_pireps",
    "at_field_pilots_callsign", "at_field_routes_origin", "at_field_routes_dest", "at_field_routes_route",
    "at_field_pireps_callsign", "at_field_pireps_route", "at_field_pireps_ft", "at_field_last_modified"
  }

  predicate IsValidKey(key: string) {
    key in ALLOWED_KEYS
  }

  /** The settings that exist, by what they are about: the server, the callsign pattern, the Airtable base, its
      tables and their columns. */
  ghost predicate IsSetting(key: string) {
    || key in {"if_server_id", "test"}
    || key in {"callsign_prefix", "callsign_suffix"}
    || key in {"airtable_api_key", "airtable_va_base", "airtable_callsign_col_prefix"}
    || key in {"at_table_pilots", "at_table_routes", "at_table_pireps"}
    || key in {"at_field_pilots_callsign", "at_field_last_modified"}
    || key in {"at_field_routes_origin", "at_field_routes_dest", "at_field_routes_route"}
    || key in {"at_field_pireps_callsign", "at_field_pireps_route", "at_field_pireps_ft"}
  }

  lemma ValidKeyIff(key: string)
    ensures IsValidKey(key) <==> IsSetting(key)
  {}

  /** The in-memory cache; an entry can expire between any two calls. */
  class CacheService<V> {
    var entries: map<string, V>

    constructor ()
      ensures entries == map[]
    {
      entries := map[];
    }

    method Get(key: string) returns (r: Option<V>)
      ensures r == if key in entries then Some(entries[key]) else None
    {
      r := if key in entries then Some(entries[key]) else None;
    }

    method Set(key: string, value: V)
      modifies this
      ensures entries == old(entries)[key := value]
    {
      entries := entries[key := value];
    }

    method Delete(key: string)
      modifies this
      ensures entries == old(entries) - {key}
    {
      entries := entries - {key};
    }

    /** `loaded` is what the loader would return, None when it fails; it is not consulted on a hit. A
        failed load leaves the cache as it was. */
    method GetOrSet(key: string, loaded: Option<V>) returns (r: Option<V>)
      modifies this
      ensures r == if key in old(entries) then Some(old(entries)[key]) else loaded
      ensures entries == if r.Some? then old(entries)[key := r.value] else old(entries)
    {
      r := Get(key);
      if r.Some? {
        return;
      }
      if loaded.None? {
        return None;
      }
      Set(key, loaded.value);
      r := loaded;
    }
  }

  function ConfigOf(db: map<string, Config>, vaID: string): Config {
    if vaID in db then db[vaID] else map[]
  }

  /** `cfgs` cut down to some of its keys. */
  function Part(cfgs: Config, keys: set<string>): Config {
    map key | key in cfgs && key in keys :: cfgs[key]
  }

  // ----- the order of a map iteration -----

  /** The settings after the request's keys are gone through in a given order, stopping at the first
      invalid one. */
  function Applied(config: Config, cfgs: Config, order: seq<string>, valid: string -> bool): Config
    decreases order
  {
    if order == [] || order[0] !in cfgs || !valid(order[0]) then config
    else Applied(config[order[0] := cfgs[order[0]]], cfgs, order[1..], valid)
  }

  /** Which keys can be written: the valid ones whose statement does not fail. */
  function Writable(failing: set<string>): string -> bool {
    key => IsValidKey(key) && key !in failing
  }

  predicate AllKeys(cfgs: Config, valid: string -> bool) {
    forall key | key in cfgs :: valid(key)
  }

  predicate Written(cfgs: Config, order: seq<string>, valid: string -> bool) {
    forall k | 0 <= k < |order| :: order[k] in cfgs && valid(order[k])
  }

  predicate Distinct(order: seq<string>) {
    forall i, j | 0 <= i < j < |order| :: order[i] != order[j]
  }

  /** An order in which a map can be iterated: each of its keys once. */
  ghost predicate Enumerates(order: seq<string>, cfgs: Config) {
    Distinct(order) && forall key :: key in order <==> key in cfgs
  }

  ghost predicate OrderFree(config: Config, cfgs: Config, valid: string -> bool) {
    forall a, b | Enumerates(a, cfgs) && Enumerates(b, cfgs) ::
      Applied(config, cfgs, a, valid) == Applied(config, cfgs, b, valid)
  }

  /** The request asks nothing new of the valid keys. */
  ghost predicate NothingNew(config: Config, cfgs: Config, valid: string -> bool) {
    forall key | key in cfgs && valid(key) :: key in config && config[key] == cfgs[key]
  }

  lemma {:induction false} AppliedAppend(config: Config, cfgs: Config, order: seq<string>, more: seq<string>,
                                         valid: string -> bool)
    requires Written(cfgs, order, valid)
    ensures Applied(config, cfgs, order + more, valid)
      == Applied(Applied(config, cfgs, order, valid), cfgs, more, valid)
    decreases order
  {
    if order == [] {
      assert order + more == more;
    } else {
      assert (order + more)[1..] == order[1..] + more;
      AppliedAppend(config[order[0] := cfgs[order[0]]], cfgs, order[1..], more, valid);
    }
  }

  /** One more key of an iteration: it is written, or everything stops. */
  lemma OneMoreKey(config: Config, cfgs: Config, order: seq<string>, key: string, others: seq<string>,
                   valid: string -> bool)
    requires Written(cfgs, order, valid) && key in cfgs
    ensures var before := Applied(config, cfgs, order, valid);
            if valid(key) then Applied(config, cfgs, order + [key], valid) == before[key := cfgs[key]]
            else Applied(config, cfgs, order + ([key] + others), valid) == before
  {
    AppliedAppend(config, cfgs, order, [key], valid);
    AppliedAppend(config, cfgs, order, [key] + others, valid);
  }

  lemma PartStep(config: Config, cfgs: Config, key: string, keys: set<string>)
    requires key in cfgs
    ensures config[key := cfgs[key]] + Part(cfgs, keys) == config + Part(cfgs, {key} + keys)
  {}

  function Keys(order: seq<string>): set<string> {
    set key | key in order
  }

  lemma {:induction false} ValidKeysAllApply(config: Config, cfgs: Config, order: seq<string>, valid: string -> bool)
    requires Written(cfgs, order, valid)
    ensures Applied(config, cfgs, order, valid) == config + Part(cfgs, Keys(order))
    decreases order
  {
    if order != [] {
      var key, rest := order[0], order[1..];
      ValidKeysAllApply(config[key := cfgs[key]], cfgs, rest, valid);
      PartStep(config, cfgs, key, Keys(rest));
      assert order == [key] + rest;
      assert Keys(order) == {key} + Keys(rest);
    }
  }

  lemma AllWritten(config: Config, cfgs: Config, order: seq<string>, valid: string -> bool)
    requires Enumerates(order, cfgs) && Written(cfgs, order, valid)
    ensures AllKeys(cfgs, valid) && Applied(config, cfgs, order, valid) == config + cfgs
  {
    forall key | key in cfgs ensures valid(key) {
      assert key in order;
    }
    ValidKeysAllApply(config, cfgs, order, valid);
    assert Part(cfgs, Keys(order)) == cfgs;
  }

  lemma {:induction false} NothingNewChangesNothing(config: Config, cfgs: Config, order: seq<string>,
                                                    valid: string -> bool)
    requires NothingNew(config, cfgs, valid)
    ensures Applied(config, cfgs, order, valid) == config
    decreases order
  {
    if order != [] && order[0] in cfgs && valid(order[0]) {
      assert config[order[0] := cfgs[order[0]]] == config;
      NothingNewChangesNothing(config, cfgs, order[1..], valid);
    }
  }

  lemma Enumeration(keys: set<string>) returns (order: seq<string>)
    ensures Distinct(order) && forall key :: key in order <==> key in keys
    decreases keys
  {
    if keys == {} {
      order := [];
    } else {
      var key :| key in keys;
      var rest := Enumeration(keys - {key});
      order := [key] + rest;
      DistinctCons(key, rest);
    }
  }

  lemma DistinctCons(key: string, rest: seq<string>)
    requires Distinct(rest) && key !in rest
    ensures Distinct([key] + rest)
  {
    assert forall i | 0 <= i < |rest| :: rest[i] in rest;
  }

  lemma DistinctAppend(a: seq<string>, b: seq<string>)
    requires Distinct(a) && Distinct(b) && forall key <- a :: key !in b
    ensures Distinct(a + b)
  {
    assert forall i | 0 <= i < |a| :: a[i] in a;
    assert forall i | 0 <= i < |b| :: b[i] in b;
  }

  /** Any key can come first. */
  lemma EnumerationFrom(cfgs: Config, first: string) returns (rest: seq<string>)
    requires first in cfgs
    ensures Enumerates([first] + rest, cfgs) && ([first] + rest)[1..] == rest
  {
    rest := Enumeration(cfgs.Keys - {first});
    DistinctCons(first, rest);
  }

  /** A key once written keeps its value: later keys are written with the same request. */
  lemma {:induction false} WrittenStays(config: Config, cfgs: Config, order: seq<string>, valid: string -> bool,
                                        key: string)
    requires key in cfgs && key in config && config[key] == cfgs[key]
    ensures var r := Applied(config, cfgs, order, valid); key in r && r[key] == cfgs[key]
    decreases order
  {
    if order != [] && order[0] in cfgs && valid(order[0]) {
      WrittenStays(config[order[0] := cfgs[order[0]]], cfgs, order[1..], valid, key);
    }
  }

  /** The settings after SetVaConfig do not depend on the order of the request map if and only if every key
      is valid, and they are then the old ones overridden by the request, or the request brings nothing new. */
  lemma OrderFreeIff(config: Config, cfgs: Config, valid: string -> bool)
    ensures OrderFree(config, cfgs, valid) <==> AllKeys(cfgs, valid) || NothingNew(config, cfgs, valid)
    ensures AllKeys(cfgs, valid) ==>
      forall order | Enumerates(order, cfgs) :: Applied(config, cfgs, order, valid) == config + cfgs
  {
    if AllKeys(cfgs, valid) {
      forall order | Enumerates(order, cfgs) ensures Applied(config, cfgs, order, valid) == config + cfgs {
        AllWritten(config, cfgs, order, valid);
      }
    } else if NothingNew(config, cfgs, valid) {
      forall order ensures Applied(config, cfgs, order, valid) == config {
        NothingNewChangesNothing(config, cfgs, order, valid);
      }
    } else {
      var bad :| bad in cfgs && !valid(bad);
      var good :| good in cfgs && valid(good) && !(good in config && config[good] == cfgs[good]);
      OrderMatters(config, cfgs, valid, bad, good);
    }
  }

  /** Starting with a key that cannot be written, or with one that brings something new. */
  lemma OrderMatters(config: Config, cfgs: Config, valid: string -> bool, bad: string, good: string)
    requires bad in cfgs && !valid(bad) && good in cfgs && valid(good)
    requires !(good in config && config[good] == cfgs[good])
    ensures !OrderFree(config, cfgs, valid)
  {
    var afterBad := EnumerationFrom(cfgs, bad);
    var afterGood := EnumerationFrom(cfgs, good);
    assert Applied(config, cfgs, [bad] + afterBad, valid) == config;
    WrittenStays(config[good := cfgs[good]], cfgs, afterGood, valid, good);
    assert Applied(config, cfgs, [bad] + afterBad, valid) != Applied(config, cfgs, [good] + afterGood, valid);
  }

  // ----- the service -----

  class VAConfigService {
    const cache: CacheService<Config>
    var db: map<string, Config>

    /** Whatever the cache holds for a VA is what the database holds. */
    ghost predicate Coherent()
      reads this, cache
    {
      forall vaID | vaID in cache.entries :: cache.entries[vaID] == ConfigOf(db, vaID)
    }

    constructor (db: map<string, Config>)
      ensures Coherent() && this.db == db && cache.entries == map[] && fresh(cache)
    {
      cache := new CacheService<Config>();
      this.db := db;
    }

    method Expire(vaID: string)
      requires Coherent()
      modifies cache
      ensures Coherent() && vaID !in cache.entries && cache.entries == old(cache.entries) - {vaID}
    {
      cache.Delete(vaID);
    }

    /** A read never shows anything but the database, cached or not; it fails only on a miss that the
        database does not answer. */
    method GetAllConfigValues(vaID: string, dbOk: bool) returns (r: Option<Config>)
      requires Coherent()
      modifies cache
      ensures Coherent()
      ensures r == if vaID in old(cache.entries) || dbOk then Some(ConfigOf(db, vaID)) else None
    {
      r := cache.GetOrSet(vaID, if dbOk then Some(ConfigOf(db, vaID)) else None);
    }

    /** The settings asked for, "" standing for those not set; not all-or-nothing on an invalid key. */
    method GetConfigValues(vaID: string, keys: seq<string>, dbOk: bool) returns (conf: Config, ok: bool)
      requires Coherent()
      modifies cache
      ensures Coherent()
      ensures ok <==> (vaID in old(cache.entries) || dbOk) && forall key <- keys :: IsValidKey(key)
      ensures forall key | key in conf ::
        key in keys && IsValidKey(key)
          && conf[key] == (if key in ConfigOf(db, vaID) then ConfigOf(db, vaID)[key] else "")
      ensures ok ==> forall key <- keys :: key in conf
    {
      conf := map[];
      var cfgs := GetAllConfigValues(vaID, dbOk);
      if cfgs.None? {
        return conf, false;
      }
      for k := 0 to |keys|
        invariant forall key <- keys[..k] :: IsValidKey(key) && key in conf
        invariant forall key | key in conf ::
          key in keys && IsValidKey(key) && conf[key] == (if key in cfgs.value then cfgs.value[key] else "")
      {
        if !IsValidKey(keys[k]) {
          return conf, false;
        }
        conf := conf[keys[k] := if keys[k] in cfgs.value then cfgs.value[keys[k]] else ""];
      }
      assert keys[..|keys|] == keys;
      ok := true;
    }

    /** UpsertVAConfig: one setting is written, or the statement fails and nothing is. */
    method Upsert(vaID: string, key: string, value: string, dbOk: bool) returns (ok: bool)
      modifies this
      ensures ok == dbOk
      ensures db == if ok then old(db)[vaID := ConfigOf(old(db), vaID)[key := value]] else old(db)
    {
      if dbOk {
        db := db[vaID := ConfigOf(db, vaID)[key := value]];
      }
      ok := dbOk;
    }

    /** SetVaConfig. `order` is the order in which the request map happened to be iterated, and `failing` are
        the keys whose statement fails. Whether or not the call succeeds, the settings are the old ones with
        the request's keys gone through in that order up to the first that could not be written, and the
        cache is coherent. On success they are the old settings overridden by the request. It also fails
        when all keys were written and the closing read, which a write leaves to the database, is not
        answered. */
    method SetVaConfig(vaID: string, cfgs: Config, failing: set<string>, dbOk: bool)
      returns (r: Option<Config>, ghost order: seq<string>)
      requires Coherent()
      modifies this, cache
      ensures Coherent()
      ensures Enumerates(order, cfgs)
      ensures ConfigOf(db, vaID) == Applied(ConfigOf(old(db), vaID), cfgs, order, Writable(failing))
      ensures forall other | other != vaID :: ConfigOf(db, other) == ConfigOf(old(db), other)
      ensures r.Some? ==> AllKeys(cfgs, Writable(failing)) && r.value == ConfigOf(old(db), vaID) + cfgs
      ensures r.Some? <==> AllKeys(cfgs, Writable(failing)) && (dbOk || (cfgs == map[] && vaID in old(cache.entries)))
    {
      ghost var config, valid := ConfigOf(db, vaID), Writable(failing);
      var rest := cfgs.Keys;
      order := [];
      while rest != {}
        invariant Coherent()
        invariant rest <= cfgs.Keys && (forall key :: key in order <==> key in cfgs && key !in rest)
        invariant Distinct(order) && Written(cfgs, order, valid)
        invariant ConfigOf(db, vaID) == Applied(config, cfgs, order, valid)
        invariant if order == [] then cache.entries == old(cache.entries) else vaID !in cache.entries
        invariant forall other | other != vaID :: ConfigOf(db, other) == ConfigOf(old(db), other)
        decreases rest
      {
        var key :| key in rest;
        ghost var others := Enumeration(rest - {key});
        OneMoreKey(config, cfgs, order, key, others, valid);
        DistinctCons(key, others);
        DistinctAppend(order, [key] + others);
        var ok := SetOne(vaID, key, cfgs[key], key !in failing);
        if !ok {
          order := order + ([key] + others);
          return None, order;
        }
        DistinctAppend(order, [key]);
        order := order + [key];
        rest := rest - {key};
      }
      AllWritten(config, cfgs, order, valid);
      r := GetAllConfigValues(vaID, dbOk);
    }

    /** The body of SetVaConfig's loop: check, write and evict. */
    method SetOne(vaID: string, key: string, value: string, dbOk: bool) returns (ok: bool)
      requires Coherent()
      modifies this, cache
      ensures Coherent() && (ok <==> IsValidKey(key) && dbOk)
      ensures ConfigOf(db, vaID) == if ok then ConfigOf(old(db), vaID)[key := value] else ConfigOf(old(db), vaID)
      ensures forall other | other != vaID :: ConfigOf(db, other) == ConfigOf(old(db), other)
      ensures cache.entries == if ok then old(cache.entries) - {vaID} else old(cache.entries)
    {
      if !IsValidKey(key) {
        return false;
      }
      ok := Upsert(vaID, key, value, dbOk);
      if ok {
        cache.Delete(vaID);
      }
    }
  }
}
