/**
 * The `SettingsHelper` the admin settings page uses: which value a
 * setting field shows (the POSTed one, else the stored one), the lists of
 * setting keys a module has, and the defaults filled into a module's
 * settings.
 */
module SettingsHelper {
  import opened Php
  import opened Rows
  import opened OpenCart

  /** The store configuration (`$this->config->get($key)`, null for an unknown key). */
  type Config = map<string, Value>

  function ConfigValue(config: Config, key: string): Value
  {
    if key in config then config[key] else Null
  }

  /** `getFieldValue`: the POSTed value when it is set (present and not null), else the configured one. */
  function GetFieldValue(post: Post, config: Config, key: string): (r: Value)
    ensures key in post && post[key] != Null ==> r == post[key]
    ensures !(key in post && post[key] != Null) ==> r == ConfigValue(config, key)
    ensures r == Null <==> PostValue(post, key) == Null && ConfigValue(config, key) == Null
  {
    if key in post && post[key] != Null then post[key] else ConfigValue(config, key)
  }

  /** The suffixes of `getBaseSettings`, in its order. */
  const BaseSettingNames := ["username", "password", "token", "sandbox"]

  /** The suffixes of `getModuleSettings`, in its order. */
  const ModuleSettingNames := [
    "transaction_type", "wpf_tokenization", "total", "order_status_id", "order_failure_status_id",
    "async_order_status_id", "geo_zone_id", "status", "sort_order", "debug", "supports_partial_capture",
    "supports_partial_refund", "supports_void", "supports_recurring", "recurring_transaction_type",
    "recurring_token", "cron_allowed_ip", "cron_time_limit", "bank_codes", "threeds_allowed",
    "threeds_challenge_indicator", "sca_exemption", "sca_exemption_amount"]

  /** The setting key of a module: `"{$module_name}_{$name}"`. */
  function SettingKey(moduleName: string, name: string): string
  {
    moduleName + "_" + name
  }

  /** The settings named `names`, each with the value the form shows for it. */
  function FieldValues(moduleName: string, names: seq<string>, post: Post, config: Config): (r: seq<(string, Value)>)
    ensures |r| == |names|
    ensures forall k | 0 <= k < |names| ::
      r[k] == (SettingKey(moduleName, names[k]), GetFieldValue(post, config, SettingKey(moduleName, names[k])))
  {
    seq(|names|, k requires 0 <= k < |names| =>
      (SettingKey(moduleName, names[k]), GetFieldValue(post, config, SettingKey(moduleName, names[k]))))
  }

  /** `getBaseSettings`: exactly the username, password, token and sandbox keys of the module, in that order. */
  function GetBaseSettings(moduleName: string, post: Post, config: Config): (r: seq<(string, Value)>)
    ensures |r| == 4
    ensures r[0].0 == moduleName + "_username" && r[1].0 == moduleName + "_password"
    ensures r[2].0 == moduleName + "_token" && r[3].0 == moduleName + "_sandbox"
    ensures forall k | 0 <= k < 4 :: r[k].1 == GetFieldValue(post, config, r[k].0)
  {
    FieldValues(moduleName, BaseSettingNames, post, config)
  }

  /** `getModuleSettings`: the module's 23 further keys, in their order, each with its form value. */
  function GetModuleSettings(moduleName: string, post: Post, config: Config): (r: seq<(string, Value)>)
    ensures |r| == 23
    ensures forall k | 0 <= k < 23 ::
      (r[k].0 == SettingKey(moduleName, ModuleSettingNames[k]) && r[k].1 == GetFieldValue(post, config, r[k].0))
  {
    FieldValues(moduleName, ModuleSettingNames, post, config)
  }

  /** Different setting names give different keys of one module. */
  lemma SettingKeysApart(moduleName: string, a: string, b: string)
    requires a != b
    ensures SettingKey(moduleName, a) != SettingKey(moduleName, b)
  {
    var p := moduleName + "_";
    assert SettingKey(moduleName, a)[|p|..] == a;
    assert SettingKey(moduleName, b)[|p|..] == b;
  }

  // ---------------------------------------------------------------------
  // defaults

  /** `ChallengeIndicators::NO_PREFERENCE` and `ScaExemptions::EXEMPTION_LOW_RISK`. */
  const NoPreference := "no_preference"
  const LowRisk := "low_risk"

  /** The setting names and defaults of `setDefaultOptions`; the cron IP default is the server's address
   *  (`getServerAddress`, a parameter here). */
  function DefaultTable(serverAddress: string): (r: seq<(string, Value)>)
    ensures |r| == 13
  {
    [("sandbox", Int(1)),
     ("status", Int(0)),
     ("debug", Int(1)),
     ("supports_partial_capture", Int(1)),
     ("supports_partial_refund", Int(1)),
     ("supports_void", Int(1)),
     ("supports_recurring", Int(0)),
     ("cron_allowed_ip", Str(serverAddress)),
     ("cron_time_limit", Int(25)),
     ("threeds_allowed", Int(1)),
     ("threeds_challenge_indicator", Str(NoPreference)),
     ("sca_exemption", Str(LowRisk)),
     ("sca_exemption_amount", Int(100))]
  }

  /** The default table with the setting names turned into the module's keys. */
  function Defaults(moduleName: string, serverAddress: string): (r: seq<(string, Value)>)
    ensures |r| == 13
    ensures forall k | 0 <= k < 13 ::
      r[k] == (SettingKey(moduleName, DefaultTable(serverAddress)[k].0), DefaultTable(serverAddress)[k].1)
  {
    var t := DefaultTable(serverAddress);
    seq(13, k requires 0 <= k < 13 => (SettingKey(moduleName, t[k].0), t[k].1))
  }

  /** `$data[$key] ?? $default` written back: a missing or null key takes the default. */
  function Fill(data: map<string, Value>, key: string, default: Value): map<string, Value>
  {
    data[key := if key in data && data[key] != Null then data[key] else default]
  }

  /** The settings after the default table `table` was applied entry by entry. */
  function Filled(data: map<string, Value>, table: seq<(string, Value)>): map<string, Value>
  {
    if table == [] then data
    else
      var (key, default) := table[|table| - 1];
      Fill(Filled(data, table[..|table| - 1]), key, default)
  }

  /** The default `key` ends up with: the first default for it in `table` that is not null, else null. */
  function DefaultFor(table: seq<(string, Value)>, key: string): Value
  {
    if table == [] then Null
    else if table[0].0 == key && table[0].1 != Null then table[0].1
    else DefaultFor(table[1..], key)
  }

  predicate Listed(table: seq<(string, Value)>, key: string)
  {
    exists k | 0 <= k < |table| :: table[k].0 == key
  }

  lemma {:induction false} DefaultForSnoc(table: seq<(string, Value)>, key: string)
    requires table != []
    ensures var init := table[..|table| - 1];
      DefaultFor(table, key) ==
        if DefaultFor(init, key) != Null then DefaultFor(init, key)
        else if table[|table| - 1].0 == key then table[|table| - 1].1
        else Null
  {
    if |table| > 1 {
      assert table[1..][..|table[1..]| - 1] == table[..|table| - 1][1..];
      DefaultForSnoc(table[1..], key);
    }
  }

  lemma {:induction false} DefaultListed(table: seq<(string, Value)>, key: string)
    ensures DefaultFor(table, key) != Null ==> Listed(table, key)
  {
    if table != [] && !(table[0].0 == key && table[0].1 != Null) {
      DefaultListed(table[1..], key);
      if Listed(table[1..], key) {
        var k :| 0 <= k < |table[1..]| && table[1..][k].0 == key;
        assert table[k + 1].0 == key;
      }
    }
  }

  /**
   * What filling does to one key: a key the table does not name, or one
   * that held a value (not null), is left as it was; a table key that was
   * missing or null takes the table's default for it.
   */
  lemma {:induction false} FilledAt(data: map<string, Value>, table: seq<(string, Value)>, key: string)
    ensures key in Filled(data, table) <==> key in data || Listed(table, key)
    ensures key in data && data[key] != Null ==> Filled(data, table)[key] == data[key]
    ensures !Listed(table, key) && key in data ==> Filled(data, table)[key] == data[key]
    ensures Listed(table, key) && !(key in data && data[key] != Null) ==>
      Filled(data, table)[key] == DefaultFor(table, key)
  {
    if table != [] {
      var init := table[..|table| - 1];
      FilledAt(data, init, key);
      DefaultForSnoc(table, key);
      DefaultListed(init, key);
      if Listed(table, key) && !Listed(init, key) {
        var k :| 0 <= k < |table| && table[k].0 == key;
      }
      if Listed(init, key) {
        var k :| 0 <= k < |init| && init[k].0 == key;
        assert table[k].0 == key;
      }
    }
  }

  /**
   * `setDefaultOptions`: for each entry of the default table, a key that
   * is missing or null takes the default; the loop writes `$data` in place.
   */
  method SetDefaultOptions(data: map<string, Value>, moduleName: string, serverAddress: string)
    returns (result: map<string, Value>)
    ensures result == Filled(data, Defaults(moduleName, serverAddress))
  {
    result := FillDefaults(data, Defaults(moduleName, serverAddress));
  }

  /** The loop of `setDefaultOptions`, over any table of defaults. */
  method FillDefaults(data: map<string, Value>, table: seq<(string, Value)>) returns (result: map<string, Value>)
    ensures result == Filled(data, table)
  {
    result := data;
    var i := 0;
    while i < |table|
      invariant 0 <= i <= |table|
      invariant result == Filled(data, table[..i])
    {
      assert table[..i + 1][..i] == table[..i];
      var (key, default) := table[i];
      result := result[key := if key in result && result[key] != Null then result[key] else default];
      i := i + 1;
    }
    assert table[..i] == table;
  }

  /** Filling leaves every value that was set alone and only adds keys of the table. */
  lemma FilledKeepsSet(data: map<string, Value>, table: seq<(string, Value)>)
    ensures data.Keys <= Filled(data, table).Keys
    ensures forall key | key in data && data[key] != Null :: Filled(data, table)[key] == data[key]
    ensures forall key | key in Filled(data, table) && key !in data :: Listed(table, key)
  {
    forall key | key in data && data[key] != Null
      ensures Filled(data, table)[key] == data[key]
    {
      FilledAt(data, table, key);
    }
    forall key | key in Filled(data, table)
      ensures key in data || Listed(table, key)
    {
      FilledAt(data, table, key);
    }
    forall key | key in data
      ensures key in Filled(data, table)
    {
      FilledAt(data, table, key);
    }
  }

  /** Filling with a table whose defaults are all set is idempotent: a second pass changes nothing. */
  lemma FilledIdempotent(data: map<string, Value>, table: seq<(string, Value)>)
    requires forall k | 0 <= k < |table| :: table[k].1 != Null
    ensures Filled(Filled(data, table), table) == Filled(data, table)
  {
    var once := Filled(data, table);
    forall key | key in once && Listed(table, key)
      ensures once[key] != Null
    {
      FilledAt(data, table, key);
      if !(key in data && data[key] != Null) {
        DefaultSet(table, key);
      }
    }
    forall key
      ensures key in Filled(once, table) <==> key in once
      ensures key in once ==> Filled(once, table)[key] == once[key]
    {
      FilledAt(once, table, key);
      FilledAt(data, table, key);
    }
  }

  lemma {:induction false} DefaultSet(table: seq<(string, Value)>, key: string)
    requires forall k | 0 <= k < |table| :: table[k].1 != Null
    requires Listed(table, key)
    ensures DefaultFor(table, key) != Null
  {
    if table[0].0 != key {
      var k :| 0 <= k < |table| && table[k].0 == key;
      assert table[1..][k - 1].0 == key;
      DefaultSet(table[1..], key);
    }
  }

  /**
   * `setDefaultOptions` on a module's settings: the stored values stay,
   * and running it again changes nothing.
   */
  lemma DefaultOptions(data: map<string, Value>, moduleName: string, serverAddress: string)
    ensures var r := Filled(data, Defaults(moduleName, serverAddress));
      forall key | key in data && data[key] != Null :: key in r && r[key] == data[key]
    ensures
      Filled(Filled(data, Defaults(moduleName, serverAddress)), Defaults(moduleName, serverAddress)) ==
      Filled(data, Defaults(moduleName, serverAddress))
  {
    var table := Defaults(moduleName, serverAddress);
    FilledKeepsSet(data, table);
    forall k | 0 <= k < |table|
      ensures table[k].1 != Null
    {
    }
    FilledIdempotent(data, table);
  }

  /**
   * An unset module gets sandbox 1, status 0, debug 1, a 25 second cron
   * limit and an SCA exemption amount of 100.
   */
  lemma FreshDefaults(moduleName: string, serverAddress: string)
    ensures var r := Filled(map[], Defaults(moduleName, serverAddress));
      SettingKey(moduleName, "sandbox") in r && r[SettingKey(moduleName, "sandbox")] == Int(1) &&
      SettingKey(moduleName, "status") in r && r[SettingKey(moduleName, "status")] == Int(0) &&
      SettingKey(moduleName, "debug") in r && r[SettingKey(moduleName, "debug")] == Int(1) &&
      SettingKey(moduleName, "cron_time_limit") in r && r[SettingKey(moduleName, "cron_time_limit")] == Int(25) &&
      SettingKey(moduleName, "sca_exemption_amount") in r && r[SettingKey(moduleName, "sca_exemption_amount")] == Int(100)
  {
    DefaultAt(moduleName, serverAddress, 0);
    DefaultAt(moduleName, serverAddress, 1);
    DefaultAt(moduleName, serverAddress, 2);
    DefaultAt(moduleName, serverAddress, 8);
    DefaultAt(moduleName, serverAddress, 12);
  }

  /** Entry `k` of the default table gives its setting's default to settings that had none. */
  lemma DefaultAt(moduleName: string, serverAddress: string, k: nat)
    requires k < 13 && DefaultTable(serverAddress)[k].1 != Null
    requires forall j | 0 <= j < k :: DefaultTable(serverAddress)[j].0 != DefaultTable(serverAddress)[k].0
    ensures var key := SettingKey(moduleName, DefaultTable(serverAddress)[k].0);
      key in Filled(map[], Defaults(moduleName, serverAddress)) &&
      Filled(map[], Defaults(moduleName, serverAddress))[key] == DefaultTable(serverAddress)[k].1
  {
    var table := Defaults(moduleName, serverAddress);
    var names := DefaultTable(serverAddress);
    var key := SettingKey(moduleName, names[k].0);
    forall j | 0 <= j < k
      ensures table[j].0 != key
    {
      SettingKeysApart(moduleName, names[j].0, names[k].0);
    }
    assert table[k].0 == key;
    FilledAt(map[], table, key);
    FirstDefault(table, k, key);
  }

  lemma {:induction false} FirstDefault(table: seq<(string, Value)>, k: nat, key: string)
    requires k < |table| && table[k].0 == key && table[k].1 != Null
    requires forall j | 0 <= j < k :: table[j].0 != key
    ensures DefaultFor(table, key) == table[k].1
  {
    if k > 0 {
      FirstDefault(table[1..], k - 1, key);
    }
  }
}
