/**
 * The configuration store of the front end: a default record built from the
 * environment, a saved record kept in the browser's localStorage under one key,
 * and the shallow merge of the two.
 */
module Config {
  import opened Wrappers

  /** A JSON value, as JSON.parse produces it. */
  datatype Value =
    | Null
    | Bool(b: bool)
    | Number(x: real)
    | Text(s: string)
    | List(items: seq<Value>)
    | Object(fields: map<string, Value>)

  /** A configuration object: its own properties by name. */
  type Record = map<string, Value>

  /** The localStorage key the configuration lives under. */
  const StorageKey: string := "gigmaps-config"

  /** The two build-time environment variables the defaults read; None when unset. */
  datatype Env = Env(supabaseUrl: Option<string>, supabaseKey: Option<string>)

  /** An unset and an empty environment variable both give the empty string. */
  function EnvOrEmpty(v: Option<string>): string {
    v.GetOr("")
  }

  /** `defaultConfig`. */
  function DefaultConfig(env: Env): Record {
    map[
      "supabaseUrl" := Text(EnvOrEmpty(env.supabaseUrl)),
      "supabaseKey" := Text(EnvOrEmpty(env.supabaseKey)),
      "jobsLimit" := Number(10.0),
      "debug" := Bool(false),
      "cardDistribution" := Object(map[
        "total" := Number(10.0),
        "recentJobs" := Number(4.0),
        "olderJobs" := Number(6.0)
      ]),
      "pro" := Object(map[
        "priceUSD" := Number(19.99),
        "accessDurationDays" := Number(3.0),
        "jobAgeThresholdHours" := Number(10.0),
        "refundPolicy" := Object(map[
          "enabled" := Bool(true),
          "description" := Text("Full refund if no gigs found in your zip code")
        ]),
        "features" := List([
          Text("See all fresh job locations instantly"),
          Text("Access to all zip codes and city data"),
          Text("3-day unlimited access"),
          Text("No gigs in your area? Full refund, no risk")
        ])
      ])
    ]
  }

  /** JavaScript truthiness of a JSON value. */
  predicate Truthy(v: Value) {
    match v
    case Null => false
    case Bool(b) => b
    case Number(x) => x != 0.0
    case Text(s) => s != ""
    case List(_) => true
    case Object(_) => true
  }

  /** `c.name` is truthy; a missing property reads as `undefined`, which is falsy. */
  predicate TruthyField(c: Record, name: string) {
    name in c && Truthy(c[name])
  }

  /** Both Supabase credentials, the URL and the key, are truthy. */
  predicate HasCredentials(c: Record) {
    TruthyField(c, "supabaseUrl") && TruthyField(c, "supabaseKey")
  }

  /** Object spread of `base` then `top`: every property of either, and `top` wins where both have one. */
  function Overlay(base: Record, top: Record): (r: Record)
    ensures r.Keys == base.Keys + top.Keys
    ensures forall k :: k in top ==> r[k] == top[k]
    ensures forall k :: k in base && k !in top ==> r[k] == base[k]
  {
    base + top
  }

  /** Overlaying a record onto one that already has every key of `base` makes `base` irrelevant. */
  lemma OverlayAbsorbs(base: Record, current: Record, top: Record)
    requires base.Keys <= current.Keys
    ensures Overlay(base, Overlay(current, top)) == Overlay(current, top)
  {
    var lhs, rhs := Overlay(base, Overlay(current, top)), Overlay(current, top);
    assert lhs.Keys == rhs.Keys;
    forall k | k in lhs ensures lhs[k] == rhs[k] {}
  }

  /** The digit character for `d`. */
  function DigitChar(d: nat): char
    requires d < 10
  {
    (('0' as int) + d) as char
  }

  /** The decimal spelling of `n`, as JavaScript writes an array index as a property name. */
  function DecimalString(n: nat): (s: string)
    ensures |s| >= 1
    ensures n >= 10 ==> |s| >= 2
  {
    if n < 10 then [DigitChar(n)] else DecimalString(n / 10) + [DigitChar(n % 10)]
  }

  /** Different numbers are spelled differently, so index properties never collide. */
  lemma {:induction false} DecimalStringInjective(a: nat, b: nat)
    requires DecimalString(a) == DecimalString(b)
    ensures a == b
  {
    var sa, sb := DecimalString(a), DecimalString(b);
    if a >= 10 && b >= 10 {
      assert sa[|sa| - 1] == DigitChar(a % 10);
      assert sb[|sb| - 1] == DigitChar(b % 10);
      assert sa[..|sa| - 1] == DecimalString(a / 10);
      assert sb[..|sb| - 1] == DecimalString(b / 10);
      DecimalStringInjective(a / 10, b / 10);
    } else if a < 10 && b < 10 {
      assert sa[0] == DigitChar(a) && sb[0] == DigitChar(b);
    }
  }

  /** The index-keyed properties `{"0": items[0], "1": items[1], ...}` of an array. */
  function IndexKeyed(items: seq<Value>): Record
  {
    if items == [] then map[]
    else IndexKeyed(items[..|items| - 1])[DecimalString(|items| - 1) := items[|items| - 1]]
  }

  /** Every index is a property, holding the item at that index. */
  lemma {:induction false} IndexKeyedAt(items: seq<Value>, i: nat)
    requires i < |items|
    ensures DecimalString(i) in IndexKeyed(items)
    ensures IndexKeyed(items)[DecimalString(i)] == items[i]
  {
    var n := |items| - 1;
    if i < n {
      IndexKeyedAt(items[..n], i);
      if DecimalString(i) == DecimalString(n) {
        DecimalStringInjective(i, n);
      }
    }
  }

  /** Every property is an index. */
  lemma {:induction false} IndexKeyedOnlyIndices(items: seq<Value>, k: string)
    requires k in IndexKeyed(items)
    ensures exists i :: 0 <= i < |items| && DecimalString(i) == k
  {
    var n := |items| - 1;
    if k != DecimalString(n) {
      IndexKeyedOnlyIndices(items[..n], k);
    }
  }

  /** One single-character string per character, as spreading a string yields them. */
  function Characters(s: string): (cs: seq<Value>)
    ensures |cs| == |s| && forall i :: 0 <= i < |s| ==> cs[i] == Text([s[i]])
  {
    seq(|s|, i requires 0 <= i < |s| => Text([s[i]]))
  }

  /** The own enumerable properties of a parsed value: what object spread copies from it. */
  function Spread(v: Value): Record {
    match v
    case Object(fields) => fields
    case List(items) => IndexKeyed(items)
    case Text(s) => IndexKeyed(Characters(s))
    case _ => map[]
  }

  /** An object spreads to its fields, null, a boolean or a number to nothing, an array or string to its indices. */
  lemma SpreadProperties(v: Value)
    ensures v.Object? ==> Spread(v) == v.fields
    ensures v.Null? || v.Bool? || v.Number? ==> Spread(v) == map[]
    ensures v.List? ==> forall i :: 0 <= i < |v.items| ==>
      DecimalString(i) in Spread(v) && Spread(v)[DecimalString(i)] == v.items[i]
    ensures v.Text? ==> forall i :: 0 <= i < |v.s| ==>
      DecimalString(i) in Spread(v) && Spread(v)[DecimalString(i)] == Text([v.s[i]])
    ensures v.List? || v.Text? ==> forall k :: k in Spread(v) ==>
      exists i :: 0 <= i < (if v.List? then |v.items| else |v.s|) && DecimalString(i) == k
  {
    match v
    case List(items) =>
      forall i | 0 <= i < |items| ensures DecimalString(i) in Spread(v) && Spread(v)[DecimalString(i)] == items[i] {
        IndexKeyedAt(items, i);
      }
      forall k | k in Spread(v) ensures exists i :: 0 <= i < |items| && DecimalString(i) == k {
        IndexKeyedOnlyIndices(items, k);
      }
    case Text(s) =>
      var cs := Characters(s);
      forall i | 0 <= i < |s| ensures DecimalString(i) in Spread(v) && Spread(v)[DecimalString(i)] == Text([s[i]]) {
        IndexKeyedAt(cs, i);
      }
      forall k | k in Spread(v) ensures exists i :: 0 <= i < |s| && DecimalString(i) == k {
        IndexKeyedOnlyIndices(cs, k);
      }
    case _ =>
  }

  /** What localStorage holds under a key, as `loadConfig` sees it. */
  datatype Entry =
    | Blank              // the empty string: falsy, so the saved branch is skipped
    | Malformed          // text that JSON.parse rejects
    | Json(value: Value) // text that JSON.parse accepts, as the value it parses to

  /** Why `testConnection` rejects. */
  datatype ConnectionError =
    | CredentialsNotConfigured // thrown by the guard, before any request
    | ConnectionFailed         // the request failed or answered with a non-2xx status

  /** The browser's localStorage together with the `defaultConfig` of the loaded module. */
  class Storage {
    const defaults: Record
    var entries: map<string, Entry>

    constructor (env: Env, initial: map<string, Entry>)
      ensures defaults == DefaultConfig(env) && entries == initial
    {
      defaults := DefaultConfig(env);
      entries := initial;
    }

    /** `loadConfig()`: the saved record spread over the defaults, or the defaults. */
    function LoadConfig(): (c: Record)
      reads this
      ensures StorageKey !in entries ==> c == defaults
      ensures StorageKey in entries && !entries[StorageKey].Json? ==> c == defaults
      ensures StorageKey in entries && entries[StorageKey].Json? ==>
        var saved := Spread(entries[StorageKey].value);
        && c.Keys == defaults.Keys + saved.Keys
        && (forall k :: k in saved ==> c[k] == saved[k])
        && (forall k :: k in defaults && k !in saved ==> c[k] == defaults[k])
      ensures defaults.Keys <= c.Keys
    {
      if StorageKey in entries && entries[StorageKey].Json? then
        Overlay(defaults, Spread(entries[StorageKey].value))
      else
        defaults
    }

    /** `getConfig()`. */
    function GetConfig(): (c: Record)
      reads this
      ensures c == LoadConfig()
    {
      LoadConfig()
    }

    /**
     * `saveConfig(config)`; `accepted` is whether localStorage.setItem succeeds
     * (it throws when storage is full or disabled).
     */
    method SaveConfig(config: Record, accepted: bool) returns (ok: bool)
      modifies this
      ensures ok == accepted
      ensures ok ==> entries == old(entries)[StorageKey := Json(Object(config))]
      ensures !ok ==> entries == old(entries)
      ensures ok ==> LoadConfig() == Overlay(defaults, config)
    {
      if accepted {
        entries := entries[StorageKey := Json(Object(config))];
        ok := true;
      } else {
        ok := false;
      }
    }

    /** `updateConfig(newConfig)`: load, overlay `newConfig`, save. */
    method UpdateConfig(newConfig: Record, accepted: bool) returns (ok: bool)
      modifies this
      ensures ok == accepted
      ensures !ok ==> entries == old(entries)
      ensures ok ==> entries == old(entries)[StorageKey := Json(Object(Overlay(old(LoadConfig()), newConfig)))]
      ensures ok ==> LoadConfig() == Overlay(defaults, Overlay(old(LoadConfig()), newConfig))
      ensures ok ==> LoadConfig() == Overlay(old(LoadConfig()), newConfig)
    {
      var current := LoadConfig();
      var updated := Overlay(current, newConfig);
      ok := SaveConfig(updated, accepted);
      if ok {
        OverlayAbsorbs(defaults, current, newConfig);
      }
    }

    /**
     * `testConnection()`, whose request is the oracle `serverResponds`: the guard
     * rejects before any request when a credential is missing.
     */
    function TestConnection(serverResponds: bool): (r: Result<bool, ConnectionError>)
      reads this
      ensures r == Failure(CredentialsNotConfigured) <==> !HasCredentials(LoadConfig())
      ensures r.Success? <==> HasCredentials(LoadConfig()) && serverResponds
      ensures r.Success? ==> r.value
    {
      var config := LoadConfig();
      if !HasCredentials(config) then Failure(CredentialsNotConfigured)
      else if serverResponds then Success(true)
      else Failure(ConnectionFailed)
    }
  }

  /** The defaults carry credentials exactly when both environment variables are non-empty. */
  lemma DefaultCredentials(env: Env)
    ensures HasCredentials(DefaultConfig(env)) <==>
      EnvOrEmpty(env.supabaseUrl) != "" && EnvOrEmpty(env.supabaseKey) != ""
  {
  }

  /**
   * The merge is shallow: for any default property holding a nested object, a
   * saved object under the same name replaces it whole, and every nested field
   * the saved object lacks is gone from the merged record.
   */
  lemma ShallowMergeReplacesNested(env: Env, saved: Record, k: string)
    requires k in DefaultConfig(env) && DefaultConfig(env)[k].Object?
    requires k in saved && saved[k].Object?
    ensures Overlay(DefaultConfig(env), saved)[k] == saved[k]
    ensures forall f :: f in DefaultConfig(env)[k].fields && f !in saved[k].fields ==>
      f !in Overlay(DefaultConfig(env), saved)[k].fields
  {
  }

  /** An instance of that law: a saved `pro` holding only a price loses the default access duration. */
  lemma ShallowMergeDropsAccessDuration(env: Env)
    ensures var saved := map["pro" := Object(map["priceUSD" := Number(9.99)])];
      var merged := Overlay(DefaultConfig(env), saved);
      && merged["pro"] == Object(map["priceUSD" := Number(9.99)])
      && "accessDurationDays" !in merged["pro"].fields
      && "accessDurationDays" in DefaultConfig(env)["pro"].fields
  {
  }
}
