# GigMaps front end: job selection, age labels, zip-code cache and configuration store

This project models the logic of the GigMaps job-listing page and its
configuration store, and proves properties of it.

- `app.dfy`, module `App`, models `src/App.js`:
  - `loadJobs` with its filter, sort and slice of the fetched postings;
  - `formatTimeAgo`, the zip-code cache (`fetchZipcodesForJobs`, `getZipcode`);
  - the effect that reloads on a platform change.
  The React state (`jobs`, `loading`, `currentApp`, `config`, `zipcodes`) is the class `App.App`.
- `config.dfy`, module `Config`, models `src/config.js`:
  - `defaultConfig`, `loadConfig`, `saveConfig`, `getConfig`, `updateConfig`;
  - the guard of `testConnection`.
  localStorage is the class `Config.Storage`, whose field `entries` maps keys to stored entries.
- `wrappers.dfy`, module `Wrappers`: `Option` and `Result`.

Modelling choices:

- A posting's `posted_at` is `Option<int>` (milliseconds): `None` stands for any falsy value.
- `city` and `state` are strings, with `""` standing for any falsy value.
- A configuration is a `map<string, Value>` over a JSON `Value` datatype. So `{ ...a, ...b }` is map union with `b` winning.
- A stored entry is `Blank` (the empty string), `Malformed` (JSON.parse throws) or `Json(v)`.
  Spreading a parsed non-object follows JavaScript's rules:
  - `null`, booleans and numbers add nothing;
  - arrays and strings add their index properties `"0"`, `"1"`, and so on.
- The network is an oracle:
  - the data API is a function from table name to `Option<seq<Posting>>`;
  - the zip service is a function from `(city, state)` to `Option<string>`;
  - `testConnection`'s request is a boolean;
  - whether `localStorage.setItem` succeeds is the boolean `accepted`.
- The environment variables read by `defaultConfig` are the parameter `Env`.

The code shows 9 postings, asks the API for `limit=50` and has no recent/older
partition, no Pro gating and no negative-result caching. The model follows
the code. The constants `cardDistribution` and `pro` are modelled only as data
inside `DefaultConfig`, because no code reads them.

## Model

| member | source | states |
|---|---|---|
| `App.KeepDated` | src/App.js:63 | every kept posting has a `posted_at`; each dated posting is kept as often as it occurs, each undated one never |
| `App.Insert` | src/App.js:64 | one insertion step of the sort; specified by `InsertSorted`, `InsertCounts` and `InsertStable` |
| `App.InsertSorted` | src/App.js:64 | inserting into a newest-first list keeps it newest first and one longer |
| `App.InsertCounts` | src/App.js:64 | inserting adds exactly one copy of the posting and loses none |
| `App.SortSortsAndPermutes` | src/App.js:64 | the sorted list is non-increasing by `posted_at`, as long as the input and a permutation of it |
| `App.SortNewestFirst` | src/App.js:64 | `.sort((a, b) => b - a)` as a stable insertion sort; specified by `SortSortsAndPermutes` (newest first, a permutation) and `SortStable` (equal times keep input order) |
| `App.SortStable` | src/App.js:64 | the sort is stable: for every time `t`, postings stamped `t` keep their input order |
| `App.InsertStable` | src/App.js:64 | inserting a posting puts it before every posting with the same time |
| `App.KeepDatedStable` | src/App.js:63 | the filter keeps the relative order of the postings of each time |
| `App.Prefix` | src/App.js:65 | `slice(0, n)` has length `min(n, |s|)` and is a prefix of `s` |
| `App.SelectJobs` | src/App.js:62-65 | the shown list has length `min(9, number of dated postings)`, only dated postings, newest first, and takes no posting more often than the input has it |
| `App.LeftOutIsOlder` | src/App.js:64-65 | in a newest-first list, a posting with a copy beyond the first `n` is no newer than any of those `n` |
| `App.SelectKeepsNewest` | src/App.js:62-65 | a dated posting left out (a copy not shown) is no newer than any shown posting: the shown list is the newest nine |
| `App.SelectStable` | src/App.js:62-65 | among shown postings with equal time, the order is the input order, and they are the first of that time in the input |
| `App.ElapsedSeconds` | src/App.js:111 | `Math.floor((now - date) / 1000)`: `1000*s <= now - date < 1000*s + 1000`, also for a date in the future |
| `App.FormatTimeAgo` | src/App.js:108-117 | Just now iff age < 60 s (so any future date); minutes iff 60 s <= age < 1 h; hours iff 1 h <= age < 1 d; days otherwise. The count n is the largest with n units <= age, and 1 <= n < 60 for minutes, 1 <= n < 24 for hours, n >= 1 for days |
| `App.TimeAgoMonotone` | src/App.js:108-117 | an older posting never gets a fresher label: a coarser unit, or the same unit with at least the same count |
| `App.Collected` | src/App.js:81-99 | `newZipcodes` after the loop has visited a batch; specified by `CollectedKeys` and `CollectedFindsEach` |
| `App.CollectedKeys` | src/App.js:81-99 | after the loop, a key is in `newZipcodes` iff some posting of the batch with both city and state has that key and its lookup succeeded; the value is the code returned for the last such posting, no later found posting having that key |
| `App.ZipKey` | src/App.js:93 | the cache key `city-state`, also built by `getZipcode` at line 121; specified by `StateOfKeyRoundTrip`, `ZipKeyInjective` and `ZipKeyCollision` |
| `App.StateOfKeyRoundTrip` | src/App.js:93 | the state can be read back from the key `city-state` when it contains no dash |
| `App.ZipKeyInjective` | src/App.js:93 | when states contain no dash, equal keys mean equal city and state |
| `App.ZipKeyCollision` | src/App.js:93 | without that condition, two different places share a key (`a-b`,`c` and `a`,`b-c`) |
| `App.CollectedFindsEach` | src/App.js:83-99 | when no state has a dash, every posting whose lookup succeeded has its own code under its key |
| `App.TableName` | src/App.js:36 | the table `${app}_jobs`; `LoadJobs`, `RunEffect` and `HandleAppChange` state which table's rows become the jobs |
| `App.App.constructor` | src/App.js:8-13 | initial state: no jobs, loading, platform `instacart`, no config, empty cache |
| `App.App.GetZipcode` | src/App.js:119-123 | `''` when city or state is empty or the key is absent; otherwise the cached code for `city-state` |
| `App.App.FetchZipcodesForJobs` | src/App.js:80-102 | the cache becomes the old cache overlaid by `newZipcodes`. Every old key stays. A key changes or appears only for a posting with city and state whose lookup succeeded, with the code of the last such posting. When states have no dash, every such posting's code is then shown |
| `App.App.LoadJobs` | src/App.js:25-78 | loading ends false. Without both credentials, jobs become empty and the response is ignored. A failed fetch gives no jobs. A successful one gives `SelectJobs` of its rows, and the zip cache is updated for exactly those jobs |
| `App.App.RunEffect` | src/App.js:15-23 | `config` becomes `getConfig()` and loading ends false. Without both credentials in it, jobs become empty and the cache is unchanged. With them, a failed fetch of the current platform's table gives no jobs and an unchanged cache; a successful one gives `SelectJobs` of its rows and the cache updated for exactly those jobs |
| `App.App.HandleAppChange` | src/App.js:104-106 | the platform becomes `app`. Switching to the current platform changes nothing. Switching to a new one runs the effect for it: `config` becomes `getConfig()`, loading ends false, no credentials or a failed fetch of the new table give no jobs and an unchanged cache, and a successful fetch gives `SelectJobs` of its rows and the cache updated for those jobs |
| `Config.DefaultConfig` | src/config.js:6-35 | `defaultConfig` as a record; its credentials are specified by `DefaultCredentials`, its nested objects by `ShallowMergeReplacesNested` |
| `Config.Truthy` | src/config.js:81 | JavaScript truthiness of a JSON value: `null`, `false`, `0` and `""` are falsy |
| `Config.HasCredentials` | src/App.js:29 | as also at src/config.js:81: both `supabaseUrl` and `supabaseKey` are present and truthy; the guard on which `LoadJobs` and `TestConnection` are specified |
| `Config.Spread` | src/config.js:46 | the properties `{...JSON.parse(saved)}` copies; specified by `SpreadProperties` |
| `Config.Overlay` | src/config.js:46 | `{...base, ...top}`: every key of either; `top`'s value where it has the key, `base`'s otherwise |
| `Config.OverlayAbsorbs` | src/config.js:71-75 | overlaying onto a record that already has every default key makes a second overlay of the defaults a no-op |
| `Config.DecimalStringInjective` | src/config.js:46 | distinct array indices are distinct property names |
| `Config.IndexKeyedAt` | src/config.js:46 | spreading an array gives every index as a property holding that item |
| `Config.IndexKeyedOnlyIndices` | src/config.js:46 | spreading an array gives no property other than its indices |
| `Config.SpreadProperties` | src/config.js:46 | `{...v}`: an object gives its fields, `null`/booleans/numbers give nothing, an array or string gives exactly its index properties |
| `Config.DefaultCredentials` | src/config.js:6-8 | the defaults carry credentials iff both environment variables are non-empty |
| `Config.ShallowMergeReplacesNested` | src/config.js:46 | the merge is shallow: for every default property holding an object, a saved object under that name replaces it whole, and every nested default field it lacks is gone |
| `Config.ShallowMergeDropsAccessDuration` | src/config.js:46 | an instance, with the default `pro` of src/config.js:20-34: a saved `pro` holding only a price loses `accessDurationDays` |
| `Config.Storage.constructor` | src/config.js:6-8 | the store starts with the given entries and the defaults built from the environment |
| `Config.Storage.LoadConfig` | src/config.js:42-52 | the defaults when nothing is saved, the saved text is empty, or it does not parse; otherwise every default key and every saved key, the saved value winning |
| `Config.Storage.GetConfig` | src/config.js:66-68 | equals `loadConfig()` |
| `Config.Storage.SaveConfig` | src/config.js:55-63 | returns whether the write succeeded. On success the record is stored under `gigmaps-config` and then loads as defaults overlaid by it. On failure the store is unchanged |
| `Config.Storage.UpdateConfig` | src/config.js:71-75 | on success the store holds the previous load overlaid by the new record, and loading gives defaults overlaid by that, which equals the previous load overlaid by the new record; on failure nothing changes |
| `Config.Storage.TestConnection` | src/config.js:78-101 | rejects with "credentials not configured" iff a credential of the loaded config is falsy, before any request; otherwise it succeeds with `true` iff the server responds |

## Left out

- Rendering: the JSX, tab buttons, menu toggle and footer (src/App.js:125-253). They are UI. The title fallback `job.title || job.job_name || 'Delivery Driver'` belongs to them too.
- Network I/O: the HTTP requests, `response.ok` and JSON decoding of responses (src/App.js:41-58, 89-92, src/config.js:85-100) are oracles.
  - The URL's `order=posted_at.desc&limit=50` is server behaviour. The model makes no assumption about the rows returned.
  - A response that is not an array makes `.filter` throw, which is caught; any such failure is the fetch oracle's `None`.
- Asynchrony: React scheduling and async interleaving are not modelled.
  - `fetchZipcodesForJobs` is started without `await`. In the model it completes inside `LoadJobs`, before `loading` is cleared.
  - A response that arrives after a platform switch is not modelled. The code has no guard against it.
- Dates: `posted_at` is an integer number of milliseconds. `new Date` parsing, invalid dates (a NaN comparator) and floating-point time are not modelled.
- Logging and environment reads: `console.*` calls are dropped. `process.env` is the `Env` parameter.
- JSON serialization: `saveConfig` stores the record as the value it parses back to. The model assumes `JSON.stringify` then `JSON.parse` gives back the same record: no `undefined`, functions, NaN or floating-point rounding. A `JSON.stringify` that throws (a cycle, a BigInt) cannot be expressed.
- Storage errors: `localStorage.getItem` throwing has the same outcome as an entry that does not parse (the defaults), so it has no separate case.
- Strings: a spread string gives one property per Dafny character. JavaScript gives one per UTF-16 code unit.
- `App.App.LoadJobs`: "no request is made without credentials" is stated only as the result being independent of the fetch oracle. The model has no notion of a request being issued.
- Non-string `posted_at` values: a posting time present in the row counts as dated. A falsy non-string such as the number 0 would be dropped by the page; the data API returns timestamps as text.
- `App.FormatTimeAgo`: returns a label datatype rather than the rendered string (`"5m ago"`). Number-to-text formatting is not modelled.
- Zip lookups: the zip service is a function of `(city, state)`, so repeated lookups for the same place within one batch are assumed to agree. The case where an early lookup succeeds and a later one for the same place fails, leaving the early code in place, is not expressed.
