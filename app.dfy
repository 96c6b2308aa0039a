/**
 * The job list page: which fetched postings are shown and in what order, how a
 * posting's age is bucketed, and the cache of zip codes looked up per city.
 */
module App {
  import opened Wrappers
  import Config

  /** One job posting row; `city` and `state` are "" when the row has no truthy value there. */
  datatype Posting = Posting(title: string, city: string, state: string, postedAt: Option<int>)

  /** How many postings the page keeps after sorting. */
  const MaxShown: nat := 9

  function Min(a: int, b: int): int {
    if a <= b then a else b
  }

  /** `job.posted_at` is truthy. */
  predicate Dated(p: Posting) {
    p.postedAt.Some?
  }

  /** The posting time in milliseconds; only ever read for dated postings. */
  function Stamp(p: Posting): int {
    p.postedAt.GetOr(0)
  }

  // ---------------------------------------------------------------------------
  // The selection pipeline: filter, stable sort newest first, slice.
  // ---------------------------------------------------------------------------

  /** The filter step of `loadJobs`: the dated postings, each as often as in the input. */
  function KeepDated(jobs: seq<Posting>): (r: seq<Posting>)
    ensures forall p :: p in r ==> Dated(p)
    ensures forall p :: multiset(r)[p] == (if Dated(p) then multiset(jobs)[p] else 0)
    ensures multiset(r) <= multiset(jobs)
  {
    if jobs == [] then []
    else
      assert jobs == [jobs[0]] + jobs[1..];
      (if Dated(jobs[0]) then [jobs[0]] else []) + KeepDated(jobs[1..])
  }

  /** Non-increasing by posting time. */
  predicate NewestFirst(s: seq<Posting>) {
    forall i, j :: 0 <= i < j < |s| ==> Stamp(s[i]) >= Stamp(s[j])
  }

  /** Inserts `p` in front of the first posting no newer than it. */
  function Insert(p: Posting, s: seq<Posting>): seq<Posting> {
    if s == [] then [p]
    else if Stamp(s[0]) <= Stamp(p) then [p] + s
    else [s[0]] + Insert(p, s[1..])
  }

  /** Inserting into a newest-first list keeps it newest first; the new head is `p` or the old head. */
  lemma {:induction false} InsertSorted(p: Posting, s: seq<Posting>)
    requires NewestFirst(s)
    ensures |Insert(p, s)| == |s| + 1
    ensures NewestFirst(Insert(p, s))
    ensures Insert(p, s)[0] == p || (s != [] && Insert(p, s)[0] == s[0])
  {
    if s != [] && Stamp(s[0]) > Stamp(p) {
      var rest := Insert(p, s[1..]);
      InsertSorted(p, s[1..]);
      var r := [s[0]] + rest;
      assert Insert(p, s) == r;
      assert Stamp(s[0]) >= Stamp(rest[0]);
      forall i, j | 0 <= i < j < |r| ensures Stamp(r[i]) >= Stamp(r[j]) {
        assert r[j] == rest[j - 1];
        if i == 0 {
          if j > 1 {
            assert Stamp(rest[0]) >= Stamp(rest[j - 1]);
          }
        } else {
          assert r[i] == rest[i - 1];
        }
      }
    } else if s != [] {
      var r := [p] + s;
      assert Insert(p, s) == r;
      forall i, j | 0 <= i < j < |r| ensures Stamp(r[i]) >= Stamp(r[j]) {
        assert r[j] == s[j - 1];
        if i == 0 {
          if j > 1 {
            assert Stamp(s[0]) >= Stamp(s[j - 1]);
          }
        } else {
          assert r[i] == s[i - 1];
        }
      }
    }
  }

  /** Inserting adds exactly one copy of `p`. */
  lemma {:induction false} InsertCounts(p: Posting, s: seq<Posting>)
    ensures multiset(Insert(p, s)) == multiset(s) + multiset{p}
  {
    if s != [] && Stamp(s[0]) > Stamp(p) {
      InsertCounts(p, s[1..]);
      assert s == [s[0]] + s[1..];
      assert Insert(p, s) == [s[0]] + Insert(p, s[1..]);
    } else if s != [] {
      assert Insert(p, s) == [p] + s;
    }
  }

  /** The sort step of `loadJobs`: newest first, and stable, as JavaScript's array sort is. */
  function SortNewestFirst(s: seq<Posting>): seq<Posting> {
    if s == [] then [] else Insert(s[0], SortNewestFirst(s[1..]))
  }

  /** The sort's result is newest first and a permutation of its input. */
  lemma {:induction false} SortSortsAndPermutes(s: seq<Posting>)
    ensures |SortNewestFirst(s)| == |s|
    ensures NewestFirst(SortNewestFirst(s))
    ensures multiset(SortNewestFirst(s)) == multiset(s)
  {
    if s != [] {
      var sorted := SortNewestFirst(s[1..]);
      SortSortsAndPermutes(s[1..]);
      InsertSorted(s[0], sorted);
      InsertCounts(s[0], sorted);
      assert s == [s[0]] + s[1..];
      assert multiset(s) == multiset(s[1..]) + multiset{s[0]};
    }
  }

  /** The slice step of `loadJobs`: the first `n` postings, or all of them when there are fewer. */
  function Prefix(s: seq<Posting>, n: nat): (r: seq<Posting>)
    ensures |r| == Min(n, |s|)
    ensures r == s[..|r|]
  {
    if |s| <= n then s else s[..n]
  }

  /** A prefix holds no posting more often than the whole, and a prefix of a newest-first list is newest first. */
  lemma PrefixWithin(s: seq<Posting>, n: nat)
    requires n <= |s|
    ensures multiset(s[..n]) <= multiset(s)
    ensures NewestFirst(s) ==> NewestFirst(s[..n])
  {
    assert s == s[..n] + s[n..];
  }

  /** Sub-multisets of dated postings hold only dated postings. */
  lemma DatedWithin(r: seq<Posting>, d: seq<Posting>)
    requires multiset(r) <= multiset(d)
    requires forall p :: p in d ==> Dated(p)
    ensures forall p :: p in r ==> Dated(p)
  {
    forall p | p in r ensures Dated(p) {
      assert p in multiset(r);
      assert p in multiset(d);
    }
  }

  /** `validJobs` in `loadJobs`: the postings the page shows, in the order it shows them. */
  function SelectJobs(jobs: seq<Posting>): (r: seq<Posting>)
    ensures |r| == Min(MaxShown, |KeepDated(jobs)|)
    ensures forall p :: p in r ==> Dated(p)
    ensures NewestFirst(r)
    ensures multiset(r) <= multiset(jobs)
  {
    var dated := KeepDated(jobs);
    var sorted := SortNewestFirst(dated);
    SortSortsAndPermutes(dated);
    var r := Prefix(sorted, MaxShown);
    PrefixWithin(sorted, |r|);
    DatedWithin(r, dated);
    r
  }

  /** In a newest-first list, a posting with a copy beyond the first `n` is no newer than those `n`. */
  lemma LeftOutIsOlder(sorted: seq<Posting>, n: nat, p: Posting)
    requires NewestFirst(sorted) && n <= |sorted|
    requires multiset(sorted[..n])[p] < multiset(sorted)[p]
    ensures forall j :: 0 <= j < n ==> Stamp(sorted[j]) >= Stamp(p)
  {
    var rest := sorted[n..];
    assert sorted == sorted[..n] + rest;
    assert multiset(sorted) == multiset(sorted[..n]) + multiset(rest);
    assert p in rest;
    var k :| 0 <= k < |rest| && rest[k] == p;
    assert sorted[n + k] == p;
  }

  /** The selection keeps the newest: a dated posting left out is no newer than any shown. */
  lemma SelectKeepsNewest(jobs: seq<Posting>, p: Posting)
    requires Dated(p)
    requires multiset(SelectJobs(jobs))[p] < multiset(jobs)[p]
    ensures forall q :: q in SelectJobs(jobs) ==> Stamp(q) >= Stamp(p)
  {
    var sorted := SortNewestFirst(KeepDated(jobs));
    SortSortsAndPermutes(KeepDated(jobs));
    var r := SelectJobs(jobs);
    assert r == sorted[..|r|];
    assert multiset(sorted)[p] == multiset(jobs)[p];
    LeftOutIsOlder(sorted, |r|, p);
    forall q | q in r ensures Stamp(q) >= Stamp(p) {
      var j :| 0 <= j < |r| && r[j] == q;
      assert sorted[j] == q;
    }
  }

  /** The postings stamped exactly `t`, in input order. */
  function WithStamp(s: seq<Posting>, t: int): seq<Posting> {
    if s == [] then []
    else (if s[0].postedAt == Some(t) then [s[0]] else []) + WithStamp(s[1..], t)
  }

  /** One step of WithStamp on a sequence with a known head. */
  lemma WithStampCons(x: Posting, s: seq<Posting>, t: int)
    ensures WithStamp([x] + s, t) == (if x.postedAt == Some(t) then [x] else []) + WithStamp(s, t)
  {
    assert ([x] + s)[1..] == s;
  }

  lemma {:induction false} InsertStable(p: Posting, s: seq<Posting>, t: int)
    ensures WithStamp(Insert(p, s), t) ==
      (if p.postedAt == Some(t) then [p] else []) + WithStamp(s, t)
  {
    if s == [] {
      assert Insert(p, s) == [p] + s;
      WithStampCons(p, s, t);
    } else if Stamp(s[0]) > Stamp(p) {
      InsertStable(p, s[1..], t);
      InsertPastNewer(p, s, t);
    } else {
      assert Insert(p, s) == [p] + s;
      WithStampCons(p, s, t);
    }
  }

  /** The step of InsertStable where `p` moves past a strictly newer head. */
  lemma InsertPastNewer(p: Posting, s: seq<Posting>, t: int)
    requires s != [] && Stamp(s[0]) > Stamp(p)
    requires WithStamp(Insert(p, s[1..]), t) ==
      (if p.postedAt == Some(t) then [p] else []) + WithStamp(s[1..], t)
    ensures WithStamp(Insert(p, s), t) ==
      (if p.postedAt == Some(t) then [p] else []) + WithStamp(s, t)
  {
    var rest := Insert(p, s[1..]);
    var tail := WithStamp(s[1..], t);
    assert Insert(p, s) == [s[0]] + rest;
    assert s == [s[0]] + s[1..];
    WithStampCons(s[0], rest, t);
    WithStampCons(s[0], s[1..], t);
    if p.postedAt == Some(t) {
      assert s[0].postedAt != Some(t);
      assert WithStamp(Insert(p, s), t) == WithStamp(rest, t) == [p] + tail;
      assert WithStamp(s, t) == tail;
    } else if s[0].postedAt == Some(t) {
      assert WithStamp(Insert(p, s), t) == [s[0]] + WithStamp(rest, t);
      assert WithStamp(rest, t) == tail;
      assert WithStamp(s, t) == [s[0]] + tail;
    } else {
      assert WithStamp(Insert(p, s), t) == WithStamp(rest, t) == tail;
      assert WithStamp(s, t) == tail;
    }
  }

  /** The sort is stable: postings with equal time keep their relative input order. */
  lemma {:induction false} SortStable(s: seq<Posting>, t: int)
    ensures WithStamp(SortNewestFirst(s), t) == WithStamp(s, t)
  {
    if s != [] {
      SortStable(s[1..], t);
      InsertStable(s[0], SortNewestFirst(s[1..]), t);
    }
  }

  lemma {:induction false} KeepDatedStable(s: seq<Posting>, t: int)
    ensures WithStamp(KeepDated(s), t) == WithStamp(s, t)
  {
    if s != [] {
      KeepDatedStable(s[1..], t);
      WithStampAppend(if Dated(s[0]) then [s[0]] else [], KeepDated(s[1..]), t);
    }
  }

  lemma {:induction false} WithStampAppend(a: seq<Posting>, b: seq<Posting>, t: int)
    ensures WithStamp(a + b, t) == WithStamp(a, t) + WithStamp(b, t)
  {
    if a != [] {
      assert (a + b)[1..] == a[1..] + b;
      WithStampAppend(a[1..], b, t);
    } else {
      assert a + b == b;
    }
  }

  /** Filtering a prefix keeps a prefix of the filtered sequence. */
  lemma {:induction false} WithStampPrefix(s: seq<Posting>, n: nat, t: int)
    requires n <= |s|
    ensures WithStamp(s[..n], t) <= WithStamp(s, t)
  {
    assert s == s[..n] + s[n..];
    WithStampAppend(s[..n], s[n..], t);
  }

  /** Ties are shown in input order: the shown postings of one time lead those of the input. */
  lemma SelectStable(jobs: seq<Posting>, t: int)
    ensures WithStamp(SelectJobs(jobs), t) <= WithStamp(jobs, t)
  {
    var sorted := SortNewestFirst(KeepDated(jobs));
    WithStampPrefix(sorted, |SelectJobs(jobs)|, t);
    SortStable(KeepDated(jobs), t);
    KeepDatedStable(jobs, t);
  }

  // ---------------------------------------------------------------------------
  // formatTimeAgo
  // ---------------------------------------------------------------------------

  /** The label `formatTimeAgo` renders: "Just now", "{n}m ago", "{n}h ago" or "{n}d ago". */
  datatype TimeAgo = JustNow | MinutesAgo(minutes: int) | HoursAgo(hours: int) | DaysAgo(days: int)

  /** Whole seconds elapsed, rounded down (also for a time in the future); both times in milliseconds. */
  function ElapsedSeconds(nowMs: int, postedMs: int): (s: int)
    ensures 1000 * s <= nowMs - postedMs < 1000 * s + 1000
  {
    (nowMs - postedMs) / 1000
  }

  /** `formatTimeAgo`: the age of a posting, in the largest unit it has reached. */
  function FormatTimeAgo(nowMs: int, postedMs: int): (r: TimeAgo)
    ensures var age := nowMs - postedMs;
      && (r == JustNow <==> age < 60_000)
      && (r.MinutesAgo? <==> 60_000 <= age < 3_600_000)
      && (r.HoursAgo? <==> 3_600_000 <= age < 86_400_000)
      && (r.DaysAgo? <==> 86_400_000 <= age)
    ensures var age := nowMs - postedMs;
      && (r.MinutesAgo? ==> 1 <= r.minutes < 60 && 60_000 * r.minutes <= age < 60_000 * (r.minutes + 1))
      && (r.HoursAgo? ==> 1 <= r.hours < 24 && 3_600_000 * r.hours <= age < 3_600_000 * (r.hours + 1))
      && (r.DaysAgo? ==> 1 <= r.days && 86_400_000 * r.days <= age < 86_400_000 * (r.days + 1))
  {
    var s := ElapsedSeconds(nowMs, postedMs);
    if s < 60 then JustNow
    else if s < 3600 then MinutesAgo(s / 60)
    else if s < 86400 then HoursAgo(s / 3600)
    else DaysAgo(s / 86400)
  }

  /** The unit of a label, coarser units ranked higher. */
  function Rank(a: TimeAgo): nat {
    match a
    case JustNow => 0
    case MinutesAgo(_) => 1
    case HoursAgo(_) => 2
    case DaysAgo(_) => 3
  }

  /** The count a label shows; "Just now" shows none. */
  function Amount(a: TimeAgo): int {
    match a
    case JustNow => 0
    case MinutesAgo(n) => n
    case HoursAgo(n) => n
    case DaysAgo(n) => n
  }

  /** An older posting never gets a fresher-looking label. */
  lemma TimeAgoMonotone(nowMs: int, newerMs: int, olderMs: int)
    requires olderMs <= newerMs
    ensures var a, b := FormatTimeAgo(nowMs, newerMs), FormatTimeAgo(nowMs, olderMs);
      Rank(a) < Rank(b) || (Rank(a) == Rank(b) && Amount(a) <= Amount(b))
  {
    var a, b := FormatTimeAgo(nowMs, newerMs), FormatTimeAgo(nowMs, olderMs);
    var sa, sb := ElapsedSeconds(nowMs, newerMs), ElapsedSeconds(nowMs, olderMs);
    assert sa <= sb;
    if Rank(a) == Rank(b) {
      assert a.MinutesAgo? ==> sa / 60 <= sb / 60;
      assert a.HoursAgo? ==> sa / 3600 <= sb / 3600;
      assert a.DaysAgo? ==> sa / 86400 <= sb / 86400;
    }
  }

  // ---------------------------------------------------------------------------
  // Zip codes
  // ---------------------------------------------------------------------------

  /** The cache key: the city, a dash, the state. */
  function ZipKey(city: string, state: string): string {
    city + "-" + state
  }

  /** The zip code service: the code for a city and state, or None when the request fails. */
  type Lookup = (string, string) -> Option<string>

  /** The posting names both a city and a state, so a lookup is made for it. */
  predicate Locatable(j: Posting) {
    j.city != "" && j.state != ""
  }

  /** The lookup for this posting is made and succeeds. */
  predicate Found(j: Posting, lookup: Lookup) {
    Locatable(j) && lookup(j.city, j.state).Some?
  }

  /** `newZipcodes` once the loop has visited `batch`: later postings overwrite earlier ones. */
  function Collected(batch: seq<Posting>, lookup: Lookup): map<string, string> {
    if batch == [] then map[]
    else
      var prev := Collected(batch[..|batch| - 1], lookup);
      var j := batch[|batch| - 1];
      if Found(j, lookup) then prev[ZipKey(j.city, j.state) := lookup(j.city, j.state).value]
      else prev
  }

  /** No posting after position `i` of the batch has a successful lookup under key `k`. */
  predicate LastFoundWith(batch: seq<Posting>, lookup: Lookup, i: nat, k: string) {
    forall m :: i < m < |batch| && Found(batch[m], lookup) ==> ZipKey(batch[m].city, batch[m].state) != k
  }

  /**
   * A key is collected exactly when some posting of the batch with a successful
   * lookup has that key, and its value is the code the last such lookup gave.
   */
  lemma {:induction false} CollectedKeys(batch: seq<Posting>, lookup: Lookup)
    ensures forall i :: 0 <= i < |batch| && Found(batch[i], lookup) ==>
      ZipKey(batch[i].city, batch[i].state) in Collected(batch, lookup)
    ensures forall k :: k in Collected(batch, lookup) ==>
      exists i :: (0 <= i < |batch| && Found(batch[i], lookup) && ZipKey(batch[i].city, batch[i].state) == k
        && LastFoundWith(batch, lookup, i, k)
        && Collected(batch, lookup)[k] == lookup(batch[i].city, batch[i].state).value)
  {
    if batch != [] {
      var n := |batch| - 1;
      var init := batch[..n];
      CollectedKeys(init, lookup);
      var c := Collected(batch, lookup);
      forall i | 0 <= i < |batch| && Found(batch[i], lookup)
        ensures ZipKey(batch[i].city, batch[i].state) in c
      {
        if i < n {
          assert init[i] == batch[i];
        }
      }
      forall k | k in c
        ensures exists i :: (0 <= i < |batch| && Found(batch[i], lookup) && ZipKey(batch[i].city, batch[i].state) == k
          && LastFoundWith(batch, lookup, i, k)
          && c[k] == lookup(batch[i].city, batch[i].state).value)
      {
        var j := batch[n];
        if Found(j, lookup) && k == ZipKey(j.city, j.state) {
          assert LastFoundWith(batch, lookup, n, k);
        } else {
          assert k in Collected(init, lookup);
          var i :| 0 <= i < n && Found(init[i], lookup) && ZipKey(init[i].city, init[i].state) == k
            && LastFoundWith(init, lookup, i, k)
            && Collected(init, lookup)[k] == lookup(init[i].city, init[i].state).value;
          assert batch[i] == init[i];
          forall m | i < m < |batch| && Found(batch[m], lookup)
            ensures ZipKey(batch[m].city, batch[m].state) != k
          {
            if m < n {
              assert init[m] == batch[m];
            }
          }
        }
      }
    }
  }

  /** The text after the last dash of a key: the state, when the state has no dash. */
  function StateOfKey(k: string): string {
    if k == [] then []
    else if k[|k| - 1] == '-' then []
    else StateOfKey(k[..|k| - 1]) + [k[|k| - 1]]
  }

  /** Reading the state back from a key gives the state the key was made from. */
  lemma {:induction false} StateOfKeyRoundTrip(city: string, state: string)
    requires '-' !in state
    ensures StateOfKey(ZipKey(city, state)) == state
  {
    var k := ZipKey(city, state);
    if state == [] {
      assert k[|k| - 1] == '-';
    } else {
      var n := |state| - 1;
      assert k[..|k| - 1] == ZipKey(city, state[..n]);
      assert k[|k| - 1] == state[n];
      StateOfKeyRoundTrip(city, state[..n]);
      assert state == state[..n] + [state[n]];
    }
  }

  /** When states contain no dash, the key determines the city and the state. */
  lemma ZipKeyInjective(city1: string, state1: string, city2: string, state2: string)
    requires '-' !in state1 && '-' !in state2
    requires ZipKey(city1, state1) == ZipKey(city2, state2)
    ensures city1 == city2 && state1 == state2
  {
    var k := ZipKey(city1, state1);
    StateOfKeyRoundTrip(city1, state1);
    StateOfKeyRoundTrip(city2, state2);
    assert city1 == k[..|city1|];
    assert city2 == k[..|city2|];
  }

  /** Without that assumption two different places can share a key. */
  lemma ZipKeyCollision()
    ensures ZipKey("a-b", "c") == ZipKey("a", "b-c")
  {
  }

  /** When no state has a dash, every found posting's own code sits under its key. */
  lemma {:induction false} CollectedFindsEach(batch: seq<Posting>, lookup: Lookup, i: nat)
    requires forall m :: 0 <= m < |batch| ==> '-' !in batch[m].state
    requires i < |batch| && Found(batch[i], lookup)
    ensures ZipKey(batch[i].city, batch[i].state) in Collected(batch, lookup)
    ensures Collected(batch, lookup)[ZipKey(batch[i].city, batch[i].state)] == lookup(batch[i].city, batch[i].state).value
  {
    CollectedKeys(batch, lookup);
    var k := ZipKey(batch[i].city, batch[i].state);
    var m :| 0 <= m < |batch| && Found(batch[m], lookup) && ZipKey(batch[m].city, batch[m].state) == k
      && LastFoundWith(batch, lookup, m, k)
      && Collected(batch, lookup)[k] == lookup(batch[m].city, batch[m].state).value;
    ZipKeyInjective(batch[i].city, batch[i].state, batch[m].city, batch[m].state);
  }

  /** The table a platform's postings are read from. */
  function TableName(app: string): string {
    app + "_jobs"
  }

  /** The data API: the rows of a table, or None when the request or its decoding fails. */
  type Fetch = string -> Option<seq<Posting>>

  /** The React state of the page. */
  class App {
    var jobs: seq<Posting>
    var loading: bool
    var currentApp: string
    var config: Option<Config.Record>
    var zipcodes: map<string, string>

    constructor ()
      ensures jobs == [] && loading && currentApp == "instacart" && config == None && zipcodes == map[]
    {
      jobs := [];
      loading := true;
      currentApp := "instacart";
      config := None;
      zipcodes := map[];
    }

    /** `getZipcode(city, state)`. */
    function GetZipcode(city: string, state: string): (r: string)
      reads this
      ensures city == "" || state == "" ==> r == ""
      ensures city != "" && state != "" && ZipKey(city, state) in zipcodes ==> r == zipcodes[ZipKey(city, state)]
      ensures ZipKey(city, state) !in zipcodes ==> r == ""
    {
      if city == "" || state == "" then ""
      else if ZipKey(city, state) in zipcodes then zipcodes[ZipKey(city, state)]
      else ""
    }

    /** `fetchZipcodesForJobs(batch)`: look up each located posting, then overlay the results. */
    method FetchZipcodesForJobs(batch: seq<Posting>, lookup: Lookup)
      modifies this`zipcodes
      ensures zipcodes == old(zipcodes) + Collected(batch, lookup)
      ensures old(zipcodes).Keys <= zipcodes.Keys
      ensures forall k :: k in zipcodes && (k !in old(zipcodes) || zipcodes[k] != old(zipcodes)[k]) ==>
        exists i :: 0 <= i < |batch| && Found(batch[i], lookup) && ZipKey(batch[i].city, batch[i].state) == k
          && LastFoundWith(batch, lookup, i, k)
          && zipcodes[k] == lookup(batch[i].city, batch[i].state).value
      ensures (forall m :: 0 <= m < |batch| ==> '-' !in batch[m].state) ==>
        forall i :: 0 <= i < |batch| && Found(batch[i], lookup) ==>
          GetZipcode(batch[i].city, batch[i].state) == lookup(batch[i].city, batch[i].state).value
    {
      var newZipcodes := map[];
      var i := 0;
      while i < |batch|
        invariant 0 <= i <= |batch|
        invariant newZipcodes == Collected(batch[..i], lookup)
      {
        var job := batch[i];
        var city, state := job.city, job.state;
        if city != "" && state != "" {
          var response := lookup(city, state);
          if response.Some? {
            newZipcodes := newZipcodes[ZipKey(city, state) := response.value];
          }
        }
        assert batch[..i + 1][..i] == batch[..i];
        i := i + 1;
      }
      assert batch[..i] == batch;
      zipcodes := zipcodes + newZipcodes;
      CollectedKeys(batch, lookup);
      if forall m :: 0 <= m < |batch| ==> '-' !in batch[m].state {
        forall i | 0 <= i < |batch| && Found(batch[i], lookup)
          ensures GetZipcode(batch[i].city, batch[i].state) == lookup(batch[i].city, batch[i].state).value
        {
          CollectedFindsEach(batch, lookup, i);
        }
      }
    }

    /** `loadJobs(appConfig, app)`, the data API answering through `fetch`. */
    method LoadJobs(appConfig: Config.Record, app: string, fetch: Fetch, lookup: Lookup)
      modifies this`jobs, this`loading, this`zipcodes
      ensures !loading
      ensures !Config.HasCredentials(appConfig) ==> jobs == [] && zipcodes == old(zipcodes)
      ensures Config.HasCredentials(appConfig) && fetch(TableName(app)).None? ==>
        jobs == [] && zipcodes == old(zipcodes)
      ensures Config.HasCredentials(appConfig) && fetch(TableName(app)).Some? ==>
        && jobs == SelectJobs(fetch(TableName(app)).value)
        && zipcodes == old(zipcodes) + Collected(jobs, lookup)
    {
      loading := true;
      if !Config.HasCredentials(appConfig) {
        jobs := [];
        loading := false;
        return;
      }
      var response := fetch(TableName(app));
      if response.Some? {
        var validJobs := SelectJobs(response.value);
        jobs := validJobs;
        FetchZipcodesForJobs(validJobs, lookup);
      } else {
        jobs := [];
      }
      loading := false;
    }

    /** The effect that runs on mount and on each change of `currentApp`. */
    method RunEffect(storage: Config.Storage, fetch: Fetch, lookup: Lookup)
      modifies this`config, this`jobs, this`loading, this`zipcodes
      ensures config == Some(storage.GetConfig())
      ensures !loading
      ensures !Config.HasCredentials(storage.LoadConfig()) ==> jobs == [] && zipcodes == old(zipcodes)
      ensures Config.HasCredentials(storage.LoadConfig()) && fetch(TableName(currentApp)).None? ==>
        jobs == [] && zipcodes == old(zipcodes)
      ensures Config.HasCredentials(storage.LoadConfig()) && fetch(TableName(currentApp)).Some? ==>
        && jobs == SelectJobs(fetch(TableName(currentApp)).value)
        && zipcodes == old(zipcodes) + Collected(jobs, lookup)
    {
      var appConfig := storage.GetConfig();
      config := Some(appConfig);
      LoadJobs(appConfig, currentApp, fetch, lookup);
    }

    /** `handleAppChange(app)`: a new platform re-runs the effect; the same one changes nothing. */
    method HandleAppChange(app: string, storage: Config.Storage, fetch: Fetch, lookup: Lookup)
      modifies this`currentApp, this`config, this`jobs, this`loading, this`zipcodes
      ensures currentApp == app
      ensures app == old(currentApp) ==>
        jobs == old(jobs) && loading == old(loading) && config == old(config) && zipcodes == old(zipcodes)
      ensures app != old(currentApp) ==> config == Some(storage.GetConfig()) && !loading
      ensures app != old(currentApp) && !Config.HasCredentials(storage.LoadConfig()) ==>
        jobs == [] && zipcodes == old(zipcodes)
      ensures app != old(currentApp) && Config.HasCredentials(storage.LoadConfig()) && fetch(TableName(app)).None? ==>
        jobs == [] && zipcodes == old(zipcodes)
      ensures app != old(currentApp) && Config.HasCredentials(storage.LoadConfig()) && fetch(TableName(app)).Some? ==>
        && jobs == SelectJobs(fetch(TableName(app)).value)
        && zipcodes == old(zipcodes) + Collected(jobs, lookup)
    {
      if app != currentApp {
        currentApp := app;
        RunEffect(storage, fetch, lookup);
      }
    }
  }
}
