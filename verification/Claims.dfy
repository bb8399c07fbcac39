/** The bounded claim tracker (internal/participant/claim.go): a cache of first-seen times that
    forgets stale jobs and, when it overflows, the least recently seen ones.  It is proved against
    the unbounded history of polls. */
module Claims {
  import opened Collections
  import opened Jobs
  import opened Sorting
  import Text

  datatype Claim = Claim(firstSeen: int, lastSeen: int)

  type Entries = map<string, Claim>

  // ---------------------------------------------------------------------------------------------
  // One call of observe, as a relation: which tied entry is evicted is left open.

  /** What the tracker knows about `key` after noting a poll and before evicting: stale entries are
      forgotten, seen keys are refreshed or start anew. */
  function NotedAt(e: Entries, now: int, keys: set<string>, staleAfter: int, key: string): Option<Claim> {
    var kept := key in e && now - e[key].lastSeen <= staleAfter;
    if key in keys then Some(Claim(if kept then e[key].firstSeen else now, now))
    else if kept then Some(e[key])
    else None
  }

  /** After the poll: at most `max` noted entries, and only least recently seen ones were dropped. */
  ghost predicate ObserveStep(e: Entries, now: int, keys: set<string>, max: nat, staleAfter: int, e': Entries) {
    && |e'| <= max
    && (forall k :: k in e' ==> NotedAt(e, now, keys, staleAfter, k) == Some(e'[k]))
    && (forall k, d :: k in e' && d !in e' && NotedAt(e, now, keys, staleAfter, d).Some? ==>
          NotedAt(e, now, keys, staleAfter, d).value.lastSeen <= e'[k].lastSeen)
    && (|e'| < max ==> forall d :: NotedAt(e, now, keys, staleAfter, d).Some? ==> d in e')
  }

  function KeysOf(jobs: seq<ObservedJob>): set<string> {
    if jobs == [] then {} else KeysOf(jobs[..|jobs| - 1]) + {JobKey(jobs[|jobs| - 1])}
  }

  lemma {:induction false} KeysOfMembers(jobs: seq<ObservedJob>)
    ensures forall key :: key in KeysOf(jobs) <==> exists i :: 0 <= i < |jobs| && JobKey(jobs[i]) == key
  {
    hide JobKey;
    if jobs != [] {
      var n := |jobs| - 1;
      KeysOfMembers(jobs[..n]);
      forall key
        ensures key in KeysOf(jobs) <==> exists i :: 0 <= i < |jobs| && JobKey(jobs[i]) == key
      {
        if key in KeysOf(jobs[..n]) {
          var i :| 0 <= i < n && JobKey(jobs[..n][i]) == key;
          assert JobKey(jobs[i]) == key;
        } else if exists i :: 0 <= i < |jobs| && JobKey(jobs[i]) == key {
          var i :| 0 <= i < |jobs| && JobKey(jobs[i]) == key;
          assert i < n ==> JobKey(jobs[..n][i]) == key;
        }
      }
    }
  }

  // ---------------------------------------------------------------------------------------------
  // The unbounded history.

  datatype Poll = Poll(now: int, keys: set<string>)

  type History = seq<Poll>

  /** The times at which `key` was seen, oldest first. */
  function Sightings(h: History, key: string): (r: seq<int>) {
    if h == [] then []
    else
      var before := Sightings(h[..|h| - 1], key);
      if key in h[|h| - 1].keys then before + [h[|h| - 1].now] else before
  }

  /** Where the latest chain of sightings with gaps no larger than `staleAfter` begins. */
  function ChainStart(times: seq<int>, staleAfter: int): int
    requires times != []
  {
    var n := |times|;
    if n >= 2 && times[n - 1] - times[n - 2] <= staleAfter then ChainStart(times[..n - 1], staleAfter)
    else times[n - 1]
  }

  function Last(times: seq<int>): int
    requires times != []
  {
    times[|times| - 1]
  }

  function EverSeen(h: History): set<string> {
    set i, k | 0 <= i < |h| && k in h[i].keys :: k
  }

  /** The keys seen within the staleness window at the latest poll. */
  ghost function Window(h: History, staleAfter: int): set<string> {
    set k | k in EverSeen(h) && h != [] && Sightings(h, k) != []
            && h[|h| - 1].now - Last(Sightings(h, k)) <= staleAfter :: k
  }

  ghost predicate Clock(h: History) {
    forall i, j :: 0 <= i <= j < |h| ==> h[i].now <= h[j].now
  }

  /** No poll so far had more than `max` keys in its window. */
  ghost predicate NoOverflow(h: History, max: nat, staleAfter: int) {
    h == [] || (|Window(h, staleAfter)| <= max && NoOverflow(h[..|h| - 1], max, staleAfter))
  }

  /** What an entry says about its key, against the history: exact about the last sighting, never
      early about the first. */
  ghost predicate Truthful(h: History, c: Claim, key: string, staleAfter: int) {
    var times := Sightings(h, key);
    times != [] && c.lastSeen == Last(times) && ChainStart(times, staleAfter) <= c.firstSeen <= c.lastSeen
  }

  ghost predicate Exact(h: History, c: Claim, key: string, staleAfter: int) {
    var times := Sightings(h, key);
    times != [] && c == Claim(ChainStart(times, staleAfter), Last(times))
  }

  /** Entries for keys in the window only, all truthful; when `exact`, all of the window, exactly. */
  ghost predicate Agrees(h: History, e: Entries, staleAfter: int, exact: bool) {
    && e.Keys <= Window(h, staleAfter)
    && (forall k :: k in e ==> Truthful(h, e[k], k, staleAfter))
    && (exact ==> e.Keys == Window(h, staleAfter) && forall k :: k in e ==> Exact(h, e[k], k, staleAfter))
  }

  /** The tracker agrees with the history, exactly so as long as nothing overflowed, within its bound. */
  ghost predicate Tracks(h: History, e: Entries, max: nat, staleAfter: int) {
    |e| <= max && Agrees(h, e, staleAfter, NoOverflow(h, max, staleAfter))
  }

  lemma {:induction false} SightingsFacts(h: History, key: string)
    requires Clock(h)
    ensures Sightings(h, key) != [] <==> key in EverSeen(h)
    ensures forall i :: 0 <= i < |Sightings(h, key)| ==> Sightings(h, key)[i] <= h[|h| - 1].now
    ensures forall i, j :: 0 <= i <= j < |Sightings(h, key)| ==> Sightings(h, key)[i] <= Sightings(h, key)[j]
  {
    if h != [] {
      var g := h[..|h| - 1];
      SightingsFacts(g, key);
      assert EverSeen(h) == EverSeen(g) + h[|h| - 1].keys by {
        assert h == g + [h[|h| - 1]];
      }
    }
  }

  lemma {:induction false} ChainStartBeforeLast(times: seq<int>, staleAfter: int)
    requires times != []
    requires forall i, j :: 0 <= i <= j < |times| ==> times[i] <= times[j]
    ensures ChainStart(times, staleAfter) <= Last(times)
  {
    var n := |times|;
    if n >= 2 && times[n - 1] - times[n - 2] <= staleAfter {
      ChainStartBeforeLast(times[..n - 1], staleAfter);
    }
  }

  /** What "start of the latest chain" means: one of the sightings, followed only by gaps inside the
      window, and preceded by a wider gap or by nothing. */
  lemma {:induction false} ChainStartMeaning(times: seq<int>, staleAfter: int) returns (i: nat)
    requires times != []
    ensures i < |times| && times[i] == ChainStart(times, staleAfter)
    ensures forall j :: i < j < |times| ==> times[j] - times[j - 1] <= staleAfter
    ensures i > 0 ==> times[i] - times[i - 1] > staleAfter
  {
    var n := |times|;
    if n >= 2 && times[n - 1] - times[n - 2] <= staleAfter {
      i := ChainStartMeaning(times[..n - 1], staleAfter);
    } else {
      i := n - 1;
    }
  }

  /** How one more poll changes what the history says about one key. */
  lemma {:induction false} SightingsStep(h: History, p: Poll, key: string)
    ensures Sightings(h + [p], key) == if key in p.keys then Sightings(h, key) + [p.now] else Sightings(h, key)
  {
    assert (h + [p])[..|h|] == h;
  }

  lemma {:induction false} ChainStep(times: seq<int>, now: int, staleAfter: int)
    ensures ChainStart(times + [now], staleAfter) ==
            if times != [] && now - Last(times) <= staleAfter then ChainStart(times, staleAfter) else now
  {
    assert (times + [now])[..|times|] == times;
  }

  lemma {:induction false} WindowStep(h: History, p: Poll, staleAfter: int)
    requires Clock(h + [p]) && staleAfter >= 0
    ensures Window(h + [p], staleAfter) ==
            p.keys + set k | k in Window(h, staleAfter) && p.now - Last(Sightings(h, k)) <= staleAfter
  {
    var h' := h + [p];
    assert EverSeen(h') == EverSeen(h) + p.keys by {
      assert forall i :: 0 <= i < |h| ==> h'[i] == h[i];
      assert h'[|h|] == p;
    }
    forall k
      ensures k in Window(h', staleAfter) <==>
              k in p.keys || (k in Window(h, staleAfter) && p.now - Last(Sightings(h, k)) <= staleAfter)
    {
      WindowKey(h, p, k, staleAfter);
    }
  }

  lemma {:induction false} WindowKey(h: History, p: Poll, k: string, staleAfter: int)
    requires Clock(h + [p]) && staleAfter >= 0
    ensures k in Window(h + [p], staleAfter) <==>
            k in p.keys || (k in Window(h, staleAfter) && p.now - Last(Sightings(h, k)) <= staleAfter)
  {
    var h' := h + [p];
    assert forall i :: 0 <= i < |h| ==> h'[i] == h[i];
    assert h'[|h|] == p;
    assert k in EverSeen(h') <==> k in EverSeen(h) || k in p.keys;
    SightingsStep(h, p, k);
    SightingsFacts(h, k);
    SightingsFacts(h', k);
    hide Sightings, EverSeen;
  }

  /** Before eviction, what is noted about a key already agrees with the extended history. */
  lemma {:induction false} NotedKey(h: History, e: Entries, now: int, keys: set<string>, staleAfter: int, exact: bool,
                                    k: string)
    requires Clock(h + [Poll(now, keys)]) && staleAfter >= 0
    requires Agrees(h, e, staleAfter, exact)
    ensures var noted := NotedAt(e, now, keys, staleAfter, k);
            var h' := h + [Poll(now, keys)];
            && (noted.Some? ==> k in Window(h', staleAfter) && Truthful(h', noted.value, k, staleAfter))
            && (exact && noted.Some? ==> Exact(h', noted.value, k, staleAfter))
            && (exact && k in Window(h', staleAfter) ==> noted.Some?)
  {
    var p := Poll(now, keys);
    var times := Sightings(h, k);
    WindowStep(h, p, staleAfter);
    SightingsStep(h, p, k);
    ChainStep(times, now, staleAfter);
    assert Clock(h) by { assert forall i :: 0 <= i < |h| ==> (h + [p])[i] == h[i]; }
    SightingsFacts(h, k);
    if times != [] {
      ChainStartBeforeLast(times, staleAfter);
      assert (h + [p])[|h|] == p && (h + [p])[|h| - 1] == h[|h| - 1];
      assert h[|h| - 1].now <= now;
      // A key out of the window stays out: its next sighting starts a new chain.
      assert k !in Window(h, staleAfter) ==> now - Last(times) > staleAfter;
    }
  }

  /** Main refinement: one poll of the bounded tracker keeps it in agreement with the history. */
  lemma {:induction false} ObserveTracks(h: History, e: Entries, now: int, keys: set<string>, max: nat,
                                         staleAfter: int, e': Entries)
    requires Clock(h + [Poll(now, keys)]) && staleAfter >= 0
    requires Tracks(h, e, max, staleAfter)
    requires ObserveStep(e, now, keys, max, staleAfter, e')
    ensures Tracks(h + [Poll(now, keys)], e', max, staleAfter)
  {
    var h' := h + [Poll(now, keys)];
    assert h'[..|h|] == h;
    var exact := NoOverflow(h', max, staleAfter);
    assert exact ==> NoOverflow(h, max, staleAfter);
    forall k
      ensures k in e' ==> k in Window(h', staleAfter) && Truthful(h', e'[k], k, staleAfter)
      ensures k in e' && exact ==> Exact(h', e'[k], k, staleAfter)
      ensures exact && |e'| < max && k in Window(h', staleAfter) ==> k in e'
    {
      NotedKey(h, e, now, keys, staleAfter, NoOverflow(h, max, staleAfter), k);
    }
    if exact {
      SubsetSize(e'.Keys, Window(h', staleAfter));
    }
  }

  // ---------------------------------------------------------------------------------------------
  // Latency: a job seen in every poll is never forgotten, even while others overflow.

  ghost predicate StrictClock(h: History) {
    forall i, j :: 0 <= i < j < |h| ==> h[i].now < h[j].now
  }

  /** A run of the tracker: the entries before the first poll and after each one. */
  ghost predicate TrackerRun(h: History, es: seq<Entries>, max: nat, staleAfter: int) {
    var n := |h|;
    && |es| == n + 1
    && if n == 0 then es[0] == map[]
       else TrackerRun(h[..n - 1], es[..n], max, staleAfter)
            && ObserveStep(es[n - 1], h[n - 1].now, h[n - 1].keys, max, staleAfter, es[n])
  }

  lemma {:induction false} ClockPrefix(h: History, n: nat)
    requires Clock(h) && n <= |h|
    ensures Clock(h[..n])
  {
  }

  lemma {:induction false} RunTracks(h: History, es: seq<Entries>, max: nat, staleAfter: int)
    requires TrackerRun(h, es, max, staleAfter) && Clock(h) && staleAfter >= 0
    ensures Tracks(h, es[|h|], max, staleAfter)
  {
    var n := |h|;
    if n == 0 {
      assert Window(h, staleAfter) == {};
    } else {
      ClockPrefix(h, n - 1);
      RunTracks(h[..n - 1], es[..n], max, staleAfter);
      assert h == h[..n - 1] + [Poll(h[n - 1].now, h[n - 1].keys)];
      ObserveTracks(h[..n - 1], es[n - 1], h[n - 1].now, h[n - 1].keys, max, staleAfter, es[n]);
    }
  }

  /** What observe reports as the first-seen time of `key` at poll `i`. */
  ghost function Reported(h: History, es: seq<Entries>, staleAfter: int, i: nat, key: string): int
    requires i < |h| && |es| == |h| + 1 && key in h[i].keys
  {
    NotedAt(es[i], h[i].now, h[i].keys, staleAfter, key).value.firstSeen
  }

  /** A key seen in this poll survives eviction when the poll itself fits the bound and every other
      entry is strictly older. */
  lemma {:induction false} SeenSurvives(e: Entries, now: int, keys: set<string>, max: nat, staleAfter: int,
                                        e': Entries, key: string)
    requires ObserveStep(e, now, keys, max, staleAfter, e')
    requires key in keys && |keys| <= max
    requires forall k :: k in e ==> e[k].lastSeen < now
    ensures key in e'
  {
    if key !in e' {
      forall k | k in e' ensures k in keys {
        assert NotedAt(e, now, keys, staleAfter, key).value.lastSeen <= e'[k].lastSeen;
      }
      SubsetSize(e'.Keys, keys - {key});
    }
  }

  /** A key seen in the latest poll is still tracked after it, with the first-seen time just reported. */
  lemma {:induction false} SteadyLast(h: History, es: seq<Entries>, max: nat, staleAfter: int, key: string)
    requires TrackerRun(h, es, max, staleAfter) && StrictClock(h) && staleAfter >= 0
    requires h != [] && key in h[|h| - 1].keys && |h[|h| - 1].keys| <= max
    ensures key in es[|h|]
    ensures es[|h|][key] == Claim(Reported(h, es, staleAfter, |h| - 1, key), h[|h| - 1].now)
  {
    var i := |h| - 1;
    RunTracks(h[..i], es[..i + 1], max, staleAfter);
    forall k | k in es[i] ensures es[i][k].lastSeen < h[i].now {
      assert Truthful(h[..i], es[i][k], k, staleAfter);
      SightingsFacts(h[..i], k);
    }
    SeenSurvives(es[i], h[i].now, h[i].keys, max, staleAfter, es[i + 1], key);
  }

  /** `key` is in every poll from `a` on, with gaps inside the window, and no poll exceeds the bound. */
  ghost predicate Steady(h: History, key: string, a: nat, max: nat, gap: int) {
    && a < |h|
    && (forall j :: a <= j < |h| ==> key in h[j].keys && |h[j].keys| <= max)
    && (forall j :: a < j < |h| ==> h[j].now - h[j - 1].now <= gap)
  }

  lemma {:induction false} SteadyKey(h: History, es: seq<Entries>, max: nat, staleAfter: int, key: string, a: nat)
    requires TrackerRun(h, es, max, staleAfter) && StrictClock(h) && staleAfter >= 0
    requires Steady(h, key, a, max, staleAfter)
    requires key in es[a] ==> h[a].now - es[a][key].lastSeen > staleAfter
    ensures Reported(h, es, staleAfter, |h| - 1, key) == h[a].now
    ensures key in es[|h|] && es[|h|][key] == Claim(h[a].now, h[|h| - 1].now)
  {
    var i := |h| - 1;
    if i > a {
      var g, gs := h[..i], es[..i + 1];
      SteadyKey(g, gs, max, staleAfter, key, a);
      assert gs[|g|] == es[i];
    }
    SteadyLast(h, es, max, staleAfter, key);
  }

  predicate DueAt(now: int, firstSeen: int, delay: int) {
    now >= firstSeen + delay
  }

  lemma {:induction false} SteadyReport(h: History, es: seq<Entries>, max: nat, staleAfter: int, key: string, a: nat,
                                        period: int, j: nat)
    requires TrackerRun(h, es, max, staleAfter) && StrictClock(h)
    requires Steady(h, key, a, max, period) && 0 < period <= staleAfter && a <= j < |h|
    requires key in es[a] ==> h[a].now - es[a][key].lastSeen > staleAfter
    ensures Reported(h, es, staleAfter, j, key) == h[a].now
  {
    var n := |h| - 1;
    if j == n {
      SteadyKey(h, es, max, staleAfter, key, a);
    } else {
      SteadyReport(h[..n], es[..n + 1], max, staleAfter, key, a, period, j);
    }
  }

  /** Main latency bound: the first poll at or after first-seen plus delay is the first at which the
      job is eligible, and it comes before first-seen + delay + period (at once when there is no delay). */
  lemma {:induction false} LatencyBound(h: History, es: seq<Entries>, max: nat, staleAfter: int, key: string, a: nat,
                                        delay: int, period: int, n: nat)
    requires TrackerRun(h, es, max, staleAfter) && StrictClock(h)
    requires Steady(h, key, a, max, period) && a <= n < |h|
    requires 0 < period <= staleAfter && delay >= 0
    requires key in es[a] ==> h[a].now - es[a][key].lastSeen > staleAfter
    requires h[n].now >= h[a].now + delay
    requires forall j :: a <= j < n ==> h[j].now < h[a].now + delay
    ensures forall j :: a <= j < |h| ==> (DueAt(h[j].now, Reported(h, es, staleAfter, j, key), delay) <==> n <= j)
    ensures if delay == 0 then n == a else h[n].now < h[a].now + delay + period
  {
    forall j | a <= j < |h|
      ensures Reported(h, es, staleAfter, j, key) == h[a].now
    {
      SteadyReport(h, es, max, staleAfter, key, a, period, j);
    }
    assert forall j :: n < j < |h| ==> h[n].now < h[j].now;
    if n > a {
      assert h[n].now - h[n - 1].now <= period;
    }
  }

  // ---------------------------------------------------------------------------------------------
  // eligibleClaims.

  predicate ClaimLeq(delay: int, a: ObservedJob, b: ObservedJob) {
    if a.firstSeenAt + delay != b.firstSeenAt + delay then a.firstSeenAt + delay < b.firstSeenAt + delay
    else RepositoryOrder(a, b)
  }

  /** The tie-break shared by eligibleClaims and matchingQueuedJobs: repository, run, job. */
  predicate RepositoryOrder(a: ObservedJob, b: ObservedJob) {
    if Slug(a.repository) != Slug(b.repository) then StringLeq(Slug(a.repository), Slug(b.repository))
    else if a.runID != b.runID then a.runID < b.runID
    else a.jobID <= b.jobID
  }

  /** The tie-break spelled out: folded names byte by byte, then run numbers, then job numbers. */
  ghost predicate InJobOrder(a: ObservedJob, b: ObservedJob) {
    var x := Text.Lower(a.repository.owner + "/" + a.repository.name);
    var y := Text.Lower(b.repository.owner + "/" + b.repository.name);
    Before(x, y) || (x == y && (a.runID < b.runID || (a.runID == b.runID && a.jobID <= b.jobID)))
  }

  lemma {:induction false} RepositoryOrderMeans(a: ObservedJob, b: ObservedJob)
    requires RepositoryOrder(a, b)
    ensures InJobOrder(a, b)
  {
    hide Text.Lower;
    StringLeqMeans(Slug(a.repository), Slug(b.repository));
    hide StringLeq, Before;
  }

  /** First seen first, ties in job order. */
  ghost predicate InClaimOrder(jobs: seq<ObservedJob>) {
    forall i, j :: 0 <= i < j < |jobs| ==>
      && jobs[i].firstSeenAt <= jobs[j].firstSeenAt
      && (jobs[i].firstSeenAt == jobs[j].firstSeenAt ==> InJobOrder(jobs[i], jobs[j]))
  }

  lemma {:induction false} ClaimOrderMeans(delay: int, jobs: seq<ObservedJob>)
    requires Sorted(ClaimOrder(delay), jobs)
    ensures InClaimOrder(jobs)
  {
    hide InJobOrder, RepositoryOrder;
    forall i, j | 0 <= i < j < |jobs|
      ensures jobs[i].firstSeenAt <= jobs[j].firstSeenAt
      ensures jobs[i].firstSeenAt == jobs[j].firstSeenAt ==> InJobOrder(jobs[i], jobs[j])
    {
      assert ClaimOrder(delay)(jobs[i], jobs[j]);
      if jobs[i].firstSeenAt == jobs[j].firstSeenAt {
        RepositoryOrderMeans(jobs[i], jobs[j]);
      }
    }
  }

  lemma {:induction false} RepositoryOrderIsTotal()
    ensures TotalPreorder(RepositoryOrder)
  {
    StringOrder();
    forall a, b ensures RepositoryOrder(a, b) || RepositoryOrder(b, a) {
      assert StringLeq(Slug(a.repository), Slug(b.repository)) || StringLeq(Slug(b.repository), Slug(a.repository));
    }
    forall a, b, c | RepositoryOrder(a, b) && RepositoryOrder(b, c) ensures RepositoryOrder(a, c) {
      RepositoryOrderTransitive(a, b, c);
    }
  }

  lemma {:induction false} RepositoryOrderTransitive(a: ObservedJob, b: ObservedJob, c: ObservedJob)
    requires RepositoryOrder(a, b) && RepositoryOrder(b, c)
    ensures RepositoryOrder(a, c)
  {
    var x, y, z := Slug(a.repository), Slug(b.repository), Slug(c.repository);
    if x != y && y != z {
      StringLeqTransitive(x, y, z);
      if x == z {
        StringLeqAntisymmetric(x, y);
      }
    }
  }

  function ClaimOrder(delay: int): (ObservedJob, ObservedJob) -> bool {
    (a, b) => ClaimLeq(delay, a, b)
  }

  lemma {:induction false} ClaimOrderIsTotal(delay: int)
    ensures TotalPreorder(ClaimOrder(delay))
  {
    RepositoryOrderIsTotal();
    var leq := ClaimOrder(delay);
    forall a, b ensures leq(a, b) || leq(b, a) {
      assert RepositoryOrder(a, b) || RepositoryOrder(b, a);
    }
    forall a, b, c | leq(a, b) && leq(b, c) ensures leq(a, c) {
      assert RepositoryOrder(a, b) && RepositoryOrder(b, c) ==> RepositoryOrder(a, c);
    }
  }

  function Due(now: int, delay: int, jobs: seq<ObservedJob>): (r: seq<ObservedJob>)
    ensures forall job :: job in r <==> job in jobs && DueAt(now, job.firstSeenAt, delay)
  {
    if jobs == [] then []
    else
      var before := Due(now, delay, jobs[..|jobs| - 1]);
      var last := jobs[|jobs| - 1];
      assert jobs == jobs[..|jobs| - 1] + [last];
      if DueAt(now, last.firstSeenAt, delay) then before + [last] else before
  }

  method EligibleClaims(now: int, delay: int, jobs: seq<ObservedJob>) returns (eligible: seq<ObservedJob>)
    ensures multiset(eligible) == multiset(Due(now, delay, jobs))
    ensures Sorted(ClaimOrder(delay), eligible)
    ensures InClaimOrder(eligible)
    ensures forall job :: job in eligible <==> job in jobs && now >= job.firstSeenAt + delay
  {
    eligible := [];
    for i := 0 to |jobs|
      invariant eligible == Due(now, delay, jobs[..i])
    {
      assert jobs[..i + 1][..i] == jobs[..i];
      if !(now < jobs[i].firstSeenAt + delay) {
        eligible := eligible + [jobs[i]];
      }
    }
    assert jobs[..|jobs|] == jobs;
    ghost var due := eligible;
    ClaimOrderIsTotal(delay);
    SortSorts(ClaimOrder(delay), eligible);
    SortPermutes(ClaimOrder(delay), eligible);
    eligible := Sort(ClaimOrder(delay), eligible);
    ClaimOrderMeans(delay, eligible);
    forall job ensures job in eligible <==> job in due {
      assert job in multiset(eligible) <==> job in multiset(due);
    }
  }

  // ---------------------------------------------------------------------------------------------
  // The tracker itself.

  /** The job as handed back by a poll: only the first-seen time is set, it is the one noted for the
      job's key, never before the start of the job's latest chain, and that start when nothing
      overflowed before. */
  ghost predicate StampIsTrue(h: History, e: Entries, now: int, keys: set<string>, max: nat, staleAfter: int,
                              job: ObservedJob, observed: ObservedJob) {
    var times := Sightings(h + [Poll(now, keys)], JobKey(job));
    && JobKey(job) in keys && observed == Stamp(e, now, keys, staleAfter, job)
    && times != [] && Last(times) == now
    && ChainStart(times, staleAfter) <= observed.firstSeenAt <= now
    && (NoOverflow(h, max, staleAfter) ==> observed.firstSeenAt == ChainStart(times, staleAfter))
  }

  function Stamp(e: Entries, now: int, keys: set<string>, staleAfter: int, job: ObservedJob): ObservedJob
    requires JobKey(job) in keys
  {
    job.(firstSeenAt := NotedAt(e, now, keys, staleAfter, JobKey(job)).value.firstSeen)
  }

  lemma {:induction false} StampTrue(h: History, e: Entries, now: int, keys: set<string>, max: nat, staleAfter: int,
                  job: ObservedJob, observed: ObservedJob)
    requires Clock(h + [Poll(now, keys)]) && staleAfter >= 0
    requires Tracks(h, e, max, staleAfter) && JobKey(job) in keys
    requires observed == Stamp(e, now, keys, staleAfter, job)
    ensures StampIsTrue(h, e, now, keys, max, staleAfter, job, observed)
  {
    NotedKey(h, e, now, keys, staleAfter, NoOverflow(h, max, staleAfter), JobKey(job));
    SightingsStep(h, Poll(now, keys), JobKey(job));
  }

  /** `kept` is `e` cut down to `max` entries by dropping least recently seen ones. */
  ghost predicate Evicts(e: Entries, max: nat, kept: Entries) {
    && kept.Keys <= e.Keys
    && (forall k :: k in kept ==> kept[k] == e[k])
    && |kept| <= max
    && (|kept| < max ==> e.Keys <= kept.Keys)
    && (forall k, d :: k in kept && d in e && d !in kept ==> e[d].lastSeen <= e[k].lastSeen)
  }

  /** `entries` holds exactly what is noted for the keys of a poll. */
  ghost predicate Holds(entries: Entries, e: Entries, now: int, keys: set<string>, staleAfter: int) {
    forall k :: NotedAt(e, now, keys, staleAfter, k) == if k in entries then Some(entries[k]) else None
  }

  class ClaimTracker {
    var entries: Entries
    const maxEntries: nat
    const staleAfter: int
    ghost var history: History

    ghost predicate Valid()
      reads this
    {
      && staleAfter >= 0
      && "" !in entries
      && Clock(history)
      && Tracks(history, entries, maxEntries, staleAfter)
    }

    constructor (maxEntries: nat, staleAfter: int)
      requires staleAfter >= 0
      ensures Valid() && entries == map[] && history == []
      ensures this.maxEntries == maxEntries && this.staleAfter == staleAfter
    {
      this.maxEntries, this.staleAfter := maxEntries, staleAfter;
      entries, history := map[], [];
      new;
      assert Window([], staleAfter) == {};
    }

    /** Drops the entries not seen for longer than `staleAfter`. */
    method ForgetStale(now: int)
      modifies this`entries
      ensures Holds(entries, old(entries), now, {}, staleAfter)
    {
      var todo := entries.Keys;
      while todo != {}
        invariant todo <= entries.Keys <= old(entries).Keys
        invariant forall k :: k in entries ==> entries[k] == old(entries)[k]
        invariant forall k :: k in old(entries) && k !in todo ==>
                    (k in entries <==> now - old(entries)[k].lastSeen <= staleAfter)
        decreases todo
      {
        var key :| key in todo;
        if now - entries[key].lastSeen > staleAfter {
          entries := entries - {key};
        }
        todo := todo - {key};
      }
    }

    /** Finds an entry nobody was seen before. */
    method Oldest() returns (oldestKey: string)
      requires "" !in entries && entries.Keys != {}
      ensures oldestKey in entries
      ensures forall k :: k in entries ==> entries[oldestKey].lastSeen <= entries[k].lastSeen
    {
      oldestKey := "";
      var oldest := 0;
      var todo := entries.Keys;
      while todo != {}
        invariant todo <= entries.Keys
        invariant oldestKey == "" ==> todo == entries.Keys
        invariant oldestKey != "" ==> oldestKey in entries && oldest == entries[oldestKey].lastSeen
        invariant oldestKey != "" ==> forall k :: k in entries && k !in todo ==> oldest <= entries[k].lastSeen
        decreases todo
      {
        var key :| key in todo;
        if oldestKey == "" || entries[key].lastSeen < oldest {
          oldestKey, oldest := key, entries[key].lastSeen;
        }
        todo := todo - {key};
      }
    }

    /** Drops least recently seen entries until the bound holds. */
    method Shrink()
      requires "" !in entries
      modifies this`entries
      ensures Evicts(old(entries), maxEntries, entries)
    {
      while |entries| > maxEntries
        invariant entries.Keys <= old(entries).Keys
        invariant forall k :: k in entries ==> entries[k] == old(entries)[k]
        invariant |entries| >= maxEntries || entries == old(entries)
        invariant forall k, d :: k in entries && d in old(entries) && d !in entries ==>
                    old(entries)[d].lastSeen <= old(entries)[k].lastSeen
      {
        assert entries.Keys != {};
        var oldestKey := Oldest();
        assert (entries - {oldestKey}).Keys == entries.Keys - {oldestKey};
        entries := entries - {oldestKey};
      }
      SubsetSize(entries.Keys, old(entries).Keys);
    }

    /** Refreshes or adds an entry for each job and stamps the job with its first-seen time. */
    method Note(now: int, jobs: seq<ObservedJob>) returns (observed: seq<ObservedJob>)
      requires "" !in entries
      modifies this`entries
      ensures "" !in entries && |observed| == |jobs|
      ensures Holds(entries, old(entries), now, KeysOf(jobs), staleAfter)
      ensures forall i :: 0 <= i < |jobs| ==>
                JobKey(jobs[i]) in KeysOf(jobs) &&
                observed[i] == Stamp(old(entries), now, KeysOf(jobs), staleAfter, jobs[i])
    {
      hide JobKey;
      ForgetStale(now);
      observed := [];
      ghost var keys := KeysOf(jobs);
      for i := 0 to |jobs|
        invariant "" !in entries && |observed| == i
        invariant Holds(entries, old(entries), now, KeysOf(jobs[..i]), staleAfter)
        invariant forall j :: 0 <= j < i ==>
                    JobKey(jobs[j]) in keys && observed[j] == Stamp(old(entries), now, keys, staleAfter, jobs[j])
      {
        var key := JobKey(jobs[i]);
        var firstSeen := if key in entries then entries[key].firstSeen else now;
        ghost var before := KeysOf(jobs[..i]);
        KeysOfNext(jobs, i);
        NoteOne(entries, old(entries), now, before, keys, staleAfter, key);
        assert Holds(entries[key := Claim(firstSeen, now)], old(entries), now, KeysOf(jobs[..i + 1]), staleAfter);
        entries := entries[key := Claim(firstSeen, now)];
        observed := observed + [jobs[i].(firstSeenAt := firstSeen)];
      }
      assert jobs[..|jobs|] == jobs;
    }

    method Observe(now: int, jobs: seq<ObservedJob>) returns (observed: seq<ObservedJob>)
      requires Valid() && (history != [] ==> history[|history| - 1].now <= now)
      modifies this
      ensures Valid() && history == old(history) + [Poll(now, KeysOf(jobs))]
      ensures ObserveStep(old(entries), now, KeysOf(jobs), maxEntries, staleAfter, entries)
      ensures |observed| == |jobs|
      ensures forall i :: 0 <= i < |jobs| ==>
                StampIsTrue(old(history), old(entries), now, KeysOf(jobs), maxEntries, staleAfter, jobs[i], observed[i])
    {
      observed := Note(now, jobs);
      ghost var keys := KeysOf(jobs);
      Shrink();
      ClockStep(history, Poll(now, keys));
      ObserveTracks(history, old(entries), now, keys, maxEntries, staleAfter, entries);
      forall i | 0 <= i < |jobs|
        ensures StampIsTrue(history, old(entries), now, keys, maxEntries, staleAfter, jobs[i], observed[i])
      {
        StampTrue(history, old(entries), now, keys, maxEntries, staleAfter, jobs[i], observed[i]);
      }
      history := history + [Poll(now, keys)];
    }
  }

  lemma {:induction false} KeysOfNext(jobs: seq<ObservedJob>, i: nat)
    requires i < |jobs|
    ensures KeysOf(jobs[..i + 1]) == KeysOf(jobs[..i]) + {JobKey(jobs[i])}
    ensures JobKey(jobs[i]) in KeysOf(jobs)
  {
    assert jobs[..i + 1][..i] == jobs[..i];
    KeysOfMembers(jobs);
  }

  lemma {:induction false} NoteOne(entries: Entries, e: Entries, now: int, keys: set<string>, more: set<string>,
                                   staleAfter: int, key: string)
    requires key in more && Holds(entries, e, now, keys, staleAfter)
    ensures var c := Claim(if key in entries then entries[key].firstSeen else now, now);
            && Holds(entries[key := c], e, now, keys + {key}, staleAfter)
            && NotedAt(e, now, more, staleAfter, key) == Some(c)
  {
    assert NotedAt(e, now, keys, staleAfter, key) == if key in entries then Some(entries[key]) else None;
    forall k
      ensures NotedAt(e, now, keys + {key}, staleAfter, k)
           == if k == key then Some(Claim(if key in entries then entries[key].firstSeen else now, now))
              else if k in entries then Some(entries[k]) else None
    {
      assert NotedAt(e, now, keys, staleAfter, k) == if k in entries then Some(entries[k]) else None;
    }
  }

  lemma {:induction false} ClockStep(h: History, p: Poll)
    requires Clock(h) && (h != [] ==> h[|h| - 1].now <= p.now)
    ensures Clock(h + [p])
  {
  }
}
