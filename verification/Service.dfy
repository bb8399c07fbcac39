/** The polling service (internal/participant/participant.go): one poller that offers runners, any number of
    goroutines that run them and clean up, and the manager's two counters, interleaved step by step. */
module Service {
  import opened Collections
  import opened Text
  import opened Jobs
  import opened Labels
  import opened Claims
  import Config
  import Policy
  import Sorting

  datatype Settings = Settings(
    repositories: seq<Config.Repository>,
    labels: seq<string>,
    capacity: int,
    claimDelay: int,
    staleAfter: int,
    maxEntries: nat)

  /** Where a completion goroutine is.  `Counted` holds the sum its Run got back from the counter. */
  datatype WorkerPC = Spawned | Counted(sum: int) | BackingOut | Launched | Returned(refused: bool) | Deleted

  datatype Worker = Worker(key: string, pc: WorkerPC)

  /** History of a runner registration: the job key it was made for, its Run calls and delete attempts. */
  datatype Registration = Registration(key: string, runs: nat, deletes: nat)

  function New(key: string): Registration {
    Registration(key, 0, 0)
  }

  /** One GenerateJITConfig call: the observed job, the re-fetched one, and the poll it was made in. */
  datatype Call = Call(observed: ObservedJob, final: ObservedJob, runStatus: string, repository: Config.Repository,
    poll: nat)

  /** The poller; the queue's first job is the one being looked at. */
  datatype Poller =
    | Idle
    | Ready
    | Scanning(queue: seq<ObservedJob>)
    | HasCapacity(queue: seq<ObservedJob>)
    | Offering(queue: seq<ObservedJob>)
    | Rechecked(queue: seq<ObservedJob>, call: Call)
    | Generated(queue: seq<ObservedJob>, registration: nat)

  /** Workers are named by the registration they serve.  `registrations`, `dropped`, `launched`, `history`
      and `calls` are history. */
  datatype State = State(
    active: set<string>,
    workers: map<nat, Worker>,
    local: int,
    recovered: nat,
    poller: Poller,
    claims: Entries,
    registrations: map<nat, Registration>,
    dropped: set<nat>,
    launched: set<nat>,
    history: History,
    calls: seq<Call>)

  function Initial(): State {
    State({}, map[], 0, 0, Idle, map[], map[], {}, {}, [], [])
  }

  // ---------------------------------------------------------------------------------------------
  // What one poll observes.

  /** A candidate the observation loop kept: found under a configured repository that authorizes it. */
  ghost predicate Observed(settings: Settings, job: ObservedJob) {
    exists i :: 0 <= i < |settings.repositories| &&
      var repository := settings.repositories[i];
      job.repository == Repository(repository.owner, repository.name) && Policy.AuthorizeJob(repository, job).allowed
  }

  predicate Matching(job: ObservedJob, labels: seq<string>) {
    job.status == "queued" && LabelsCompatible(job.labels, labels)
  }

  function Filtered(jobs: seq<ObservedJob>, labels: seq<string>): (r: seq<ObservedJob>)
    ensures forall job :: job in r <==> job in jobs && Matching(job, labels)
  {
    if jobs == [] then []
    else
      var before, last := Filtered(jobs[..|jobs| - 1], labels), jobs[|jobs| - 1];
      assert jobs == jobs[..|jobs| - 1] + [last];
      if Matching(last, labels) then before + [last] else before
  }

  /** The queued jobs this participant can run, in repository, run and job order. */
  method MatchingQueuedJobs(jobs: seq<ObservedJob>, participantLabels: seq<string>) returns (matched: seq<ObservedJob>)
    ensures multiset(matched) == multiset(Filtered(jobs, participantLabels))
    ensures forall i, j :: 0 <= i < j < |matched| ==> InJobOrder(matched[i], matched[j])
    ensures forall job :: job in matched <==>
              job in jobs && job.status == "queued" && Policy.AllNamed(job.labels, participantLabels)
  {
    hide InJobOrder, RepositoryOrder;
    matched := [];
    for i := 0 to |jobs|
      invariant matched == Filtered(jobs[..i], participantLabels)
    {
      assert jobs[..i + 1][..i] == jobs[..i];
      var compatible := LabelsMatch(jobs[i].labels, participantLabels);
      if jobs[i].status == "queued" && compatible {
        matched := matched + [jobs[i]];
      }
    }
    assert jobs[..|jobs|] == jobs;
    RepositoryOrderIsTotal();
    Sorting.SortSorts(RepositoryOrder, matched);
    Sorting.SortPermutes(RepositoryOrder, matched);
    ghost var kept := matched;
    matched := Sorting.Sort(RepositoryOrder, matched);
    forall i, j | 0 <= i < j < |matched| ensures InJobOrder(matched[i], matched[j]) {
      RepositoryOrderMeans(matched[i], matched[j]);
    }
    forall job
      ensures job in matched <==>
          job in jobs && job.status == "queued" && Policy.AllNamed(job.labels, participantLabels)
    {
      assert job in multiset(matched) <==> job in multiset(kept);
      Policy.AllNamedMeans(job.labels, participantLabels);
    }
  }

  /** The poll: matching jobs are noted in the tracker and stamped; the due ones are queued in some order. */
  ghost predicate Observes(settings: Settings, s: State, now: int, matching: seq<ObservedJob>,
                           tracked: seq<ObservedJob>, queue: seq<ObservedJob>, s': State) {
    var keys := KeysOf(matching);
    && (forall job :: job in matching ==> Observed(settings, job) && Matching(job, settings.labels))
    && (s.history != [] ==> s.history[|s.history| - 1].now <= now)
    && |tracked| == |matching|
    && (forall i :: 0 <= i < |matching| ==>
          (JobKey(matching[i]) in keys && tracked[i] == Stamp(s.claims, now, keys, settings.staleAfter, matching[i])))
    && ObserveStep(s.claims, now, keys, settings.maxEntries, settings.staleAfter, s'.claims)
    && s'.history == s.history + [Poll(now, keys)]
    && multiset(queue) == multiset(Due(now, settings.claimDelay, tracked))
  }

  function ConfiguredRepository(repositories: seq<Config.Repository>,
                                repository: Repository): Option<Config.Repository> {
    if repositories == [] then None
    else if EqualFold(repositories[0].owner, repository.owner) && EqualFold(repositories[0].name, repository.name)
    then Some(repositories[0])
    else ConfiguredRepository(repositories[1..], repository)
  }

  /** The final recheck in offer. */
  predicate RecheckPasses(settings: Settings, observed: ObservedJob, call: Call) {
    && call.observed == observed
    && ConfiguredRepository(settings.repositories, observed.repository) == Some(call.repository)
    && Policy.FinalMetadataConsistent(call.repository, observed, call.final, call.runStatus)
    && LabelsCompatible(call.final.labels, settings.labels)
    && Policy.AuthorizeJob(call.repository, call.final).allowed
  }

  // ---------------------------------------------------------------------------------------------
  // Steps.

  /** Only the poller's own state changes. */
  predicate Moves(s: State, s': State) {
    s' == s.(poller := s'.poller)
  }

  /** One step of the poller.  Active() loads two moving counters, so what localCapacity makes of it is left
      open, except that it never finds room when `active` has none. */
  ghost predicate PollStep(settings: Settings, s: State, s': State) {
    match s.poller
    case Idle =>
      s' == s.(recovered := s'.recovered, poller := s'.poller) && (s'.poller == Idle || s'.poller == Ready)
    case Ready =>
      || (Moves(s, s') && s'.poller == Idle)
      || (&& s' == s.(claims := s'.claims, history := s'.history, poller := s'.poller)
          && s'.poller.Scanning?
          && exists now, matching, tracked :: Observes(settings, s, now, matching, tracked, s'.poller.queue, s'))
    case Scanning(queue) =>
      && Moves(s, s')
      && if queue == [] then s'.poller == Idle
         else s'.poller == Scanning(queue[1..]) || (|s.active| < settings.capacity && s'.poller == HasCapacity(queue))
    case HasCapacity(queue) =>
      && queue != [] && Moves(s, s')
      && s'.poller == if JobKey(queue[0]) in s.active then Scanning(queue[1..]) else Offering(queue)
    case Offering(queue) =>
      && queue != [] && Moves(s, s')
      && (|| s'.poller == Idle
          || s'.poller == Scanning(queue[1..])
          || (&& |s.active| < settings.capacity
              && s'.poller.Rechecked? && s'.poller.queue == queue
              && RecheckPasses(settings, queue[0], s'.poller.call) && s'.poller.call.poll == |s.history|))
    case Rechecked(queue, call) =>
      && queue != []
      && (|| (Moves(s, s') && s'.poller == Idle)
          || (&& s'.poller.Generated? && s'.poller.queue == queue && s'.poller.registration !in s.registrations
              && s' == s.(poller := s'.poller, calls := s.calls + [call],
                          registrations := s.registrations[s'.poller.registration := New(JobKey(queue[0]))])))
    case Generated(queue, registration) =>
      && queue != []
      && var key := JobKey(queue[0]);
         s' == if key in s.active || |s.active| >= settings.capacity
               then s.(poller := Scanning(queue[1..]), dropped := s.dropped + {registration})
               else s.(poller := Scanning(queue[1..]), active := s.active + {key},
                       workers := s.workers[registration := Worker(key, Spawned)])
  }

  function Advance(s: State, r: nat, pc: WorkerPC): State
    requires r in s.workers
  {
    s.(workers := s.workers[r := s.workers[r].(pc := pc)])
  }

  /** One step of the goroutine that serves registration `r`: Run's admission check, its body, the delete
      attempt, and leaving `active`. */
  function Worked(settings: Settings, s: State, r: nat): State
    requires r in s.workers && r in s.registrations
  {
    var reg := s.registrations[r];
    match s.workers[r].pc
    case Spawned =>
      Advance(s, r, Counted(s.local + 1)).(local := s.local + 1,
        registrations := s.registrations[r := reg.(runs := reg.runs + 1)])
    case Counted(sum) =>
      if sum + s.recovered > settings.capacity then Advance(s, r, BackingOut)
      else Advance(s, r, Launched).(launched := s.launched + {r})
    case BackingOut => Advance(s, r, Returned(true)).(local := s.local - 1)
    case Launched => Advance(s, r, Returned(false)).(local := s.local - 1)
    case Returned(_) =>
      Advance(s, r, Deleted).(registrations := s.registrations[r := reg.(deletes := reg.deletes + 1)])
    case Deleted => s.(active := s.active - {s.workers[r].key}, workers := s.workers - {r})
  }

  predicate WorkStep(settings: Settings, s: State, r: nat, s': State) {
    r in s.workers && r in s.registrations && s' == Worked(settings, s, r)
  }

  datatype Step = Poller | Work(registration: nat)

  ghost predicate Next(settings: Settings, s: State, step: Step, s': State) {
    match step
    case Poller => PollStep(settings, s, s')
    case Work(r) => WorkStep(settings, s, r, s')
  }

  // ---------------------------------------------------------------------------------------------
  // Conservation invariant.

  predicate InCounter(pc: WorkerPC) {
    pc.Counted? || pc.BackingOut? || pc.Launched?
  }

  ghost function Counting(s: State): set<nat> {
    set r | r in s.workers && InCounter(s.workers[r].pc)
  }

  /** The registration the poller holds between generating it and starting its worker. */
  predicate Pending(s: State, r: nat) {
    s.poller.Generated? && s.poller.registration == r
  }

  predicate WorkerOk(s: State, r: nat, w: Worker, capacity: int) {
    && w.key in s.active && !Pending(s, r)
    && r in s.registrations
    && s.registrations[r] == Registration(w.key, if w.pc.Spawned? then 0 else 1, if w.pc.Deleted? then 1 else 0)
    && (w.pc.Counted? ==> w.pc.sum <= capacity)
    && (r in s.launched ==> w.pc.Launched? || w.pc.Deleted? || w.pc == Returned(false))
  }

  predicate PollerOk(s: State, capacity: int) {
    match s.poller
    case Idle => true
    case Ready => true
    case Scanning(_) => true
    case HasCapacity(queue) => queue != [] && |s.active| < capacity
    case Offering(queue) => queue != [] && |s.active| < capacity && JobKey(queue[0]) !in s.active
    case Rechecked(queue, _) => queue != [] && |s.active| < capacity && JobKey(queue[0]) !in s.active
    case Generated(queue, r) =>
      && queue != [] && |s.active| < capacity && JobKey(queue[0]) !in s.active
      && r !in s.workers && r in s.registrations && s.registrations[r] == Registration(JobKey(queue[0]), 0, 0)
  }

  ghost predicate WorkersOk(s: State, capacity: int) {
    forall r :: r in s.workers ==> WorkerOk(s, r, s.workers[r], capacity)
  }

  /** No two goroutines serve the same job key. */
  ghost predicate OnePerKey(s: State) {
    forall r, q :: r in s.workers && q in s.workers && s.workers[r].key == s.workers[q].key ==> r == q
  }

  /** A registration nobody holds any more had exactly one Run and one delete attempt. */
  ghost predicate SettledRegistrations(s: State) {
    && (forall r :: r in s.registrations && r !in s.workers && !Pending(s, r) ==>
          s.registrations[r].runs == 1 && s.registrations[r].deletes == 1)
    && (forall r :: r in s.launched ==> r in s.registrations && !Pending(s, r))
  }

  ghost predicate SizesOk(s: State, capacity: int) {
    |s.active| <= capacity && |s.workers| == |s.active| && s.local == |Counting(s)|
  }

  ghost predicate Inv(s: State, capacity: int) {
    && SizesOk(s, capacity) && s.dropped == {} && PollerOk(s, capacity)
    && WorkersOk(s, capacity) && OnePerKey(s) && SettledRegistrations(s)
  }

  lemma {:induction false} LocalFits(s: State, capacity: int)
    requires Inv(s, capacity)
    ensures s.local <= |s.active|
    ensures forall r :: r in s.workers && !InCounter(s.workers[r].pc) ==> s.local < |s.active|
  {
    SubsetSize(Counting(s), s.workers.Keys);
    forall r | r in s.workers && !InCounter(s.workers[r].pc) ensures s.local < |s.active| {
      SubsetSize(Counting(s), s.workers.Keys - {r});
    }
  }

  lemma {:induction false} DistinctKeysCount(s: State, rs: set<nat>)
    requires OnePerKey(s) && rs <= s.workers.Keys
    ensures |set r | r in rs :: s.workers[r].key| == |rs|
  {
    var keys := set r | r in rs :: s.workers[r].key;
    if rs == {} {
      assert keys == {};
    } else {
      var q := PickOne(rs);
      var fewer := set r | r in rs - {q} :: s.workers[r].key;
      DistinctKeysCount(s, rs - {q});
      assert keys == fewer + {s.workers[q].key};
      assert s.workers[q].key !in fewer;
    }
  }

  lemma {:induction false} PickOne(rs: set<nat>) returns (r: nat)
    requires rs != {}
    ensures r in rs
  {
    assert |rs| > 0;
    r :| r in rs;
  }

  /** A job key is active exactly while a goroutine serves it. */
  lemma {:induction false} ActiveIsServed(s: State, capacity: int)
    requires Inv(s, capacity)
    ensures s.active == set r | r in s.workers :: s.workers[r].key
  {
    var keys := set r | r in s.workers.Keys :: s.workers[r].key;
    DistinctKeysCount(s, s.workers.Keys);
    forall r | r in s.workers ensures s.workers[r].key in s.active {
      assert WorkerOk(s, r, s.workers[r], capacity);
    }
    hide OnePerKey, SettledRegistrations, WorkersOk;
    assert keys <= s.active;
    SubsetSize(keys, s.active);
  }

  lemma {:induction false} WorkCount(settings: Settings, s: State, r: nat, s': State)
    requires s.local == |Counting(s)| && WorkStep(settings, s, r, s')
    ensures s'.local == |Counting(s')|
  {
    hide Counting, WorkStep, InCounter;
    OthersCount(settings, s, r, s');
    LocalAfter(settings, s, r, s');
    var after := r in s'.workers && InCounter(s'.workers[r].pc);
    assert Counting(s') == if after then Counting(s) + {r} else Counting(s) - {r};
  }

  lemma {:induction false} LocalAfter(settings: Settings, s: State, r: nat, s': State)
    requires WorkStep(settings, s, r, s')
    ensures r in s.workers
    ensures var before, after := InCounter(s.workers[r].pc), r in s'.workers && InCounter(s'.workers[r].pc);
            s'.local == s.local + (if after then 1 else 0) - (if before then 1 else 0)
  {
  }

  lemma {:induction false} OthersCount(settings: Settings, s: State, r: nat, s': State)
    requires WorkStep(settings, s, r, s')
    ensures forall q :: q != r ==> (q in Counting(s') <==> q in Counting(s))
    ensures r in Counting(s') <==> r in s'.workers && InCounter(s'.workers[r].pc)
    ensures r in Counting(s) <==> r in s.workers && InCounter(s.workers[r].pc)
  {
    forall q ensures q in s'.workers && q != r ==> q in s.workers && s'.workers[q] == s.workers[q] {
    }
    forall q ensures q in s.workers && q != r ==> q in s'.workers {
    }
    hide WorkStep;
  }

  /** Putting one worker in order keeps the others so. */
  lemma {:induction false} OthersOk(s: State, s': State, r: nat, capacity: int)
    requires WorkersOk(s, capacity) && r in s'.workers && s'.workers == s.workers[r := s'.workers[r]]
    requires WorkerOk(s', r, s'.workers[r], capacity)
    requires s.active <= s'.active && s'.launched <= s.launched + {r}
    requires forall q :: q != r && q in s.registrations ==>
        q in s'.registrations && s'.registrations[q] == s.registrations[q]
    requires forall q :: Pending(s', q) ==> Pending(s, q)
    ensures WorkersOk(s', capacity)
  {
    forall q | q in s'.workers ensures WorkerOk(s', q, s'.workers[q], capacity) {
      if q != r {
        assert WorkerOk(s, q, s.workers[q], capacity);
      }
    }
  }

  /** A step of worker `r` that stays in place: only its own pc, counts and the shared counter change. */
  lemma {:induction false} StayKeeps(s: State, r: nat, s': State, capacity: int)
    requires Inv(s, capacity) && r in s.workers && r in s.registrations && r in s'.workers && r in s'.registrations
    requires s' == s.(workers := s.workers[r := s'.workers[r]], local := s'.local, launched := s'.launched,
                      registrations := s.registrations[r := s'.registrations[r]])
    requires s'.workers[r].key == s.workers[r].key
    requires s'.local == |Counting(s')| && WorkerOk(s', r, s'.workers[r], capacity)
    requires s'.launched == s.launched || s'.launched == s.launched + {r}
    ensures Inv(s', capacity)
  {
    assert s'.workers.Keys == s.workers.Keys;
    assert WorkerOk(s, r, s.workers[r], capacity);
    OthersOk(s, s', r, capacity);
    KeysStayApart(s, s', r);
    RegistrationsStaySettled(s, s', r);
    hide Counting, WorkersOk, OnePerKey, SettledRegistrations;
  }

  lemma {:induction false} KeysStayApart(s: State, s': State, r: nat)
    requires OnePerKey(s) && r in s'.workers && s'.workers == s.workers[r := s'.workers[r]]
    requires forall q :: q in s.workers && s.workers[q].key == s'.workers[r].key ==> q == r
    ensures OnePerKey(s')
  {
  }

  lemma {:induction false} RegistrationsStaySettled(s: State, s': State, r: nat)
    requires SettledRegistrations(s) && r in s'.workers && r in s'.registrations && !Pending(s', r)
    requires forall q :: q in s.workers ==> q in s'.workers
    requires forall q :: q != r ==> (Pending(s', q) <==> Pending(s, q))
    requires s'.registrations == s.registrations[r := s'.registrations[r]]
    requires s'.launched <= s.launched + {r}
    ensures SettledRegistrations(s')
  {
  }

  lemma {:induction false} LeaveKeeps(s: State, r: nat, capacity: int)
    requires Inv(s, capacity) && r in s.workers && s.workers[r].pc.Deleted?
    requires s.local == |Counting(s.(active := s.active - {s.workers[r].key}, workers := s.workers - {r}))|
    ensures Inv(s.(active := s.active - {s.workers[r].key}, workers := s.workers - {r}), capacity)
  {
    hide JobKey, Counting;
    var s' := s.(active := s.active - {s.workers[r].key}, workers := s.workers - {r});
    assert WorkerOk(s, r, s.workers[r], capacity);
    assert s'.workers.Keys == s.workers.Keys - {r};
    LeaveKeepsOthers(s, r, s', capacity);
    LeaveSettles(s, r, s', capacity);
    hide WorkersOk, OnePerKey, SettledRegistrations;
  }

  lemma {:induction false} LeaveKeepsOthers(s: State, r: nat, s': State, capacity: int)
    requires WorkersOk(s, capacity) && OnePerKey(s) && r in s.workers
    requires s' == s.(active := s.active - {s.workers[r].key}, workers := s.workers - {r})
    ensures WorkersOk(s', capacity) && OnePerKey(s')
  {
    hide JobKey;
    forall q | q in s'.workers ensures WorkerOk(s', q, s'.workers[q], capacity) {
      assert WorkerOk(s, q, s.workers[q], capacity);
      assert s.workers[q].key != s.workers[r].key;
    }
  }

  lemma {:induction false} LeaveSettles(s: State, r: nat, s': State, capacity: int)
    requires SettledRegistrations(s) && r in s.workers && s.workers[r].pc.Deleted?
    requires WorkerOk(s, r, s.workers[r], capacity)
    requires s' == s.(active := s.active - {s.workers[r].key}, workers := s.workers - {r})
    ensures SettledRegistrations(s')
  {
    hide JobKey;
  }

  /** What each kind of step leaves of its own worker. */
  lemma {:induction false} WorkerAfter(settings: Settings, s: State, r: nat, s': State)
    requires WorkStep(settings, s, r, s') && !s.workers[r].pc.Deleted?
    requires WorkerOk(s, r, s.workers[r], settings.capacity)
    requires s.workers[r].pc.Spawned? ==> s.local < settings.capacity
    ensures r in s'.workers && r in s'.registrations && s'.workers[r].key == s.workers[r].key
    ensures WorkerOk(s', r, s'.workers[r], settings.capacity)
    ensures s' == s.(workers := s.workers[r := s'.workers[r]], local := s'.local, launched := s'.launched,
                     registrations := s.registrations[r := s'.registrations[r]])
    ensures s'.launched == s.launched || s'.launched == s.launched + {r}
  {
    assert s.registrations == s.registrations[r := s.registrations[r]];
  }

  lemma {:induction false} WorkKeeps(settings: Settings, s: State, r: nat, s': State)
    requires Inv(s, settings.capacity) && WorkStep(settings, s, r, s')
    ensures Inv(s', settings.capacity)
  {
    WorkCount(settings, s, r, s');
    InvSizes(s, settings.capacity);
    LocalFits(s, settings.capacity);
    assert WorkerOk(s, r, s.workers[r], settings.capacity);
    hide Counting, Inv;
    if s.workers[r].pc.Deleted? {
      LeaveKeeps(s, r, settings.capacity);
    } else {
      WorkerAfter(settings, s, r, s');
      hide WorkStep;
      StayKeeps(s, r, s', settings.capacity);
    }
  }

  lemma {:induction false} InvSizes(s: State, capacity: int)
    requires Inv(s, capacity)
    ensures s.local <= |s.active| <= capacity
  {
    LocalFits(s, capacity);
  }

  lemma {:induction false} OnlyPollerMoves(s: State, s': State, capacity: int)
    requires Inv(s, capacity) && !s.poller.Generated? && !s'.poller.Generated? && PollerOk(s', capacity)
    requires s' == s.(poller := s'.poller, recovered := s'.recovered, claims := s'.claims, history := s'.history)
    ensures Inv(s', capacity)
  {
    assert Counting(s') == Counting(s);
    forall r | r in s'.workers ensures WorkerOk(s', r, s'.workers[r], capacity) {
      assert WorkerOk(s, r, s.workers[r], capacity);
    }
    hide Counting;
  }

  lemma {:induction false} GenerateKeeps(settings: Settings, s: State, s': State)
    requires Inv(s, settings.capacity) && PollStep(settings, s, s') && s.poller.Rechecked? && s'.poller.Generated?
    ensures Inv(s', settings.capacity)
  {
    hide JobKey;
    assert Counting(s') == Counting(s);
    forall r | r in s'.workers ensures WorkerOk(s', r, s'.workers[r], settings.capacity) {
      assert WorkerOk(s, r, s.workers[r], settings.capacity);
    }
    hide Counting;
  }

  lemma {:induction false} SpawnCount(s: State, s': State, key: string, r: nat)
    requires r !in s.workers && s'.workers == s.workers[r := Worker(key, Spawned)]
    ensures Counting(s') == Counting(s) && |s'.workers| == |s.workers| + 1
  {
    assert s'.workers.Keys == s.workers.Keys + {r};
    forall q ensures q in Counting(s') <==> q in Counting(s) {
      if q != r {
        assert q in s'.workers <==> q in s.workers;
        assert q in s.workers ==> s'.workers[q] == s.workers[q];
      }
    }
    hide Counting;
  }

  /** The poller hands its registration to a new worker. */
  lemma {:induction false} HandOver(s: State, key: string, r: nat, s': State, capacity: int)
    requires Inv(s, capacity) && Pending(s, r) && s'.poller.Scanning?
    requires s' == s.(poller := s'.poller, active := s.active + {key}, workers := s.workers[r := Worker(key, Spawned)])
    requires key !in s.active && |s.active| < capacity && r !in s.workers
    requires r in s.registrations && s.registrations[r] == Registration(key, 0, 0)
    ensures Inv(s', capacity)
  {
    SpawnCount(s, s', key, r);
    hide Counting;
    assert s'.registrations == s.registrations[r := s'.registrations[r]];
    assert SizesOk(s', capacity);
    hide SizesOk;
    OthersOk(s, s', r, capacity);
    forall q | q in s.workers ensures s.workers[q].key != key {
      assert WorkerOk(s, q, s.workers[q], capacity);
    }
    KeysStayApart(s, s', r);
    RegistrationsStaySettled(s, s', r);
    hide WorkersOk, OnePerKey, SettledRegistrations;
  }

  lemma {:induction false} PollKeeps(settings: Settings, s: State, s': State)
    requires Inv(s, settings.capacity) && PollStep(settings, s, s')
    ensures Inv(s', settings.capacity)
  {
    hide JobKey, Observes, RecheckPasses;
    if s.poller.Generated? {
      assert PollerOk(s, settings.capacity);
      HandOver(s, JobKey(s.poller.queue[0]), s.poller.registration, s', settings.capacity);
    } else if s'.poller.Generated? {
      GenerateKeeps(settings, s, s');
    } else {
      assert PollerOk(s, settings.capacity);
      OnlyPollerMoves(s, s', settings.capacity);
    }
  }

  // ---------------------------------------------------------------------------------------------
  // Justification invariant.

  /** A job in the queue: observed, authorized, queued and compatible in the latest poll of `h`, and due
      counting from the start of its latest unbroken chain of sightings. */
  ghost predicate Ripe(settings: Settings, h: History, job: ObservedJob) {
    && Observed(settings, job) && Matching(job, settings.labels)
    && h != [] && JobKey(job) in h[|h| - 1].keys
    && Sightings(h, JobKey(job)) != []
    && ChainStart(Sightings(h, JobKey(job)), settings.staleAfter) + settings.claimDelay <= h[|h| - 1].now
  }

  /** A GenerateJITConfig call was made for a ripe job whose re-fetched metadata passed the recheck. */
  ghost predicate Justified(settings: Settings, h: History, call: Call) {
    && 0 < call.poll <= |h|
    && Ripe(settings, h[..call.poll], call.observed)
    && RecheckPasses(settings, call.observed, call)
  }

  function QueueOf(poller: Poller): seq<ObservedJob> {
    match poller
    case Idle => []
    case Ready => []
    case Scanning(queue) => queue
    case HasCapacity(queue) => queue
    case Offering(queue) => queue
    case Rechecked(queue, _) => queue
    case Generated(queue, _) => queue
  }

  ghost predicate QueueRipe(settings: Settings, h: History, queue: seq<ObservedJob>) {
    forall i :: 0 <= i < |queue| ==> Ripe(settings, h, queue[i])
  }

  ghost predicate CallsJustified(settings: Settings, h: History, calls: seq<Call>) {
    forall i :: 0 <= i < |calls| ==> Justified(settings, h, calls[i])
  }

  ghost predicate Reasons(settings: Settings, s: State) {
    && Clock(s.history) && Tracks(s.history, s.claims, settings.maxEntries, settings.staleAfter)
    && QueueRipe(settings, s.history, QueueOf(s.poller))
    && (s.poller.Rechecked? ==>
          && s.poller.queue != [] && s.poller.call.poll == |s.history|
          && RecheckPasses(settings, s.poller.queue[0], s.poller.call))
    && CallsJustified(settings, s.history, s.calls)
  }

  /** The first-seen stamp plays no part in the decision. */
  lemma {:induction false} StampIsImmaterial(repository: Config.Repository, job: ObservedJob, time: int)
    ensures Policy.AuthorizeJob(repository, job.(firstSeenAt := time)) == Policy.AuthorizeJob(repository, job)
  {
    var stamped := job.(firstSeenAt := time);
    assert Policy.Indistinguishable(job, stamped);
    Policy.JudgeCongruence(repository.trustedWorkflows, job, stamped);
    hide Policy.Judge, Policy.Indistinguishable;
  }

  lemma {:induction false} StampedIsRipe(settings: Settings, s: State, now: int, keys: set<string>, job: ObservedJob,
                                         stamped: ObservedJob)
    requires Clock(s.history + [Poll(now, keys)]) && settings.staleAfter >= 0
    requires Tracks(s.history, s.claims, settings.maxEntries, settings.staleAfter)
    requires Observed(settings, job) && Matching(job, settings.labels) && JobKey(job) in keys
    requires stamped == Stamp(s.claims, now, keys, settings.staleAfter, job)
    requires DueAt(now, stamped.firstSeenAt, settings.claimDelay)
    ensures Ripe(settings, s.history + [Poll(now, keys)], stamped)
  {
    StampTrue(s.history, s.claims, now, keys, settings.maxEntries, settings.staleAfter, job, stamped);
    SameKey(job, stamped.firstSeenAt);
    hide JobKey, Tracks, ChainStart, Sightings, Policy.AuthorizeJob, LabelsCompatible;
    var i :| 0 <= i < |settings.repositories| &&
      var repository := settings.repositories[i];
      job.repository == Repository(repository.owner, repository.name) && Policy.AuthorizeJob(repository, job).allowed;
    StampIsImmaterial(settings.repositories[i], job, stamped.firstSeenAt);
    assert Observed(settings, stamped);
  }

  lemma {:induction false} SameKey(job: ObservedJob, time: int)
    ensures JobKey(job.(firstSeenAt := time)) == JobKey(job)
  {
  }

  lemma {:induction false} ObserveReasons(settings: Settings, s: State, now: int, matching: seq<ObservedJob>,
                                          tracked: seq<ObservedJob>,
                       queue: seq<ObservedJob>, s': State)
    requires settings.staleAfter >= 0 && Reasons(settings, s)
    requires Observes(settings, s, now, matching, tracked, queue, s')
    ensures Clock(s'.history) && Tracks(s'.history, s'.claims, settings.maxEntries, settings.staleAfter)
    ensures QueueRipe(settings, s'.history, queue)
  {
    hide JobKey, Stamp, Tracks, Ripe, RecheckPasses, Justified, Observed, LabelsCompatible;
    var keys := KeysOf(matching);
    ClockStep(s.history, Poll(now, keys));
    ObserveTracks(s.history, s.claims, now, keys, settings.maxEntries, settings.staleAfter, s'.claims);
    forall i | 0 <= i < |queue| ensures Ripe(settings, s'.history, queue[i]) {
      assert queue[i] in multiset(queue);
      assert queue[i] in Due(now, settings.claimDelay, tracked);
      var j :| 0 <= j < |tracked| && tracked[j] == queue[i];
      assert matching[j] in matching;
      StampedIsRipe(settings, s, now, keys, matching[j], tracked[j]);
    }
  }

  lemma {:induction false} CallsStayJustified(settings: Settings, h: History, p: Poll, calls: seq<Call>)
    requires CallsJustified(settings, h, calls)
    ensures CallsJustified(settings, h + [p], calls)
  {
    hide Ripe, RecheckPasses;
    forall i | 0 <= i < |calls| ensures Justified(settings, h + [p], calls[i]) {
      assert Justified(settings, h, calls[i]);
      assert (h + [p])[..calls[i].poll] == h[..calls[i].poll];
    }
  }

  lemma {:induction false} PollReasons(settings: Settings, s: State, s': State)
    requires settings.staleAfter >= 0 && Reasons(settings, s) && PollStep(settings, s, s')
    ensures Reasons(settings, s')
  {
    hide JobKey, Ripe, RecheckPasses, Justified, Tracks, Observes;
    if s.poller.Ready? && s'.poller.Scanning? {
      var now, matching, tracked :| Observes(settings, s, now, matching, tracked, s'.poller.queue, s');
      ObserveReasons(settings, s, now, matching, tracked, s'.poller.queue, s');
      assert s'.history == s.history + [Poll(now, KeysOf(matching))] by {
        ObservesHistory(settings, s, now, matching, tracked, s'.poller.queue, s');
      }
      CallsStayJustified(settings, s.history, Poll(now, KeysOf(matching)), s.calls);
    } else if s.poller.Rechecked? && s'.poller.Generated? {
      var call := s.poller.call;
      assert s.history[..|s.history|] == s.history;
      assert Ripe(settings, s.history, s.poller.queue[0]);
      assert Justified(settings, s.history, call) by { CallIsJustified(settings, s.history, s.poller.queue[0], call); }
    }
  }

  lemma {:induction false} ObservesHistory(settings: Settings, s: State, now: int, matching: seq<ObservedJob>,
                                           tracked: seq<ObservedJob>,
                        queue: seq<ObservedJob>, s': State)
    requires Observes(settings, s, now, matching, tracked, queue, s')
    ensures s'.history == s.history + [Poll(now, KeysOf(matching))]
  {
  }

  lemma {:induction false} CallIsJustified(settings: Settings, h: History, job: ObservedJob, call: Call)
    requires Ripe(settings, h, job) && RecheckPasses(settings, job, call) && call.poll == |h|
    ensures Justified(settings, h, call)
  {
    assert h[..|h|] == h;
  }

  // ---------------------------------------------------------------------------------------------
  // Whole behaviours.

  ghost predicate Behaviour(settings: Settings, states: seq<State>, steps: seq<Step>) {
    && settings.capacity >= 0 && settings.staleAfter >= 0
    && |states| == |steps| + 1 && states[0] == Initial()
    && forall i :: 0 <= i < |steps| ==> Next(settings, states[i], steps[i], states[i + 1])
  }

  lemma {:induction false} InitialInv(settings: Settings)
    requires settings.capacity >= 0 && settings.staleAfter >= 0
    ensures Inv(Initial(), settings.capacity) && Reasons(settings, Initial())
  {
    assert Counting(Initial()) == {};
    assert Window([], settings.staleAfter) == {};
  }

  lemma {:induction false} BehaviourInv(settings: Settings, states: seq<State>, steps: seq<Step>, n: nat)
    requires Behaviour(settings, states, steps) && n < |states|
    ensures Inv(states[n], settings.capacity) && Reasons(settings, states[n])
  {
    hide Inv, Reasons, PollStep, WorkStep;
    if n == 0 {
      InitialInv(settings);
    } else {
      BehaviourInv(settings, states, steps, n - 1);
      assert Next(settings, states[n - 1], steps[n - 1], states[n - 1 + 1]);
      match steps[n - 1] {
        case Poller =>
          PollKeeps(settings, states[n - 1], states[n]);
          PollReasons(settings, states[n - 1], states[n]);
        case Work(r) =>
          WorkKeeps(settings, states[n - 1], r, states[n]);
          WorkReasons(settings, states[n - 1], r, states[n]);
      }
    }
  }

  lemma {:induction false} WorkReasons(settings: Settings, s: State, r: nat, s': State)
    requires Reasons(settings, s) && WorkStep(settings, s, r, s')
    ensures Reasons(settings, s')
  {
    hide Tracks, QueueRipe, CallsJustified, RecheckPasses;
  }

  /** The branch that drops a generated registration is never taken: when the poller comes back with one,
      the job is not active and there is still room. */
  lemma {:induction false} DropBranchUnreachable(settings: Settings, states: seq<State>, steps: seq<Step>, n: nat)
    requires Behaviour(settings, states, steps) && n < |states|
    ensures states[n].dropped == {}
    ensures states[n].poller.Generated? ==>
      && states[n].poller.queue != [] && JobKey(states[n].poller.queue[0]) !in states[n].active
      && |states[n].active| < settings.capacity
  {
    hide Next;
    BehaviourInv(settings, states, steps, n);
  }

  /** Every registration gets at most one Run and at most one delete attempt, the Run first; once neither
      the poller nor a goroutine holds it, it had exactly one of each. */
  lemma {:induction false} RegistrationsConserved(settings: Settings, states: seq<State>, steps: seq<Step>, n: nat,
                                                  r: nat)
    requires Behaviour(settings, states, steps) && n < |states| && r in states[n].registrations
    ensures var reg := states[n].registrations[r];
            && reg.deletes <= reg.runs <= 1
            && (r !in states[n].workers && !Pending(states[n], r) ==> reg.runs == 1 && reg.deletes == 1)
            && (r in states[n].workers ==> reg.key == states[n].workers[r].key)
  {
    hide Next;
    BehaviourInv(settings, states, steps, n);
    if r in states[n].workers {
      assert WorkerOk(states[n], r, states[n].workers[r], settings.capacity);
    }
  }

  /** The registrations that exist and have not been through their delete attempt. */
  ghost function Outstanding(s: State): set<nat> {
    set r | r in s.registrations && s.registrations[r].deletes == 0
  }

  lemma {:induction false} OutstandingHeld(s: State, capacity: int, r: nat)
    requires Inv(s, capacity) && r in Outstanding(s)
    ensures r in s.workers || Pending(s, r)
    ensures r in s.workers ==> s.registrations[r].key == s.workers[r].key && s.workers[r].key in s.active
    ensures Pending(s, r) ==> s.registrations[r].key !in s.active && |s.active| < capacity
  {
    if r in s.workers {
      assert WorkerOk(s, r, s.workers[r], capacity);
    }
  }

  lemma {:induction false} OutstandingFit(s: State, capacity: int)
    requires Inv(s, capacity)
    ensures |Outstanding(s)| <= capacity
    ensures forall r, q ::
        r in Outstanding(s) && q in Outstanding(s) && s.registrations[r].key == s.registrations[q].key ==> r == q
  {
    forall r | r in Outstanding(s)
      ensures r in s.workers || Pending(s, r)
      ensures r in s.workers ==> s.registrations[r].key == s.workers[r].key && s.workers[r].key in s.active
      ensures Pending(s, r) ==> s.registrations[r].key !in s.active && |s.active| < capacity
    {
      OutstandingHeld(s, capacity, r);
    }
    if s.poller.Generated? && s.poller.registration in Outstanding(s) {
      SubsetSize(Outstanding(s), s.workers.Keys + {s.poller.registration});
    } else {
      SubsetSize(Outstanding(s), s.workers.Keys);
    }
    hide Outstanding, Counting;
  }

  /** Registrations that are generated but not yet deleted never exceed the capacity and are at most one per
      job key. */
  lemma {:induction false} OutstandingRegistrationsBounded(settings: Settings, states: seq<State>, steps: seq<Step>,
                                                           n: nat)
    requires Behaviour(settings, states, steps) && n < |states|
    ensures |Outstanding(states[n])| <= settings.capacity
    ensures forall r, q :: (r in Outstanding(states[n]) && q in Outstanding(states[n]) &&
              states[n].registrations[r].key == states[n].registrations[q].key) ==> r == q
  {
    hide Next, Inv;
    BehaviourInv(settings, states, steps, n);
    OutstandingFit(states[n], settings.capacity);
  }

  /** In every interleaving localActive <= |active| <= capacity, so a Run is refused only when something
      recovered is left over, and a refused Run was never launched. */
  lemma {:induction false} RefusalNeedsLeftovers(settings: Settings, states: seq<State>, steps: seq<Step>, n: nat)
    requires Behaviour(settings, states, steps) && n < |states|
    ensures states[n].local <= |states[n].active| <= settings.capacity
    ensures forall r ::
        r in states[n].workers && (states[n].workers[r].pc.BackingOut? || states[n].workers[r].pc == Returned(true)) ==>
              r !in states[n].launched
    ensures forall r :: (n < |steps| && steps[n] == Work(r) && r in states[n].workers &&
              states[n].workers[r].pc.Counted? && states[n].recovered == 0) ==>
                r in states[n + 1].workers && states[n + 1].workers[r].pc == Launched
  {
    BehaviourInv(settings, states, steps, n);
    InvSizes(states[n], settings.capacity);
    forall r | r in states[n].workers
      ensures WorkerOk(states[n], r, states[n].workers[r], settings.capacity)
    {
    }
    if n < |steps| && steps[n].Work? {
      assert Next(settings, states[n], steps[n], states[n + 1]);
    }
    hide Counting, Inv;
  }

  /** Main result on offers: every GenerateJITConfig call was for a configured repository and a job that was
      authorized, queued and compatible in the current poll and again on its re-fetched metadata, and that
      had been seen for the claim delay without a gap above the staleness window. */
  lemma {:induction false} OffersAreJustified(settings: Settings, states: seq<State>, steps: seq<Step>, n: nat, i: nat)
    requires Behaviour(settings, states, steps) && n < |states| && i < |states[n].calls|
    ensures Justified(settings, states[n].history, states[n].calls[i])
  {
    hide Next, Justified;
    BehaviourInv(settings, states, steps, n);
  }

  /** The same on the fields of a call: the repository is configured under the job's name; the observed job was
      queued, has only labels this participant offers, and was authorized; the job fetched again is still queued,
      in a run still queued or in progress, with the same numbers, repository, visibility and labels, and if the
      repository has a policy the same workflow, event and actors; and it is authorized again. */
  lemma {:induction false} CallsMeetRequirements(settings: Settings, states: seq<State>, steps: seq<Step>, n: nat,
                                                 i: nat)
    requires Behaviour(settings, states, steps) && n < |states| && i < |states[n].calls|
    ensures var call := states[n].calls[i];
            && call.repository in settings.repositories
            && Lower(call.repository.owner) == Lower(call.observed.repository.owner)
            && Lower(call.repository.name) == Lower(call.observed.repository.name)
    ensures var call := states[n].calls[i];
            && call.observed.status == "queued" && Policy.AllNamed(call.observed.labels, settings.labels)
            && exists repository :: repository in settings.repositories && Policy.Authorized(repository, call.observed)
                 && call.observed.repository == Repository(repository.owner, repository.name)
    ensures var call := states[n].calls[i];
            var configured, observed, final := call.repository, call.observed, call.final;
            && final.status == "queued" && (call.runStatus == "queued" || call.runStatus == "in_progress")
            && final.jobID == observed.jobID && final.runID == observed.runID && final.jobRunID == observed.runID
            && Lower(final.serverRepository) == Lower(configured.owner + "/" + configured.name)
            && (final.repositoryPrivate <==> configured.visibility == "" || configured.visibility == "private")
            && multiset(LowerAll(final.labels)) == multiset(LowerAll(observed.labels))
            && (configured.trustedWorkflows != [] ==>
                  && final.workflowID == observed.workflowID && final.workflowPath == observed.workflowPath
                  && final.event == observed.event && Lower(final.actor) == Lower(observed.actor)
                  && Lower(final.triggeringActor) == Lower(observed.triggeringActor))
    ensures var call := states[n].calls[i];
            Policy.AllNamed(call.final.labels, settings.labels) && Policy.Authorized(call.repository, call.final)
  {
    var call := states[n].calls[i];
    hide Behaviour, Lower, Policy.Authorized, Policy.AuthorizeJob, Policy.FinalMetadataConsistent, LabelsCompatible,
      Policy.AllNamed, ChainStart, Sightings, JobKey, ConfiguredRepository;
    OffersAreJustified(settings, states, steps, n, i);
    Policy.AllNamedMeans(call.observed.labels, settings.labels);
    Policy.AllNamedMeans(call.final.labels, settings.labels);
    Policy.AuthorizedExactlyWhen(call.repository, call.final);
    Policy.ConsistentExactlyWhen(call.repository, call.observed, call.final, call.runStatus);
    var j := ConfiguredIsFirst(settings.repositories, call.observed.repository);
    var k :| 0 <= k < |settings.repositories| &&
      call.observed.repository == Repository(settings.repositories[k].owner, settings.repositories[k].name) &&
      Policy.AuthorizeJob(settings.repositories[k], call.observed).allowed;
    Policy.AuthorizedExactlyWhen(settings.repositories[k], call.observed);
    assert settings.repositories[k] in settings.repositories;
  }

  // ---------------------------------------------------------------------------------------------
  // The second authorization.

  lemma {:induction false} ConfiguredIsFirst(repositories: seq<Config.Repository>, repository: Repository)
    returns (j: nat)
    requires ConfiguredRepository(repositories, repository).Some?
    ensures j < |repositories| && ConfiguredRepository(repositories, repository).value == repositories[j]
    ensures EqualFold(repositories[j].owner, repository.owner) && EqualFold(repositories[j].name, repository.name)
  {
    if EqualFold(repositories[0].owner, repository.owner) && EqualFold(repositories[0].name, repository.name) {
      j := 0;
    } else {
      var k := ConfiguredIsFirst(repositories[1..], repository);
      j := k + 1;
    }
  }

  lemma {:induction false} ConfiguredExists(repositories: seq<Config.Repository>, i: nat)
    requires i < |repositories|
    ensures ConfiguredRepository(repositories, Repository(repositories[i].owner, repositories[i].name)).Some?
  {
    if i > 0 {
      ConfiguredExists(repositories[1..], i - 1);
      assert repositories[1..][i - 1] == repositories[i];
    }
  }

  /** With a valid configuration the repository an offer looks up is the one the job was observed under. */
  lemma {:induction false} ConfiguredIsObserved(settings: Settings, i: nat)
    requires Config.ValidRepositories(settings.repositories, settings.labels) && i < |settings.repositories|
    ensures var r := settings.repositories[i];
            ConfiguredRepository(settings.repositories, Repository(r.owner, r.name)) == Some(r)
  {
    hide Config.ValidRepository, Lower;
    var r := settings.repositories[i];
    ConfiguredExists(settings.repositories, i);
    var j := ConfiguredIsFirst(settings.repositories, Repository(r.owner, r.name));
    var q := settings.repositories[j];
    LowerConcat(q.owner + "/", q.name);
    LowerConcat(q.owner, "/");
    LowerConcat(r.owner + "/", r.name);
    LowerConcat(r.owner, "/");
    assert Config.RepositoryKeys(settings.repositories)[i] == Config.RepositoryKeys(settings.repositories)[j];
  }

  /** So after a consistent recheck the second authorization never denies what the first allowed. */
  lemma {:induction false} SecondAuthorizationAgrees(settings: Settings, observed: ObservedJob, final: ObservedJob,
                                                     runStatus: string)
    requires Config.ValidRepositories(settings.repositories, settings.labels)
    requires Observed(settings, observed) && Matching(observed, settings.labels)
    ensures ConfiguredRepository(settings.repositories, observed.repository).Some?
    ensures var repository := ConfiguredRepository(settings.repositories, observed.repository).value;
            Policy.FinalMetadataConsistent(repository, observed, final, runStatus) ==>
              Policy.AuthorizeJob(repository, final).allowed && LabelsCompatible(final.labels, settings.labels)
  {
    hide Policy.AuthorizeJob, Policy.FinalMetadataConsistent, LabelsCompatible, Config.ValidRepository;
    var i :| 0 <= i < |settings.repositories| &&
      var repository := settings.repositories[i];
      observed.repository == Repository(repository.owner, repository.name) &&
        Policy.AuthorizeJob(repository, observed).allowed;
    ConfiguredIsObserved(settings, i);
    var repository := settings.repositories[i];
    if Policy.FinalMetadataConsistent(repository, observed, final, runStatus) {
      Policy.ValidatedAuthorizationIsStable(repository, settings.labels, observed, final, runStatus);
    }
  }
}
