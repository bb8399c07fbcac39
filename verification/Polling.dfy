/** The poller as it runs (internal/participant/participant.go): PollOnce, observe and offer on the service's
    own fields, with the goroutines that share them given a turn at every point where a lock is free.  Every
    execution is a behaviour of the step relation in module Service, so what holds of those holds here. */
module Polling {
  import opened Collections
  import opened Jobs
  import opened Labels
  import opened Claims
  import opened Service
  import Config
  import Policy
  import Sorting
  import Text

  // ---------------------------------------------------------------------------------------------
  // What one poll observes.

  /** A listed job under the name the configuration gives its repository. */
  function Candidate(configured: Config.Repository, listed: ObservedJob): (r: ObservedJob)
    ensures r.repository.owner == configured.owner && r.repository.name == configured.name
    ensures r.(repository := listed.repository) == listed
  {
    listed.(repository := Repository(configured.owner, configured.name))
  }

  predicate Listed(configured: Config.Repository, listing: seq<ObservedJob>, job: ObservedJob) {
    exists k :: 0 <= k < |listing| && job.repository == Repository(configured.owner, configured.name) &&
      job.(repository := listing[k].repository) == listing[k]
  }

  /** The jobs of a repository's runs that it authorizes, in order, under the repository's own name. */
  function AuthorizedOf(configured: Config.Repository, listing: seq<ObservedJob>): (r: seq<ObservedJob>)
    ensures forall job :: job in r <==> Policy.AuthorizeJob(configured, job).allowed && Listed(configured, listing, job)
  {
    if listing == [] then []
    else
      var before := AuthorizedOf(configured, listing[..|listing| - 1]);
      var candidate := Candidate(configured, listing[|listing| - 1]);
      if Policy.AuthorizeJob(configured, candidate).allowed then before + [candidate] else before
  }

  /** The authorized jobs of the first `n` repositories. */
  function Gathered(repositories: seq<Config.Repository>, listings: seq<seq<ObservedJob>>, n: nat): seq<ObservedJob>
    requires n <= |repositories| <= |listings|
  {
    if n == 0 then []
    else Gathered(repositories, listings, n - 1) + AuthorizedOf(repositories[n - 1], listings[n - 1])
  }

  lemma {:induction false} GatheredIsObserved(settings: Settings, listings: seq<seq<ObservedJob>>, n: nat)
    requires n <= |settings.repositories| <= |listings|
    ensures forall job :: job in Gathered(settings.repositories, listings, n) ==> Observed(settings, job)
  {
    hide Policy.AuthorizeJob;
    if n > 0 {
      GatheredIsObserved(settings, listings, n - 1);
    }
  }

  method Authorize(configured: Config.Repository, listing: seq<ObservedJob>) returns (authorized: seq<ObservedJob>)
    ensures authorized == AuthorizedOf(configured, listing)
  {
    hide Policy.AuthorizeJob;
    authorized := [];
    for i := 0 to |listing|
      invariant authorized == AuthorizedOf(configured, listing[..i])
    {
      assert listing[..i + 1][..i] == listing[..i];
      var candidate := Candidate(configured, listing[i]);
      if Policy.AuthorizeJob(configured, candidate).allowed {
        authorized := authorized + [candidate];
      }
    }
    assert listing[..|listing|] == listing;
  }

  method FindConfigured(repositories: seq<Config.Repository>, repository: Repository)
    returns (configured: Option<Config.Repository>)
    ensures configured == ConfiguredRepository(repositories, repository)
  {
    hide Text.EqualFold;
    for i := 0 to |repositories|
      invariant ConfiguredRepository(repositories, repository) == ConfiguredRepository(repositories[i..], repository)
    {
      assert repositories[i..][1..] == repositories[i + 1..];
      if Text.EqualFold(repositories[i].owner, repository.owner) &&
        Text.EqualFold(repositories[i].name, repository.name) {
        return Some(repositories[i]);
      }
    }
    return None;
  }

  // ---------------------------------------------------------------------------------------------
  // Other goroutines.

  /** The state after the goroutines named in the schedule took one step each, in that order. */
  ghost function AfterWork(settings: Settings, s: State, schedule: seq<nat>): State
    decreases |schedule|
  {
    if schedule == [] then s
    else AfterWork(settings, if schedule[0] in s.workers && schedule[0] in s.registrations
                             then Worked(settings, s, schedule[0]) else s, schedule[1..])
  }

  lemma {:induction false} WorkedKeeps(settings: Settings, s: State, r: nat)
    requires r in s.workers && r in s.registrations
    ensures Worked(settings, s, r).registrations.Keys == s.registrations.Keys
  {
  }

  lemma {:induction false} AfterOne(settings: Settings, s: State, r: nat)
    ensures AfterWork(settings, s, [r]) ==
            if r in s.workers && r in s.registrations then Worked(settings, s, r) else s
  {
    hide Worked;
  }

  lemma {:induction false} BehaviourNext(settings: Settings, states: seq<State>, steps: seq<Step>, step: Step, s: State)
    requires Behaviour(settings, states, steps) && Next(settings, states[|steps|], step, s)
    ensures Behaviour(settings, states + [s], steps + [step])
  {
    hide Next;
  }

  /** Goroutines leave the poller's own state alone, and only ever give keys up. */
  lemma {:induction false} WorkKeepsPoll(settings: Settings, s: State, schedule: seq<nat>)
    ensures var s' := AfterWork(settings, s, schedule);
            && s'.poller == s.poller && s'.calls == s.calls && s'.history == s.history && s'.claims == s.claims
            && s'.active <= s.active && s'.registrations.Keys == s.registrations.Keys
            && s'.recovered == s.recovered && s'.dropped == s.dropped
    decreases |schedule|
  {
    if schedule != [] {
      hide JobKey;
      var r := schedule[0];
      var next := if r in s.workers && r in s.registrations then Worked(settings, s, r) else s;
      assert next.registrations.Keys == s.registrations.Keys;
      WorkKeepsPoll(settings, next, schedule[1..]);
    }
  }

  // ---------------------------------------------------------------------------------------------
  // Offers.

  /** What the outside does during one offer: goroutine steps and the answer while the job is fetched again
      (the job and its run's status, or an error), the value Active() returns, and the goroutine steps
      and success of naming and generating a runner. */
  datatype Answers = Answers(
    duringFetch: seq<nat>,
    fetched: Option<(ObservedJob, string)>,
    activeSeen: int,
    duringGenerate: seq<nat>,
    generates: bool)

  datatype Outcome = Failed | NoRoom | Declined | Made

  function Free(capacity: int, used: int, activeSeen: int): int {
    capacity - if activeSeen > used then activeSeen else used
  }

  /** The call an offer for `job` would make. */
  function CallFor(s: State, job: ObservedJob, configured: Config.Repository, fetched: (ObservedJob, string)): Call {
    Call(job, Candidate(configured, fetched.0), fetched.1, configured, |s.history|)
  }

  predicate Called(before: seq<Call>, after: seq<Call>, job: ObservedJob) {
    |after| == |before| + 1 && after[..|before|] == before && after[|before|].observed == job
  }

  /** What an offer must come to, given the state in which it looks for room. */
  ghost function Expected(settings: Settings, s: State, job: ObservedJob, a: Answers): Outcome {
    var configured := ConfiguredRepository(settings.repositories, job.repository);
    if a.fetched.None? then Failed
    else if configured.None? || Free(settings.capacity, |s.active|, a.activeSeen) < 1 then NoRoom
    else if !RecheckPasses(settings, job, CallFor(s, job, configured.value, a.fetched.value)) then Declined
    else if !a.generates then Failed
    else Made
  }

  /** What the outside does around one queued job. */
  datatype Turn = Turn(before: seq<nat>, activeSeen: int, beforeCheck: seq<nat>, answers: Answers)

  /** What the outside does during one poll: goroutine steps during reconciliation, whether it fails, what Active()
      then returns, the recovered count it left, goroutine steps during listing, the jobs of each repository (None
      if a list call failed), the clock, and one turn per queued job. */
  datatype World = World(
    duringReconcile: seq<nat>,
    reconcileFails: bool,
    activeAfter: int,
    recovered: nat,
    duringListing: seq<nat>,
    listings: Option<seq<seq<ObservedJob>>>,
    now: int,
    turns: nat -> Turn)

  /** What the turn of the queue's first job must come to, given the state in which it begins: nothing without room
      or while its key is active, each judged when it is looked at, and what the offer comes to otherwise. */
  ghost function TurnOutcome(settings: Settings, s: State, queue: seq<ObservedJob>, turn: Turn): Option<Outcome>
    requires queue != []
  {
    var looked := AfterWork(settings, s, turn.before);
    if Free(settings.capacity, |looked.active|, turn.activeSeen) < 1 then None
    else
      var checked := AfterWork(settings, looked.(poller := HasCapacity(queue)), turn.beforeCheck);
      if JobKey(queue[0]) in checked.active then None
      else
        var fetched := AfterWork(settings, checked.(poller := Offering(queue)), turn.answers.duringFetch);
        Some(Expected(settings, fetched, queue[0], turn.answers))
  }

  /** The outcome is that of the turn, taken in some state of the behaviour, from `from` on, with this queue left. */
  ghost predicate TurnTaken(settings: Settings, states: seq<State>, from: nat, queue: seq<ObservedJob>, turn: Turn,
                            outcome: Option<Outcome>)
    requires queue != []
  {
    exists k :: from <= k < |states| && states[k].poller == Scanning(queue) &&
                outcome == TurnOutcome(settings, states[k], queue, turn)
  }

  /** Each job got the outcome of its own turn. */
  ghost predicate TurnsTaken(settings: Settings, states: seq<State>, from: nat, queue: seq<ObservedJob>,
                             turns: nat -> Turn,
                             outcomes: seq<Option<Outcome>>)
    requires |outcomes| <= |queue|
  {
    forall i :: 0 <= i < |outcomes| ==> TurnTaken(settings, states, from, queue[i..], turns(i), outcomes[i])
  }

  lemma {:induction false} TurnsStayTaken(settings: Settings, states: seq<State>, longer: seq<State>, from: nat,
                                          queue: seq<ObservedJob>, turns: nat -> Turn, outcomes: seq<Option<Outcome>>)
    requires |outcomes| <= |queue| && states <= longer && TurnsTaken(settings, states, from, queue, turns, outcomes)
    ensures TurnsTaken(settings, longer, from, queue, turns, outcomes)
  {
    hide TurnOutcome;
    forall i | 0 <= i < |outcomes| ensures TurnTaken(settings, longer, from, queue[i..], turns(i), outcomes[i]) {
      assert TurnTaken(settings, states, from, queue[i..], turns(i), outcomes[i]);
      var k :| from <= k < |states| && states[k].poller == Scanning(queue[i..]) &&
               outcomes[i] == TurnOutcome(settings, states[k], queue[i..], turns(i));
      assert longer[k] == states[k];
    }
  }

  lemma {:induction false} NoTurns(settings: Settings, states: seq<State>, from: nat, queue: seq<ObservedJob>,
                                   turns: nat -> Turn)
    ensures TurnsTaken(settings, states, from, queue, turns, [])
  {
  }

  lemma {:induction false} NoCalls(calls: seq<Call>, queue: seq<ObservedJob>)
    ensures CallsFor(calls, calls, MadeFor(queue, []))
  {
  }

  lemma {:induction false} NextTurn(settings: Settings, before: seq<State>, states: seq<State>, from: nat,
                                    queue: seq<ObservedJob>, turns: nat -> Turn, outcomes: seq<Option<Outcome>>,
                                    outcome: Option<Outcome>)
    requires |outcomes| < |queue| && before <= states && from < |before|
    requires TurnsTaken(settings, before, from, queue, turns, outcomes)
    requires var i := |outcomes|;
             && before[|before| - 1].poller == Scanning(queue[i..])
             && outcome == TurnOutcome(settings, before[|before| - 1], queue[i..], turns(i))
    ensures TurnsTaken(settings, states, from, queue, turns, outcomes + [outcome])
  {
    hide TurnOutcome;
    TurnsStayTaken(settings, before, states, from, queue, turns, outcomes);
    var i, k := |outcomes|, |before| - 1;
    assert states[k] == before[k];
    assert TurnTaken(settings, states, from, queue[i..], turns(i), outcome);
    forall j | 0 <= j < i ensures TurnTaken(settings, states, from, queue[j..], turns(j), (outcomes + [outcome])[j]) {
      assert TurnTaken(settings, states, from, queue[j..], turns(j), outcomes[j]);
    }
  }

  /** The jobs whose offer was made, in queue order. */
  function MadeFor(queue: seq<ObservedJob>, outcomes: seq<Option<Outcome>>): seq<ObservedJob>
    requires |outcomes| <= |queue|
  {
    if outcomes == [] then []
    else
      var n := |outcomes| - 1;
      MadeFor(queue, outcomes[..n]) + if outcomes[n] == Some(Made) then [queue[n]] else []
  }

  /** The new calls are for exactly these jobs, in this order. */
  predicate CallsFor(before: seq<Call>, after: seq<Call>, jobs: seq<ObservedJob>) {
    && |after| == |before| + |jobs| && before <= after
    && forall i :: 0 <= i < |jobs| ==> after[|before| + i].observed == jobs[i]
  }

  lemma {:induction false} NextCall(before: seq<Call>, calls: seq<Call>, after: seq<Call>, queue: seq<ObservedJob>,
                                    outcomes: seq<Option<Outcome>>, outcome: Option<Outcome>)
    requires |outcomes| < |queue| && CallsFor(before, calls, MadeFor(queue, outcomes))
    requires if outcome == Some(Made) then Called(calls, after, queue[|outcomes|]) else after == calls
    ensures CallsFor(before, after, MadeFor(queue, outcomes + [outcome]))
  {
    assert (outcomes + [outcome])[..|outcomes|] == outcomes;
  }

  /** One outcome per job, None for a skipped one; a failed offer is the last thing that happens. */
  ghost predicate Ended(ok: bool, queue: seq<ObservedJob>, outcomes: seq<Option<Outcome>>) {
    && |outcomes| <= |queue|
    && (ok ==> |outcomes| == |queue| && Some(Failed) !in outcomes)
    && (!ok ==> outcomes != [] && Some(Failed) !in outcomes[..|outcomes| - 1])
    && (!ok ==> outcomes[|outcomes| - 1] == Some(Failed))
  }

  /** The jobs of a poll that are due, stamped with what the tracker noted. */
  ghost predicate BelongsInQueue(settings: Settings, e: Entries, now: int, jobs: seq<ObservedJob>, job: ObservedJob) {
    exists j :: j in jobs && JobKey(j) in KeysOf(jobs) && job == Stamp(e, now, KeysOf(jobs), settings.staleAfter, j) &&
                now >= job.firstSeenAt + settings.claimDelay
  }

  lemma {:induction false} StampsAre(h: History, e: Entries, now: int, keys: set<string>, max: nat, staleAfter: int,
                                     jobs: seq<ObservedJob>, stamped: seq<ObservedJob>)
    requires |stamped| == |jobs|
    requires forall i :: 0 <= i < |jobs| ==> StampIsTrue(h, e, now, keys, max, staleAfter, jobs[i], stamped[i])
    ensures forall i :: 0 <= i < |jobs| ==>
              JobKey(jobs[i]) in keys && stamped[i] == Stamp(e, now, keys, staleAfter, jobs[i])
  {
    hide JobKey, Stamp, Sightings, ChainStart, NoOverflow, Last;
  }

  lemma {:induction false} QueueIsExact(settings: Settings, e: Entries, now: int, jobs: seq<ObservedJob>,
                                        matching: seq<ObservedJob>, tracked: seq<ObservedJob>, queue: seq<ObservedJob>)
    requires (forall job :: job in matching <==> job in jobs) && KeysOf(matching) == KeysOf(jobs)
    requires |tracked| == |matching|
    requires forall i :: 0 <= i < |matching| ==>
               JobKey(matching[i]) in KeysOf(matching) &&
               tracked[i] == Stamp(e, now, KeysOf(matching), settings.staleAfter, matching[i])
    requires multiset(queue) == multiset(Due(now, settings.claimDelay, tracked))
    ensures forall job :: job in queue <==> BelongsInQueue(settings, e, now, jobs, job)
  {
    hide JobKey, KeysOf, Stamp;
    var due := Due(now, settings.claimDelay, tracked);
    hide Due;
    forall job ensures job in queue <==> BelongsInQueue(settings, e, now, jobs, job) {
      assert job in multiset(queue) <==> job in multiset(due);
      if job in due {
        var i :| 0 <= i < |tracked| && tracked[i] == job;
        assert matching[i] in jobs;
      }
      if BelongsInQueue(settings, e, now, jobs, job) {
        var j :| j in jobs && JobKey(j) in KeysOf(jobs) && job == Stamp(e, now, KeysOf(jobs), settings.staleAfter, j) &&
                 now >= job.firstSeenAt + settings.claimDelay;
        var i :| 0 <= i < |matching| && matching[i] == j;
        assert tracked[i] == job;
      }
    }
  }

  lemma {:induction false} TrackedQueue(settings: Settings, h: History, e: Entries, now: int, jobs: seq<ObservedJob>,
                                        matching: seq<ObservedJob>, tracked: seq<ObservedJob>, queue: seq<ObservedJob>)
    requires (forall job :: job in matching <==> job in jobs) && KeysOf(matching) == KeysOf(jobs)
    requires |tracked| == |matching| && forall i :: 0 <= i < |matching| ==>
               StampIsTrue(h, e, now, KeysOf(matching), settings.maxEntries, settings.staleAfter, matching[i],
                 tracked[i])
    requires multiset(queue) == multiset(Due(now, settings.claimDelay, tracked))
    ensures forall job :: job in queue <==> BelongsInQueue(settings, e, now, jobs, job)
  {
    hide JobKey, KeysOf, Stamp, StampIsTrue, Due, BelongsInQueue;
    StampsAre(h, e, now, KeysOf(matching), settings.maxEntries, settings.staleAfter, matching, tracked);
    QueueIsExact(settings, e, now, jobs, matching, tracked, queue);
  }

  ghost function Matched(settings: Settings, world: World): seq<ObservedJob>
    requires world.listings.Some? && |world.listings.value| == |settings.repositories|
  {
    Filtered(Gathered(settings.repositories, world.listings.value, |settings.repositories|), settings.labels)
  }

  lemma {:induction false} SameJobsSameKeys(a: seq<ObservedJob>, b: seq<ObservedJob>)
    requires forall job :: job in a <==> job in b
    ensures KeysOf(a) == KeysOf(b)
  {
    hide JobKey;
    KeysOfMembers(a);
    KeysOfMembers(b);
    hide KeysOf;
    forall key ensures key in KeysOf(a) <==> key in KeysOf(b) {
      if key in KeysOf(a) {
        var i :| 0 <= i < |a| && JobKey(a[i]) == key;
        assert a[i] in b;
      }
      if key in KeysOf(b) {
        var i :| 0 <= i < |b| && JobKey(b[i]) == key;
        assert b[i] in a;
      }
    }
  }

  /** The tracker's and the queue's contracts together are what a step of the poller calls an observation. */
  lemma {:induction false} ObservationStep(settings: Settings, s: State, now: int, matching: seq<ObservedJob>,
                                           tracked: seq<ObservedJob>,
                        queue: seq<ObservedJob>, s': State)
    requires s.poller.Ready? && (s.history != [] ==> s.history[|s.history| - 1].now <= now)
    requires forall job :: job in matching ==> Observed(settings, job) && Matching(job, settings.labels)
    requires |tracked| == |matching| && forall i :: 0 <= i < |matching| ==>
               StampIsTrue(s.history, s.claims, now, KeysOf(matching), settings.maxEntries, settings.staleAfter,
                 matching[i], tracked[i])
    requires ObserveStep(s.claims, now, KeysOf(matching), settings.maxEntries, settings.staleAfter, s'.claims)
    requires multiset(queue) == multiset(Due(now, settings.claimDelay, tracked))
    requires s' ==
        s.(claims := s'.claims, history := s.history + [Poll(now, KeysOf(matching))], poller := Scanning(queue))
    ensures PollStep(settings, s, s')
  {
    hide JobKey, Observed, Matching, Due, ObserveStep, KeysOf, Sightings, ChainStart, Last, NoOverflow, Stamp, Advance;
    assert Observes(settings, s, now, matching, tracked, queue, s');
  }

  class Participant {
    const settings: Settings
    const claims: ClaimTracker
    var active: set<string>
    var workers: map<nat, Worker>
    var local: int
    var recovered: nat
    var nextRegistration: nat
    ghost var poller: Poller
    ghost var registrations: map<nat, Registration>
    ghost var dropped: set<nat>
    ghost var launched: set<nat>
    ghost var calls: seq<Call>
    /** The behaviour so far. */
    ghost var states: seq<State>
    ghost var steps: seq<Step>

    ghost function Current(): State
      reads this, claims
    {
      State(active, workers, local, recovered, poller, claims.entries, registrations, dropped, launched,
        claims.history, calls)
    }

    ghost predicate Valid()
      reads this, claims
    {
      && claims.Valid() && claims.maxEntries == settings.maxEntries && claims.staleAfter == settings.staleAfter
      && (forall r :: r in registrations ==> r < nextRegistration)
      && Behaviour(settings, states, steps) && states[|steps|] == Current()
    }

    constructor (settings: Settings)
      requires settings.capacity >= 0 && settings.staleAfter >= 0
      ensures Valid() && Current() == Initial() && this.settings == settings && fresh(claims)
    {
      this.settings := settings;
      claims := new ClaimTracker(settings.maxEntries, settings.staleAfter);
      active, workers, local, recovered, nextRegistration := {}, map[], 0, 0, 0;
      poller, registrations, dropped, launched, calls := Poller.Idle, map[], {}, {}, [];
      states, steps := [Initial()], [];
    }

    /** Records a step of the behaviour. */
    ghost method Took(step: Step)
      requires Behaviour(settings, states, steps) && Next(settings, states[|steps|], step, Current())
      modifies this`states, this`steps
      ensures Behaviour(settings, states, steps) && states[|steps|] == Current()
      ensures old(states) <= states
    {
      BehaviourNext(settings, states, steps, step, Current());
      states, steps := states + [Current()], steps + [step];
    }

    /** A step of the poller that changes nothing but its own state. */
    ghost method Move(next: Poller)
      requires Valid() && PollStep(settings, Current(), Current().(poller := next))
      modifies this`poller, this`states, this`steps
      ensures Valid() && Current() == old(Current()).(poller := next)
      ensures old(states) <= states
    {
      hide PollStep, Behaviour;
      poller := next;
      Took(Step.Poller);
    }

    /** The body of the goroutine serving registration `r`, one step at a time: counting itself in Run's
        admission check, its verdict, leaving Run, the delete attempt, and giving up its key. */
    method Serve(r: nat)
      requires r in workers && r in registrations
      modifies this`active, this`workers, this`local, this`registrations, this`launched
      ensures Current() == Worked(settings, old(Current()), r)
    {
      var worker := workers[r];
      match worker.pc {
        case Spawned =>
          local := local + 1;
          workers := workers[r := worker.(pc := Counted(local))];
          registrations := registrations[r := registrations[r].(runs := registrations[r].runs + 1)];
        case Counted(sum) =>
          if sum + recovered > settings.capacity {
            workers := workers[r := worker.(pc := BackingOut)];
          } else {
            workers := workers[r := worker.(pc := Launched)];
            launched := launched + {r};
          }
        case BackingOut =>
          local := local - 1;
          workers := workers[r := worker.(pc := Returned(true))];
        case Launched =>
          local := local - 1;
          workers := workers[r := worker.(pc := Returned(false))];
        case Returned(_) =>
          workers := workers[r := worker.(pc := Deleted)];
          registrations := registrations[r := registrations[r].(deletes := registrations[r].deletes + 1)];
        case Deleted =>
          active := active - {worker.key};
          workers := workers - {r};
      }
    }

    /** A goroutine that exists takes its next step. */
    method Work(r: nat)
      requires Valid()
      modifies this
      ensures Valid() && old(states) <= states
      ensures Current() == AfterWork(settings, old(Current()), [r])
    {
      hide Behaviour, JobKey, Worked, AfterWork;
      AfterOne(settings, Current(), r);
      if r in workers {
        InStep(r);
        WorkedKeeps(settings, Current(), r);
        Serve(r);
        Took(Step.Work(r));
      }
    }

    /** A goroutine's registration is on record. */
    ghost method InStep(r: nat)
      requires Valid() && r in workers
      ensures r in registrations
    {
      BehaviourInv(settings, states, steps, |steps|);
      assert WorkerOk(Current(), r, workers[r], settings.capacity);
    }

    lemma {:induction false} StillInOrder()
      requires Valid()
      ensures Inv(Current(), settings.capacity)
    {
      BehaviourInv(settings, states, steps, |steps|);
    }

    method Others(schedule: seq<nat>)
      requires Valid()
      modifies this
      ensures Valid() && old(states) <= states
      ensures Current() == AfterWork(settings, old(Current()), schedule)
    {
      for i := 0 to |schedule|
        invariant Valid() && old(states) <= states
        invariant AfterWork(settings, old(Current()), schedule) == AfterWork(settings, Current(), schedule[i..])
      {
        assert schedule[i..][1..] == schedule[i + 1..];
        Work(schedule[i]);
      }
    }

    /** Room is reported exactly when both counts are below the capacity; a Run started then would be counted
        within it. */
    method LocalCapacity(activeSeen: int) returns (free: int)
      requires Valid()
      ensures free == Free(settings.capacity, |active|, activeSeen)
      ensures free >= 1 <==> |active| < settings.capacity && activeSeen < settings.capacity
      ensures free >= 1 ==> local + 1 <= settings.capacity && |workers| + 1 <= settings.capacity
    {
      BehaviourInv(settings, states, steps, |steps|);
      InvSizes(Current(), settings.capacity);
      var used := |active|;
      if activeSeen > used {
        used := activeSeen;
      }
      return settings.capacity - used;
    }

    /** A job is found active exactly if some goroutine serves its key. */
    method IsActive(job: ObservedJob) returns (busy: bool)
      requires Valid()
      ensures busy <==> JobKey(job) in active
      ensures busy <==> exists r :: r in workers && workers[r].key == JobKey(job)
    {
      hide JobKey, Behaviour;
      StillInOrder();
      ActiveIsServed(Current(), settings.capacity);
      return JobKey(job) in active;
    }

    /** The recheck: for an observed job and a valid configuration it comes down to consistency, because the
        second authorization and the label check then agree with the first. */
    method Recheck(configured: Config.Repository, observed: ObservedJob, final: ObservedJob, runStatus: string)
      returns (passes: bool)
      ensures passes <==>
              && Policy.FinalMetadataConsistent(configured, observed, final, runStatus)
              && LabelsCompatible(final.labels, settings.labels)
              && Policy.AuthorizeJob(configured, final).allowed
      ensures passes <==>
              && Policy.StillTheSame(configured, observed, final, runStatus)
              && Policy.AllNamed(final.labels, settings.labels)
              && Policy.Authorized(configured, final)
      ensures Config.ValidRepositories(settings.repositories, settings.labels) &&
              ConfiguredRepository(settings.repositories, observed.repository) == Some(configured) &&
              Observed(settings, observed) && Matching(observed, settings.labels) ==>
                (passes <==> Policy.FinalMetadataConsistent(configured, observed, final, runStatus))
    {
      hide JobKey, Config.ValidRepositories, Observed, Matching, LabelsCompatible, Policy.AuthorizeJob, Behaviour,
        Policy.FinalMetadataConsistent, ConfiguredRepository, Policy.StillTheSame, Policy.AllNamed, Policy.Authorized;
      Policy.ConsistentExactlyWhen(configured, observed, final, runStatus);
      Policy.AllNamedMeans(final.labels, settings.labels);
      Policy.AuthorizedExactlyWhen(configured, final);
      if Config.ValidRepositories(settings.repositories, settings.labels) &&
         Observed(settings, observed) && Matching(observed, settings.labels) {
        SecondAuthorizationAgrees(settings, observed, final, runStatus);
      }
      var compatible := LabelsMatch(final.labels, settings.labels);
      if !Policy.FinalMetadataConsistent(configured, observed, final, runStatus) || !compatible {
        return false;
      }
      return Policy.AuthorizeJob(configured, final).allowed;
    }

    /** GenerateJITConfig answers with a registration that did not exist before. */
    method Generate(ghost queue: seq<ObservedJob>, ghost call: Call) returns (registration: nat)
      requires Valid() && queue != [] && poller == Rechecked(queue, call)
      modifies this
      ensures Valid() && old(states) <= states
      ensures poller == Generated(queue, registration)
      ensures calls == old(calls) + [call]
    {
      hide JobKey;
      registration := nextRegistration;
      nextRegistration := nextRegistration + 1;
      registrations := registrations[registration := Registration(JobKey(queue[0]), 0, 0)];
      poller := Generated(queue, registration);
      calls := calls + [call];
      Took(Step.Poller);
    }

    /** Takes the key and starts the goroutine.  Giving the registration up instead is dead code. */
    method Admit(ghost queue: seq<ObservedJob>, job: ObservedJob, registration: nat, schedule: seq<nat>)
      requires Valid() && queue != [] && queue[0] == job && poller == Generated(queue, registration)
      modifies this
      ensures Valid() && old(states) <= states
      ensures poller == Scanning(queue[1..])
      ensures JobKey(job) in active && registration in workers && calls == old(calls)
    {
      hide JobKey, AfterWork;
      WorkKeepsPoll(settings, Current(), schedule);
      Others(schedule);
      DropBranchUnreachable(settings, states, steps, |steps|);
      var key := JobKey(job);
      if key in active || |active| >= settings.capacity {
        assert false;
      } else {
        active := active + {key};
        workers := workers[registration := Worker(key, Spawned)];
        poller := Scanning(queue[1..]);
        Took(Step.Poller);
      }
    }

    /** Generates a registration for a rechecked job and hands it over. */
    method Launch(ghost queue: seq<ObservedJob>, job: ObservedJob, ghost call: Call, a: Answers)
      returns (outcome: Outcome)
      requires Valid() && queue != [] && queue[0] == job && poller == Offering(queue)
      requires |active| < settings.capacity && RecheckPasses(settings, job, call) && call.poll == |claims.history|
      modifies this
      ensures Valid() && old(states) <= states
      ensures outcome == if a.generates then Made else Failed
      ensures poller == if outcome.Failed? then Poller.Idle else Scanning(queue[1..])
      ensures if outcome.Made? then JobKey(job) in active && Called(old(calls), calls, job) else calls == old(calls)
    {
      hide JobKey, Behaviour, Policy.FinalMetadataConsistent, Policy.AuthorizeJob, LabelsCompatible;
      Move(Rechecked(queue, call));
      if !a.generates {
        Move(Poller.Idle);
        return Failed;
      }
      var registration := Generate(queue, call);
      Admit(queue, job, registration, a.duringGenerate);
      return Made;
    }

    /** Offers a runner for the queue's first job: fetches it again, looks for room, rechecks, generates a
        registration and hands it to a new goroutine. */
    method Offer(ghost queue: seq<ObservedJob>, job: ObservedJob, a: Answers) returns (outcome: Outcome)
      requires Valid() && queue != [] && queue[0] == job && poller == Offering(queue)
      modifies this
      ensures Valid() && old(states) <= states
      ensures outcome == Expected(settings, AfterWork(settings, old(Current()), a.duringFetch), job, a)
      ensures poller == if outcome.Failed? then Poller.Idle else Scanning(queue[1..])
      ensures if outcome.Made? then JobKey(job) in active && Called(old(calls), calls, job) else calls == old(calls)
    {
      hide JobKey, Behaviour, AfterWork, Policy.FinalMetadataConsistent, Policy.AuthorizeJob, LabelsCompatible;
      WorkKeepsPoll(settings, Current(), a.duringFetch);
      Others(a.duringFetch);
      if a.fetched.None? {
        Move(Poller.Idle);
        return Failed;
      }
      var configured := FindConfigured(settings.repositories, job.repository);
      var free := LocalCapacity(a.activeSeen);
      if configured.None? || free < 1 {
        Move(Scanning(queue[1..]));
        return NoRoom;
      }
      ghost var call := CallFor(Current(), job, configured.value, a.fetched.value);
      var final := Candidate(configured.value, a.fetched.value.0);
      var passes := Recheck(configured.value, job, final, a.fetched.value.1);
      if !passes {
        Move(Scanning(queue[1..]));
        return Declined;
      }
      outcome := Launch(queue, job, call, a);
    }

    /** Lists the jobs of every configured repository and keeps the authorized ones; one failed list call
        fails the poll. */
    method Observe(listings: Option<seq<seq<ObservedJob>>>) returns (observed: Option<seq<ObservedJob>>)
      requires listings.Some? ==> |listings.value| == |settings.repositories|
      ensures observed == if listings.None? then None
                          else Some(Gathered(settings.repositories, listings.value, |settings.repositories|))
    {
      if listings.None? {
        return None;
      }
      var jobs := [];
      for i := 0 to |settings.repositories|
        invariant jobs == Gathered(settings.repositories, listings.value, i)
      {
        var authorized := Authorize(settings.repositories[i], listings.value[i]);
        jobs := jobs + authorized;
      }
      return Some(jobs);
    }

    method Match(jobs: seq<ObservedJob>) returns (matching: seq<ObservedJob>)
      ensures forall job :: job in matching <==> job in Filtered(jobs, settings.labels)
      ensures KeysOf(matching) == KeysOf(Filtered(jobs, settings.labels))
    {
      hide JobKey, KeysOf, Filtered;
      matching := MatchingQueuedJobs(jobs, settings.labels);
      forall job ensures job in matching <==> job in Filtered(jobs, settings.labels) {
        assert job in multiset(matching) <==> job in multiset(Filtered(jobs, settings.labels));
      }
      SameJobsSameKeys(matching, Filtered(jobs, settings.labels));
    }

    /** The part of a poll up to the claim queue. */
    method Track(jobs: seq<ObservedJob>, now: int) returns (queue: seq<ObservedJob>)
      requires Valid() && poller == Ready
      requires forall job :: job in jobs ==> Observed(settings, job)
      requires claims.history != [] ==> claims.history[|claims.history| - 1].now <= now
      modifies this, claims
      ensures Valid() && old(states) <= states
      ensures poller == Scanning(queue)
      ensures InClaimOrder(queue)
      ensures forall job :: job in queue <==>
                BelongsInQueue(settings, old(claims.entries), now, Filtered(jobs, settings.labels), job)
      ensures claims.history == old(claims.history) + [Poll(now, KeysOf(Filtered(jobs, settings.labels)))]
      ensures calls == old(calls)
    {
      hide JobKey, Observed, Matching, Behaviour, Filtered, Due, ObserveStep, PollStep, StampIsTrue, KeysOf, Stamp,
        BelongsInQueue, Sorting.Sorted, ClaimOrder, InClaimOrder, Clock, Tracks;
      ghost var before := Current();
      var matching := Match(jobs);
      var tracked := claims.Observe(now, matching);
      queue := EligibleClaims(now, settings.claimDelay, tracked);
      poller := Scanning(queue);
      ObservationStep(settings, before, now, matching, tracked, queue, Current());
      Took(Step.Poller);
      TrackedQueue(settings, before.history, before.claims, now, Filtered(jobs, settings.labels), matching, tracked,
        queue);
    }

    /** One job of the claim queue: skipped without room or while a runner serves it, offered otherwise. */
    method Consider(ghost queue: seq<ObservedJob>, job: ObservedJob, turn: Turn) returns (outcome: Option<Outcome>)
      requires Valid() && queue != [] && queue[0] == job && poller == Scanning(queue)
      modifies this
      ensures Valid() && old(states) <= states
      ensures outcome == TurnOutcome(settings, old(Current()), queue, turn)
      ensures poller == if outcome == Some(Failed) then Poller.Idle else Scanning(queue[1..])
      ensures if outcome == Some(Made) then Called(old(calls), calls, job) else calls == old(calls)
    {
      hide JobKey, Behaviour, AfterWork, Expected, Free;
      WorkKeepsPoll(settings, Current(), turn.before);
      Others(turn.before);
      var free := LocalCapacity(turn.activeSeen);
      if free < 1 {
        Move(Scanning(queue[1..]));
        return None;
      }
      Move(HasCapacity(queue));
      WorkKeepsPoll(settings, Current(), turn.beforeCheck);
      Others(turn.beforeCheck);
      var busy := IsActive(job);
      if busy {
        Move(Scanning(queue[1..]));
        return None;
      }
      Move(Offering(queue));
      var result := Offer(queue, job, turn.answers);
      return Some(result);
    }

    lemma {:induction false} LastIsCurrent()
      requires Valid()
      ensures states != [] && states[|states| - 1] == Current()
    {
    }

    /** The claim queue in order, up to the first failed offer. */
    method OfferAll(queue: seq<ObservedJob>, turns: nat -> Turn) returns (ok: bool, outcomes: seq<Option<Outcome>>)
      requires Valid() && poller == Scanning(queue)
      modifies this
      ensures Valid() && old(states) <= states && poller == Poller.Idle
      ensures Ended(ok, queue, outcomes)
      ensures TurnsTaken(settings, states, |old(states)| - 1, queue, turns, outcomes)
      ensures CallsFor(old(calls), calls, MadeFor(queue, outcomes))
    {
      hide JobKey, Behaviour, TurnOutcome, TurnsTaken, CallsFor, MadeFor, Called, Free;
      ok, outcomes := true, [];
      LastIsCurrent();
      ghost var from := |states| - 1;
      NoTurns(settings, states, from, queue, turns);
      NoCalls(calls, queue);
      for i := 0 to |queue|
        invariant Valid() && old(states) <= states && poller == Scanning(queue[i..])
        invariant |outcomes| == i && Some(Failed) !in outcomes
        invariant TurnsTaken(settings, states, from, queue, turns, outcomes)
        invariant CallsFor(old(calls), calls, MadeFor(queue, outcomes))
      {
        assert queue[i..][1..] == queue[i + 1..];
        ghost var before, callsBefore := states, calls;
        LastIsCurrent();
        var outcome := Consider(queue[i..], queue[i], turns(i));
        NextTurn(settings, before, states, from, queue, turns, outcomes, outcome);
        NextCall(old(calls), callsBefore, calls, queue, outcomes, outcome);
        outcomes := outcomes + [outcome];
        if outcome == Some(Failed) {
          return false, outcomes;
        }
      }
      ghost var before := states;
      Move(Poller.Idle);
      TurnsStayTaken(settings, before, states, from, queue, turns, outcomes);
    }

    /** The poll's first act; a failed reconciliation ends it only when there is no capacity anyway. */
    method Reconcile(world: World) returns (ready: bool)
      requires Valid() && poller == Poller.Idle
      modifies this
      ensures Valid() && old(states) <= states && calls == old(calls)
      ensures recovered == world.recovered
      ensures ready <==> !(world.reconcileFails && world.activeAfter >= settings.capacity)
      ensures poller == if ready then Ready else Poller.Idle
    {
      hide Behaviour, AfterWork;
      WorkKeepsPoll(settings, Current(), world.duringReconcile);
      Others(world.duringReconcile);
      recovered := world.recovered;
      ready := !(world.reconcileFails && world.activeAfter >= settings.capacity);
      poller := if ready then Ready else Poller.Idle;
      Took(Step.Poller);
    }

    /** One poll.  It ends with the poller idle again, and fails exactly when reconciliation failed with no
        capacity left, a list call failed, or an offer failed, which ends the poll. */
    method PollOnce(world: World) returns (ok: bool, queue: seq<ObservedJob>, outcomes: seq<Option<Outcome>>)
      requires Valid() && poller == Poller.Idle
      requires world.listings.Some? ==> |world.listings.value| == |settings.repositories|
      requires claims.history != [] ==> claims.history[|claims.history| - 1].now <= world.now
      modifies this, claims
      ensures Valid() && old(states) <= states && poller == Poller.Idle
      ensures var polled := !(world.reconcileFails && world.activeAfter >= settings.capacity) && world.listings.Some?;
              if polled then
                && InClaimOrder(queue)
                && (forall job :: job in queue <==>
                      BelongsInQueue(settings, old(claims.entries), world.now, Matched(settings, world), job))
                && claims.history == old(claims.history) + [Poll(world.now, KeysOf(Matched(settings, world)))]
                && Ended(ok, queue, outcomes)
                && TurnsTaken(settings, states, |old(states)| - 1, queue, world.turns, outcomes)
              else
                !ok && queue == [] && outcomes == [] && claims.history == old(claims.history)
      ensures |outcomes| <= |queue| && CallsFor(old(calls), calls, MadeFor(queue, outcomes))
    {
      hide Behaviour, Filtered, Gathered, KeysOf, Observed, BelongsInQueue, InClaimOrder;
      ok, queue, outcomes := false, [], [];
      var ready := Reconcile(world);
      if !ready {
        return;
      }
      WorkKeepsPoll(settings, Current(), world.duringListing);
      Others(world.duringListing);
      var jobs := Observe(world.listings);
      if jobs.None? {
        Move(Poller.Idle);
        return;
      }
      GatheredIsObserved(settings, world.listings.value, |settings.repositories|);
      queue := Track(jobs.value, world.now);
      ok, outcomes := OfferAll(queue, world.turns);
    }

    /** What every state of the running service guarantees, whatever its polls and goroutines did. */
    lemma {:induction false} AlwaysSafe()
      requires Valid()
      ensures dropped == {} && local <= |active| <= settings.capacity
      ensures |Outstanding(Current())| <= settings.capacity
      ensures forall i :: 0 <= i < |calls| ==> Justified(settings, claims.history, calls[i])
    {
      hide Outstanding, Justified;
      var n := |steps|;
      DropBranchUnreachable(settings, states, steps, n);
      RefusalNeedsLeftovers(settings, states, steps, n);
      OutstandingRegistrationsBounded(settings, states, steps, n);
      forall i | 0 <= i < |calls| ensures Justified(settings, claims.history, calls[i]) {
        OffersAreJustified(settings, states, steps, n, i);
      }
    }
  }
}
