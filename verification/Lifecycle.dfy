/** The runner lifecycle as a protocol: any number of Run calls, the reconciler, processes that exit on
    their own, and crashes of the whole participant, interleaved one step at a time
    (internal/runner/manager.go).  Every write, delete, start, inspection and termination may fail. */
module Lifecycle {
  import opened Collections
  import opened Instances

  // ---------------------------------------------------------------------------------------------
  // State.

  /** Progress of one removeInstance call; `saved` is the manifest it read before deleting it. */
  datatype Removing = Clearing | Emptied(saved: Option<Manifest>) | Bare(saved: Option<Manifest>)
                    | Restoring(manifest: Manifest) | Gone | Stuck

  /** Where a Run call is; each constructor names the step it is about to take. */
  datatype PC =
    | Copying
    | SavePreparing
    | Abandon(removal: Removing)
    | Start
    | SaveFailed
    | SaveWaiting
    | StopUnrecorded
    | Watch
    | SaveAssigned
    | StopUnsaved
    | Serve
    | StopTimedOut
    | StopCancelled(serving: bool)
    | Drain(serving: bool)
    | SaveOutcome
    | SaveCleaning
    | Remove(removal: Removing)
    | SaveCleanupFailed
    | Leave

  /** A Run call: its program counter and its own copy of the manifest. */
  datatype Thread = Thread(pc: PC, manifest: Manifest)

  datatype Reconciler =
    | Idle
    | Listing(listed: set<string>)
    | Scanning(todo: set<string>)
    | Reading(id: string, todo: set<string>)
    | Inspecting(id: string, manifest: Manifest, todo: set<string>)
    | Ending(id: string, manifest: Manifest, todo: set<string>)
    | Discarding(id: string, removal: Removing, todo: set<string>)

  /** `disk` maps each instance directory to its manifest, if it holds a valid one.  The last four
      fields are history: IDs ever drawn, the instance each process was started for, the manifest last
      present in each directory, and processes excused by a named fault. */
  datatype State = State(
    disk: map<string, Option<Manifest>>,
    live: set<ProcessIdentity>,
    owned: set<string>,
    runs: map<string, Thread>,
    reconciler: Reconciler,
    used: set<string>,
    startedFor: map<ProcessIdentity, string>,
    seen: map<string, Manifest>,
    excused: set<ProcessIdentity>)

  const NO_PROCESS := ProcessIdentity(0, "", "")

  function Fresh(id: string, deadline: int): Manifest {
    Manifest(SCHEMA_VERSION, id, NO_PROCESS, Preparing, deadline, 0)
  }

  function Initial(): State {
    State(map[], {}, {}, map[], Idle, {}, map[], map[], {})
  }

  // ---------------------------------------------------------------------------------------------
  // Steps.

  datatype Step = Begin(id: string) | Run(id: string) | Reconcile | Exit(process: ProcessIdentity) | Crash

  function Remember(seen: map<string, Manifest>, id: string, disk: map<string, Option<Manifest>>)
    : map<string, Manifest>
  {
    if id in disk && disk[id].Some? then seen[id := disk[id].value] else seen
  }

  /** Nothing outside the calling thread changes. */
  predicate Silent(s: State, s': State) {
    s'.disk == s.disk && s'.live == s.live && s'.startedFor == s.startedFor && s'.excused == s.excused
  }

  /** An atomic manifest replacement, which succeeds or changes nothing. */
  predicate Saves(s: State, id: string, manifest: Manifest, ok: bool, s': State) {
    && s'.live == s.live && s'.startedFor == s.startedFor && s'.excused == s.excused
    && if ok then id in s.disk && s'.disk == s.disk[id := Some(manifest)] else s'.disk == s.disk
  }

  /** terminate: on success the process is gone; a failure leaves it as it is. */
  predicate Stops(s: State, process: ProcessIdentity, ok: bool, s': State) {
    && s'.disk == s.disk && s'.startedFor == s.startedFor
    && s'.live == if ok then s.live - {process} else s.live
  }

  /** One step of removeInstance; reading the manifest may fail. */
  predicate Removes(disk: map<string, Option<Manifest>>, id: string, r: Removing,
                    disk': map<string, Option<Manifest>>, r': Removing) {
    match r
    case Clearing =>
      && disk' == disk
      && if id !in disk then r' == Gone
         else r' == Stuck || r' == Emptied(None) || r' == Emptied(disk[id])
    case Emptied(saved) =>
      || (disk' == disk && r' == Stuck)
      || (id in disk && disk' == disk[id := None] && r' == Bare(saved))
    case Bare(saved) =>
      || (disk' == disk - {id} && r' == Gone)
      || (disk' == disk && r' == if saved.Some? then Restoring(saved.value) else Stuck)
    case Restoring(manifest) =>
      r' == Stuck && id in disk && (disk' == disk || disk' == disk[id := Some(manifest)])
    case Gone => false
    case Stuck => false
  }

  predicate Ongoing(r: Removing) {
    !r.Gone? && !r.Stuck?
  }

  /** What one step of a Run call does to its thread and the rest. */
  predicate ThreadStep(s: State, id: string, t: Thread, t': Thread, s': State) {
    var m := t.manifest;
    var process := m.process;
    match t.pc
    case Copying =>
      || (t' == t && id !in s.disk && s'.disk == s.disk[id := None] && Silent(s.(disk := s'.disk), s'))
      || (t' == Thread(SavePreparing, m) && id in s.disk && Silent(s, s'))
      || (t' == Thread(Abandon(Clearing), m) && Silent(s, s'))
    case SavePreparing =>
      || (Saves(s, id, m, true, s') && t' == Thread(Start, m))
      || (Saves(s, id, m, false, s') && t' == Thread(Abandon(Clearing), m))
    case Abandon(r) =>
      && Silent(s.(disk := s'.disk), s')
      && t'.manifest == m
      && ((t'.pc.Abandon? && Removes(s.disk, id, r, s'.disk, t'.pc.removal) && Ongoing(t'.pc.removal))
          || (t'.pc == Leave && (Removes(s.disk, id, r, s'.disk, Gone) || Removes(s.disk, id, r, s'.disk, Stuck))))
    case Start =>
      || (Silent(s, s') && t' == Thread(SaveFailed, m.(phase := Failed)))
      || (&& t'.pc == SaveWaiting
          && t'.manifest == m.(process := t'.manifest.process, phase := Waiting)
          && t'.manifest.process.pid != 0 && t'.manifest.process !in s.startedFor
          && s'.disk == s.disk && s'.excused == s.excused
          && s'.live == s.live + {t'.manifest.process}
          && s'.startedFor == s.startedFor[t'.manifest.process := id])
    case SaveFailed =>
      (Saves(s, id, m, true, s') || Saves(s, id, m, false, s')) && t' == Thread(SaveCleaning, m)
    case SaveWaiting =>
      || (Saves(s, id, m, true, s') && t' == Thread(Watch, m))
      || (Saves(s, id, m, false, s') && t' == Thread(StopUnrecorded, m))
    case StopUnrecorded =>
      && t' == Thread(SaveCleaning, m)
      && ((Stops(s, process, true, s') && s'.excused == s.excused)
          || (Stops(s, process, false, s') && s'.excused == s.excused + {process}))
    case Watch =>
      && Silent(s, s')
      && (|| (process !in s.live && t' == Thread(SaveOutcome, m.(phase := Exited)))
          || t' == Thread(SaveAssigned, m.(phase := Assigned))
          || t' == Thread(StopTimedOut, m.(phase := TimedOut))
          || t' == Thread(StopCancelled(false), m))
    case SaveAssigned =>
      || (Saves(s, id, m, true, s') && t' == Thread(Serve, m))
      || (Saves(s, id, m, false, s') && t' == Thread(StopUnsaved, m))
    case StopUnsaved =>
      && t' == Thread(SaveCleaning, m)
      && ((Stops(s, process, true, s') && s'.excused == s.excused)
          || (Stops(s, process, false, s') && s'.excused == s.excused + {process}))
    case Serve =>
      && Silent(s, s')
      && ((process !in s.live && t' == Thread(SaveOutcome, m.(phase := Exited)))
          || t' == Thread(StopCancelled(true), m))
    case StopTimedOut =>
      || (Stops(s, process, true, s') && s'.excused == s.excused && t' == Thread(Drain(false), m))
      || (Stops(s, process, false, s') && s'.excused == s.excused + {process} && t' == Thread(SaveOutcome, m))
    case StopCancelled(serving) =>
      && (Stops(s, process, true, s') || Stops(s, process, false, s')) && s'.excused == s.excused
      && t' == Thread(Drain(serving), m)
    case Drain(serving) =>
      && process !in s.live && Silent(s, s')
      && t' == Thread(SaveOutcome, if serving then m.(phase := Exited) else m)
    case SaveOutcome =>
      (Saves(s, id, m, true, s') || Saves(s, id, m, false, s')) && t' == Thread(SaveCleaning, m)
    case SaveCleaning =>
      var cleaning := m.(phase := Cleaning, cleanupAttempts := m.cleanupAttempts + 1);
      (Saves(s, id, cleaning, true, s') || Saves(s, id, cleaning, false, s')) &&
        t' == Thread(Remove(Clearing), cleaning)
    case Remove(r) =>
      && Silent(s.(disk := s'.disk), s')
      && t'.manifest == m
      && ((t'.pc.Remove? && Removes(s.disk, id, r, s'.disk, t'.pc.removal) && Ongoing(t'.pc.removal))
          || (t'.pc == Leave && Removes(s.disk, id, r, s'.disk, Gone))
          || (t'.pc == SaveCleanupFailed && Removes(s.disk, id, r, s'.disk, Stuck)))
    case SaveCleanupFailed =>
      var stuck := m.(phase := CleanupFailed);
      (Saves(s, id, stuck, true, s') || Saves(s, id, stuck, false, s')) && t' == Thread(Leave, stuck)
    case Leave => false
  }

  predicate RunStep(s: State, id: string, s': State) {
    && id in s.runs
    && s'.used == s.used && s'.reconciler == s.reconciler && s'.seen == Remember(s.seen, id, s'.disk)
    && if s.runs[id].pc.Leave? then
         Silent(s, s') && s'.owned == s.owned - {id} && s'.runs == s.runs - {id}
       else
         && s'.owned == s.owned && id in s'.runs && s'.runs == s.runs[id := s'.runs[id]]
         && ThreadStep(s, id, s.runs[id], s'.runs[id], s')
  }

  /** A new Run draws an unused ID and publishes its ownership before anything exists on disk. */
  predicate BeginStep(s: State, id: string, s': State) {
    && id !in s.used
    && id in s'.runs && s'.runs[id] == Thread(Copying, Fresh(id, s'.runs[id].manifest.acquisitionDeadline))
    && s' == s.(owned := s.owned + {id}, used := s.used + {id}, runs := s.runs[id := s'.runs[id]])
  }

  predicate ReconcileStep(s: State, s': State) {
    && s'.owned == s.owned && s'.runs == s.runs && s'.used == s.used && s'.startedFor == s.startedFor
    && match s.reconciler
       case Idle => Quiet(s, s') && s'.reconciler == Listing({})
       case Listing(listed) =>
         && Quiet(s, s')
         && (|| s'.reconciler == Scanning(listed)
             || (s'.reconciler.Listing? && exists id :: id in s.disk && s'.reconciler.listed == listed + {id}))
       case Scanning(todo) =>
         && Quiet(s, s')
         && (|| s'.reconciler == Idle
             || (s'.reconciler.Scanning? && exists id ::
               id in todo && id in s.owned && s'.reconciler.todo == todo - {id})
             || (&& s'.reconciler.Reading? && s'.reconciler.id in todo && s'.reconciler.id !in s.owned
                 && s'.reconciler.todo == todo - {s'.reconciler.id}))
       case Reading(id, todo) => ReadStep(s, id, todo, s')
       case Inspecting(id, manifest, todo) => InspectStep(s, id, manifest, todo, s')
       case Ending(id, manifest, todo) =>
         && s'.excused == s.excused && s'.seen == s.seen
         && ((Stops(s, manifest.process, true, s') && s'.reconciler == Discarding(id, Clearing, todo))
             || (Stops(s, manifest.process, false, s') && s'.reconciler == Scanning(todo)))
       case Discarding(id, r, todo) =>
         && s'.live == s.live && s'.excused == s.excused && s'.seen == Remember(s.seen, id, s'.disk)
         && ((&& s'.reconciler.Discarding? && s'.reconciler == Discarding(id, s'.reconciler.removal, todo)
              && Removes(s.disk, id, r, s'.disk, s'.reconciler.removal)
              && Ongoing(s'.reconciler.removal))
             || (s'.reconciler == Scanning(todo)
                 && (Removes(s.disk, id, r, s'.disk, Gone) || Removes(s.disk, id, r, s'.disk, Stuck))))
  }

  predicate Quiet(s: State, s': State) {
    s'.disk == s.disk && s'.live == s.live && s'.excused == s.excused && s'.seen == s.seen
  }

  /** Reading the manifest of an unowned directory: anything unreadable is discarded, even a valid
      manifest whose read failed (the process it names is then excused). */
  predicate ReadStep(s: State, id: string, todo: set<string>, s': State) {
    && s'.disk == s.disk && s'.live == s.live && s'.seen == s.seen
    && if id !in s.disk || s.disk[id].None? then
         s'.excused == s.excused && s'.reconciler == Discarding(id, Clearing, todo)
       else
         var manifest := s.disk[id].value;
         || (s'.excused == s.excused + {manifest.process} && s'.reconciler == Discarding(id, Clearing, todo))
         || (s'.excused == s.excused
             && s'.reconciler == if Discardable(manifest) then Discarding(id, Clearing, todo)
                                 else Inspecting(id, manifest, todo))
  }

  predicate InspectStep(s: State, id: string, manifest: Manifest, todo: set<string>, s': State) {
    && Quiet(s, s')
    && (|| s'.reconciler == Scanning(todo)
        || (manifest.process !in s.live && s'.reconciler == Discarding(id, Clearing, todo))
        || (manifest.process in s.live && manifest.phase == Waiting && s'.reconciler == Ending(id, manifest, todo)))
  }

  /** Processes a crash makes unrecoverable: started, but not yet recorded on disk. */
  function Unrecorded(s: State): set<ProcessIdentity> {
    set id | id in s.runs && (s.runs[id].pc.SaveWaiting? || s.runs[id].pc.StopUnrecorded?) ::
      s.runs[id].manifest.process
  }

  /** The participant dies: disk and processes stay, everything in memory is lost. */
  predicate CrashStep(s: State, s': State) {
    s' == s.(owned := {}, runs := map[], reconciler := Idle, excused := s.excused + Unrecorded(s))
  }

  predicate Next(s: State, step: Step, s': State) {
    match step
    case Begin(id) => BeginStep(s, id, s')
    case Run(id) => RunStep(s, id, s')
    case Reconcile => ReconcileStep(s, s')
    case Exit(process) => s' == s.(live := s.live - {process})
    case Crash => CrashStep(s, s')
  }

  // ---------------------------------------------------------------------------------------------
  // Invariant.

  function Rank(phase: Phase): nat {
    match phase
    case Preparing => 0
    case Waiting => 1
    case Assigned => 2
    case Failed => 3
    case TimedOut => 3
    case Exited => 3
    case Cleaning => 4
    case CleanupFailed => 5
  }

  /** `b` is not behind `a`. */
  predicate NotBehind(a: Manifest, b: Manifest) {
    Rank(a.phase) <= Rank(b.phase) && a.cleanupAttempts <= b.cleanupAttempts
  }

  /** The process is named by a manifest a restart would act on. */
  predicate Recorded(disk: map<string, Option<Manifest>>, id: string, process: ProcessIdentity) {
    && id in disk && disk[id].Some? && disk[id].value.process == process
    && (disk[id].value.phase == Waiting || disk[id].value.phase == Assigned)
  }

  ghost predicate DiskOk(s: State) {
    && s.disk.Keys <= s.used && s.seen.Keys <= s.used
    && forall id :: id in s.used ==> EntryOk(s, id)
  }

  /** The manifest on disk is the one last seen there, and that one is in order. */
  predicate EntryOk(s: State, id: string) {
    && (id in s.disk && s.disk[id].Some? ==> id in s.seen && s.seen[id] == s.disk[id].value)
    && (id in s.seen ==> ManifestOk(s, id, s.seen[id]))
  }

  predicate ManifestOk(s: State, id: string, manifest: Manifest) {
    && manifest.instanceID == id && manifest.schemaVersion == SCHEMA_VERSION
    && (manifest.process.pid != 0 ==> manifest.process in s.startedFor && s.startedFor[manifest.process] == id)
    && (manifest.process.pid == 0 ==> manifest.phase != Waiting && manifest.phase != Assigned)
  }

  ghost predicate ProcessesOk(s: State) {
    && s.live <= s.startedFor.Keys
    && forall p :: p in s.startedFor ==> p.pid != 0 && s.startedFor[p] in s.used
  }

  predicate SavedOk(s: State, id: string, r: Removing) {
    match r
    case Emptied(saved) => saved.Some? ==> id in s.seen && s.seen[id] == saved.value
    case Bare(saved) => saved.Some? ==> id in s.seen && s.seen[id] == saved.value
    case Restoring(manifest) => id in s.seen && s.seen[id] == manifest
    case _ => true
  }

  /** The phase in memory at each point, and whether the process is already dealt with. */
  predicate PhaseOk(s: State, t: Thread) {
    var phase := t.manifest.phase;
    match t.pc
    case Copying => phase == Preparing
    case SavePreparing => phase == Preparing
    case Abandon(_) => phase == Preparing
    case Start => phase == Preparing
    case SaveFailed => phase == Failed
    case SaveWaiting => phase == Waiting
    case StopUnrecorded => phase == Waiting
    case Watch => phase == Waiting
    case SaveAssigned => phase == Assigned
    case StopUnsaved => phase == Assigned
    case Serve => phase == Assigned
    case StopTimedOut => phase == TimedOut
    case StopCancelled(serving) => phase == if serving then Assigned else Waiting
    case Drain(serving) => if serving then phase == Assigned else phase == Waiting || phase == TimedOut
    case SaveOutcome => phase == Waiting || Rank(phase) == 3
    case SaveCleaning => 1 <= Rank(phase) <= 3
    case Remove(_) => phase == Cleaning
    case SaveCleanupFailed => phase == Cleaning
    case Leave => true
  }

  /** Points at which the manifest on disk names the running process. */
  predicate OnRecord(pc: PC) {
    pc.Watch? || pc.SaveAssigned? || pc.StopUnsaved? || pc.Serve? || pc.StopTimedOut? || pc.StopCancelled? || pc.Drain?
  }

  /** Points at which the process is already gone, or excused. */
  predicate Finished(pc: PC) {
    pc.SaveOutcome? || pc.SaveCleaning? || pc.Remove? || pc.SaveCleanupFailed? || pc.Leave?
  }

  predicate BeforeStart(pc: PC) {
    pc.Copying? || pc.SavePreparing? || pc.Abandon? || pc.Start? || pc.SaveFailed?
  }

  ghost predicate ThreadOk(s: State, id: string, t: Thread) {
    var m := t.manifest;
    && m.instanceID == id && m.schemaVersion == SCHEMA_VERSION
    && (m.process.pid != 0 ==> m.process in s.startedFor && s.startedFor[m.process] == id)
    && (forall p :: p in s.startedFor && s.startedFor[p] == id ==> p == m.process)
    && PhaseOk(s, t)
    && (BeforeStart(t.pc) ==> m.process.pid == 0)
    && (!BeforeStart(t.pc) && !Finished(t.pc) ==> m.process.pid != 0)
    && (m.process.pid == 0 && Finished(t.pc) ==> m.phase != Waiting && m.phase != Assigned)
    && (OnRecord(t.pc) ==> Recorded(s.disk, id, m.process))
    && (Finished(t.pc) ==> m.process !in s.live || m.process in s.excused)
    && (t.pc.Copying? || t.pc.SavePreparing? ==> id !in s.seen)
    && (id in s.seen && (BeforeStart(t.pc) || t.pc.SaveWaiting? || t.pc.StopUnrecorded?) ==>
          s.seen[id].phase == Preparing)
    && (id in s.seen ==> NotBehind(s.seen[id], m))
    && (t.pc.Abandon? ==> SavedOk(s, id, t.pc.removal))
    && (t.pc.Remove? ==> SavedOk(s, id, t.pc.removal))
  }

  ghost predicate RunsOk(s: State) {
    && s.runs.Keys == s.owned && s.owned <= s.used
    && forall id :: id in s.runs ==> ThreadOk(s, id, s.runs[id])
  }

  /** The instance under examination is unowned for good. */
  predicate Settled(s: State, id: string, todo: set<string>) {
    id in s.used && id !in s.owned && todo <= s.used
  }

  ghost predicate ReconcilerOk(s: State) {
    match s.reconciler
    case Idle => true
    case Listing(listed) => listed <= s.used
    case Scanning(todo) => todo <= s.used
    case Reading(id, todo) => Settled(s, id, todo)
    case Inspecting(id, manifest, todo) =>
      Settled(s, id, todo) && id in s.disk && s.disk[id] == Some(manifest) && !Discardable(manifest)
    case Ending(id, manifest, todo) =>
      Settled(s, id, todo) && id in s.disk && s.disk[id] == Some(manifest) && !Discardable(manifest)
    case Discarding(id, r, todo) =>
      && Settled(s, id, todo) && SavedOk(s, id, r)
      && forall p :: p in s.live && p in s.startedFor && s.startedFor[p] == id ==> p in s.excused
  }

  /** A live process is owned by a Run in progress, or named on disk, or excused. */
  predicate AccountedFor(s: State, p: ProcessIdentity)
    requires p in s.startedFor
  {
    p in s.excused || s.startedFor[p] in s.runs || Recorded(s.disk, s.startedFor[p], p)
  }

  ghost predicate AllAccountedFor(s: State) {
    forall p :: p in s.live && p in s.startedFor ==> AccountedFor(s, p)
  }

  ghost predicate Inv(s: State) {
    DiskOk(s) && ProcessesOk(s) && RunsOk(s) && ReconcilerOk(s) && AllAccountedFor(s)
  }

  lemma {:induction false} InitialInv()
    ensures Inv(Initial())
  {
  }

  lemma {:induction false} BeginKeeps(s: State, id: string, s': State)
    requires Inv(s) && BeginStep(s, id, s')
    ensures Inv(s')
  {
    BeginKeepsDisk(s, id, s');
    BeginKeepsRuns(s, id, s');
    assert ProcessesOk(s');
    assert ReconcilerOk(s');
    hide DiskOk, RunsOk, ProcessesOk, ReconcilerOk;
    forall p | p in s'.live && p in s'.startedFor ensures AccountedFor(s', p) {
      assert AccountedFor(s, p);
    }
  }

  lemma {:induction false} BeginKeepsDisk(s: State, id: string, s': State)
    requires Inv(s) && BeginStep(s, id, s')
    ensures DiskOk(s')
  {
    forall n | n in s'.used ensures EntryOk(s', n) {
      if n != id {
        assert EntryOk(s, n);
      }
    }
    hide RunsOk, ReconcilerOk, AllAccountedFor;
  }

  lemma {:induction false} BeginKeepsRuns(s: State, id: string, s': State)
    requires Inv(s) && BeginStep(s, id, s')
    ensures RunsOk(s')
  {
    forall n | n in s'.runs ensures ThreadOk(s', n, s'.runs[n]) {
      if n != id {
        assert ThreadOk(s, n, s.runs[n]);
      }
    }
    hide RunsOk, ReconcilerOk, AllAccountedFor;
  }

  lemma {:induction false} ExitKeeps(s: State, p: ProcessIdentity)
    requires Inv(s)
    ensures Inv(s.(live := s.live - {p}))
  {
  }

  lemma {:induction false} CrashKeeps(s: State, s': State)
    requires Inv(s) && CrashStep(s, s')
    ensures Inv(s')
  {
    forall p | p in s'.live && p in s'.startedFor ensures AccountedFor(s', p) {
      var id := s.startedFor[p];
      if id in s.runs {
        assert ThreadOk(s, id, s.runs[id]);
      }
    }
  }

  /** A removal step keeps the directory's manifest, drops it, or puts back the one it saved. */
  lemma {:induction false} RemovesFacts(s: State, id: string, r: Removing, disk': map<string, Option<Manifest>>,
                                        r': Removing)
    requires DiskOk(s) && SavedOk(s, id, r) && Removes(s.disk, id, r, disk', r')
    ensures disk'.Keys <= s.disk.Keys
    ensures forall n :: n != id ==> (n in disk' <==> n in s.disk) && (n in s.disk ==> disk'[n] == s.disk[n])
    ensures id in disk' && disk'[id].Some? ==> id in s.seen && disk'[id].value == s.seen[id]
    ensures Remember(s.seen, id, disk') == s.seen
    ensures SavedOk(s, id, r')
  {
  }

  // ---------------------------------------------------------------------------------------------
  // A step on behalf of one instance leaves the others alone.

  /** The step concerns instance `id` only: its directory, its processes, its history. */
  ghost predicate Local(s: State, id: string, s': State) {
    && id in s.used && s'.used == s.used
    && (forall n :: n != id ==> (n in s'.disk <==> n in s.disk) && (n in s.disk ==> s'.disk[n] == s.disk[n]))
    && (forall n :: n != id ==> (n in s'.seen <==> n in s.seen) && (n in s.seen ==> s'.seen[n] == s.seen[n]))
    && (forall p :: p in s.startedFor ==> p in s'.startedFor && s'.startedFor[p] == s.startedFor[p])
    && (forall p :: p in s'.startedFor && p !in s.startedFor ==> s'.startedFor[p] == id && p.pid != 0)
    && s.excused <= s'.excused
    && (forall p :: p in s'.live ==> p in s.live || (p in s'.startedFor && p !in s.startedFor))
  }

  lemma {:induction false} OtherThread(s: State, id: string, s': State, other: string)
    requires Inv(s) && Local(s, id, s') && other != id && other in s.runs
    ensures ThreadOk(s', other, s.runs[other])
  {
    assert ThreadOk(s, other, s.runs[other]);
    hide PhaseOk;
    assert PhaseOk(s', s.runs[other]) by { SamePhaseOk(s, s', s.runs[other]); }
  }

  lemma {:induction false} SamePhaseOk(s: State, s': State, t: Thread)
    ensures PhaseOk(s, t) == PhaseOk(s', t)
  {
  }

  lemma {:induction false} OtherProcess(s: State, id: string, s': State, p: ProcessIdentity)
    requires Inv(s) && Local(s, id, s') && p in s'.live && p in s'.startedFor && s'.startedFor[p] != id
    requires forall n :: n != id && n in s.runs ==> n in s'.runs
    ensures AccountedFor(s', p)
  {
    assert AccountedFor(s, p);
  }

  lemma {:induction false} OtherEntry(s: State, id: string, s': State, other: string)
    requires Inv(s) && Local(s, id, s') && other != id && other in s.used
    ensures EntryOk(s', other)
  {
    assert EntryOk(s, other);
  }

  /** The reconciler is not at the instance a Run is working on. */
  lemma {:induction false} OtherReconciler(s: State, id: string, s': State)
    requires Inv(s) && Local(s, id, s') && id in s.owned && s'.reconciler == s.reconciler && s'.owned <= s.owned
    ensures ReconcilerOk(s')
  {
  }

  /** What the step of a Run call may assume about its own instance. */
  ghost predicate Here(s: State, id: string) {
    && id in s.runs && id in s.used && ThreadOk(s, id, s.runs[id])
    && s.live <= s.startedFor.Keys && (forall p :: p in s.startedFor ==> p.pid != 0)
    && EntryOk(s, id)
  }

  /** What it must establish: nothing else is touched, and the instance is in order again. */
  ghost predicate Done(s: State, id: string, s': State) {
    && Local(s, id, s') && id in s'.runs && ThreadOk(s', id, s'.runs[id])
    && EntryOk(s', id)
    && s'.disk.Keys <= s.disk.Keys + {id} && s'.seen.Keys <= s.seen.Keys + {id} && s'.live <= s'.startedFor.Keys
    && (id in s.seen ==> id in s'.seen && NotBehind(s.seen[id], s'.seen[id]))
  }

  lemma {:induction false} CopyingDone(s: State, id: string, s': State)
    requires Here(s, id) && RunStep(s, id, s') && s.runs[id].pc.Copying?
    ensures Done(s, id, s')
  {
  }

  lemma {:induction false} SavePreparingDone(s: State, id: string, s': State)
    requires Here(s, id) && RunStep(s, id, s') && s.runs[id].pc.SavePreparing?
    ensures Done(s, id, s')
  {
    hide Removes;
  }

  lemma {:induction false} StartDone(s: State, id: string, s': State)
    requires Here(s, id) && RunStep(s, id, s') && s.runs[id].pc.Start?
    ensures Done(s, id, s')
  {
    hide Removes, SavedOk;
    StartThread(s, id, s');
    hide PhaseOk;
  }

  lemma {:induction false} StartThread(s: State, id: string, s': State)
    requires Here(s, id) && RunStep(s, id, s') && s.runs[id].pc.Start?
    ensures id in s'.runs && ThreadOk(s', id, s'.runs[id])
  {
    hide Removes, SavedOk, Local;
  }

  lemma {:induction false} SaveFailedDone(s: State, id: string, s': State)
    requires Here(s, id) && RunStep(s, id, s') && s.runs[id].pc.SaveFailed?
    ensures Done(s, id, s')
  {
    hide Removes, SavedOk;
  }

  lemma {:induction false} SaveWaitingDone(s: State, id: string, s': State)
    requires Here(s, id) && RunStep(s, id, s') && s.runs[id].pc.SaveWaiting?
    ensures Done(s, id, s')
  {
    hide Removes, SavedOk;
  }

  lemma {:induction false} StopUnrecordedDone(s: State, id: string, s': State)
    requires Here(s, id) && RunStep(s, id, s') && s.runs[id].pc.StopUnrecorded?
    ensures Done(s, id, s')
  {
  }

  lemma {:induction false} WatchDone(s: State, id: string, s': State)
    requires Here(s, id) && RunStep(s, id, s') && s.runs[id].pc.Watch?
    ensures Done(s, id, s')
  {
  }

  lemma {:induction false} SaveAssignedDone(s: State, id: string, s': State)
    requires Here(s, id) && RunStep(s, id, s') && s.runs[id].pc.SaveAssigned?
    ensures Done(s, id, s')
  {
    hide Removes, SavedOk;
  }

  lemma {:induction false} StopUnsavedDone(s: State, id: string, s': State)
    requires Here(s, id) && RunStep(s, id, s') && s.runs[id].pc.StopUnsaved?
    ensures Done(s, id, s')
  {
  }

  lemma {:induction false} ServeDone(s: State, id: string, s': State)
    requires Here(s, id) && RunStep(s, id, s') && s.runs[id].pc.Serve?
    ensures Done(s, id, s')
  {
  }

  lemma {:induction false} StopTimedOutDone(s: State, id: string, s': State)
    requires Here(s, id) && RunStep(s, id, s') && s.runs[id].pc.StopTimedOut?
    ensures Done(s, id, s')
  {
  }

  lemma {:induction false} StopCancelledDone(s: State, id: string, s': State)
    requires Here(s, id) && RunStep(s, id, s') && s.runs[id].pc.StopCancelled?
    ensures Done(s, id, s')
  {
  }

  lemma {:induction false} DrainDone(s: State, id: string, s': State)
    requires Here(s, id) && RunStep(s, id, s') && s.runs[id].pc.Drain?
    ensures Done(s, id, s')
  {
  }

  lemma {:induction false} SaveOutcomeDone(s: State, id: string, s': State)
    requires Here(s, id) && RunStep(s, id, s') && s.runs[id].pc.SaveOutcome?
    ensures Done(s, id, s')
  {
    hide Removes, SavedOk;
  }

  lemma {:induction false} SaveCleaningDone(s: State, id: string, s': State)
    requires Here(s, id) && RunStep(s, id, s') && s.runs[id].pc.SaveCleaning?
    ensures Done(s, id, s')
  {
    hide Removes;
    CleaningThread(s, id, s');
    hide PhaseOk, SavedOk;
  }

  lemma {:induction false} CleaningThread(s: State, id: string, s': State)
    requires Here(s, id) && RunStep(s, id, s') && s.runs[id].pc.SaveCleaning?
    ensures id in s'.runs && ThreadOk(s', id, s'.runs[id])
  {
    hide Removes, Local;
  }

  lemma {:induction false} SaveCleanupFailedDone(s: State, id: string, s': State)
    requires Here(s, id) && RunStep(s, id, s') && s.runs[id].pc.SaveCleanupFailed?
    ensures Done(s, id, s')
  {
    hide Removes, SavedOk;
  }

  lemma {:induction false} AbandonDone(s: State, id: string, s': State)
    requires Here(s, id) && DiskOk(s) && RunStep(s, id, s') && s.runs[id].pc.Abandon?
    ensures Done(s, id, s')
  {
    var r, t' := s.runs[id].pc.removal, s'.runs[id];
    var r' := if t'.pc.Abandon? then t'.pc.removal else if Removes(s.disk, id, r, s'.disk, Gone) then Gone else Stuck;
    RemovesFacts(s, id, r, s'.disk, r');
    hide Removes, DiskOk;
  }

  lemma {:induction false} RemoveDone(s: State, id: string, s': State)
    requires Here(s, id) && DiskOk(s) && RunStep(s, id, s') && s.runs[id].pc.Remove?
    ensures Done(s, id, s')
  {
    var r, t' := s.runs[id].pc.removal, s'.runs[id];
    var r' := if t'.pc.Remove? then t'.pc.removal else if t'.pc.Leave? then Gone else Stuck;
    RemovesFacts(s, id, r, s'.disk, r');
    RemoveDoneAfter(s, id, s', r');
  }

  lemma {:induction false} RemoveDoneAfter(s: State, id: string, s': State, r': Removing)
    requires Here(s, id) && id in s'.runs && s.runs[id].pc.Remove?
    requires s' == s.(disk := s'.disk, runs := s.runs[id := s'.runs[id]])
    requires s'.runs[id].manifest == s.runs[id].manifest
    requires s'.runs[id].pc == Leave || s'.runs[id].pc == SaveCleanupFailed || s'.runs[id].pc == Remove(r')
    requires s'.disk.Keys <= s.disk.Keys && SavedOk(s, id, r')
    requires forall n :: n != id ==> (n in s'.disk <==> n in s.disk) && (n in s.disk ==> s'.disk[n] == s.disk[n])
    requires id in s'.disk && s'.disk[id].Some? ==> id in s.seen && s.seen[id] == s'.disk[id].value
    ensures Done(s, id, s')
  {
    assert SavedOk(s', id, r');
  }

  lemma {:induction false} RunDone(s: State, id: string, s': State)
    requires Inv(s) && RunStep(s, id, s') && !s.runs[id].pc.Leave?
    ensures Done(s, id, s')
  {
    assert Here(s, id);
    hide Here, Done, RunStep, Inv, ThreadOk, EntryOk;
    match s.runs[id].pc {
      case Copying => CopyingDone(s, id, s');
      case SavePreparing => SavePreparingDone(s, id, s');
      case Start => StartDone(s, id, s');
      case SaveFailed => SaveFailedDone(s, id, s');
      case SaveWaiting => SaveWaitingDone(s, id, s');
      case StopUnrecorded => StopUnrecordedDone(s, id, s');
      case Watch => WatchDone(s, id, s');
      case SaveAssigned => SaveAssignedDone(s, id, s');
      case StopUnsaved => StopUnsavedDone(s, id, s');
      case Serve => ServeDone(s, id, s');
      case StopTimedOut => StopTimedOutDone(s, id, s');
      case StopCancelled(_) => StopCancelledDone(s, id, s');
      case Drain(_) => DrainDone(s, id, s');
      case SaveOutcome => SaveOutcomeDone(s, id, s');
      case SaveCleaning => SaveCleaningDone(s, id, s');
      case SaveCleanupFailed => SaveCleanupFailedDone(s, id, s');
      case Abandon(_) => AbandonDone(s, id, s');
      case Remove(_) => RemoveDone(s, id, s');
    }
  }

  lemma {:induction false} RunKeeps(s: State, id: string, s': State)
    requires Inv(s) && RunStep(s, id, s')
    ensures Inv(s')
  {
    if s.runs[id].pc.Leave? {
      LeaveKeeps(s, id, s');
    } else {
      RunDone(s, id, s');
      LocalKeeps(s, id, s');
    }
  }

  lemma {:induction false} LeaveKeeps(s: State, id: string, s': State)
    requires Inv(s) && RunStep(s, id, s') && s.runs[id].pc.Leave?
    ensures Inv(s')
  {
    assert ThreadOk(s, id, s.runs[id]);
    assert Remember(s.seen, id, s.disk) == s.seen;
    forall p | p in s'.live && p in s'.startedFor ensures AccountedFor(s', p) {
      assert AccountedFor(s, p);
    }
  }

  lemma {:induction false} OthersInOrder(s: State, id: string, s': State)
    requires Inv(s) && Done(s, id, s')
    requires s'.owned == s.owned && s'.runs == s.runs[id := s'.runs[id]]
    ensures forall n :: n in s'.runs ==> ThreadOk(s', n, s'.runs[n])
    ensures forall n :: n in s'.used ==> EntryOk(s', n)
  {
    hide ThreadOk, EntryOk, Inv;
    forall n | n in s'.runs ensures ThreadOk(s', n, s'.runs[n]) {
      if n != id {
        OtherThread(s, id, s', n);
      }
    }
    forall n | n in s'.used ensures EntryOk(s', n) {
      if n != id {
        OtherEntry(s, id, s', n);
      }
    }
  }

  lemma {:induction false} ProcessesAccountedFor(s: State, id: string, s': State)
    requires Inv(s) && Local(s, id, s') && id in s'.runs
    requires forall n :: n in s.runs ==> n in s'.runs
    ensures AllAccountedFor(s')
  {
    hide Inv, Local, Recorded;
    forall p | p in s'.live && p in s'.startedFor ensures AccountedFor(s', p) {
      if s'.startedFor[p] != id {
        OtherProcess(s, id, s', p);
      }
    }
  }

  lemma {:induction false} ProcessesKept(s: State, id: string, s': State)
    requires ProcessesOk(s) && Local(s, id, s') && s'.live <= s'.startedFor.Keys
    ensures ProcessesOk(s')
  {
  }

  lemma {:induction false} DiskAndRunsKept(s: State, id: string, s': State)
    requires Inv(s) && Done(s, id, s') && id in s.owned
    requires s'.owned == s.owned && s'.runs == s.runs[id := s'.runs[id]]
    ensures DiskOk(s') && RunsOk(s')
  {
    hide ThreadOk, EntryOk, ProcessesOk, ReconcilerOk, AllAccountedFor;
    OthersInOrder(s, id, s');
    assert id in s.used && s'.used == s.used;
    assert s.disk.Keys <= s.used && s.seen.Keys <= s.used && s.runs.Keys == s.owned <= s.used;
    hide Inv, Local;
  }

  lemma {:induction false} LocalKeeps(s: State, id: string, s': State)
    requires Inv(s) && Done(s, id, s') && id in s.owned && s'.reconciler == s.reconciler
    requires s'.owned == s.owned && s'.runs == s.runs[id := s'.runs[id]]
    ensures Inv(s')
  {
    OtherReconciler(s, id, s');
    DiskAndRunsKept(s, id, s');
    ProcessesAccountedFor(s, id, s');
    ProcessesKept(s, id, s');
    hide ThreadOk, EntryOk, ReconcilerOk, AllAccountedFor, ProcessesOk, Local, DiskOk, RunsOk;
  }

  // ---------------------------------------------------------------------------------------------
  // Reconciler steps.

  lemma {:induction false} WalkKeeps(s: State, s': State)
    requires Inv(s) && ReconcileStep(s, s')
    requires s.reconciler.Idle? || s.reconciler.Listing? || s.reconciler.Scanning?
    ensures Inv(s')
  {
    assert s' == s.(reconciler := s'.reconciler);
    OnlyReconciler(s, s'.reconciler);
    hide ThreadOk, EntryOk, RunsOk, AllAccountedFor, ProcessesOk;
  }

  lemma {:induction false} OnlyReconciler(s: State, r: Reconciler)
    requires Inv(s)
    ensures var s' := s.(reconciler := r);
            DiskOk(s') && ProcessesOk(s') && RunsOk(s') && AllAccountedFor(s')
  {
    var s' := s.(reconciler := r);
    forall id | id in s.runs ensures ThreadOk(s', id, s.runs[id]) {
      assert ThreadOk(s, id, s.runs[id]);
      SamePhaseOk(s, s', s.runs[id]);
    }
    forall id | id in s.used ensures EntryOk(s', id) {
      assert EntryOk(s, id);
    }
    forall p | p in s.live && p in s.startedFor ensures AccountedFor(s', p) {
      assert AccountedFor(s, p);
    }
  }

  /** Reconciling an unowned instance leaves every Run in progress, its directory and its process alone,
      and accounts for what it leaves behind. */
  lemma {:induction false} UnownedKeeps(s: State, id: string, s': State)
    requires Inv(s) && Local(s, id, s') && id !in s.owned && EntryOk(s', id)
    requires s'.owned == s.owned && s'.runs == s.runs && s'.startedFor == s.startedFor && s'.live <= s.live
    requires s'.disk.Keys <= s.disk.Keys && s'.seen == s.seen
    requires forall p :: p in s'.live && p in s'.startedFor && s'.startedFor[p] == id ==> AccountedFor(s', p)
    ensures DiskOk(s') && ProcessesOk(s') && RunsOk(s') && AllAccountedFor(s')
  {
    assert RunsOk(s') by {
      hide ThreadOk;
      forall n | n in s'.runs ensures ThreadOk(s', n, s'.runs[n]) {
        OtherThread(s, id, s', n);
      }
    }
    assert DiskOk(s') by {
      hide EntryOk;
      forall n | n in s'.used ensures EntryOk(s', n) {
        if n != id {
          OtherEntry(s, id, s', n);
        }
      }
    }
    assert AllAccountedFor(s') by {
      hide AccountedFor;
      forall p | p in s'.live && p in s'.startedFor ensures AccountedFor(s', p) {
        if s'.startedFor[p] != id {
          OtherProcess(s, id, s', p);
        }
      }
    }
  }

  /** A process of an unowned instance that its manifest does not name as running is excused. */
  lemma {:induction false} UnnamedIsExcused(s: State, id: string)
    requires Inv(s) && id !in s.owned
    ensures forall p :: p in s.live && p in s.startedFor && s.startedFor[p] == id && !Recorded(s.disk, id, p) ==>
        p in s.excused
  {
    forall p | p in s.live && p in s.startedFor && s.startedFor[p] == id && !Recorded(s.disk, id, p)
      ensures p in s.excused
    {
      assert AccountedFor(s, p);
    }
  }

  lemma {:induction false} ReadKeeps(s: State, s': State)
    requires Inv(s) && ReconcileStep(s, s') && s.reconciler.Reading?
    ensures Inv(s')
  {
    var id := s.reconciler.id;
    UnnamedIsExcused(s, id);
    assert EntryOk(s, id) && EntryOk(s', id);
    forall p | p in s'.live && p in s'.startedFor && s'.startedFor[p] == id ensures AccountedFor(s', p) {
      assert AccountedFor(s, p);
    }
    UnownedKeeps(s, id, s');
    hide ThreadOk, RunsOk, AllAccountedFor, ProcessesOk;
  }

  lemma {:induction false} InspectKeeps(s: State, s': State)
    requires Inv(s) && ReconcileStep(s, s') && s.reconciler.Inspecting?
    ensures Inv(s')
  {
    var id := s.reconciler.id;
    UnnamedIsExcused(s, id);
    assert s' == s.(reconciler := s'.reconciler);
    OnlyReconciler(s, s'.reconciler);
    hide ThreadOk, RunsOk, AllAccountedFor, ProcessesOk, DiskOk;
  }

  lemma {:induction false} EndKeeps(s: State, s': State)
    requires Inv(s) && ReconcileStep(s, s') && s.reconciler.Ending?
    ensures Inv(s')
  {
    var id := s.reconciler.id;
    UnnamedIsExcused(s, id);
    assert EntryOk(s, id) && EntryOk(s', id);
    forall p | p in s'.live && p in s'.startedFor && s'.startedFor[p] == id ensures AccountedFor(s', p) {
      assert AccountedFor(s, p);
    }
    UnownedKeeps(s, id, s');
    hide ThreadOk, RunsOk, AllAccountedFor, ProcessesOk;
  }

  lemma {:induction false} DiscardKeeps(s: State, s': State)
    requires Inv(s) && ReconcileStep(s, s') && s.reconciler.Discarding?
    ensures Inv(s')
  {
    var id, r := s.reconciler.id, s.reconciler.removal;
    var r' := if s'.reconciler.Discarding? then s'.reconciler.removal
              else if Removes(s.disk, id, r, s'.disk, Gone) then Gone else Stuck;
    RemovesFacts(s, id, r, s'.disk, r');
    hide Removes;
    assert EntryOk(s, id) && EntryOk(s', id);
    UnownedKeeps(s, id, s');
    hide ThreadOk, RunsOk, AllAccountedFor, ProcessesOk;
  }

  lemma {:induction false} StepKeeps(s: State, step: Step, s': State)
    requires Inv(s) && Next(s, step, s')
    ensures Inv(s')
  {
    hide Inv, RunStep, CrashStep, BeginStep;
    match step {
      case Begin(id) => BeginKeeps(s, id, s');
      case Run(id) => RunKeeps(s, id, s');
      case Reconcile =>
        match s.reconciler {
          case Reading(_, _) => ReadKeeps(s, s');
          case Inspecting(_, _, _) => InspectKeeps(s, s');
          case Ending(_, _, _) => EndKeeps(s, s');
          case Discarding(_, _, _) => DiscardKeeps(s, s');
          case _ => WalkKeeps(s, s');
        }
      case Exit(p) => ExitKeeps(s, p);
      case Crash => CrashKeeps(s, s');
    }
  }

  // ---------------------------------------------------------------------------------------------
  // Whole behaviours.

  ghost predicate Behaviour(states: seq<State>, steps: seq<Step>) {
    && |states| == |steps| + 1
    && states[0] == Initial()
    && forall i :: 0 <= i < |steps| ==> Next(states[i], steps[i], states[i + 1])
  }

  lemma {:induction false} BehaviourInv(states: seq<State>, steps: seq<Step>, n: nat)
    requires Behaviour(states, steps) && n < |states|
    ensures Inv(states[n])
  {
    hide Inv, Next;
    if n == 0 {
      InitialInv();
    } else {
      BehaviourInv(states, steps, n - 1);
      assert Next(states[n - 1], steps[n - 1], states[n - 1 + 1]);
      StepKeeps(states[n - 1], steps[n - 1], states[n]);
    }
  }

  /** No step of the reconciler touches the directory of a Run that has not left, or ends its process. */
  lemma {:induction false} RunningInstancesUntouched(states: seq<State>, steps: seq<Step>, i: nat)
    requires Behaviour(states, steps) && i < |steps| && steps[i] == Reconcile
    ensures var s, s' := states[i], states[i + 1];
            && s'.runs == s.runs && s'.owned == s.owned
            && (forall id :: id in s.runs ==>
                  (id in s'.disk <==> id in s.disk) && (id in s.disk ==> s'.disk[id] == s.disk[id]))
            && (forall p :: p in s.live && p in s.startedFor && s.startedFor[p] in s.runs ==> p in s'.live)
  {
    BehaviourInv(states, steps, i);
    assert Next(states[i], steps[i], states[i + 1]);
    ReconcileSpares(states[i], states[i + 1]);
    hide Inv, ReconcileStep;
  }

  lemma {:induction false} ReconcileSpares(s: State, s': State)
    requires Inv(s) && ReconcileStep(s, s')
    ensures forall id :: id in s.runs ==>
              (id in s'.disk <==> id in s.disk) && (id in s.disk ==> s'.disk[id] == s.disk[id])
    ensures forall p :: p in s.live && p in s.startedFor && s.startedFor[p] in s.runs ==> p in s'.live
  {
    hide ThreadOk, AllAccountedFor;
    if s.reconciler.Discarding? {
      var id, r := s.reconciler.id, s.reconciler.removal;
      var r' := if s'.reconciler.Discarding? then s'.reconciler.removal
                else if Removes(s.disk, id, r, s'.disk, Gone) then Gone else Stuck;
      RemovesFacts(s, id, r, s'.disk, r');
      hide Removes;
    } else if s.reconciler.Ending? {
      assert EntryOk(s, s.reconciler.id);
    }
  }

  /** Every live process is owned by a Run in progress, or named by a waiting or assigned manifest in its
      own directory, or excused by a fault that concerned it. */
  lemma {:induction false} NoProcessLost(states: seq<State>, steps: seq<Step>, n: nat, p: ProcessIdentity)
    requires Behaviour(states, steps) && n < |states| && p in states[n].live
    ensures p in states[n].startedFor
    ensures var id := states[n].startedFor[p];
            id in states[n].runs || Recorded(states[n].disk, id, p) || p in states[n].excused
  {
    BehaviourInv(states, steps, n);
    assert AccountedFor(states[n], p);
  }

  /** The faults that excuse a process: a termination that failed in a Run which cleans up regardless, a
      crash between its start and the write that records it, a failed read of the manifest naming it. */
  ghost predicate Fault(s: State, step: Step, s': State, p: ProcessIdentity) {
    match step
    case Run(id) =>
      && id in s.runs && s.runs[id].manifest.process == p && s'.live == s.live
      && (s.runs[id].pc.StopUnrecorded? || s.runs[id].pc.StopUnsaved? || s.runs[id].pc.StopTimedOut?)
    case Crash => p in Unrecorded(s)
    case Reconcile =>
      && s.reconciler.Reading? && s'.reconciler.Discarding?
      && s.reconciler.id in s.disk && s.disk[s.reconciler.id].Some? && s.disk[s.reconciler.id].value.process == p
    case _ => false
  }

  lemma {:induction false} ExcusesHaveCauses(states: seq<State>, steps: seq<Step>, n: nat, p: ProcessIdentity)
    requires Behaviour(states, steps) && n < |states| && p in states[n].excused
    ensures exists i :: 0 <= i < n && Fault(states[i], steps[i], states[i + 1], p)
  {
    if n > 0 {
      assert Next(states[n - 1], steps[n - 1], states[n - 1 + 1]);
      if p in states[n - 1].excused {
        ExcusesHaveCauses(states, steps, n - 1, p);
      } else {
        NewExcuse(states[n - 1], steps[n - 1], states[n], p);
        assert Fault(states[n - 1], steps[n - 1], states[n - 1 + 1], p);
      }
    }
  }

  lemma {:induction false} NewExcuse(s: State, step: Step, s': State, p: ProcessIdentity)
    requires Next(s, step, s') && p !in s.excused && p in s'.excused
    ensures Fault(s, step, s', p)
  {
  }

  /** Main recovery result: without those faults no live process is ever lost. */
  lemma {:induction false} FaultlessRecovery(states: seq<State>, steps: seq<Step>, n: nat, p: ProcessIdentity)
    requires Behaviour(states, steps) && n < |states| && p in states[n].live
    requires forall i :: 0 <= i < n ==> !Fault(states[i], steps[i], states[i + 1], p)
    ensures p in states[n].startedFor
    ensures states[n].startedFor[p] in states[n].runs || Recorded(states[n].disk, states[n].startedFor[p], p)
  {
    NoProcessLost(states, steps, n, p);
    hide Next, Fault;
    if p in states[n].excused {
      ExcusesHaveCauses(states, steps, n, p);
    }
  }

  // ---------------------------------------------------------------------------------------------
  // Phases only move forward.

  lemma {:induction false} SeenAdvances(s: State, step: Step, s': State)
    requires Inv(s) && Next(s, step, s')
    ensures forall id :: id in s.seen ==> id in s'.seen && NotBehind(s.seen[id], s'.seen[id])
  {
    hide AllAccountedFor, ProcessesOk;
    match step {
      case Run(id) =>
        if !s.runs[id].pc.Leave? {
          RunDone(s, id, s');
          hide RunStep, ThreadOk;
        } else {
          assert EntryOk(s, id);
        }
      case Reconcile =>
        if s.reconciler.Discarding? {
          var id, r := s.reconciler.id, s.reconciler.removal;
          var r' := if s'.reconciler.Discarding? then s'.reconciler.removal
                    else if Removes(s.disk, id, r, s'.disk, Gone) then Gone else Stuck;
          RemovesFacts(s, id, r, s'.disk, r');
        }
      case _ =>
    }
  }

  lemma {:induction false} SeenAdvancesOver(states: seq<State>, steps: seq<Step>, i: nat, j: nat, id: string)
    requires Behaviour(states, steps) && i <= j < |states| && id in states[i].seen
    ensures id in states[j].seen && NotBehind(states[i].seen[id], states[j].seen[id])
  {
    hide Next, Inv;
    if i < j {
      SeenAdvancesOver(states, steps, i, j - 1, id);
      BehaviourInv(states, steps, j - 1);
      assert Next(states[j - 1], steps[j - 1], states[j - 1 + 1]);
      SeenAdvances(states[j - 1], steps[j - 1], states[j]);
    }
  }

  /** Over crashes, failed writes and any number of reconciliations, the phase on disk never moves back and
      the count of cleanup attempts never drops. */
  lemma {:induction false} PhaseNeverMovesBack(states: seq<State>, steps: seq<Step>, i: nat, j: nat, id: string)
    requires Behaviour(states, steps) && i <= j < |states|
    requires id in states[i].disk && states[i].disk[id].Some? && id in states[j].disk && states[j].disk[id].Some?
    ensures Rank(states[i].disk[id].value.phase) <= Rank(states[j].disk[id].value.phase)
    ensures states[i].disk[id].value.cleanupAttempts <= states[j].disk[id].value.cleanupAttempts
  {
    BehaviourInv(states, steps, i);
    BehaviourInv(states, steps, j);
    assert EntryOk(states[i], id) && EntryOk(states[j], id);
    hide Next, Inv;
    SeenAdvancesOver(states, steps, i, j, id);
  }

  // ---------------------------------------------------------------------------------------------
  // A runner that has its job.

  /** The Run serves its job, or stops it on cancellation and waits for it, or is past that with the process gone. */
  ghost predicate ServesOut(s: State, id: string) {
    && id in s.runs && s.runs[id].manifest.process.pid != 0
    && var t := s.runs[id];
       if Finished(t.pc) then t.manifest.process !in s.live
       else t.pc.Serve? || t.pc == StopCancelled(true) || t.pc == Drain(true)
  }

  lemma {:induction false} ServesOutStep(s: State, step: Step, s': State, id: string)
    requires Inv(s) && Next(s, step, s') && ServesOut(s, id) && id in s'.runs
    ensures ServesOut(s', id) && s'.runs[id].manifest.process == s.runs[id].manifest.process
    ensures s.runs[id].manifest.process in s'.excused ==> s.runs[id].manifest.process in s.excused
  {
    assert ThreadOk(s, id, s.runs[id]);
    match step {
      case Begin(n) =>
      case Exit(_) =>
      case Crash =>
      case Run(n) =>
        if n == id {
          ServesOutOwnStep(s, id, s');
        } else {
          OtherRunSpares(s, n, s', id);
        }
      case Reconcile =>
        ReconcileSpares(s, s');
        ReconcileExcusesOthers(s, s', id);
    }
    hide Inv, ThreadOk, RunStep, ReconcileStep;
  }

  lemma {:induction false} ServesOutOwnStep(s: State, id: string, s': State)
    requires Inv(s) && RunStep(s, id, s') && ServesOut(s, id) && id in s'.runs
    ensures ServesOut(s', id) && s'.runs[id].manifest.process == s.runs[id].manifest.process
    ensures s.runs[id].manifest.process in s'.excused ==> s.runs[id].manifest.process in s.excused
  {
    hide Removes, Inv;
  }

  lemma {:induction false} OtherRunSpares(s: State, n: string, s': State, id: string)
    requires Inv(s) && RunStep(s, n, s') && n != id && id in s.runs && s.runs[id].manifest.process.pid != 0
    ensures id in s'.runs && s'.runs[id] == s.runs[id]
    ensures var p := s.runs[id].manifest.process;
            (p in s'.live <==> p in s.live) && (p in s'.excused <==> p in s.excused)
  {
    assert ThreadOk(s, id, s.runs[id]) && ThreadOk(s, n, s.runs[n]);
    hide Removes, PhaseOk, ReconcilerOk, AllAccountedFor, DiskOk;
  }

  lemma {:induction false} ReconcileExcusesOthers(s: State, s': State, id: string)
    requires Inv(s) && ReconcileStep(s, s') && id in s.runs && s.runs[id].manifest.process.pid != 0
    ensures s'.runs == s.runs && s'.live <= s.live
    ensures s.runs[id].manifest.process in s'.excused ==> s.runs[id].manifest.process in s.excused
  {
    assert ThreadOk(s, id, s.runs[id]);
    if s.reconciler.Reading? {
      assert EntryOk(s, s.reconciler.id);
    }
    hide Removes, PhaseOk, AllAccountedFor, ThreadOk;
  }

  lemma {:induction false} UsedStays(states: seq<State>, steps: seq<Step>, i: nat, j: nat, id: string)
    requires Behaviour(states, steps) && i <= j < |states| && id in states[i].used
    ensures id in states[j].used
  {
    if i < j {
      UsedStays(states, steps, i, j - 1, id);
      assert Next(states[j - 1], steps[j - 1], states[j - 1 + 1]);
    }
  }

  lemma {:induction false} RanBefore(states: seq<State>, steps: seq<Step>, i: nat, j: nat, id: string)
    requires Behaviour(states, steps) && i < j < |states| && id in states[i].runs && id in states[j].runs
    ensures id in states[j - 1].runs
  {
    BehaviourInv(states, steps, i);
    UsedStays(states, steps, i, j - 1, id);
    assert Next(states[j - 1], steps[j - 1], states[j - 1 + 1]);
  }

  /** Main result on shutdown: a Run that has come to serve its job reaches its outcome and its cleanup only once its
      process is gone, whatever terminations returned, and no fault excuses it from that. */
  lemma {:induction false} ServedRunsWaitForTheirProcess(states: seq<State>, steps: seq<Step>, i: nat, j: nat,
                                                         id: string)
    requires Behaviour(states, steps) && i <= j < |states|
    requires id in states[i].runs && states[i].runs[id].pc == Serve && id in states[j].runs
    ensures ServesOut(states[j], id)
    ensures var p := states[i].runs[id].manifest.process;
            && states[j].runs[id].manifest.process == p
            && (Finished(states[j].runs[id].pc) ==> p !in states[j].live)
            && (p in states[j].excused ==> p in states[i].excused)
  {
    if i == j {
      BehaviourInv(states, steps, i);
      assert ThreadOk(states[i], id, states[i].runs[id]);
    } else {
      RanBefore(states, steps, i, j, id);
      hide Inv, Next;
      ServedRunsWaitForTheirProcess(states, steps, i, j - 1, id);
      BehaviourInv(states, steps, j - 1);
      assert Next(states[j - 1], steps[j - 1], states[j - 1 + 1]);
      ServesOutStep(states[j - 1], steps[j - 1], states[j], id);
    }
  }

  /** What may follow the assignment of a job. */
  predicate Late(phase: Phase) {
    phase == Assigned || phase == Exited || phase == Cleaning || phase == CleanupFailed
  }

  /** A Run whose directory has shown that it got its job does not think otherwise. */
  ghost predicate LateOk(s: State) {
    forall id :: id in s.runs && id in s.seen && Late(s.seen[id].phase) ==> Late(s.runs[id].manifest.phase)
  }

  lemma {:induction false} LateKeeps(s: State, step: Step, s': State)
    requires Inv(s) && LateOk(s) && Next(s, step, s')
    ensures LateOk(s')
    ensures forall id :: id in s.seen && Late(s.seen[id].phase) ==> id in s'.seen && Late(s'.seen[id].phase)
  {
    match step {
      case Begin(id) => assert id !in s.seen;
      case Run(id) =>
        LateRun(s, id, s');
        hide RunStep;
      case Reconcile => SeenAdvancesSame(s, s');
      case Exit(_) =>
      case Crash =>
    }
    hide Inv, ReconcileStep;
  }

  lemma {:induction false} SeenAdvancesSame(s: State, s': State)
    requires Inv(s) && ReconcileStep(s, s')
    ensures s'.seen == s.seen
  {
    hide AllAccountedFor, ProcessesOk, RunsOk;
    if s.reconciler.Discarding? {
      var id, r := s.reconciler.id, s.reconciler.removal;
      var r' := if s'.reconciler.Discarding? then s'.reconciler.removal
                else if Removes(s.disk, id, r, s'.disk, Gone) then Gone else Stuck;
      RemovesFacts(s, id, r, s'.disk, r');
      hide Removes;
    }
  }

  lemma {:induction false} LateRun(s: State, id: string, s': State)
    requires Inv(s) && LateOk(s) && RunStep(s, id, s')
    ensures id in s'.runs && id in s'.seen && Late(s'.seen[id].phase) ==> Late(s'.runs[id].manifest.phase)
    ensures id in s.seen && Late(s.seen[id].phase) ==> id in s'.seen && Late(s'.seen[id].phase)
    ensures forall n :: n != id ==> (n in s'.runs <==> n in s.runs) && (n in s.runs ==> s'.runs[n] == s.runs[n])
    ensures forall n :: n != id ==> (n in s'.seen <==> n in s.seen) && (n in s.seen ==> s'.seen[n] == s.seen[n])
  {
    assert ThreadOk(s, id, s.runs[id]) && EntryOk(s, id);
    hide ReconcilerOk, AllAccountedFor, ProcessesOk, DiskOk, RunsOk;
    var t := s.runs[id];
    if t.pc.Abandon? || t.pc.Remove? {
      LateRemoval(s, id, s');
    } else {
      hide Removes, SavedOk;
    }
  }

  lemma {:induction false} LateRemoval(s: State, id: string, s': State)
    requires Inv(s) && RunStep(s, id, s') && (s.runs[id].pc.Abandon? || s.runs[id].pc.Remove?)
    ensures s'.seen == s.seen && id in s'.runs
    ensures Late(s.runs[id].manifest.phase) ==> Late(s'.runs[id].manifest.phase)
    ensures s.runs[id].manifest.phase == s'.runs[id].manifest.phase
  {
    assert ThreadOk(s, id, s.runs[id]);
    var r, t' := s.runs[id].pc.removal, s'.runs[id];
    var r' := if t'.pc.Abandon? || t'.pc.Remove? then t'.pc.removal
              else if Removes(s.disk, id, r, s'.disk, Gone) then Gone else Stuck;
    hide ReconcilerOk, AllAccountedFor, ProcessesOk, RunsOk, PhaseOk;
    RemovesFacts(s, id, r, s'.disk, r');
    hide Removes;
  }

  lemma {:induction false} BehaviourLate(states: seq<State>, steps: seq<Step>, n: nat)
    requires Behaviour(states, steps) && n < |states|
    ensures LateOk(states[n])
  {
    hide Inv, Next;
    if n > 0 {
      BehaviourLate(states, steps, n - 1);
      BehaviourInv(states, steps, n - 1);
      assert Next(states[n - 1], steps[n - 1], states[n - 1 + 1]);
      LateKeeps(states[n - 1], steps[n - 1], states[n]);
    }
  }

  lemma {:induction false} LateStays(states: seq<State>, steps: seq<Step>, i: nat, j: nat, id: string)
    requires Behaviour(states, steps) && i <= j < |states| && id in states[i].seen && Late(states[i].seen[id].phase)
    ensures id in states[j].seen && Late(states[j].seen[id].phase)
  {
    hide Inv, Next, Late;
    if i < j {
      LateStays(states, steps, i, j - 1, id);
      BehaviourLate(states, steps, j - 1);
      BehaviourInv(states, steps, j - 1);
      assert Next(states[j - 1], steps[j - 1], states[j - 1 + 1]);
      LateKeeps(states[j - 1], steps[j - 1], states[j]);
    }
  }

  /** A directory that has recorded an assigned runner never again records a waiting, failed or timed-out one. */
  lemma {:induction false} AssignedNeverTimesOut(states: seq<State>, steps: seq<Step>, i: nat, j: nat, id: string)
    requires Behaviour(states, steps) && i <= j < |states|
    requires id in states[i].disk && states[i].disk[id].Some? && states[i].disk[id].value.phase == Assigned
    requires id in states[j].disk && states[j].disk[id].Some?
    ensures states[j].disk[id].value.phase in {Assigned, Exited, Cleaning, CleanupFailed}
  {
    BehaviourInv(states, steps, i);
    BehaviourInv(states, steps, j);
    assert EntryOk(states[i], id) && EntryOk(states[j], id);
    hide Inv, Next;
    LateStays(states, steps, i, j, id);
  }

  ghost predicate EndingOk(s: State) {
    s.reconciler.Ending? ==> s.reconciler.manifest.phase == Waiting
  }

  lemma {:induction false} EndingKeeps(s: State, step: Step, s': State)
    requires EndingOk(s) && Next(s, step, s')
    ensures EndingOk(s')
  {
    hide Removes, ThreadStep;
  }

  lemma {:induction false} BehaviourEnding(states: seq<State>, steps: seq<Step>, n: nat)
    requires Behaviour(states, steps) && n < |states|
    ensures EndingOk(states[n])
  {
    hide Next;
    if n > 0 {
      BehaviourEnding(states, steps, n - 1);
      assert Next(states[n - 1], steps[n - 1], states[n - 1 + 1]);
      EndingKeeps(states[n - 1], steps[n - 1], states[n]);
    }
  }

  /** The reconciler ends a process only if an unowned directory records it as still waiting for its job, and goes on
      to remove that directory. */
  lemma {:induction false} ReconcileEndsOnlyWaiting(states: seq<State>, steps: seq<Step>, i: nat, p: ProcessIdentity)
    requires Behaviour(states, steps) && i < |steps| && steps[i] == Reconcile
    requires p in states[i].live && p !in states[i + 1].live
    ensures p in states[i].startedFor
    ensures var s, id := states[i], states[i].startedFor[p];
            && id !in s.runs && id in s.disk && s.disk[id].Some?
            && s.disk[id].value.process == p && s.disk[id].value.phase == Waiting
            && states[i + 1].reconciler.Discarding? && states[i + 1].reconciler.id == id
            && states[i + 1].reconciler.removal.Clearing?
  {
    BehaviourInv(states, steps, i);
    BehaviourEnding(states, steps, i);
    assert Next(states[i], steps[i], states[i + 1]);
    EndedWasWaiting(states[i], states[i + 1], p);
  }

  lemma {:induction false} EndedWasWaiting(s: State, s': State, p: ProcessIdentity)
    requires Inv(s) && EndingOk(s) && ReconcileStep(s, s') && p in s.live && p !in s'.live
    ensures p in s.startedFor
    ensures var id := s.startedFor[p];
            && id !in s.runs && id in s.disk && s.disk[id].Some?
            && s.disk[id].value.process == p && s.disk[id].value.phase == Waiting
            && s'.reconciler.Discarding? && s'.reconciler.id == id && s'.reconciler.removal.Clearing?
  {
    assert s.reconciler.Ending?;
    assert EntryOk(s, s.reconciler.id);
    hide Removes, AllAccountedFor, ThreadOk;
  }

  lemma {:induction false} StartedForStays(states: seq<State>, steps: seq<Step>, i: nat, j: nat, p: ProcessIdentity)
    requires Behaviour(states, steps) && i <= j < |states| && p in states[i].startedFor
    ensures p in states[j].startedFor && states[j].startedFor[p] == states[i].startedFor[p]
  {
    if i < j {
      StartedForStays(states, steps, i, j - 1, p);
      assert Next(states[j - 1], steps[j - 1], states[j - 1 + 1]);
      hide Removes;
    }
  }

  /** Main result on assigned runners: once a process is on record as assigned, no crash and no reconciliation ends it,
      then or later. */
  lemma {:induction false} AssignedRunnersSurvive(states: seq<State>, steps: seq<Step>, i: nat, j: nat, id: string,
                                                  p: ProcessIdentity)
    requires Behaviour(states, steps) && i <= j < |steps| && (steps[j] == Reconcile || steps[j] == Crash)
    requires id in states[i].disk && states[i].disk[id].Some? && states[i].disk[id].value.phase == Assigned
    requires states[i].disk[id].value.process == p && p in states[j].live
    ensures p in states[j + 1].live
  {
    BehaviourInv(states, steps, i);
    BehaviourInv(states, steps, j);
    assert EntryOk(states[i], id);
    assert Next(states[j], steps[j], states[j + 1]);
    LateStays(states, steps, i, j, id);
    StartedForStays(states, steps, i, j, p);
    assert EntryOk(states[j], id);
    hide Inv, Next, EntryOk;
    if steps[j] == Reconcile && p !in states[j + 1].live {
      ReconcileEndsOnlyWaiting(states, steps, j, p);
    }
  }

  // ---------------------------------------------------------------------------------------------
  // Every Run follows the same diagram of phases.

  /** The moves a Run makes from phase to phase, and when it makes them. */
  predicate PhaseMove(s: State, t: Thread, t': Thread) {
    var a, b := t.manifest.phase, t'.manifest.phase;
    || a == b
    || (a == Preparing && b == Waiting && t'.manifest.process !in s.live)
    || (a == Preparing && b == Failed && t.manifest.process.pid == 0)
    || (a == Waiting && (b == Assigned || b == TimedOut) && t.pc == Watch)
    || (a == Waiting && b == Exited && t.pc == Watch && t.manifest.process !in s.live)
    || (a == Assigned && b == Exited && (t.pc == Serve || t.pc == Drain(true)) && t.manifest.process !in s.live)
    || (b == Cleaning && a != Preparing && t.pc == SaveCleaning)
    || (a == Cleaning && b == CleanupFailed && t.pc == SaveCleanupFailed)
  }

  /** Main result on phases: in every behaviour a Run moves from preparing to waiting or failed, from waiting to
      assigned, timed out or exited, from assigned to exited only, and from there to cleaning and its failure; it
      records an exit only once the process is gone. */
  lemma {:induction false} PhasesFollowTheDiagram(states: seq<State>, steps: seq<Step>, i: nat, id: string)
    requires Behaviour(states, steps) && i < |steps| && id in states[i].runs && id in states[i + 1].runs
    ensures PhaseMove(states[i], states[i].runs[id], states[i + 1].runs[id])
  {
    BehaviourInv(states, steps, i);
    var s, s' := states[i], states[i + 1];
    assert Next(s, steps[i], s');
    if steps[i] == Run(id) {
      OwnPhaseMove(s, id, s');
    } else {
      OthersLeaveThread(s, steps[i], s', id);
    }
  }

  lemma {:induction false} OwnPhaseMove(s: State, id: string, s': State)
    requires Inv(s) && RunStep(s, id, s') && id in s.runs && id in s'.runs
    ensures PhaseMove(s, s.runs[id], s'.runs[id])
  {
    assert ThreadOk(s, id, s.runs[id]);
    hide Removes, SavedOk, DiskOk, ReconcilerOk, AllAccountedFor;
  }

  lemma {:induction false} OthersLeaveThread(s: State, step: Step, s': State, id: string)
    requires Inv(s) && Next(s, step, s') && step != Run(id) && id in s.runs && id in s'.runs
    ensures s'.runs[id] == s.runs[id]
  {
    hide Removes, ThreadStep, ThreadOk, DiskOk, AllAccountedFor;
  }

  // ---------------------------------------------------------------------------------------------
  // No Run skips a step.

  /** The points a Run may come from. */
  predicate MayPrecede(a: PC, b: PC) {
    match b
    case Copying => a.Copying?
    case SavePreparing => a.Copying?
    case Abandon(r) => if r.Clearing? then a.Copying? || a.SavePreparing? else a.Abandon?
    case Start => a.SavePreparing?
    case SaveFailed => a.Start?
    case SaveWaiting => a.Start?
    case StopUnrecorded => a.SaveWaiting?
    case Watch => a.SaveWaiting?
    case SaveAssigned => a.Watch?
    case StopUnsaved => a.SaveAssigned?
    case Serve => a.SaveAssigned?
    case StopTimedOut => a.Watch?
    case StopCancelled(serving) => if serving then a.Serve? else a.Watch?
    case Drain(serving) => a == StopCancelled(serving) || (!serving && a.StopTimedOut?)
    case SaveOutcome => a.Watch? || a.Serve? || a.StopTimedOut? || a.Drain?
    case SaveCleaning => a.SaveFailed? || a.StopUnrecorded? || a.StopUnsaved? || a.SaveOutcome?
    case Remove(r) => if r.Clearing? then a.SaveCleaning? else a.Remove?
    case SaveCleanupFailed => a.Remove?
    case Leave => a.Abandon? || a.Remove? || a.SaveCleanupFailed?
  }

  /** In every behaviour a Run comes to each point from one that may precede it: no process is watched or served
      before the write that records it was tried, no outcome is due before the process was waited for, or its
      termination failed after a timeout, and no directory is removed before its cleanup was announced. */
  lemma {:induction false} NoStepIsSkipped(states: seq<State>, steps: seq<Step>, i: nat, id: string)
    requires Behaviour(states, steps) && i < |steps| && id in states[i].runs && id in states[i + 1].runs
    ensures var t, t' := states[i].runs[id], states[i + 1].runs[id];
            && (t' == t || MayPrecede(t.pc, t'.pc))
            && (t.pc.StopTimedOut? && t'.pc.SaveOutcome? ==> t.manifest.process in states[i + 1].excused)
  {
    BehaviourInv(states, steps, i);
    var s, s' := states[i], states[i + 1];
    assert Next(s, steps[i], s');
    if steps[i] == Run(id) {
      OwnStepFrom(s, id, s.runs[id], s'.runs[id], s');
    } else {
      OthersLeaveThread(s, steps[i], s', id);
    }
  }

  lemma {:induction false} OwnStepFrom(s: State, id: string, t: Thread, t': Thread, s': State)
    requires ThreadStep(s, id, t, t', s')
    ensures MayPrecede(t.pc, t'.pc)
    ensures t.pc.StopTimedOut? && t'.pc.SaveOutcome? ==> t.manifest.process in s'.excused
  {
    hide Saves, Stops, Silent;
    if !t.pc.Abandon? && !t.pc.Remove? {
      hide Removes;
    }
  }

  /** Whatever a watched process does, each way the wait can end is open: assignment, timeout and cancellation always,
      an exit once the process is gone; and a served one can exit or be cancelled. */
  lemma {:induction false} WaysToEnd(s: State, id: string)
    requires Inv(s) && id in s.runs && (s.runs[id].pc.Watch? || s.runs[id].pc.Serve?)
    ensures var m := s.runs[id].manifest;
            var exited := At(s, id, SaveOutcome, m.(phase := Exited));
            && (m.process !in s.live ==> Next(s, Run(id), exited))
            && (s.runs[id].pc.Serve? ==> Next(s, Run(id), At(s, id, StopCancelled(true), m)))
            && (s.runs[id].pc.Watch? ==>
                  && Next(s, Run(id), At(s, id, SaveAssigned, m.(phase := Assigned)))
                  && Next(s, Run(id), At(s, id, StopTimedOut, m.(phase := TimedOut)))
                  && Next(s, Run(id), At(s, id, StopCancelled(false), m)))
  {
    assert ThreadOk(s, id, s.runs[id]) && EntryOk(s, id);
    hide Inv, ThreadOk;
    assert Remember(s.seen, id, s.disk) == s.seen;
  }

  // ---------------------------------------------------------------------------------------------
  // Every Run cleans up after itself.

  /** A Run counts its one cleanup when it begins to remove its directory; it leaves only when the directory is gone,
      or its removal is on the Run's record as failed, or nothing was ever started in it. */
  predicate CleansUp(s: State, id: string, t: Thread) {
    var m := t.manifest;
    match t.pc
    case Remove(_) => m.cleanupAttempts == 1
    case SaveCleanupFailed => m.cleanupAttempts == 1
    case Leave =>
      if m.phase == Preparing then m.cleanupAttempts == 0 && m.process.pid == 0
      else m.cleanupAttempts == 1 && (id !in s.disk || m.phase == CleanupFailed)
    case _ => m.cleanupAttempts == 0
  }

  ghost predicate AllCleanUp(s: State) {
    forall id :: id in s.runs ==> CleansUp(s, id, s.runs[id])
  }

  lemma {:induction false} CleansUpKeeps(s: State, step: Step, s': State)
    requires Inv(s) && AllCleanUp(s) && Next(s, step, s')
    ensures AllCleanUp(s')
  {
    forall id | id in s'.runs ensures CleansUp(s', id, s'.runs[id]) {
      match step {
        case Begin(n) =>
        case Exit(_) =>
        case Crash =>
        case Run(n) =>
          if n == id {
            CleansUpOwnStep(s, id, s');
          } else {
            OtherDirectory(s, n, s', id);
          }
        case Reconcile => ReconcileSpares(s, s');
      }
      hide Inv, RunStep, ReconcileStep;
    }
  }

  lemma {:induction false} CleansUpOwnStep(s: State, id: string, s': State)
    requires Inv(s) && id in s.runs && CleansUp(s, id, s.runs[id]) && RunStep(s, id, s') && id in s'.runs
    ensures CleansUp(s', id, s'.runs[id])
  {
    assert ThreadOk(s, id, s.runs[id]);
    hide Inv, SavedOk;
  }

  lemma {:induction false} OtherDirectory(s: State, n: string, s': State, id: string)
    requires RunStep(s, n, s') && n != id && id in s'.runs
    ensures id in s.runs && s'.runs[id] == s.runs[id] && (id in s'.disk <==> id in s.disk)
  {
  }

  lemma {:induction false} BehaviourCleansUp(states: seq<State>, steps: seq<Step>, n: nat)
    requires Behaviour(states, steps) && n < |states|
    ensures AllCleanUp(states[n])
  {
    hide Inv, Next;
    if n > 0 {
      BehaviourCleansUp(states, steps, n - 1);
      BehaviourInv(states, steps, n - 1);
      assert Next(states[n - 1], steps[n - 1], states[n - 1 + 1]);
      CleansUpKeeps(states[n - 1], steps[n - 1], states[n]);
    }
  }

  /** A Run takes its leave only from the removal of its directory: the one that abandons a failed preparation, the one
      that ends its cleanup with the directory gone, or the one whose failure it has just put on record. */
  lemma {:induction false} LeavesOnlyAfterRemoval(states: seq<State>, steps: seq<Step>, i: nat, id: string)
    requires Behaviour(states, steps) && i < |steps| && id in states[i].runs && !states[i].runs[id].pc.Leave?
    requires id in states[i + 1].runs && states[i + 1].runs[id].pc.Leave?
    ensures var t, m := states[i].runs[id], states[i + 1].runs[id].manifest;
            || (t.pc.Abandon? && m.phase == Preparing)
            || (t.pc.Remove? && m.phase == Cleaning && id !in states[i + 1].disk)
            || (t.pc.SaveCleanupFailed? && m.phase == CleanupFailed)
  {
    BehaviourInv(states, steps, i);
    var s, s' := states[i], states[i + 1];
    assert Next(s, steps[i], s');
    if steps[i] == Run(id) {
      assert ThreadOk(s, id, s.runs[id]);
      LeavingStep(s, id, s.runs[id], s'.runs[id], s');
    } else {
      OthersLeaveThread(s, steps[i], s', id);
    }
  }

  lemma {:induction false} LeavingStep(s: State, id: string, t: Thread, t': Thread, s': State)
    requires PhaseOk(s, t) && ThreadStep(s, id, t, t', s') && t'.pc.Leave?
    ensures || (t.pc.Abandon? && t'.manifest.phase == Preparing)
            || (t.pc.Remove? && t'.manifest.phase == Cleaning && id !in s'.disk)
            || (t.pc.SaveCleanupFailed? && t'.manifest.phase == CleanupFailed)
  {
    hide Saves, Stops, Silent;
    if !t.pc.Remove? {
      hide Removes;
    }
  }

  /** Points at which a Run has put on disk all it knows: about to start its process, watching it, serving its job,
      and stopping on cancellation. */
  predicate Mirrored(pc: PC) {
    pc.Start? || pc.Watch? || pc.Serve? || pc.StopCancelled? || pc == Drain(true)
  }

  ghost predicate Mirrors(s: State) {
    forall id :: id in s.runs && Mirrored(s.runs[id].pc) ==> id in s.disk && s.disk[id] == Some(s.runs[id].manifest)
  }

  lemma {:induction false} MirrorsKeeps(s: State, step: Step, s': State)
    requires Inv(s) && Mirrors(s) && Next(s, step, s')
    ensures Mirrors(s')
  {
    forall id | id in s'.runs && Mirrored(s'.runs[id].pc)
      ensures id in s'.disk && s'.disk[id] == Some(s'.runs[id].manifest)
    {
      match step {
        case Begin(n) =>
        case Exit(_) =>
        case Crash =>
        case Run(n) =>
          if n == id {
            OwnMirror(s, id, s');
          } else {
            OtherManifest(s, n, s', id);
          }
        case Reconcile => ReconcileSpares(s, s');
      }
      hide Inv, RunStep, ReconcileStep;
    }
  }

  lemma {:induction false} OwnMirror(s: State, id: string, s': State)
    requires Mirrors(s) && RunStep(s, id, s') && id in s'.runs && Mirrored(s'.runs[id].pc)
    ensures id in s'.disk && s'.disk[id] == Some(s'.runs[id].manifest)
  {
    hide Removes;
  }

  lemma {:induction false} OtherManifest(s: State, n: string, s': State, id: string)
    requires RunStep(s, n, s') && n != id && id in s'.runs
    ensures id in s.runs && s'.runs[id] == s.runs[id]
    ensures (id in s'.disk <==> id in s.disk) && (id in s.disk ==> s'.disk[id] == s.disk[id])
  {
  }

  /** Main result on the record: in every behaviour the directory of a Run at such a point holds exactly the manifest
      the Run has in memory: a restart reads what the Run knew. */
  lemma {:induction false} DiskMirrorsMemory(states: seq<State>, steps: seq<Step>, n: nat)
    requires Behaviour(states, steps) && n < |states|
    ensures Mirrors(states[n])
  {
    hide Inv, Next;
    if n > 0 {
      DiskMirrorsMemory(states, steps, n - 1);
      BehaviourInv(states, steps, n - 1);
      assert Next(states[n - 1], steps[n - 1], states[n - 1 + 1]);
      MirrorsKeeps(states[n - 1], steps[n - 1], states[n]);
    }
  }

  /** A process is started only in a directory that holds a valid manifest of a Run in progress, still without a
      process. */
  lemma {:induction false} StartedOnlyWhenPrepared(states: seq<State>, steps: seq<Step>, i: nat, p: ProcessIdentity)
    requires Behaviour(states, steps) && i < |steps|
    requires p !in states[i].startedFor && p in states[i + 1].startedFor
    ensures var s, id := states[i], states[i + 1].startedFor[p];
            && id in s.runs && id in s.disk && s.disk[id].Some?
            && s.disk[id].value.instanceID == id && s.disk[id].value.schemaVersion == 1
            && s.disk[id].value.phase == Preparing && s.disk[id].value.process.pid == 0
  {
    BehaviourInv(states, steps, i);
    DiskMirrorsMemory(states, steps, i);
    var s, s' := states[i], states[i + 1];
    assert Next(s, steps[i], s');
    StartingStep(s, steps[i], s', p);
    var id := s'.startedFor[p];
    assert ThreadOk(s, id, s.runs[id]);
    hide Next, Inv;
  }

  lemma {:induction false} StartingStep(s: State, step: Step, s': State, p: ProcessIdentity)
    requires Next(s, step, s') && p !in s.startedFor && p in s'.startedFor
    ensures var id := s'.startedFor[p]; id in s.runs && s.runs[id].pc.Start?
  {
    hide Removes;
  }

  /** No two directories ever name the same process: what a report by identity depends on. */
  lemma {:induction false} NoSharedIdentities(states: seq<State>, steps: seq<Step>, n: nat, a: string, b: string)
    requires Behaviour(states, steps) && n < |states| && a != b
    requires a in states[n].disk && states[n].disk[a].Some? && states[n].disk[a].value.process.pid != 0
    requires b in states[n].disk && states[n].disk[b].Some?
    ensures states[n].disk[a].value.process != states[n].disk[b].value.process
  {
    BehaviourInv(states, steps, n);
    assert EntryOk(states[n], a) && EntryOk(states[n], b);
  }

  // ---------------------------------------------------------------------------------------------
  // Each fault really can lose a process.

  /** A live process no Run owns and no manifest names. */
  ghost predicate Lost(s: State, p: ProcessIdentity) {
    p in s.live && p in s.startedFor && s.startedFor[p] !in s.runs && !Recorded(s.disk, s.startedFor[p], p)
  }

  ghost predicate RunSteps(states: seq<State>, id: string) {
    states != [] && forall i :: 0 <= i < |states| - 1 ==> Next(states[i], Run(id), states[i + 1])
  }

  function At(s: State, id: string, pc: PC, manifest: Manifest): State {
    s.(runs := s.runs[id := Thread(pc, manifest)])
  }

  function OnDisk(s: State, id: string, manifest: Manifest): State {
    s.(disk := s.disk[id := Some(manifest)], seen := s.seen[id := manifest])
  }

  /** A Run that reaches its cleanup can delete the directory and leave, whatever its process does. */
  lemma {:induction false} CleanupCanFinish(s: State, id: string) returns (states: seq<State>)
    requires id in s.runs && s.runs[id].pc.SaveCleaning?
    ensures RunSteps(states, id) && states[0] == s
    ensures var last := states[|states| - 1];
            last.live == s.live && last.startedFor == s.startedFor && id !in last.runs && id !in last.disk
  {
    var m := s.runs[id].manifest;
    var c := m.(phase := Cleaning, cleanupAttempts := m.cleanupAttempts + 1);
    if id in s.disk {
      var s1 := At(OnDisk(s, id, c), id, Remove(Clearing), c);
      var rest := RemovalCanFinish(s1, id);
      assert Next(s, Run(id), s1);
      hide Next;
      states := [s] + rest;
    } else {
      var s1 := At(s, id, Remove(Clearing), c);
      var s2 := At(s1, id, Leave, c);
      var s3 := s2.(owned := s2.owned - {id}, runs := s2.runs - {id});
      assert Next(s, Run(id), s1);
      assert Next(s1, Run(id), s2);
      assert Next(s2, Run(id), s3);
      hide Next;
      states := [s, s1, s2, s3];
    }
  }

  lemma {:induction false} RemovalCanFinish(s: State, id: string) returns (states: seq<State>)
    requires id in s.runs && s.runs[id].pc == Remove(Clearing) && id in s.disk && s.disk[id].Some?
    requires id in s.seen && s.seen[id] == s.disk[id].value
    ensures RunSteps(states, id) && states[0] == s
    ensures var last := states[|states| - 1];
            last.live == s.live && last.startedFor == s.startedFor && id !in last.runs && id !in last.disk
  {
    var c := s.runs[id].manifest;
    var s1 := At(s, id, Remove(Emptied(s.disk[id])), c);
    var s2 := At(s1.(disk := s1.disk[id := None]), id, Remove(Bare(s.disk[id])), c);
    var s3 := At(s2.(disk := s2.disk - {id}), id, Leave, c);
    var s4 := s3.(owned := s3.owned - {id}, runs := s3.runs - {id});
    assert Remember(s.seen, id, s.disk) == s.seen;
    assert Next(s, Run(id), s1);
    assert Next(s1, Run(id), s2);
    assert Next(s2, Run(id), s3);
    assert Next(s3, Run(id), s4);
    hide Next;
    states := [s, s1, s2, s3, s4];
  }

  /** A Run that has removed its manifest but cannot remove the directory can put the manifest back. */
  lemma {:induction false} RecordCanComeBack(s: State, id: string, saved: Manifest) returns (states: seq<State>)
    requires id in s.runs && s.runs[id].pc == Remove(Bare(Some(saved))) && id in s.disk && s.disk[id].None?
    ensures RunSteps(states, id) && states[0] == s
    ensures var last := states[|states| - 1];
            id in last.disk && last.disk[id] == Some(saved) && id in last.runs && last.runs[id].pc == SaveCleanupFailed
  {
    var m := s.runs[id].manifest;
    var s1 := At(s, id, Remove(Restoring(saved)), m);
    var s2 := At(OnDisk(s1, id, saved), id, SaveCleanupFailed, m);
    assert Next(s, Run(id), s1);
    assert Next(s1, Run(id), s2);
    states := [s, s1, s2];
  }

  /** A Run whose termination failed goes on to delete the directory, and the process it could not stop can be
      lost: after the acquisition timeout, and after a failed write of the waiting or the assigned phase. */
  lemma {:induction false} FailedTerminationLoses(s: State, id: string, s': State) returns (states: seq<State>)
    requires Inv(s) && Next(s, Run(id), s') && Fault(s, Run(id), s', s.runs[id].manifest.process)
    requires s.runs[id].manifest.process in s'.live
    ensures RunSteps(states, id) && states[0] == s'
    ensures Lost(states[|states| - 1], s.runs[id].manifest.process)
  {
    hide Inv, Fault, Next;
    AfterFailedTermination(s, id, s');
    if s'.runs[id].pc.SaveCleaning? {
      states := CleanupCanFinish(s', id);
    } else {
      var s1 := At(s', id, SaveCleaning, s'.runs[id].manifest);
      OutcomeUnsaved(s', id);
      var rest := CleanupCanFinish(s1, id);
      states := [s'] + rest;
    }
  }

  /** The write of the outcome may fail, and the Run goes on to its cleanup. */
  lemma {:induction false} OutcomeUnsaved(s: State, id: string)
    requires id in s.runs && s.runs[id].pc.SaveOutcome?
    requires id in s.disk && s.disk[id].Some? ==> id in s.seen && s.seen[id] == s.disk[id].value
    ensures Next(s, Run(id), At(s, id, SaveCleaning, s.runs[id].manifest))
  {
    assert Remember(s.seen, id, s.disk) == s.seen;
  }

  lemma {:induction false} AfterFailedTermination(s: State, id: string, s': State)
    requires Inv(s) && Next(s, Run(id), s') && Fault(s, Run(id), s', s.runs[id].manifest.process)
    requires s.runs[id].manifest.process in s'.live
    ensures var p := s.runs[id].manifest.process;
            && id in s'.runs && p in s'.startedFor && s'.startedFor[p] == id
            && (s'.runs[id].pc.SaveCleaning? || s'.runs[id].pc.SaveOutcome?)
            && (id in s'.disk && s'.disk[id].Some? ==> id in s'.seen && s'.seen[id] == s'.disk[id].value)
  {
    assert ThreadOk(s, id, s.runs[id]) && EntryOk(s, id);
    hide PhaseOk, ReconcilerOk, AllAccountedFor;
  }

  /** A crash between the start of a process and the write that records it, or before the Run that failed to
      record it has stopped it, loses a live process at once. */
  lemma {:induction false} CrashBeforeRecordLoses(s: State, s': State, p: ProcessIdentity)
    requires Inv(s) && CrashStep(s, s') && p in Unrecorded(s) && p in s.live
    ensures Lost(s', p)
  {
    var id :| id in s.runs && (s.runs[id].pc.SaveWaiting? || s.runs[id].pc.StopUnrecorded?) &&
      s.runs[id].manifest.process == p;
    assert ThreadOk(s, id, s.runs[id]) && EntryOk(s, id);
    hide PhaseOk, ReconcilerOk, AllAccountedFor;
  }

  ghost predicate ReconcileSteps(states: seq<State>) {
    states != [] && forall i :: 0 <= i < |states| - 1 ==> Next(states[i], Reconcile, states[i + 1])
  }

  /** A reconciler about to discard a directory can delete it, whatever process its manifest names. */
  lemma {:induction false} DiscardCanFinish(s: State) returns (states: seq<State>)
    requires s.reconciler.Discarding? && s.reconciler.removal == Clearing && s.reconciler.id in s.disk
    requires Remember(s.seen, s.reconciler.id, s.disk) == s.seen
    ensures ReconcileSteps(states) && states[0] == s
    ensures var last := states[|states| - 1];
            && last.live == s.live && last.startedFor == s.startedFor && last.runs == s.runs
            && s.reconciler.id !in last.disk
  {
    var id, todo := s.reconciler.id, s.reconciler.todo;
    var s1 := s.(reconciler := Discarding(id, Emptied(None), todo));
    var s2 := s1.(disk := s1.disk[id := None], reconciler := Discarding(id, Bare(None), todo));
    var s3 := s2.(disk := s2.disk - {id}, reconciler := Scanning(todo));
    assert Next(s, Reconcile, s1);
    assert Next(s1, Reconcile, s2);
    assert Next(s2, Reconcile, s3);
    hide Next;
    states := [s, s1, s2, s3];
  }

  /** A failed read of a manifest that names a live process makes the reconciler delete its directory. */
  lemma {:induction false} FailedReadLoses(s: State, s': State, p: ProcessIdentity) returns (states: seq<State>)
    requires Inv(s) && Next(s, Reconcile, s') && Fault(s, Reconcile, s', p) && p in s'.live
    ensures ReconcileSteps(states) && states[0] == s'
    ensures Lost(states[|states| - 1], p)
  {
    var id := s.reconciler.id;
    assert EntryOk(s, id);
    assert p.pid != 0 && p in s.startedFor && s.startedFor[p] == id && id !in s.runs;
    assert s'.reconciler == Discarding(id, Clearing, s.reconciler.todo) && s'.runs == s.runs &&
      s'.startedFor == s.startedFor;
    assert Remember(s'.seen, id, s'.disk) == s'.seen;
    hide Inv, Next, Fault;
    states := DiscardCanFinish(s');
  }

  ghost predicate Path(states: seq<State>, steps: seq<Step>) {
    |states| == |steps| + 1 && forall i :: 0 <= i < |steps| ==> Next(states[i], steps[i], states[i + 1])
  }

  /** Every fault that concerns a live process has a continuation that loses it. */
  lemma {:induction false} FaultCanLose(s: State, step: Step, s': State, p: ProcessIdentity)
    returns (states: seq<State>, steps: seq<Step>)
    requires Inv(s) && Next(s, step, s') && Fault(s, step, s', p) && p in s'.live
    ensures Path(states, steps) && states[0] == s' && Lost(states[|states| - 1], p)
  {
    match step {
      case Run(id) => states := FailedTerminationLoses(s, id, s');
      case Crash =>
        CrashBeforeRecordLoses(s, s', p);
        states := [s'];
      case Reconcile => states := FailedReadLoses(s, s', p);
    }
    steps := seq(|states| - 1, i => step);
    hide Next, Lost, Inv, Fault;
  }

  /** So the three faults are exactly what can lose a process: without them none is lost, and every behaviour in
      which one of them concerns a live process extends to one that loses it. */
  lemma {:induction false} FaultsAreExact(states: seq<State>, steps: seq<Step>, n: nat, p: ProcessIdentity)
    returns (longer: seq<State>, moreSteps: seq<Step>)
    requires Behaviour(states, steps) && n < |steps|
    requires Fault(states[n], steps[n], states[n + 1], p) && p in states[n + 1].live
    ensures Behaviour(longer, moreSteps) && states[..n + 2] <= longer && steps[..n + 1] <= moreSteps
    ensures Lost(longer[|longer| - 1], p)
  {
    hide Next, Lost, Inv, Fault;
    BehaviourInv(states, steps, n);
    assert Next(states[n], steps[n], states[n + 1]);
    var rest, more := FaultCanLose(states[n], steps[n], states[n + 1], p);
    longer, moreSteps := states[..n + 2] + rest[1..], steps[..n + 1] + more;
    GoesOn(states, steps, n, rest, more);
    hide Behaviour;
    assert longer[|longer| - 1] == rest[|rest| - 1];
  }

  lemma {:induction false} GoesOn(states: seq<State>, steps: seq<Step>, n: nat, rest: seq<State>, more: seq<Step>)
    requires Behaviour(states, steps) && n < |steps| && Path(rest, more) && rest[0] == states[n + 1]
    ensures Behaviour(states[..n + 2] + rest[1..], steps[..n + 1] + more)
  {
    hide Next;
    var longer, moreSteps := states[..n + 2] + rest[1..], steps[..n + 1] + more;
    forall i | 0 <= i < |moreSteps| ensures Next(longer[i], moreSteps[i], longer[i + 1]) {
      if i <= n {
        assert Next(states[i], steps[i], states[i + 1]);
      } else {
        assert Next(rest[i - n - 1], more[i - n - 1], rest[i - n - 1 + 1]);
      }
    }
  }

  /** The situations above do arise: a behaviour that starts a process and watches it. */
  lemma {:induction false} ProcessesGetWatched(id: string, process: ProcessIdentity, deadline: int)
    returns (states: seq<State>, steps: seq<Step>)
    requires process.pid != 0
    ensures Behaviour(states, steps) && |states| == 7 && |steps| == 6
    ensures id in states[5].runs && states[5].runs[id].pc == SaveWaiting &&
        states[5].runs[id].manifest.process == process
    ensures id in states[6].runs && states[6].runs[id].pc == Watch && states[6].runs[id].manifest.process == process
    ensures process in states[5].live && process in states[6].live
  {
    var m := Fresh(id, deadline);
    var w := m.(process := process, phase := Waiting);
    var s0 := Initial();
    var s1 := s0.(owned := {id}, used := {id}, runs := map[id := Thread(Copying, m)]);
    assert Next(s0, Begin(id), s1);
    var rest := CopyCanStart(s1, id, w);
    hide Next;
    states := [s0] + rest;
    steps := [Begin(id), Run(id), Run(id), Run(id), Run(id), Run(id)];
  }

  lemma {:induction false} CopyCanStart(s1: State, id: string, w: Manifest) returns (states: seq<State>)
    requires s1.disk == map[] && s1.live == {} && s1.startedFor == map[] && s1.seen == map[]
    requires w.process.pid != 0 && w.phase == Waiting
    requires s1.runs == map[id := Thread(Copying, w.(process := NO_PROCESS, phase := Preparing))]
    ensures |states| == 6 && states[0] == s1 && RunSteps(states, id)
    ensures id in states[4].runs && states[4].runs[id] == Thread(SaveWaiting, w) && w.process in states[4].live
    ensures id in states[5].runs && states[5].runs[id] == Thread(Watch, w) && w.process in states[5].live
  {
    var m := w.(process := NO_PROCESS, phase := Preparing);
    var s2 := At(s1.(disk := map[id := None]), id, Copying, m);
    var s3 := At(s2, id, SavePreparing, m);
    var s4 := At(OnDisk(s3, id, m), id, Start, m);
    var s5 := At(s4.(live := {w.process}, startedFor := map[w.process := id]), id, SaveWaiting, w);
    var s6 := At(OnDisk(s5, id, w), id, Watch, w);
    CopyNext(s1, id, m);
    assert s3.seen == map[];
    SaveNext(s3, id, SavePreparing, Start, m);
    StartNext(s4, id, w, s5);
    SaveNext(s5, id, SaveWaiting, Watch, w);
    hide Next;
    states := [s1, s2, s3, s4, s5, s6];
  }

  lemma {:induction false} CopyNext(s: State, id: string, m: Manifest)
    requires s.disk == map[] && s.seen == map[] && id in s.runs && s.runs[id] == Thread(Copying, m)
    ensures var s' := At(s.(disk := map[id := None]), id, Copying, m);
            Next(s, Run(id), s') && Next(s', Run(id), At(s', id, SavePreparing, m))
  {
    assert s.disk[id := None] == map[id := None];
  }

  /** A manifest write that succeeds. */
  lemma {:induction false} SaveNext(s: State, id: string, pc: PC, next: PC, m: Manifest)
    requires id in s.disk && id in s.runs && s.runs[id] == Thread(pc, m)
    requires (pc == SavePreparing && next == Start) || (pc == SaveWaiting && next == Watch)
    ensures Next(s, Run(id), At(OnDisk(s, id, m), id, next, m))
  {
  }

  lemma {:induction false} StartNext(s: State, id: string, w: Manifest, s': State)
    requires id in s.runs && s.runs[id] == Thread(Start, w.(process := NO_PROCESS, phase := Preparing))
    requires w.process.pid != 0 && w.phase == Waiting && s.startedFor == map[] && s.live == {}
    requires id in s.disk && s.disk[id].Some? && id in s.seen && s.seen[id] == s.disk[id].value
    requires s' == At(s.(live := {w.process}, startedFor := map[w.process := id]), id, SaveWaiting, w)
    ensures Next(s, Run(id), s')
  {
    assert Remember(s.seen, id, s.disk) == s.seen;
  }

  /** A behaviour ending in `s`. */
  ghost predicate Reaches(states: seq<State>, steps: seq<Step>, s: State) {
    Behaviour(states, steps) && states[|steps|] == s
  }

  lemma {:induction false} Extend(states: seq<State>, steps: seq<Step>, s: State, step: Step, s': State)
    returns (longer: seq<State>, moreSteps: seq<Step>)
    requires Reaches(states, steps, s) && Next(s, step, s')
    ensures Reaches(longer, moreSteps, s')
  {
    hide Next;
    longer, moreSteps := states + [s'], steps + [step];
  }

  lemma {:induction false} CutOff(states: seq<State>, steps: seq<Step>, n: nat)
    requires Behaviour(states, steps) && n <= |steps|
    ensures Reaches(states[..n + 1], steps[..n], states[n])
  {
    hide Next;
    forall i | 0 <= i < n ensures Next(states[..n + 1][i], steps[..n][i], states[..n + 1][i + 1]) {
      assert Next(states[i], steps[i], states[i + 1]);
    }
  }

  lemma {:induction false} SeenIsCurrent(s: State, id: string)
    requires Inv(s) && id in s.runs
    ensures Remember(s.seen, id, s.disk) == s.seen
  {
    assert ThreadOk(s, id, s.runs[id]) && EntryOk(s, id);
  }

  lemma {:induction false} MovesOn(s: State, id: string, pc: PC, manifest: Manifest)
    requires Inv(s) && id in s.runs
    requires var t := s.runs[id];
             || (t.pc == SaveWaiting && pc == StopUnrecorded && manifest == t.manifest)
             || (t.pc == Watch && pc == StopTimedOut && manifest == t.manifest.(phase := TimedOut))
             || (t.pc == Watch && pc == SaveAssigned && manifest == t.manifest.(phase := Assigned))
             || (t.pc == SaveAssigned && pc == StopUnsaved && manifest == t.manifest)
    ensures Next(s, Run(id), At(s, id, pc, manifest))
  {
    SeenIsCurrent(s, id);
    hide Inv;
  }

  /** The three places where a termination can fail are reached with the process alive. */
  lemma {:induction false} TerminationsGetTried(id: string, process: ProcessIdentity, deadline: int, pc: PC)
    returns (states: seq<State>, steps: seq<Step>, last: State)
    requires process.pid != 0 && (pc == StopUnrecorded || pc == StopUnsaved || pc == StopTimedOut)
    ensures Reaches(states, steps, last)
    ensures id in last.runs && last.runs[id].pc == pc && last.runs[id].manifest.process == process &&
        process in last.live
  {
    hide Inv, Next, Behaviour, Reaches;
    states, steps := ProcessesGetWatched(id, process, deadline);
    var n := if pc == StopUnrecorded then 5 else 6;
    BehaviourInv(states, steps, n);
    CutOff(states, steps, n);
    var s := states[n];
    states, steps := states[..n + 1], steps[..n];
    var m := s.runs[id].manifest;
    if pc == StopUnsaved {
      var s' := At(s, id, SaveAssigned, m.(phase := Assigned));
      MovesOn(s, id, SaveAssigned, m.(phase := Assigned));
      StepKeeps(s, Run(id), s');
      states, steps := Extend(states, steps, s, Run(id), s');
      s := s';
      m := s.runs[id].manifest;
    }
    var m' := if pc == StopTimedOut then m.(phase := TimedOut) else m;
    last := At(s, id, pc, m');
    MovesOn(s, id, pc, m');
    states, steps := Extend(states, steps, s, Run(id), last);
  }

  /** And after a crash the reconciler comes to read the manifest of a process that is still alive. */
  lemma {:induction false} SurvivorsGetRead(id: string, process: ProcessIdentity, deadline: int)
    returns (states: seq<State>, steps: seq<Step>, last: State)
    requires process.pid != 0
    ensures Reaches(states, steps, last)
    ensures last.reconciler == Reading(id, {}) && process in last.live
    ensures id in last.disk && last.disk[id].Some? && last.disk[id].value.process == process
  {
    hide Inv, Behaviour, Reaches, ReconcileStep, RunStep, BeginStep;
    states, steps := ProcessesGetWatched(id, process, deadline);
    BehaviourInv(states, steps, 6);
    CutOff(states, steps, 6);
    var s := states[6];
    states, steps := states[..7], steps[..6];
    WatchedIsRecorded(s, id);
    var s1 := s.(owned := {}, runs := map[], reconciler := Idle, excused := s.excused + Unrecorded(s));
    var s2, s3, s4 := s1.(reconciler := Listing({})), s1.(reconciler := Listing({id})),
      s1.(reconciler := Scanning({id}));
    last := s1.(reconciler := Reading(id, {}));
    ListingSteps(s1, id);
    assert Next(s, Crash, s1);
    hide Next;
    states, steps := Extend(states, steps, s, Crash, s1);
    states, steps := Extend(states, steps, s1, Reconcile, s2);
    states, steps := Extend(states, steps, s2, Reconcile, s3);
    states, steps := Extend(states, steps, s3, Reconcile, s4);
    states, steps := Extend(states, steps, s4, Reconcile, last);
  }

  lemma {:induction false} WatchedIsRecorded(s: State, id: string)
    requires Inv(s) && id in s.runs && s.runs[id].pc == Watch
    ensures id in s.disk && s.disk[id].Some? && s.disk[id].value.process == s.runs[id].manifest.process
  {
    assert ThreadOk(s, id, s.runs[id]);
  }

  /** An idle reconciler that nobody disturbs lists one directory and comes to read its manifest. */
  lemma {:induction false} ListingSteps(s: State, id: string)
    requires s.reconciler == Idle && id in s.disk && id !in s.owned
    ensures Next(s, Reconcile, s.(reconciler := Listing({})))
    ensures Next(s.(reconciler := Listing({})), Reconcile, s.(reconciler := Listing({id})))
    ensures Next(s.(reconciler := Listing({id})), Reconcile, s.(reconciler := Scanning({id})))
    ensures Next(s.(reconciler := Scanning({id})), Reconcile, s.(reconciler := Reading(id, {})))
  {
    assert {} + {id} == {id} && {id} - {id} == {};
  }
}
