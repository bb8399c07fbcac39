/** Instance directories, their manifests, and the sequential algorithms over them: removeInstance and
    one pass of Reconcile (internal/runner/manager.go). */
module Instances {
  import opened Collections

  datatype Phase = Preparing | Waiting | Assigned | TimedOut | Failed | Exited | Cleaning | CleanupFailed

  datatype ProcessIdentity = ProcessIdentity(pid: int, startMarker: string, executable: string)

  /** A zero PID means no process was recorded, a zero deadline means none was set. */
  datatype Manifest = Manifest(
    schemaVersion: int,
    instanceID: string,
    process: ProcessIdentity,
    phase: Phase,
    acquisitionDeadline: int,
    cleanupAttempts: nat)

  const SCHEMA_VERSION := 1
  const MANIFEST := "manifest.json"

  /** A file's content: a decodable manifest or anything else. */
  datatype File = Data | Record(manifest: Manifest)

  type Files = map<string, File>

  /** What is found under the runner root: a directory, or something that is not one (or is a link). */
  datatype Entry = Foreign | Directory(files: Files)

  type Root = map<string, Entry>

  /** The process table: for each live PID its start marker and executable. */
  type Table = map<int, (string, string)>

  /** The system calls that may fail, each at most once per instance and pass. */
  datatype Op =
    | Stat | ListFiles | RemoveFile(name: string) | ReadRecord | RemoveRecord | RemoveDirectory | RewriteRecord
    | Inspect | Terminate

  /** The operating system: how it lists names, and which calls fail. */
  datatype Os = Os(list: set<string> -> seq<string>, fails: (string, Op) -> bool)

  ghost predicate IsListing(names: seq<string>, s: set<string>) {
    Distinct(names) && forall n :: n in names <==> n in s
  }

  ghost predicate Lists(os: Os) {
    forall s :: IsListing(os.list(s), s)
  }

  function ReadManifest(files: Files): Option<Manifest> {
    if MANIFEST in files && files[MANIFEST].Record? then Some(files[MANIFEST].manifest) else None
  }

  function Lookup(root: Root, id: string): Option<Entry> {
    if id in root then Some(root[id]) else None
  }

  function Put(root: Root, id: string, entry: Option<Entry>): Root {
    if entry.Some? then root[id := entry.value] else root - {id}
  }

  // ---------------------------------------------------------------------------------------------
  // removeInstance.

  datatype Cleared = Cleared(files: Files, ok: bool)

  /** Removes everything but the manifest in the listed order, up to the first failure. */
  function ClearFiles(files: Files, names: seq<string>, id: string, os: Os): Cleared {
    if names == [] then Cleared(files, true)
    else if names[0] == MANIFEST then ClearFiles(files, names[1..], id, os)
    else if os.fails(id, RemoveFile(names[0])) then Cleared(files, false)
    else ClearFiles(files - {names[0]}, names[1..], id, os)
  }

  datatype Outcome = Outcome(entry: Option<Entry>, ok: bool)

  /** Once the workspace is empty: the manifest, then the directory, putting the manifest back if the
      directory stays. */
  function FinishRemoval(files: Files, id: string, os: Os): Outcome {
    var saved := if os.fails(id, ReadRecord) then None else ReadManifest(files);
    if MANIFEST in files && os.fails(id, RemoveRecord) then Outcome(Some(Directory(files)), false)
    else
      var bare := files - {MANIFEST};
      if bare != map[] || os.fails(id, RemoveDirectory) then
        if saved.Some? && !os.fails(id, RewriteRecord)
        then Outcome(Some(Directory(bare[MANIFEST := Record(saved.value)])), false)
        else Outcome(Some(Directory(bare)), false)
      else Outcome(None, true)
  }

  function Removal(entry: Option<Entry>, id: string, os: Os): Outcome {
    if entry.None? then Outcome(None, true)
    else if os.fails(id, Stat) || entry.value.Foreign? || os.fails(id, ListFiles) then Outcome(entry, false)
    else
      var cleared := ClearFiles(entry.value.files, os.list(entry.value.files.Keys), id, os);
      if !cleared.ok then Outcome(Some(Directory(cleared.files)), false)
      else FinishRemoval(cleared.files, id, os)
  }

  ghost predicate Within(files: Files, original: Files) {
    files.Keys <= original.Keys && forall f :: f in files ==> files[f] == original[f]
  }

  /** Only the manifest, or nothing, is left. */
  ghost predicate WorkspaceEmpty(files: Files) {
    files.Keys <= {MANIFEST}
  }

  ghost predicate SameRecord(files: Files, original: Files) {
    (MANIFEST in files <==> MANIFEST in original) && (MANIFEST in files ==> files[MANIFEST] == original[MANIFEST])
  }

  lemma {:induction false} ClearFilesFacts(files: Files, names: seq<string>, id: string, os: Os)
    ensures var c := ClearFiles(files, names, id, os);
            && Within(c.files, files) && SameRecord(c.files, files)
            && (c.ok ==> forall f :: f in c.files ==> f == MANIFEST || f !in names)
            && (!c.ok ==> exists f ::
              f in names && f != MANIFEST && os.fails(id, RemoveFile(f)) && (f in files ==> f in c.files || f in names))
            && ((forall f :: f in names && f != MANIFEST ==> !os.fails(id, RemoveFile(f))) <==> c.ok)
  {
    if names == [] {
    } else if names[0] == MANIFEST {
      ClearFilesFacts(files, names[1..], id, os);
      Rest(names);
    } else if os.fails(id, RemoveFile(names[0])) {
      assert names[0] in names;
    } else {
      ClearFilesFacts(files - {names[0]}, names[1..], id, os);
      Rest(names);
    }
  }

  /** It goes through the listing in order and stops at the first file it cannot remove: at index `k`, if any. */
  lemma {:induction false} ClearsUpTo(files: Files, names: seq<string>, k: nat, id: string, os: Os)
    requires k <= |names|
    requires forall i :: 0 <= i < k && names[i] != "manifest.json" ==> !os.fails(id, RemoveFile(names[i]))
    requires k < |names| ==> names[k] != "manifest.json" && os.fails(id, RemoveFile(names[k]))
    ensures var c := ClearFiles(files, names, id, os);
            && (c.ok <==> k == |names|)
            && (forall f :: f in c.files <==> f in files && (f == "manifest.json" || f !in names[..k]))
            && (forall f :: f in c.files ==> c.files[f] == files[f])
    decreases k
  {
    if k > 0 {
      var fewer := if names[0] == MANIFEST then files else files - {names[0]};
      assert names[..k] == [names[0]] + names[1..][..k - 1];
      ClearsUpTo(fewer, names[1..], k - 1, id, os);
    }
  }

  lemma {:induction false} Rest(names: seq<string>)
    requires names != []
    ensures forall f :: f in names <==> f == names[0] || f in names[1..]
  {
    assert names == [names[0]] + names[1..];
  }

  /** No call made on behalf of the instance fails. */
  ghost predicate AllSucceed(id: string, os: Os) {
    forall op :: !os.fails(id, op)
  }

  /** The manifest can be read before it is removed, and rewritten if it must be. */
  predicate CanRestore(id: string, os: Os) {
    !os.fails(id, ReadRecord) && !os.fails(id, RewriteRecord)
  }

  /** Main facts about one removal with no concurrent writer: it succeeds exactly when the entry is gone;
      a failed attempt leaves a part of what was there; while workspace files remain the manifest is
      untouched; a failed last step restores the manifest unless that rewrite (or the earlier read) fails
      too; and when every call succeeds no directory is left. */
  lemma {:induction false} RemovalFacts(entry: Option<Entry>, id: string, os: Os)
    requires Lists(os)
    ensures var o := Removal(entry, id, os);
            && (o.ok <==> o.entry.None?)
            && (!o.ok && entry.value.Foreign? ==> o.entry == entry)
            && (!o.ok && entry.value.Directory? ==>
                  && entry.Some? && o.entry.value.Directory?
                  && Within(o.entry.value.files, entry.value.files)
                  && (!WorkspaceEmpty(o.entry.value.files) ==> SameRecord(o.entry.value.files, entry.value.files))
                  && (ReadManifest(entry.value.files).Some? && CanRestore(id, os) ==>
                        SameRecord(o.entry.value.files, entry.value.files)))
            && (AllSucceed(id, os) && (entry.Some? ==> entry.value.Directory?) ==> o.ok)
  {
    if entry.Some? && entry.value.Directory? {
      var files := entry.value.files;
      var names := os.list(files.Keys);
      assert IsListing(names, files.Keys);
      ClearFilesFacts(files, names, id, os);
      var c := ClearFiles(files, names, id, os);
      if c.ok {
        assert c.files - {MANIFEST} == map[];
      }
    }
  }

  /** Every call on the way must succeed. */
  ghost predicate NothingInTheWay(files: Files, id: string, os: Os) {
    && !os.fails(id, Stat) && !os.fails(id, ListFiles)
    && (forall f :: f in files && f != "manifest.json" ==> !os.fails(id, RemoveFile(f)))
    && ("manifest.json" in files ==> !os.fails(id, RemoveRecord))
    && !os.fails(id, RemoveDirectory)
  }

  /** When exactly a removal succeeds. */
  lemma {:induction false} RemovalSucceedsIff(entry: Option<Entry>, id: string, os: Os)
    requires Lists(os)
    ensures Removal(entry, id, os).ok <==>
              entry.None? || (entry.value.Directory? && NothingInTheWay(entry.value.files, id, os))
  {
    if entry.Some? && entry.value.Directory? {
      var files := entry.value.files;
      var names := os.list(files.Keys);
      assert IsListing(names, files.Keys);
      ClearFilesFacts(files, names, id, os);
      var c := ClearFiles(files, names, id, os);
      if c.ok {
        assert c.files - {MANIFEST} == map[];
      }
      hide ClearFiles;
    }
  }

  /** What is left when only the directory itself stays: its manifest, if it could be read before and written back. */
  lemma {:induction false} RestoredExactlyWhen(files: Files, id: string, os: Os)
    requires Lists(os) && !os.fails(id, Stat) && !os.fails(id, ListFiles) && os.fails(id, RemoveDirectory)
    requires forall f :: f in files && f != "manifest.json" ==> !os.fails(id, RemoveFile(f))
    requires "manifest.json" in files && files["manifest.json"].Record? && !os.fails(id, RemoveRecord)
    ensures var left := Removal(Some(Directory(files)), id, os).entry;
            && left.Some? && left.value.Directory?
            && left.value.files == if os.fails(id, ReadRecord) || os.fails(id, RewriteRecord) then map[]
                                   else map["manifest.json" := files["manifest.json"]]
  {
    var names := os.list(files.Keys);
    assert IsListing(names, files.Keys);
    ClearFilesFacts(files, names, id, os);
    var c := ClearFiles(files, names, id, os);
    assert c.files == map["manifest.json" := files["manifest.json"]];
    assert c.files - {MANIFEST} == map[];
    hide ClearFiles;
  }

  // ---------------------------------------------------------------------------------------------
  // One pass of Reconcile.

  datatype Status = Missing | Matches | Mismatched

  function StatusOf(table: Table, process: ProcessIdentity): Status {
    if process.pid !in table then Missing
    else if table[process.pid] == (process.startMarker, process.executable) then Matches
    else Mismatched
  }

  datatype Problem =
    | UnknownEntry(name: string)
    | RemoveFailed(name: string)
    | InspectFailed(name: string)
    | IdentityMismatch(name: string)
    | TerminateFailed(name: string)

  predicate ValidManifest(manifest: Manifest, name: string) {
    manifest.instanceID == name && manifest.schemaVersion == SCHEMA_VERSION
  }

  /** The manifest of an instance that may still have a process to look after. */
  predicate Discardable(manifest: Manifest) {
    || manifest.phase in {CleanupFailed, Cleaning, Exited, Failed, TimedOut}
    || manifest.process.pid == 0
  }

  predicate Overdue(manifest: Manifest, now: int) {
    manifest.phase == Waiting && manifest.acquisitionDeadline != 0 && now > manifest.acquisitionDeadline
  }

  datatype Pass = Pass(root: Root, table: Table, recovered: int, problems: seq<Problem>)

  function Discard(p: Pass, name: string, os: Os): Pass {
    var o := Removal(Lookup(p.root, name), name, os);
    if o.ok then p.(root := Put(p.root, name, o.entry))
    else Pass(Put(p.root, name, o.entry), p.table, p.recovered + 1, p.problems + [RemoveFailed(name)])
  }

  function Keep(p: Pass, problem: Problem): Pass {
    p.(recovered := p.recovered + 1, problems := p.problems + [problem])
  }

  function RecordOf(root: Root, name: string, os: Os): Option<Manifest> {
    if name in root && root[name].Directory? && !os.fails(name, ReadRecord)
    then ReadManifest(root[name].files) else None
  }

  /** One turn of the loop over the directory listing. */
  function Examine(p: Pass, name: string, owned: set<string>, now: int, os: Os): Pass {
    if name in owned then p
    else if name in p.root && p.root[name].Foreign? then Keep(p, UnknownEntry(name))
    else
      var record := RecordOf(p.root, name, os);
      if record.None? || !ValidManifest(record.value, name) || Discardable(record.value) then Discard(p, name, os)
      else if os.fails(name, Inspect) then Keep(p, InspectFailed(name))
      else
        match StatusOf(p.table, record.value.process)
        case Missing => Discard(p, name, os)
        case Mismatched => Keep(p, IdentityMismatch(name))
        case Matches =>
          if !Overdue(record.value, now) then p.(recovered := p.recovered + 1)
          else if os.fails(name, Terminate) then Keep(p, TerminateFailed(name))
          else Discard(p.(table := p.table - {record.value.process.pid}), name, os)
  }

  function ExamineAll(p: Pass, names: seq<string>, owned: set<string>, now: int, os: Os): Pass
    decreases |names|
  {
    if names == [] then p else ExamineAll(Examine(p, names[0], owned, now, os), names[1..], owned, now, os)
  }

  lemma {:induction false} ExamineAllNext(p: Pass, names: seq<string>, i: nat, owned: set<string>, now: int, os: Os)
    requires i < |names|
    ensures ExamineAll(p, names[i..], owned, now, os)
         == ExamineAll(Examine(p, names[i], owned, now, os), names[i + 1..], owned, now, os)
  {
    hide Examine;
    assert names[i..][1..] == names[i + 1..];
  }

  lemma {:induction false} ExamineNone(p: Pass, names: seq<string>, owned: set<string>, now: int, os: Os)
    ensures ExamineAll(p, names[|names|..], owned, now, os) == p
  {
  }

  /** A process that is verified to be alive and not overdue. */
  predicate Verified(root: Root, table: Table, name: string, now: int, os: Os) {
    var record := RecordOf(root, name, os);
    && record.Some? && ValidManifest(record.value, name) && !Discardable(record.value)
    && !os.fails(name, Inspect)
    && StatusOf(table, record.value.process) == Matches && !Overdue(record.value, now)
  }

  function One(b: bool): nat {
    if b then 1 else 0
  }

  predicate Present(root: Root, owned: set<string>, name: string) {
    name in root && name !in owned
  }

  /** What one turn does: it touches only its own entry, counts it exactly when it stays, and reports a
      problem exactly when it stays without being verified. */
  lemma {:induction false} ExamineFacts(p: Pass, name: string, owned: set<string>, now: int, os: Os)
    requires Lists(os) && name in p.root
    ensures var q := Examine(p, name, owned, now, os);
            && (forall n :: n != name ==> (n in q.root <==> n in p.root))
            && (forall n :: n != name && n in p.root ==> q.root[n] == p.root[n])
            && q.root.Keys <= p.root.Keys
            && q.recovered == p.recovered + One(Present(q.root, owned, name))
            && p.problems <= q.problems
            && (q.problems == p.problems <==>
                  (Present(q.root, owned, name) ==> Verified(p.root, p.table, name, now, os) && q.root == p.root))
  {
    RemovalFacts(Lookup(p.root, name), name, os);
    hide Removal;
  }

  /** How many of the listed names are present and unowned. */
  function CountPresent(names: seq<string>, root: Root, owned: set<string>): nat {
    if names == [] then 0 else One(Present(root, owned, names[0])) + CountPresent(names[1..], root, owned)
  }

  lemma {:induction false} CountUnaffected(names: seq<string>, a: Root, b: Root, owned: set<string>)
    requires forall n :: n in names ==> (n in a <==> n in b)
    ensures CountPresent(names, a, owned) == CountPresent(names, b, owned)
  {
    if names != [] {
      CountUnaffected(names[1..], a, b, owned);
    }
  }

  lemma {:induction false} PassFrame(p: Pass, names: seq<string>, owned: set<string>, now: int, os: Os)
    requires Lists(os) && Distinct(names) && (forall n :: n in names ==> n in p.root)
    ensures var q := ExamineAll(p, names, owned, now, os);
            && (forall n :: n !in names ==> (n in q.root <==> n in p.root) && (n in p.root ==> q.root[n] == p.root[n]))
            && q.root.Keys <= p.root.Keys
            && q.recovered == p.recovered + CountPresent(names, q.root, owned)
            && p.problems <= q.problems
    decreases |names|
  {
    if names != [] {
      var next := Examine(p, names[0], owned, now, os);
      ExamineFacts(p, names[0], owned, now, os);
      PassFrame(next, names[1..], owned, now, os);
      hide Examine, Present;
    }
  }

  lemma {:induction false} CountIsSize(names: seq<string>, root: Root, owned: set<string>)
    requires Distinct(names)
    ensures CountPresent(names, root, owned) == |set n | n in names && Present(root, owned, n)|
  {
    var s := set n | n in names && Present(root, owned, n);
    if names == [] {
      assert s == {};
    } else {
      CountIsSize(names[1..], root, owned);
      var t := set n | n in names[1..] && Present(root, owned, n);
      assert names == [names[0]] + names[1..];
      assert s == if Present(root, owned, names[0]) then t + {names[0]} else t;
    }
  }

  ghost function Unowned(root: Root, owned: set<string>): set<string> {
    set n | n in root && n !in owned
  }

  function Begin(root: Root, table: Table): Pass {
    Pass(root, table, 0, [])
  }

  ghost function FullPass(root: Root, table: Table, owned: set<string>, now: int, os: Os): Pass {
    ExamineAll(Begin(root, table), os.list(root.Keys), owned, now, os)
  }

  lemma {:induction false} FullPassBegins(root: Root, table: Table, owned: set<string>, now: int, os: Os)
    ensures FullPass(root, table, owned, now, os)
         == ExamineAll(Pass(root, table, 0, []), os.list(root.Keys)[0..], owned, now, os)
  {
    hide ExamineAll;
    assert os.list(root.Keys)[0..] == os.list(root.Keys);
  }

  /** A completed pass stores exactly the number of unowned entries still present. */
  lemma {:induction false} PassCounts(root: Root, table: Table, owned: set<string>, now: int, os: Os)
    requires Lists(os)
    ensures var q := FullPass(root, table, owned, now, os);
            q.recovered == |Unowned(q.root, owned)|
  {
    var names := os.list(root.Keys);
    assert IsListing(names, root.Keys);
    var q := FullPass(root, table, owned, now, os);
    PassFrame(Begin(root, table), names, owned, now, os);
    CountIsSize(names, q.root, owned);
    assert Unowned(q.root, owned) == set n | n in names && Present(q.root, owned, n);
  }

  // ---------------------------------------------------------------------------------------------
  // What a pass does to the process table.

  /** The process an unowned entry's readable manifest asks to look after, if any. */
  function Watched(root: Root, name: string, owned: set<string>, os: Os): Option<ProcessIdentity> {
    var record := RecordOf(root, name, os);
    if name !in owned && record.Some? && ValidManifest(record.value, name) && !Discardable(record.value)
    then Some(record.value.process) else None
  }

  /** The turn of this entry ends the process at `pid`, if that is still there. */
  predicate Ends(root: Root, table: Table, name: string, pid: int, owned: set<string>, now: int, os: Os) {
    var w := Watched(root, name, owned, os);
    && w.Some? && w.value.pid == pid && !os.fails(name, Inspect) && StatusOf(table, w.value) == Matches
    && Overdue(RecordOf(root, name, os).value, now) && !os.fails(name, Terminate)
  }

  lemma {:induction false} ExamineTable(p: Pass, name: string, owned: set<string>, now: int, os: Os, pid: int)
    ensures var q := Examine(p, name, owned, now, os);
            && (pid in q.table <==> pid in p.table && !Ends(p.root, p.table, name, pid, owned, now, os))
            && (pid in q.table ==> q.table[pid] == p.table[pid])
  {
    hide Removal, ValidManifest, Overdue;
  }

  /** A pass takes from the table exactly the PIDs that some listed entry ends, and changes nothing else in it. */
  lemma {:induction false} TableAfter(p: Pass, names: seq<string>, owned: set<string>, now: int, os: Os, pid: int)
    requires Lists(os) && Distinct(names) && (forall n :: n in names ==> n in p.root)
    ensures var q := ExamineAll(p, names, owned, now, os);
            && (pid in q.table <==>
                pid in p.table && forall n :: n in names ==> !Ends(p.root, p.table, n, pid, owned, now, os))
            && (pid in q.table ==> q.table[pid] == p.table[pid])
    decreases |names|
  {
    if names != [] {
      var name, rest := names[0], names[1..];
      Rest(names);
      var next := Examine(p, name, owned, now, os);
      ExamineFacts(p, name, owned, now, os);
      ExamineTable(p, name, owned, now, os, pid);
      hide Examine, Verified, Present;
      forall n | n in rest
        ensures n in next.root
        ensures pid in next.table ==>
            Ends(next.root, next.table, n, pid, owned, now, os) == Ends(p.root, p.table, n, pid, owned, now, os)
      {
        assert n != name && next.root[n] == p.root[n];
      }
      hide Ends;
      TableAfter(next, rest, owned, now, os, pid);
    }
  }

  // ---------------------------------------------------------------------------------------------
  // One entry's turn within a pass.

  lemma {:induction false} ExamineAllSplit(p: Pass, names: seq<string>, i: nat, owned: set<string>, now: int, os: Os)
    requires i <= |names|
    ensures ExamineAll(p, names, owned, now, os)
         == ExamineAll(ExamineAll(p, names[..i], owned, now, os), names[i..], owned, now, os)
    decreases i
  {
    hide Examine;
    if i > 0 {
      assert names[..i][1..] == names[1..][..i - 1] && names[1..][i - 1..] == names[i..];
      ExamineAllSplit(Examine(p, names[0], owned, now, os), names[1..], i - 1, owned, now, os);
    } else {
      assert names[0..] == names;
    }
  }

  /** The pass up to the turn of the entry at `i`. */
  function Before(p: Pass, names: seq<string>, i: nat, owned: set<string>, now: int, os: Os): Pass
    requires i <= |names|
  {
    ExamineAll(p, names[..i], owned, now, os)
  }

  /** An entry comes to its turn as the pass found it, and its turn settles what is left of it. */
  lemma {:induction false} TurnOf(p: Pass, names: seq<string>, i: nat, owned: set<string>, now: int, os: Os)
    requires Lists(os) && Distinct(names) && (forall n :: n in names ==> n in p.root) && i < |names|
    ensures var b := Before(p, names, i, owned, now, os);
            var next := Examine(b, names[i], owned, now, os);
            var q := ExamineAll(p, names, owned, now, os);
            && names[i] in b.root && b.root[names[i]] == p.root[names[i]]
            && Lookup(q.root, names[i]) == Lookup(next.root, names[i])
            && next.problems <= q.problems
  {
    var name, earlier, later := names[i], names[..i], names[i + 1..];
    var b := Before(p, names, i, owned, now, os);
    var next := Examine(b, name, owned, now, os);
    assert names[i] in names;
    forall n | n in earlier ensures n in p.root && n != name {
      assert n in names;
    }
    PassFrame(p, earlier, owned, now, os);
    forall n | n in later ensures n in b.root && n != name {
      assert n in names && n !in earlier;
    }
    ExamineFacts(b, name, owned, now, os);
    PassFrame(next, later, owned, now, os);
    ExamineAllSplit(p, names, i, owned, now, os);
    ExamineAllNext(b, names, i, owned, now, os);
    hide Examine, ExamineAll, Verified, Present;
    assert name !in later;
  }

  /** A turn leaves its entry watching what it watched, or nothing. */
  lemma {:induction false} ExamineWatched(p: Pass, name: string, owned: set<string>, now: int, os: Os)
    requires Lists(os) && name in p.root
    ensures var q := Examine(p, name, owned, now, os);
            Watched(q.root, name, owned, os).Some? ==> RecordOf(q.root, name, os) == RecordOf(p.root, name, os)
  {
    RemovalFacts(Lookup(p.root, name), name, os);
    hide Removal;
  }

  lemma {:induction false} EntryKept(p: Pass, names: seq<string>, owned: set<string>, now: int, os: Os)
    requires Lists(os) && Distinct(names) && (forall n :: n in names ==> n in p.root) && names != []
    ensures Lookup(ExamineAll(p, names, owned, now, os).root, names[0])
         == Lookup(Examine(p, names[0], owned, now, os).root, names[0])
  {
    assert names[..0] == [];
    TurnOf(p, names, 0, owned, now, os);
    hide Examine;
  }

  /** What is said of an entry depends on the entry and on the table at the PID it watches only. */
  lemma {:induction false} SameEntrySameRecord(a: Root, b: Root, name: string, owned: set<string>, os: Os)
    requires Lookup(a, name) == Lookup(b, name)
    ensures RecordOf(a, name, os) == RecordOf(b, name, os)
    ensures Watched(a, name, owned, os) == Watched(b, name, owned, os)
    ensures Present(a, owned, name) == Present(b, owned, name)
  {
  }

  // ---------------------------------------------------------------------------------------------
  // Entries whose process a later turn of the same pass ends.

  /** The entry would be inspected, and the process its manifest names is no longer there under any identity. */
  predicate Stranded(root: Root, table: Table, name: string, owned: set<string>, os: Os) {
    var w := Watched(root, name, owned, os);
    w.Some? && !os.fails(name, Inspect) && w.value.pid !in table
  }

  /** At its turn the entry at `i` is kept because of what runs under its PID, and a later entry ends that. */
  ghost predicate Undercut(root: Root, table: Table, names: seq<string>, i: nat, owned: set<string>, now: int, os: Os)
    requires i < |names|
  {
    var w := Watched(root, names[i], owned, os);
    && w.Some? && !os.fails(names[i], Inspect) && w.value.pid in table
    && !(StatusOf(table, w.value) == Matches && Overdue(RecordOf(root, names[i], os).value, now))
    && (forall k :: 0 <= k < i ==> !Ends(root, table, names[k], w.value.pid, owned, now, os))
    && (exists j :: i < j < |names| && Ends(root, table, names[j], w.value.pid, owned, now, os))
  }

  ghost predicate NoneUndercut(root: Root, table: Table, names: seq<string>, owned: set<string>, now: int, os: Os) {
    forall i :: 0 <= i < |names| ==> !Undercut(root, table, names, i, owned, now, os)
  }

  /** No two entries watch the same process: same PID, start marker and executable. */
  ghost predicate IdentitiesApart(root: Root, owned: set<string>, os: Os) {
    forall a, b :: a in root && b in root && a != b && Watched(root, a, owned, os).Some? ==>
      Watched(root, a, owned, os) != Watched(root, b, owned, os)
  }

  /** An entry a pass leaves alone. */
  predicate Settled(root: Root, table: Table, name: string, owned: set<string>, now: int, os: Os) {
    || name in owned
    || (name in root && root[name].Foreign?)
    || (var record := RecordOf(root, name, os);
        && record.Some? && ValidManifest(record.value, name) && !Discardable(record.value)
        && (|| os.fails(name, Inspect)
            || StatusOf(table, record.value.process) == Mismatched
            || (StatusOf(table, record.value.process) == Matches && !Overdue(record.value, now))))
  }

  /** Every removal and every termination in the pass succeeded. */
  ghost predicate NothingFailed(problems: seq<Problem>) {
    forall problem :: problem in problems ==> !problem.RemoveFailed? && !problem.TerminateFailed?
  }

  lemma {:induction false} SettledIsLeftAlone(p: Pass, name: string, owned: set<string>, now: int, os: Os)
    requires Settled(p.root, p.table, name, owned, now, os)
    ensures var q := Examine(p, name, owned, now, os); q.root == p.root && q.table == p.table
  {
    hide Discard;
  }

  /** If its turn removed nothing in vain, an entry that stays was settled and left alone. */
  lemma {:induction false} StayedIsSettled(p: Pass, name: string, owned: set<string>, now: int, os: Os)
    requires Lists(os) && name in p.root
    requires NothingFailed(Examine(p, name, owned, now, os).problems)
    requires name in Examine(p, name, owned, now, os).root
    ensures Settled(p.root, p.table, name, owned, now, os)
    ensures Examine(p, name, owned, now, os).root == p.root
  {
    var q := Examine(p, name, owned, now, os);
    RemovalFacts(Lookup(p.root, name), name, os);
    hide Removal;
    assert RemoveFailed(name) in p.problems + [RemoveFailed(name)];
    assert TerminateFailed(name) in p.problems + [TerminateFailed(name)];
  }

  lemma {:induction false} LeftWasSettled(p: Pass, names: seq<string>, i: nat, owned: set<string>, now: int, os: Os)
    requires Lists(os) && Distinct(names) && (forall n :: n in names ==> n in p.root) && i < |names|
    requires NothingFailed(ExamineAll(p, names, owned, now, os).problems)
    requires names[i] in ExamineAll(p, names, owned, now, os).root
    ensures var b := Before(p, names, i, owned, now, os);
            Settled(b.root, b.table, names[i], owned, now, os)
    ensures Lookup(ExamineAll(p, names, owned, now, os).root, names[i]) == Lookup(p.root, names[i])
  {
    TurnOf(p, names, i, owned, now, os);
    var b := Before(p, names, i, owned, now, os);
    var next := Examine(b, names[i], owned, now, os);
    var q := ExamineAll(p, names, owned, now, os);
    hide Examine, Settled, ExamineAll, Before;
    assert NothingFailed(next.problems) by {
      assert forall problem :: problem in next.problems ==> problem in q.problems;
    }
    StayedIsSettled(b, names[i], owned, now, os);
  }

  /** What the table holds at the PID of the entry at `i` when its turn comes, and at the end of the pass. */
  lemma {:induction false} TableAtTurn(p: Pass, names: seq<string>, i: nat, owned: set<string>, now: int, os: Os,
                                       pid: int)
    requires Lists(os) && Distinct(names) && (forall n :: n in names ==> n in p.root) && i < |names|
    ensures var b := Before(p, names, i, owned, now, os);
            && (pid in b.table <==>
                pid in p.table && forall k :: 0 <= k < i ==> !Ends(p.root, p.table, names[k], pid, owned, now, os))
            && (pid in b.table ==> b.table[pid] == p.table[pid])
    ensures var q := ExamineAll(p, names, owned, now, os);
            && (pid in q.table <==>
                pid in p.table && forall k :: 0 <= k < |names| ==>
                  !Ends(p.root, p.table, names[k], pid, owned, now, os))
            && (pid in q.table ==> q.table[pid] == p.table[pid])
  {
    hide Ends, ExamineAll;
    var earlier := names[..i];
    forall n | n in earlier ensures n in p.root {
      assert n in names;
    }
    assert forall k :: 0 <= k < i ==> earlier[k] == names[k];
    TableAfter(p, earlier, owned, now, os, pid);
    TableAfter(p, names, owned, now, os, pid);
  }

  /** After a pass in which nothing failed, the entries left without a process are exactly the undercut ones. */
  lemma {:induction false} StrandedIffUndercut(p: Pass, names: seq<string>, i: nat, owned: set<string>, now: int,
                                               os: Os)
    requires Lists(os) && Distinct(names) && (forall n :: n in names ==> n in p.root) && i < |names|
    requires NothingFailed(ExamineAll(p, names, owned, now, os).problems)
    ensures var q := ExamineAll(p, names, owned, now, os);
            names[i] in q.root && Stranded(q.root, q.table, names[i], owned, os) <==>
            Undercut(p.root, p.table, names, i, owned, now, os)
  {
    var name := names[i];
    var b := Before(p, names, i, owned, now, os);
    var q := ExamineAll(p, names, owned, now, os);
    TurnOf(p, names, i, owned, now, os);
    var w := Watched(p.root, name, owned, os);
    if name in q.root && Stranded(q.root, q.table, name, owned, os) {
      LeftWasSettled(p, names, i, owned, now, os);
      SameEntrySameRecord(q.root, p.root, name, owned, os);
      SameEntrySameRecord(b.root, p.root, name, owned, os);
      hide ExamineAll, Examine, Before, ValidManifest, Overdue, Discardable;
      LeftIsUndercut(p, names, i, owned, now, os, w.value);
    }
    if Undercut(p.root, p.table, names, i, owned, now, os) {
      SameEntrySameRecord(b.root, p.root, name, owned, os);
      hide ExamineAll, Before;
      UndercutIsLeft(p, names, i, owned, now, os, w.value);
      SameEntrySameRecord(q.root, p.root, name, owned, os);
    }
  }

  lemma {:induction false} LeftIsUndercut(p: Pass, names: seq<string>, i: nat, owned: set<string>, now: int, os: Os,
                                          process: ProcessIdentity)
    requires Lists(os) && Distinct(names) && (forall n :: n in names ==> n in p.root) && i < |names|
    requires Watched(p.root, names[i], owned, os) == Some(process) && !os.fails(names[i], Inspect)
    requires process.pid !in ExamineAll(p, names, owned, now, os).table
    requires var b := Before(p, names, i, owned, now, os);
             && Settled(b.root, b.table, names[i], owned, now, os)
             && names[i] in b.root && b.root[names[i]] == p.root[names[i]]
    ensures Undercut(p.root, p.table, names, i, owned, now, os)
  {
    var b := Before(p, names, i, owned, now, os);
    TableAtTurn(p, names, i, owned, now, os, process.pid);
    hide ExamineAll, Before, ValidManifest, Overdue, Discardable;
    assert StatusOf(b.table, process) == StatusOf(p.table, process);
    var j :| 0 <= j < |names| && Ends(p.root, p.table, names[j], process.pid, owned, now, os);
    assert j != i && j >= i;
  }

  lemma {:induction false} UndercutIsLeft(p: Pass, names: seq<string>, i: nat, owned: set<string>, now: int, os: Os,
                                          process: ProcessIdentity)
    requires Lists(os) && Distinct(names) && (forall n :: n in names ==> n in p.root) && i < |names|
    requires Undercut(p.root, p.table, names, i, owned, now, os) &&
        Watched(p.root, names[i], owned, os) == Some(process)
    ensures var q := ExamineAll(p, names, owned, now, os);
            Lookup(q.root, names[i]) == Lookup(p.root, names[i]) && process.pid !in q.table
  {
    TurnOf(p, names, i, owned, now, os);
    TableAtTurn(p, names, i, owned, now, os, process.pid);
    var b := Before(p, names, i, owned, now, os);
    hide ExamineAll, Before, ValidManifest, Overdue, Discardable, Removal;
    assert StatusOf(b.table, process) == StatusOf(p.table, process);
    assert Settled(b.root, b.table, names[i], owned, now, os);
    SettledIsLeftAlone(b, names[i], owned, now, os);
  }

  // ---------------------------------------------------------------------------------------------
  // What a pass does, in terms of the manifests' own fields.

  /** The entry is an unowned directory whose manifest can be read, is its own and has the current schema. */
  predicate Reads(root: Root, name: string, m: Manifest, owned: set<string>, os: Os) {
    && name !in owned && name in root && root[name].Directory? && !os.fails(name, ReadRecord)
    && "manifest.json" in root[name].files && root[name].files["manifest.json"] == Record(m)
    && m.instanceID == name && m.schemaVersion == 1
  }

  /** The process the manifest names runs under its PID with its start marker and executable. */
  predicate Runs(table: Table, m: Manifest) {
    m.process.pid in table && table[m.process.pid] == (m.process.startMarker, m.process.executable)
  }

  /** Still waiting for its job when its deadline, if it has one, is past. */
  predicate WaitsTooLong(m: Manifest, now: int) {
    m.phase == Waiting && m.acquisitionDeadline != 0 && m.acquisitionDeadline < now
  }

  /** A phase in which a runner may be alive, and a process that may be it. */
  predicate MayRun(m: Manifest) {
    m.process.pid != 0 && (m.phase == Preparing || m.phase == Waiting || m.phase == Assigned)
  }

  ghost predicate Removed(p: Pass, q: Pass, name: string, os: Os) {
    var o := Removal(Lookup(p.root, name), name, os);
    && q.root == Put(p.root, name, o.entry)
    && q.recovered == p.recovered + One(!o.ok)
    && q.problems == p.problems + if o.ok then [] else [RemoveFailed(name)]
  }

  ghost predicate Kept(p: Pass, q: Pass, problems: seq<Problem>) {
    q.root == p.root && q.table == p.table && q.recovered == p.recovered + 1 && q.problems == p.problems + problems
  }

  /** The whole of one turn: which entries it leaves, keeps or removes, and whose process it ends. */
  lemma {:induction false} TurnByFields(p: Pass, name: string, owned: set<string>, now: int, os: Os)
    requires name in p.root
    ensures var q := Examine(p, name, owned, now, os);
            && (name in owned ==> q == p)
            && (name !in owned && p.root[name].Foreign? ==> Kept(p, q, [UnknownEntry(name)]))
            && (name !in owned && p.root[name].Directory? && (forall m: Manifest ::
              !Reads(p.root, name, m, owned, os)) ==>
                  Removed(p, q, name, os) && q.table == p.table)
    ensures var q := Examine(p, name, owned, now, os);
            forall m: Manifest :: Reads(p.root, name, m, owned, os) ==>
              if !MayRun(m) then Removed(p, q, name, os) && q.table == p.table
              else if os.fails(name, Inspect) then Kept(p, q, [InspectFailed(name)])
              else if m.process.pid !in p.table then Removed(p, q, name, os) && q.table == p.table
              else if !Runs(p.table, m) then Kept(p, q, [IdentityMismatch(name)])
              else if !WaitsTooLong(m, now) then Kept(p, q, [])
              else if os.fails(name, Terminate) then Kept(p, q, [TerminateFailed(name)])
              else Removed(p, q, name, os) && q.table == p.table - {m.process.pid}
  {
    hide Removal;
    var q := Examine(p, name, owned, now, os);
    assert p.problems + [] == p.problems;
    if name !in owned && p.root[name].Directory? && !os.fails(name, ReadRecord)
       && ReadManifest(p.root[name].files).Some? && ValidManifest(ReadManifest(p.root[name].files).value, name) {
      assert Reads(p.root, name, ReadManifest(p.root[name].files).value, owned, os);
    }
    forall m: Manifest | Reads(p.root, name, m, owned, os)
      ensures RecordOf(p.root, name, os) == Some(m)
      ensures Discardable(m) <==> !MayRun(m)
    {
    }
  }

  /** The entry makes a pass end the process under `pid`. */
  ghost predicate Expires(root: Root, table: Table, name: string, pid: int, owned: set<string>, now: int, os: Os) {
    exists m: Manifest :: Reads(root, name, m, owned, os) && m.process.pid == pid && pid != 0
      && WaitsTooLong(m, now) && Runs(table, m) && !os.fails(name, Inspect) && !os.fails(name, Terminate)
  }

  lemma {:induction false} EndsMeansExpires(root: Root, table: Table, name: string, pid: int, owned: set<string>,
                                            now: int, os: Os)
    ensures Ends(root, table, name, pid, owned, now, os) <==> Expires(root, table, name, pid, owned, now, os)
  {
    if Ends(root, table, name, pid, owned, now, os) {
      var m := RecordOf(root, name, os).value;
      assert Reads(root, name, m, owned, os) && WaitsTooLong(m, now) && Runs(table, m);
    }
    if Expires(root, table, name, pid, owned, now, os) {
      var m: Manifest :| Reads(root, name, m, owned, os) && m.process.pid == pid && pid != 0
        && WaitsTooLong(m, now) && Runs(table, m) && !os.fails(name, Inspect) && !os.fails(name, Terminate);
      assert RecordOf(root, name, os) == Some(m);
    }
  }

  /** Main result on termination: a pass takes a process from the table exactly if some unowned entry, still
      waiting past its deadline, names it with the identity the table holds. */
  lemma {:induction false} PassEndsExactlyExpired(root: Root, table: Table, owned: set<string>, now: int, os: Os,
                                                  pid: int)
    requires Lists(os)
    ensures var q := FullPass(root, table, owned, now, os);
            && (pid in q.table <==>
                pid in table && forall name :: name in root ==> !Expires(root, table, name, pid, owned, now, os))
            && (pid in q.table ==> q.table[pid] == table[pid])
  {
    var names := os.list(root.Keys);
    assert IsListing(names, root.Keys);
    hide Ends, ExamineAll;
    TableAfter(Begin(root, table), names, owned, now, os, pid);
    forall name ensures Ends(root, table, name, pid, owned, now, os) <==>
      Expires(root, table, name, pid, owned, now, os) {
      EndsMeansExpires(root, table, name, pid, owned, now, os);
    }
    hide Expires;
  }

  /** In particular a pass leaves alone the directory and the process of a runner that has its job, however long ago
      its acquisition deadline passed. */
  lemma {:induction false} AssignedRunnersAreKept(root: Root, table: Table, owned: set<string>, now: int, os: Os,
                                                  name: string, m: Manifest)
    requires Lists(os) && IdentitiesApart(root, owned, os)
    requires Reads(root, name, m, owned, os) && m.phase == Assigned && m.process.pid != 0
    requires Runs(table, m) && !os.fails(name, Inspect)
    ensures var q := FullPass(root, table, owned, now, os);
            && name in q.root && q.root[name] == root[name]
            && Runs(q.table, m)
  {
    var names := os.list(root.Keys);
    assert IsListing(names, root.Keys);
    var p, pid := Begin(root, table), m.process.pid;
    assert Watched(root, name, owned, os) == Some(m.process);
    forall n | n in root ensures !Ends(root, table, n, pid, owned, now, os) {
      if n != name {
        OtherEnder(root, table, n, name, owned, now, os, m);
      }
    }
    assert name in names;
    var i :| 0 <= i < |names| && names[i] == name;
    TurnOf(p, names, i, owned, now, os);
    TableAtTurn(p, names, i, owned, now, os, pid);
    var b := Before(p, names, i, owned, now, os);
    TurnByFields(b, name, owned, now, os);
    hide Examine, ExamineAll, Before, Ends, Removal, IdentitiesApart;
    assert forall k :: 0 <= k < |names| ==> names[k] in names;
    assert Reads(b.root, name, m, owned, os) && Runs(b.table, m);
  }

  lemma {:induction false} OtherEnder(root: Root, table: Table, n: string, name: string, owned: set<string>, now: int,
                                      os: Os, m: Manifest)
    requires IdentitiesApart(root, owned, os) && n in root && name in root && n != name
    requires Watched(root, name, owned, os) == Some(m.process) && Runs(table, m)
    ensures !Ends(root, table, n, m.process.pid, owned, now, os)
  {
  }

  // ---------------------------------------------------------------------------------------------
  // What a pass reports.

  /** Every listed entry that stays is verified at the end. */
  ghost predicate AllVerified(q: Pass, names: seq<string>, owned: set<string>, now: int, os: Os) {
    forall n :: n in names && Present(q.root, owned, n) ==> Verified(q.root, q.table, n, now, os)
  }

  /** The first entry's turn: verified at the end means verified at its turn and left alone; and a quiet turn
      means that it is verified at the end unless its process is gone by then. */
  lemma {:induction false} FirstTurn(p: Pass, names: seq<string>, owned: set<string>, now: int, os: Os)
    requires Lists(os) && Distinct(names) && (forall n :: n in names ==> n in p.root) && names != []
    ensures var name := names[0];
            var next := Examine(p, name, owned, now, os);
            var q := ExamineAll(p, names, owned, now, os);
            Present(q.root, owned, name) ==>
              && (Verified(q.root, q.table, name, now, os) ==>
                Verified(p.root, p.table, name, now, os) && next.root == p.root)
              && (Verified(p.root, p.table, name, now, os) && next.root == p.root ==>
                    (Verified(q.root, q.table, name, now, os) <==> !Stranded(q.root, q.table, name, owned, os)))
  {
    var name := names[0];
    var next := Examine(p, name, owned, now, os);
    var q := ExamineAll(p, names, owned, now, os);
    EntryKept(p, names, owned, now, os);
    SameEntrySameRecord(q.root, next.root, name, owned, os);
    ExamineWatched(p, name, owned, now, os);
    hide ExamineAll, Removal, ValidManifest, Overdue, Lookup, Put;
    if Watched(p.root, name, owned, os).Some? {
      TableAfter(p, names, owned, now, os, Watched(p.root, name, owned, os).value.pid);
    }
  }

  /** Without any assumption on the entries: a pass after which all is verified reported nothing, and after a
      pass that reported nothing all is verified unless some entry lost its process. */
  lemma {:induction false} PassReports(p: Pass, names: seq<string>, owned: set<string>, now: int, os: Os)
    requires Lists(os) && Distinct(names) && (forall n :: n in names ==> n in p.root)
    ensures var q := ExamineAll(p, names, owned, now, os);
            && (AllVerified(q, names, owned, now, os) ==> q.problems == p.problems)
            && (q.problems == p.problems ==> forall n :: n in names && Present(q.root, owned, n) ==>
                  (Verified(q.root, q.table, n, now, os) <==> !Stranded(q.root, q.table, n, owned, os)))
    decreases |names|
  {
    if names != [] {
      var name, rest := names[0], names[1..];
      Rest(names);
      var next := Examine(p, name, owned, now, os);
      ExamineFacts(p, name, owned, now, os);
      PassFrame(next, rest, owned, now, os);
      PassReports(next, rest, owned, now, os);
      FirstTurn(p, names, owned, now, os);
      EntryKept(p, names, owned, now, os);
      hide Examine, Verified, Removal, Stranded;
    }
  }

  /** Main result on reporting: a pass after which every unowned entry left is a verified live process reports
      nothing; and one that reports nothing left only such entries, exactly if no entry was undercut. */
  lemma {:induction false} PassReportsUnverified(root: Root, table: Table, owned: set<string>, now: int, os: Os)
    requires Lists(os)
    ensures var q := FullPass(root, table, owned, now, os);
            var verified := forall n :: n in Unowned(q.root, owned) ==> Verified(q.root, q.table, n, now, os);
            && (verified ==> q.problems == [])
            && (q.problems == [] ==> (verified <==> NoneUndercut(root, table, os.list(root.Keys), owned, now, os)))
  {
    var names := os.list(root.Keys);
    assert IsListing(names, root.Keys);
    var p := Begin(root, table);
    var q := FullPass(root, table, owned, now, os);
    hide Verified, ExamineAll, Stranded, Undercut;
    PassReports(p, names, owned, now, os);
    PassFrame(p, names, owned, now, os);
    if q.problems == [] {
      forall i | 0 <= i < |names|
        ensures names[i] in q.root && Stranded(q.root, q.table, names[i], owned, os) <==>
                Undercut(root, table, names, i, owned, now, os)
      {
        StrandedIffUndercut(p, names, i, owned, now, os);
      }
      StrandedIsUnowned(q.root, q.table, owned, os);
      if NoneUndercut(root, table, names, owned, now, os) {
        forall n | n in Unowned(q.root, owned) ensures Verified(q.root, q.table, n, now, os) {
          assert n in names;
          var i :| 0 <= i < |names| && names[i] == n;
        }
      }
    }
  }

  lemma {:induction false} StrandedIsUnowned(root: Root, table: Table, owned: set<string>, os: Os)
    ensures forall n :: n in root && Stranded(root, table, n, owned, os) ==> n in Unowned(root, owned)
  {
  }

  /** With distinct identities, PIDs reused or not, the report is exact. */
  lemma {:induction false} DistinctIdentitiesReportExactly(root: Root, table: Table, owned: set<string>, now: int,
                                                           os: Os)
    requires Lists(os) && IdentitiesApart(root, owned, os)
    ensures var q := FullPass(root, table, owned, now, os);
            q.problems == [] <==> forall n :: n in Unowned(q.root, owned) ==> Verified(q.root, q.table, n, now, os)
  {
    var names := os.list(root.Keys);
    assert IsListing(names, root.Keys);
    var p := Begin(root, table);
    var q := FullPass(root, table, owned, now, os);
    PassReportsUnverified(root, table, owned, now, os);
    hide Verified, ExamineAll, Unowned;
    if q.problems == [] {
      forall i | 0 <= i < |names| ensures !Undercut(root, table, names, i, owned, now, os) {
        if Undercut(root, table, names, i, owned, now, os) {
          UndercutWasMatching(p, names, i, owned, now, os);
          MatchingEnderShares(root, table, names, i, owned, now, os);
        }
      }
    }
  }

  /** In a pass that reports nothing an undercut entry matched its process. */
  lemma {:induction false} UndercutWasMatching(p: Pass, names: seq<string>, i: nat, owned: set<string>, now: int,
                                               os: Os)
    requires Lists(os) && Distinct(names) && (forall n :: n in names ==> n in p.root) && i < |names|
    requires ExamineAll(p, names, owned, now, os).problems == [] && Undercut(p.root, p.table, names, i, owned, now, os)
    ensures StatusOf(p.table, Watched(p.root, names[i], owned, os).value) == Matches
  {
    var process := Watched(p.root, names[i], owned, os).value;
    TurnOf(p, names, i, owned, now, os);
    TableAtTurn(p, names, i, owned, now, os, process.pid);
    var b := Before(p, names, i, owned, now, os);
    hide ExamineAll, Before, Overdue, Removal;
    assert StatusOf(b.table, process) == StatusOf(p.table, process);
    SameEntrySameRecord(b.root, p.root, names[i], owned, os);
  }

  lemma {:induction false} MatchingEnderShares(root: Root, table: Table, names: seq<string>, i: nat, owned: set<string>,
                                               now: int, os: Os)
    requires i < |names| && Distinct(names) && (forall n :: n in names ==> n in root)
    requires Undercut(root, table, names, i, owned, now, os)
    requires StatusOf(table, Watched(root, names[i], owned, os).value) == Matches
    ensures !IdentitiesApart(root, owned, os)
  {
    var w := Watched(root, names[i], owned, os);
    var j :| i < j < |names| && Ends(root, table, names[j], w.value.pid, owned, now, os);
    assert Watched(root, names[j], owned, os) == w;
    assert names[i] in names && names[j] in names && names[i] != names[j];
  }

  // ---------------------------------------------------------------------------------------------
  // A second pass.

  /** A pass over entries that are settled or stranded removes, or tries to remove, just the stranded ones. */
  lemma {:induction false} SecondTurns(p: Pass, names: seq<string>, owned: set<string>, now: int, os: Os)
    requires Lists(os) && Distinct(names) && (forall n :: n in names ==> n in p.root)
    requires forall n :: n in names ==>
        Settled(p.root, p.table, n, owned, now, os) || Stranded(p.root, p.table, n, owned, os)
    ensures var q := ExamineAll(p, names, owned, now, os);
            && q.table == p.table
            && forall n :: n in names ==>
                 Lookup(q.root, n) == if Stranded(p.root, p.table, n, owned, os)
                                      then Removal(Lookup(p.root, n), n, os).entry else Lookup(p.root, n)
    decreases |names|
  {
    if names != [] {
      var name, rest := names[0], names[1..];
      Rest(names);
      var next := Examine(p, name, owned, now, os);
      ExamineFacts(p, name, owned, now, os);
      StrandedTurn(p, name, owned, now, os);
      hide Examine, Verified, Present, Removal;
      forall n | n in rest
        ensures n in next.root && Lookup(next.root, n) == Lookup(p.root, n)
        ensures Settled(next.root, next.table, n, owned, now, os) == Settled(p.root, p.table, n, owned, now, os)
        ensures Stranded(next.root, next.table, n, owned, os) == Stranded(p.root, p.table, n, owned, os)
      {
        assert n != name;
        SameEntrySameRecord(next.root, p.root, n, owned, os);
      }
      EntryKept(p, names, owned, now, os);
      hide Settled, Stranded;
      SecondTurns(next, rest, owned, now, os);
    }
  }

  lemma {:induction false} StrandedTurn(p: Pass, name: string, owned: set<string>, now: int, os: Os)
    requires name in p.root
    requires Settled(p.root, p.table, name, owned, now, os) || Stranded(p.root, p.table, name, owned, os)
    ensures var q := Examine(p, name, owned, now, os);
            && q.table == p.table
            && Lookup(q.root, name) == if Stranded(p.root, p.table, name, owned, os)
                                       then Removal(Lookup(p.root, name), name, os).entry else Lookup(p.root, name)
  {
    hide Removal, ValidManifest, Overdue;
  }

  /** After a pass in which nothing failed each entry left is settled or stranded. */
  lemma {:induction false} PassSettles(p: Pass, names: seq<string>, i: nat, owned: set<string>, now: int, os: Os)
    requires Lists(os) && Distinct(names) && (forall n :: n in names ==> n in p.root) && i < |names|
    requires NothingFailed(ExamineAll(p, names, owned, now, os).problems)
    requires names[i] in ExamineAll(p, names, owned, now, os).root
    ensures var q := ExamineAll(p, names, owned, now, os);
            && (Settled(q.root, q.table, names[i], owned, now, os) || Stranded(q.root, q.table, names[i], owned, os))
            && Lookup(q.root, names[i]) == Lookup(p.root, names[i])
  {
    var name := names[i];
    var b := Before(p, names, i, owned, now, os);
    var q := ExamineAll(p, names, owned, now, os);
    TurnOf(p, names, i, owned, now, os);
    LeftWasSettled(p, names, i, owned, now, os);
    SameEntrySameRecord(q.root, b.root, name, owned, os);
    hide ExamineAll, Before, Examine, ValidManifest, Overdue, Discardable;
    if Watched(b.root, name, owned, os).Some? {
      TableAtTurn(p, names, i, owned, now, os, Watched(b.root, name, owned, os).value.pid);
    }
  }

  /** What a second pass would do to each undercut entry is nothing. */
  ghost predicate UndercutStay(root: Root, table: Table, names: seq<string>, owned: set<string>, now: int, os: Os) {
    forall i :: 0 <= i < |names| && Undercut(root, table, names, i, owned, now, os) ==>
      Removal(Lookup(root, names[i]), names[i], os).entry == Lookup(root, names[i])
  }

  ghost predicate SameOutcome(q: Pass, again: Pass) {
    again.root == q.root && again.table == q.table && again.recovered == q.recovered
  }

  /** Main result on repetition: after a pass in which every removal and termination succeeded, a second pass
      at the same time changes nothing and stores the same count exactly if the removal of each undercut
      entry would change nothing. */
  lemma {:induction false} SecondPassChangesNothingIff(root: Root, table: Table, owned: set<string>, now: int, os: Os)
    requires Lists(os) && NothingFailed(FullPass(root, table, owned, now, os).problems)
    ensures var q := FullPass(root, table, owned, now, os);
            SameOutcome(q, FullPass(q.root, q.table, owned, now, os)) <==>
            UndercutStay(root, table, os.list(root.Keys), owned, now, os)
  {
    var names := os.list(root.Keys);
    assert IsListing(names, root.Keys);
    var p := Begin(root, table);
    var q := FullPass(root, table, owned, now, os);
    var again := FullPass(q.root, q.table, owned, now, os);
    PassFrame(p, names, owned, now, os);
    SecondPass(root, table, owned, now, os);
    PassCounts(root, table, owned, now, os);
    PassCounts(q.root, q.table, owned, now, os);
    hide Stranded, Undercut, ExamineAll, FullPass, Removal;
    forall i | 0 <= i < |names|
      ensures names[i] in q.root && Stranded(q.root, q.table, names[i], owned, os) <==>
              Undercut(root, table, names, i, owned, now, os)
      ensures names[i] in q.root ==> Lookup(q.root, names[i]) == Lookup(root, names[i])
    {
      StrandedNow(root, table, i, owned, now, os);
    }
    if UndercutStay(root, table, names, owned, now, os) {
      forall n | n in q.root ensures Lookup(again.root, n) == Lookup(q.root, n) {
        assert n in names;
        var i :| 0 <= i < |names| && names[i] == n;
      }
      SameLookups(again.root, q.root);
    }
    if again.root == q.root {
      forall i | 0 <= i < |names| && Undercut(root, table, names, i, owned, now, os)
        ensures Removal(Lookup(root, names[i]), names[i], os).entry == Lookup(root, names[i])
      {
        assert names[i] in q.root;
      }
    }
  }

  lemma {:induction false} SameLookups(a: Root, b: Root)
    requires a.Keys <= b.Keys && forall n :: n in b ==> Lookup(a, n) == Lookup(b, n)
    ensures a == b
  {
    assert forall n :: n in b ==> n in a && a[n] == b[n];
  }

  lemma {:induction false} StrandedNow(root: Root, table: Table, i: nat, owned: set<string>, now: int, os: Os)
    requires Lists(os) && NothingFailed(FullPass(root, table, owned, now, os).problems) && i < |os.list(root.Keys)|
    ensures var q := FullPass(root, table, owned, now, os);
            var names := os.list(root.Keys);
            && (names[i] in q.root && Stranded(q.root, q.table, names[i], owned, os) <==>
                Undercut(root, table, names, i, owned, now, os))
            && (names[i] in q.root ==> Lookup(q.root, names[i]) == Lookup(root, names[i]))
  {
    hide Stranded, Undercut, ExamineAll, Settled;
    var names := os.list(root.Keys);
    assert IsListing(names, root.Keys);
    StrandedIffUndercut(Begin(root, table), names, i, owned, now, os);
    if names[i] in FullPass(root, table, owned, now, os).root {
      PassSettles(Begin(root, table), names, i, owned, now, os);
    }
  }

  /** The second pass removes the stranded entries, or tries to, and does nothing else. */
  lemma {:induction false} SecondPass(root: Root, table: Table, owned: set<string>, now: int, os: Os)
    requires Lists(os) && NothingFailed(FullPass(root, table, owned, now, os).problems)
    ensures var q := FullPass(root, table, owned, now, os);
            var again := FullPass(q.root, q.table, owned, now, os);
            && again.table == q.table && again.root.Keys <= q.root.Keys
            && forall n :: n in q.root ==>
                 Lookup(again.root, n) == if Stranded(q.root, q.table, n, owned, os)
                                          then Removal(Lookup(q.root, n), n, os).entry else Lookup(q.root, n)
  {
    var names := os.list(root.Keys);
    assert IsListing(names, root.Keys);
    var p := Begin(root, table);
    var q := FullPass(root, table, owned, now, os);
    PassFrame(p, names, owned, now, os);
    var left := os.list(q.root.Keys);
    assert IsListing(left, q.root.Keys);
    hide Settled, Stranded, ExamineAll, Removal;
    forall n | n in left
      ensures Settled(q.root, q.table, n, owned, now, os) || Stranded(q.root, q.table, n, owned, os)
    {
      assert n in names;
      var i :| 0 <= i < |names| && names[i] == n;
      PassSettles(p, names, i, owned, now, os);
    }
    SecondTurns(Begin(q.root, q.table), left, owned, now, os);
    PassFrame(Begin(q.root, q.table), left, owned, now, os);
  }

  /** In particular nothing changes when no entry is undercut, as when no two entries name the same PID; and when
      no call made on behalf of an undercut entry fails, that is the only case. */
  lemma {:induction false} SecondPassUndercut(root: Root, table: Table, owned: set<string>, now: int, os: Os)
    requires Lists(os) && NothingFailed(FullPass(root, table, owned, now, os).problems)
    ensures var q := FullPass(root, table, owned, now, os);
            var same := SameOutcome(q, FullPass(q.root, q.table, owned, now, os));
            var names := os.list(root.Keys);
            && (NoneUndercut(root, table, names, owned, now, os) ==> same)
            && ((forall i :: 0 <= i < |names| && Undercut(root, table, names, i, owned, now, os) ==>
                   AllSucceed(names[i], os)) ==>
                  (same <==> NoneUndercut(root, table, names, owned, now, os)))
  {
    SecondPassChangesNothingIff(root, table, owned, now, os);
    hide FullPass, Removal, AllSucceed;
    var names := os.list(root.Keys);
    forall i | 0 <= i < |names| && Undercut(root, table, names, i, owned, now, os) && AllSucceed(names[i], os)
      ensures Removal(Lookup(root, names[i]), names[i], os).entry != Lookup(root, names[i])
    {
      RemovalFacts(Lookup(root, names[i]), names[i], os);
    }
  }

  /** No two entries watch the same PID, whatever the process. */
  ghost predicate PidsApart(root: Root, owned: set<string>, os: Os) {
    forall a, b :: a in root && b in root && a != b && Watched(root, a, owned, os).Some? ==>
      !WatchesPid(root, b, Watched(root, a, owned, os).value.pid, owned, os)
  }

  predicate WatchesPid(root: Root, name: string, pid: int, owned: set<string>, os: Os) {
    var w := Watched(root, name, owned, os);
    w.Some? && w.value.pid == pid
  }

  /** Distinct PIDs are one way to have no entry undercut. */
  lemma {:induction false} DistinctPidsNeverUndercut(root: Root, table: Table, names: seq<string>, owned: set<string>,
                                                     now: int, os: Os)
    requires Distinct(names) && (forall n :: n in names ==> n in root) && PidsApart(root, owned, os)
    ensures NoneUndercut(root, table, names, owned, now, os)
  {
    hide Watched;
    forall i, j | 0 <= i < j < |names| && Watched(root, names[i], owned, os).Some?
      ensures !Ends(root, table, names[j], Watched(root, names[i], owned, os).value.pid, owned, now, os)
    {
      assert names[i] in names && names[j] in names && names[i] != names[j];
    }
  }

  /** Both failures do arise.  The first entry, assigned, names PID 7 under some start marker; the second, overdue,
      names the process that runs there.  With the same identity the pass reports nothing although the first
      entry's process is gone at the end; with a reused PID it reports a mismatch; either way a second pass
      removes the entry that the first one kept. */
  lemma {:induction false} SharedPidIsUndercut(root: Root, table: Table, now: int, os: Os, kept: string,
                                               overdue: string, marker: string)
    requires Lists(os) && (forall name, op :: !os.fails(name, op))
    requires kept != overdue && root.Keys == {kept, overdue} && os.list({kept, overdue}) == [kept, overdue]
    requires now > 1 && 7 in table && table[7] == ("new", "run")
    requires root[kept] ==
        Directory(map[MANIFEST := Record(Manifest(1, kept, ProcessIdentity(7, marker, "run"), Assigned, 0, 0))])
    requires root[overdue] ==
        Directory(map[MANIFEST := Record(Manifest(1, overdue, ProcessIdentity(7, "new", "run"), Waiting, 1, 0))])
    ensures var q := FullPass(root, table, {}, now, os);
            && NothingFailed(q.problems) && q.root.Keys == {kept}
            && (marker == "new" ==> q.problems == []) && !Verified(q.root, q.table, kept, now, os)
            && !SameOutcome(q, FullPass(q.root, q.table, {}, now, os))
  {
    var names := [kept, overdue];
    var first := Begin(root, table);
    var second := Examine(first, kept, {}, now, os);
    assert RecordOf(root, kept, os) == Some(Manifest(1, kept, ProcessIdentity(7, marker, "run"), Assigned, 0, 0));
    assert second.root == root && second.table == table && (marker == "new" ==> second.problems == []);
    assert second.problems == [] || second.problems == [IdentityMismatch(kept)];
    assert RecordOf(root, overdue, os) == Some(Manifest(1, overdue, ProcessIdentity(7, "new", "run"), Waiting, 1, 0));
    var third := Examine(second, overdue, {}, now, os);
    RemovalFacts(Lookup(root, overdue), overdue, os);
    assert third == Discard(second.(table := table - {7}), overdue, os);
    hide Removal, Examine;
    assert third.root.Keys == {kept} && third.problems == second.problems;
    assert names[1..] == [overdue] && [overdue][1..] == [];
    assert ExamineAll(third, [], {}, now, os) == third;
    assert ExamineAll(second, [overdue], {}, now, os) == ExamineAll(third, [], {}, now, os);
    assert FullPass(root, table, {}, now, os) == third;
    hide ExamineAll, FullPass;
    assert Ends(root, table, names[1], 7, {}, now, os);
    assert Undercut(root, table, names, 0, {}, now, os);
    SecondPassUndercut(root, table, {}, now, os);
    hide Undercut;
    assert RecordOf(third.root, kept, os) == RecordOf(root, kept, os);
  }

  // ---------------------------------------------------------------------------------------------
  // The manager's methods.

  /** At a moment during a removal of `id` that began at `before`: only that entry may differ, it holds
      nothing new, and while workspace files remain its manifest is exactly what it was. */
  ghost predicate MetadataLast(before: Root, at: Root, id: string) {
    && (forall n :: n != id ==> Lookup(at, n) == Lookup(before, n))
    && (id in at ==> id in before)
    && (id in at && at[id] != before[id] ==>
          && at[id].Directory? && before[id].Directory?
          && Within(at[id].files, before[id].files)
          && (!WorkspaceEmpty(at[id].files) ==> SameRecord(at[id].files, before[id].files)))
  }

  lemma {:induction false} PartIsRecoverable(before: Root, id: string, files: Files, original: Files)
    requires id in before && before[id] == Directory(original) && Within(files, original) && SameRecord(files, original)
    ensures MetadataLast(before, before[id := Directory(files)], id)
  {
  }

  lemma {:induction false} ClearNext(files: Files, names: seq<string>, id: string, os: Os)
    requires names != []
    ensures ClearFiles(files, names, id, os) ==
            if names[0] == MANIFEST then ClearFiles(files, names[1..], id, os)
            else if os.fails(id, RemoveFile(names[0])) then Cleared(files, false)
            else ClearFiles(files - {names[0]}, names[1..], id, os)
  {
  }

  lemma {:induction false} ClearNone(files: Files, id: string, os: Os)
    ensures ClearFiles(files, [], id, os) == Cleared(files, true)
  {
  }

  function Noted(problem: Option<Problem>): seq<Problem> {
    if problem.Some? then [problem.value] else []
  }

  class Manager {
    var root: Root
    var table: Table
    var owned: set<string>
    var recoveredActive: int
    /** Every state the disk passed through: where a crash may leave it. */
    ghost var trace: seq<Root>

    constructor (root: Root, table: Table)
      ensures this.root == root && this.table == table && owned == {} && recoveredActive == 0 && trace == [root]
    {
      this.root, this.table, this.owned, this.recoveredActive := root, table, {}, 0;
      this.trace := [root];
    }

    ghost predicate TraceExtends(before: seq<Root>, from: Root, id: string)
      reads this
    {
      before <= trace && forall i :: |before| <= i < |trace| ==> MetadataLast(from, trace[i], id)
    }

    /** One change of the disk. */
    method Write(id: string, entry: Option<Entry>)
      modifies this`root, this`trace
      ensures root == Put(old(root), id, entry) && trace == old(trace) + [root]
    {
      root := if entry.Some? then root[id := entry.value] else root - {id};
      trace := trace + [root];
    }

    method RemoveInstance(id: string, os: Os) returns (ok: bool)
      requires Lists(os)
      modifies this`root, this`trace
      ensures var o := Removal(Lookup(old(root), id), id, os); ok == o.ok && root == Put(old(root), id, o.entry)
      ensures TraceExtends(old(trace), old(root), id)
    {
      hide ClearFiles, FinishRemoval;
      if id !in root {
        return true;
      }
      if os.fails(id, Stat) || root[id].Foreign? || os.fails(id, ListFiles) {
        return false;
      }
      ghost var original := root[id].files;
      var cleared := ClearWorkspace(id, os);
      ClearFilesFacts(original, os.list(original.Keys), id, os);
      assert IsListing(os.list(original.Keys), original.Keys);
      if !cleared {
        return false;
      }
      ok := RemoveRest(id, root[id].files, original, os);
    }

    /** The workspace loop: everything but the manifest, in the listed order. */
    method ClearWorkspace(id: string, os: Os) returns (cleared: bool)
      requires id in root && root[id].Directory? && Lists(os)
      modifies this`root, this`trace
      ensures var files := old(root)[id].files;
              var c := ClearFiles(files, os.list(files.Keys), id, os);
              cleared == c.ok && root == old(root)[id := Directory(c.files)]
      ensures TraceExtends(old(trace), old(root), id)
    {
      hide MetadataLast, ClearFiles;
      ghost var original := root[id].files;
      var files := root[id].files;
      var names := os.list(files.Keys);
      for i := 0 to |names|
        invariant root == old(root)[id := Directory(files)]
        invariant TraceExtends(old(trace), old(root), id)
        invariant ClearFiles(files, names[i..], id, os) == ClearFiles(original, names, id, os)
        invariant Within(files, original) && SameRecord(files, original)
      {
        ClearNext(files, names[i..], id, os);
        if names[i] != MANIFEST {
          if os.fails(id, RemoveFile(names[i])) {
            return false;
          }
          files := files - {names[i]};
          PartIsRecoverable(old(root), id, files, original);
          Write(id, Some(Directory(files)));
        }
      }
      ClearNone(files, id, os);
      return true;
    }

    /** The last steps, on a directory that holds at most the manifest. */
    method RemoveRest(id: string, files: Files, ghost original: Files, os: Os) returns (ok: bool)
      requires id in root && root[id] == Directory(files) && WorkspaceEmpty(files)
      requires Within(files, original) && SameRecord(files, original)
      modifies this`root, this`trace
      ensures var o := FinishRemoval(files, id, os); ok == o.ok && root == Put(old(root), id, o.entry)
      ensures TraceExtends(old(trace), old(root)[id := Directory(original)], id)
    {
      var saved := if os.fails(id, ReadRecord) then None else ReadManifest(files);
      if MANIFEST in files && os.fails(id, RemoveRecord) {
        return false;
      }
      var bare := files - {MANIFEST};
      Write(id, Some(Directory(bare)));
      if bare != map[] || os.fails(id, RemoveDirectory) {
        if saved.Some? && !os.fails(id, RewriteRecord) {
          Write(id, Some(Directory(bare[MANIFEST := Record(saved.value)])));
        }
        return false;
      }
      Write(id, None);
      return true;
    }

    /** A pass over the directory listing; `cancelled` says at which turn the context is found done. */
    method Reconcile(now: int, os: Os, cancelled: nat -> bool) returns (completed: bool, problems: seq<Problem>)
      requires Lists(os)
      modifies this
      ensures owned == old(owned)
      ensures completed ==> var q := FullPass(old(root), old(table), owned, now, os);
                root == q.root && table == q.table && recoveredActive == q.recovered && problems == q.problems
      ensures !completed ==> recoveredActive == old(recoveredActive)
      ensures completed <==> !os.fails("", ListFiles) && forall i :: 0 <= i < |os.list(old(root).Keys)| ==>
          !cancelled(i)
    {
      hide Examine, Removal, IsListing, ExamineAll;
      completed, problems := false, [];
      if os.fails("", ListFiles) {
        return;
      }
      var names := os.list(root.Keys);
      ghost var full := FullPass(root, table, owned, now, os);
      FullPassBegins(root, table, owned, now, os);
      hide FullPass;
      var recovered := 0;
      for i := 0 to |names|
        invariant owned == old(owned) && recoveredActive == old(recoveredActive)
        invariant forall j :: 0 <= j < i ==> !cancelled(j)
        invariant ExamineAll(Pass(root, table, recovered, problems), names[i..], owned, now, os) == full
      {
        if cancelled(i) {
          return;
        }
        ghost var p := Pass(root, table, recovered, problems);
        ExamineAllNext(p, names, i, owned, now, os);
        var kept, problem := ExamineOne(names[i], now, os, p);
        recovered := recovered + (if kept then 1 else 0);
        problems := problems + Noted(problem);
      }
      ExamineNone(Pass(root, table, recovered, problems), names, owned, now, os);
      recoveredActive := recovered;
      completed := true;
    }

    /** The loop body: whether the entry still reserves capacity, and what is wrong with it. */
    method ExamineOne(name: string, now: int, os: Os, ghost sofar: Pass) returns (kept: bool, problem: Option<Problem>)
      requires Lists(os) && sofar.root == root && sofar.table == table
      modifies this`root, this`table, this`trace
      ensures Examine(sofar, name, owned, now, os)
           == Pass(root, table, sofar.recovered + One(kept), sofar.problems + Noted(problem))
    {
      kept, problem := false, None;
      assert sofar.problems + [] == sofar.problems;
      if name in owned {
        return;
      }
      if name in root && root[name].Foreign? {
        return true, Some(UnknownEntry(name));
      }
      var record := RecordOf(root, name, os);
      var discard := record.None? || record.value.instanceID != name || record.value.schemaVersion != 1
                     || record.value.phase == CleanupFailed || record.value.phase == Cleaning
                     || record.value.phase == Exited || record.value.phase == Failed
                     || record.value.phase == TimedOut || record.value.process.pid == 0;
      if !discard {
        if os.fails(name, Inspect) {
          return true, Some(InspectFailed(name));
        }
        match StatusOf(table, record.value.process)
        case Missing =>
        case Mismatched => return true, Some(IdentityMismatch(name));
        case Matches =>
          if !(record.value.phase == Waiting && record.value.acquisitionDeadline != 0
               && now > record.value.acquisitionDeadline) {
            return true, None;
          }
          if os.fails(name, Terminate) {
            return true, Some(TerminateFailed(name));
          }
          table := table - {record.value.process.pid};
      }
      var ok := RemoveInstance(name, os);
      if !ok {
        return true, Some(RemoveFailed(name));
      }
    }
  }
}
