/** Mutating the configured repository list from a policy file (internal/setup/policy.go). */
module PolicyEdits {
  import opened Collections
  import opened Text
  import opened Config

  /** A repository entry as written in the file, before defaults and trimming. */
  datatype Entry = Entry(
    owner: string,
    name: string,
    visibility: string,
    runnerGroupID: Option<int>,
    trustedWorkflows: seq<TrustedWorkflow>)

  /** The defaults parsing applies. */
  function Parsed(e: Entry): Repository {
    Repository(e.owner, e.name, if e.visibility == "" then "private" else e.visibility,
               if e.runnerGroupID.None? then 1 else e.runnerGroupID.value, e.trustedWorkflows)
  }

  /** A missing visibility means private and a missing runner group the first; what is stated stays as stated. */
  lemma {:induction false} DefaultsMean(e: Entry)
    ensures Parsed(e) == Parsed(e.(visibility := if e.visibility == "" then "private" else e.visibility,
                                   runnerGroupID := Some(if e.runnerGroupID.Some? then e.runnerGroupID.value else 1)))
    ensures e.visibility != "" ==> Parsed(e).visibility == e.visibility
    ensures e.runnerGroupID.Some? ==> Parsed(e).runnerGroupID == e.runnerGroupID.value
    ensures Parsed(e).owner == e.owner && Parsed(e).name == e.name && Parsed(e).trustedWorkflows == e.trustedWorkflows
  {
  }

  function ParsedAll(entries: seq<Entry>): (r: seq<Repository>)
    ensures |r| == |entries|
    ensures forall i :: 0 <= i < |entries| ==> r[i] == Parsed(entries[i])
  {
    seq(|entries|, i requires 0 <= i < |entries| => Parsed(entries[i]))
  }

  /** Validation accepts the list. */
  ghost predicate Accepted(entries: seq<Entry>, labels: seq<string>) {
    ValidRepositories(TrimRepositories(ParsedAll(entries)), labels)
  }

  /** What validation makes of one entry. */
  function Final(e: Entry): Repository {
    TrimRepository(Parsed(e))
  }

  predicate Tidy(e: Entry) {
    Trimmed(e.owner) && Trimmed(e.name)
  }

  ghost predicate AllTidy(entries: seq<Entry>) {
    forall i :: 0 <= i < |entries| ==> Tidy(entries[i])
  }

  predicate Names(e: Entry, owner: string, name: string) {
    EqualFold(e.owner, owner) && EqualFold(e.name, name)
  }

  /** The first entry with that identity, up to case, or -1. */
  function IndexOf(entries: seq<Entry>, owner: string, name: string): (r: int)
    ensures -1 <= r < |entries|
    ensures r >= 0 ==> Names(entries[r], owner, name)
    ensures forall i :: 0 <= i < (if r < 0 then |entries| else r) ==> !Names(entries[i], owner, name)
  {
    if entries == [] then -1
    else if Names(entries[0], owner, name) then 0
    else
      var r := IndexOf(entries[1..], owner, name);
      if r < 0 then -1 else r + 1
  }

  method RepositoryNodeIndex(entries: seq<Entry>, owner: string, name: string) returns (index: int)
    ensures index == IndexOf(entries, owner, name)
  {
    for i := 0 to |entries|
      invariant forall j :: 0 <= j < i ==> !Names(entries[j], owner, name)
    {
      if EqualFold(entries[i].owner, owner) && EqualFold(entries[i].name, name) {
        return i;
      }
    }
    return -1;
  }

  // ---------------------------------------------------------------------------------------------
  // Policy mutations.

  datatype Result = Ok(entries: seq<Entry>) | Rejected

  /** The list the action asks for, if it applies. */
  function Candidate(entries: seq<Entry>, policy: Entry, action: string): Result {
    var index := IndexOf(entries, TrimSpace(policy.owner), TrimSpace(policy.name));
    if TrimSpace(policy.owner) == "" || TrimSpace(policy.name) == "" then Rejected
    else if action == "add" then if index >= 0 then Rejected else Ok(entries + [policy])
    else if action == "reconcile" then if index >= 0 then Ok(entries[index := policy]) else Ok(entries + [policy])
    else if action == "remove" then if index < 0 then Rejected else Ok(entries[..index] + entries[index + 1..])
    else Rejected
  }

  /** The mutation as a whole: the candidate is written only if the resulting document is valid. */
  ghost function Mutated(entries: seq<Entry>, policy: Entry, action: string, labels: seq<string>): Result {
    var candidate := Candidate(entries, policy, action);
    if candidate.Ok? && Accepted(candidate.entries, labels) then candidate else Rejected
  }

  /** The configuration file; `labels` are the participant's, and the rest of the document is valid. */
  class ConfigFile {
    var repositories: seq<Entry>
    const labels: seq<string>

    constructor (repositories: seq<Entry>, labels: seq<string>)
      ensures this.repositories == repositories && this.labels == labels
    {
      this.repositories, this.labels := repositories, labels;
    }

    method MutatePolicy(policy: Entry, action: string) returns (ok: bool)
      modifies this
      ensures var result := Mutated(old(repositories), policy, action, labels);
              ok == result.Ok? && repositories == if result.Ok? then result.entries else old(repositories)
    {
      ok := false;
      if action != "add" && action != "reconcile" && action != "remove" {
        return;
      }
      var owner, name := TrimSpace(policy.owner), TrimSpace(policy.name);
      if owner == "" || name == "" {
        return;
      }
      var content := repositories;
      var index := RepositoryNodeIndex(content, owner, name);
      if action == "add" {
        if index >= 0 {
          return;
        }
        content := content + [policy];
      } else if action == "reconcile" {
        content := if index >= 0 then content[index := policy] else content + [policy];
      } else {
        if index < 0 {
          return;
        }
        content := content[..index] + content[index + 1..];
      }
      var _, problems := ValidateRepositories(ParsedAll(content), labels);
      if problems != [] {
        return;
      }
      repositories := content;
      ok := true;
    }
  }

  // ---------------------------------------------------------------------------------------------
  // What validation accepts, entry by entry.

  type Key = (string, string)

  function KeyOf(e: Entry): Key {
    (Lower(e.owner), Lower(e.name))
  }

  /** The identity validation sees, after trimming. */
  function FinalKey(e: Entry): Key {
    (Lower(TrimSpace(e.owner)), Lower(TrimSpace(e.name)))
  }

  ghost predicate KeysApart(entries: seq<Entry>) {
    forall i, j :: 0 <= i < j < |entries| ==> KeyOf(entries[i]) != KeyOf(entries[j])
  }

  ghost predicate FinalKeysApart(entries: seq<Entry>) {
    forall i, j :: 0 <= i < j < |entries| ==> FinalKey(entries[i]) != FinalKey(entries[j])
  }

  /** Every entry is valid on its own, all have the first one's owner, and no identity occurs twice. */
  ghost predicate WellKept(entries: seq<Entry>, labels: seq<string>) {
    && entries != []
    && (forall i :: 0 <= i < |entries| ==>
          ValidRepository(Final(entries[i]), labels) && FinalKey(entries[i]).0 == FinalKey(entries[0]).0)
    && FinalKeysApart(entries)
  }

  lemma {:induction false} LowerSlash(owner: string, name: string)
    ensures Lower(owner + "/" + name) == Lower(owner) + ['/'] + Lower(name)
  {
    LowerConcat(owner + "/", name);
    LowerConcat(owner, "/");
    assert Lower("/") == ['/'];
  }

  lemma {:induction false} NoSlash(owner: string, name: string)
    requires !ContainsAny(owner + name, "/\\?#")
    ensures '/' !in Lower(name)
  {
    forall i | 0 <= i < |name| ensures Lower(name)[i] != '/' {
      assert (owner + name)[|owner| + i] == name[i];
    }
  }

  /** The duplicate check compares "owner/name" strings; names without slashes make that the pair's identity. */
  lemma {:induction false} SameKeyString(a: Entry, b: Entry, labels: seq<string>)
    requires ValidRepository(Final(a), labels) && ValidRepository(Final(b), labels)
    ensures RepositoryKey(Final(a)) == RepositoryKey(Final(b)) <==> FinalKey(a) == FinalKey(b)
  {
    var p, q := Final(a), Final(b);
    hide TrimSpace, Lower, ValidWorkflows;
    LowerSlash(p.owner, p.name);
    LowerSlash(q.owner, q.name);
    NoSlash(p.owner, p.name);
    NoSlash(q.owner, q.name);
    if RepositoryKey(p) == RepositoryKey(q) {
      LastSeparator(Lower(p.owner), Lower(q.owner), Lower(p.name), Lower(q.name), '/');
    }
  }

  lemma {:induction false} AcceptedMeans(entries: seq<Entry>, labels: seq<string>)
    ensures Accepted(entries, labels) <==> WellKept(entries, labels)
  {
    hide RepositoryKey, ValidRepository, Lower, TrimRepositories, ParsedAll, Final, FinalKey, TrimRepository, Parsed;
    var final := TrimRepositories(ParsedAll(entries));
    forall i | 0 <= i < |entries|
      ensures final[i] == Final(entries[i]) && Lower(final[i].owner) == FinalKey(entries[i]).0
    {
      FinalOwner(entries[i]);
    }
    if forall i :: 0 <= i < |entries| ==> ValidRepository(final[i], labels) {
      FinalKeysApartIff(entries, labels);
    }
    hide FinalKeysApart, RepositoryKeys, Distinct;
  }

  lemma {:induction false} FinalOwner(e: Entry)
    ensures TrimRepository(Parsed(e)) == Final(e) && Lower(Final(e).owner) == FinalKey(e).0
  {
    hide Lower, TrimSpace;
  }

  lemma {:induction false} FinalKeysApartIff(entries: seq<Entry>, labels: seq<string>)
    requires forall i :: 0 <= i < |entries| ==> ValidRepository(Final(entries[i]), labels)
    ensures Distinct(RepositoryKeys(TrimRepositories(ParsedAll(entries)))) <==> FinalKeysApart(entries)
  {
    hide ValidRepository, RepositoryKey, FinalKey;
    var final := TrimRepositories(ParsedAll(entries));
    var keys := RepositoryKeys(final);
    assert forall i :: 0 <= i < |entries| ==> keys[i] == RepositoryKey(Final(entries[i]));
    hide TrimRepositories, ParsedAll, RepositoryKeys, Final;
    forall i, j | 0 <= i < j < |entries| ensures keys[i] == keys[j] <==> FinalKey(entries[i]) == FinalKey(entries[j]) {
      SameKeyString(entries[i], entries[j], labels);
    }
  }

  lemma {:induction false} TidyKey(e: Entry)
    requires Tidy(e)
    ensures FinalKey(e) == KeyOf(e)
  {
  }

  lemma {:induction false} AcceptedKeysApart(entries: seq<Entry>, labels: seq<string>)
    requires Accepted(entries, labels) && AllTidy(entries)
    ensures KeysApart(entries)
  {
    AcceptedMeans(entries, labels);
    hide Accepted, KeyOf, FinalKey, Tidy, ValidRepository;
    forall i, j | 0 <= i < j < |entries| ensures KeyOf(entries[i]) != KeyOf(entries[j]) {
      TidyKey(entries[i]);
      TidyKey(entries[j]);
    }
  }

  /** The entry is valid on its own and has the owner of the list. */
  ghost predicate FitsIn(entries: seq<Entry>, e: Entry, labels: seq<string>) {
    ValidRepository(Final(e), labels) && (entries != [] ==> FinalKey(e).0 == FinalKey(entries[0]).0)
  }

  lemma {:induction false} AppendAcceptedIff(entries: seq<Entry>, e: Entry, labels: seq<string>)
    requires Accepted(entries, labels)
    requires forall j :: 0 <= j < |entries| ==> FinalKey(entries[j]) != FinalKey(e)
    ensures Accepted(entries + [e], labels) <==> FitsIn(entries, e, labels)
  {
    hide Accepted, FinalKey, ValidRepository, Final;
    AcceptedMeans(entries, labels);
    AcceptedMeans(entries + [e], labels);
    MoreFinalKeys(entries, e);
    hide FinalKeysApart;
    var after := entries + [e];
    assert after[|entries|] == e && forall j :: 0 <= j < |entries| ==> after[j] == entries[j];
  }

  lemma {:induction false} MoreFinalKeys(entries: seq<Entry>, e: Entry)
    requires FinalKeysApart(entries) && forall j :: 0 <= j < |entries| ==> FinalKey(entries[j]) != FinalKey(e)
    ensures FinalKeysApart(entries + [e])
  {
    hide FinalKey;
  }

  lemma {:induction false} SameFinalKeys(entries: seq<Entry>, i: nat, e: Entry)
    requires FinalKeysApart(entries) && i < |entries| && FinalKey(entries[i]) == FinalKey(e)
    ensures FinalKeysApart(entries[i := e])
    ensures forall j :: 0 <= j < |entries| ==> FinalKey(entries[i := e][j]) == FinalKey(entries[j])
  {
    hide FinalKey;
    var after := entries[i := e];
    forall j, k | 0 <= j < k < |entries| ensures FinalKey(after[j]) != FinalKey(after[k]) {
      assert FinalKey(entries[j]) != FinalKey(entries[k]);
    }
  }

  lemma {:induction false} ReplaceAcceptedIff(entries: seq<Entry>, i: nat, e: Entry, labels: seq<string>)
    requires Accepted(entries, labels) && i < |entries| && FinalKey(entries[i]) == FinalKey(e)
    ensures Accepted(entries[i := e], labels) <==> FitsIn(entries, e, labels)
  {
    hide Accepted, FinalKey, ValidRepository, Final;
    AcceptedMeans(entries, labels);
    AcceptedMeans(entries[i := e], labels);
    SameFinalKeys(entries, i, e);
    hide FinalKeysApart;
    var after := entries[i := e];
    assert after[i] == e && forall j :: 0 <= j < |after| && j != i ==> after[j] == entries[j];
  }

  lemma {:induction false} FewerFinalKeys(entries: seq<Entry>, i: nat)
    requires FinalKeysApart(entries) && i < |entries|
    ensures FinalKeysApart(Without(entries, i))
  {
    hide FinalKey, Without;
    var after := Without(entries, i);
    forall j, k | 0 <= j < k < |after| ensures FinalKey(after[j]) != FinalKey(after[k]) {
      assert FinalKey(entries[if j < i then j else j + 1]) != FinalKey(entries[if k < i then k else k + 1]);
    }
  }

  lemma {:induction false} RemoveAcceptedIff(entries: seq<Entry>, i: nat, labels: seq<string>)
    requires Accepted(entries, labels) && i < |entries|
    ensures Accepted(Without(entries, i), labels) <==> |entries| > 1
  {
    hide Accepted, FinalKey, ValidRepository, Final, Without;
    AcceptedMeans(entries, labels);
    AcceptedMeans(Without(entries, i), labels);
    FewerFinalKeys(entries, i);
    hide FinalKeysApart;
    var after := Without(entries, i);
    if after != [] {
      assert after[0] == entries[if 0 < i then 0 else 1];
    }
  }

  // ---------------------------------------------------------------------------------------------
  // On tidy, accepted lists the mutations act on a case-folded map.

  function AsMap(entries: seq<Entry>): map<Key, Entry> {
    if entries == [] then map[]
    else AsMap(entries[..|entries| - 1])[KeyOf(entries[|entries| - 1]) := entries[|entries| - 1]]
  }

  /** The map holds exactly the entries, each under its own key. */
  ghost predicate Represents(m: map<Key, Entry>, entries: seq<Entry>) {
    && (forall e :: e in entries ==> KeyOf(e) in m && m[KeyOf(e)] == e)
    && (forall k :: k in m ==> m[k] in entries && KeyOf(m[k]) == k)
  }

  lemma {:induction false} MapHolds(entries: seq<Entry>)
    requires KeysApart(entries)
    ensures Represents(AsMap(entries), entries)
  {
    hide KeyOf;
    if entries != [] {
      var n := |entries| - 1;
      MapHolds(entries[..n]);
      assert forall e :: e in entries <==> e in entries[..n] || e == entries[n];
      forall e | e in entries[..n] ensures KeyOf(e) != KeyOf(entries[n]) {
        var i :| 0 <= i < n && entries[..n][i] == e;
        assert KeyOf(entries[i]) != KeyOf(entries[n]);
      }
    }
  }

  lemma {:induction false} RepresentsUnique(a: map<Key, Entry>, b: map<Key, Entry>, entries: seq<Entry>)
    requires Represents(a, entries) && Represents(b, entries)
    ensures a == b
  {
    hide KeyOf;
    assert forall k :: k in a ==> k in b && a[k] == b[k];
    assert forall k :: k in b ==> k in a;
  }

  lemma {:induction false} RepresentsWithout(m: map<Key, Entry>, entries: seq<Entry>, fewer: seq<Entry>, key: Key)
    requires Represents(m, entries) && forall x :: x in fewer <==> x in entries && KeyOf(x) != key
    ensures Represents(m - {key}, fewer)
  {
    hide KeyOf;
    var after := m - {key};
    forall k | k in after ensures after[k] in fewer && KeyOf(after[k]) == k {
      assert k in m && k != key;
    }
  }

  /** For a tidy policy the lookup finds exactly the entry under the policy's key. */
  lemma {:induction false} LookupIsByKey(entries: seq<Entry>, policy: Entry)
    requires Tidy(policy)
    ensures var i := IndexOf(entries, TrimSpace(policy.owner), TrimSpace(policy.name));
            && (i >= 0 ==> KeyOf(entries[i]) == KeyOf(policy))
            && (i < 0 ==> forall j :: 0 <= j < |entries| ==> KeyOf(entries[j]) != KeyOf(policy))
  {
    hide TrimSpace, Lower;
    assert TrimSpace(policy.owner) == policy.owner && TrimSpace(policy.name) == policy.name;
  }

  lemma {:induction false} AppendNew(entries: seq<Entry>, e: Entry)
    requires KeysApart(entries) && forall j :: 0 <= j < |entries| ==> KeyOf(entries[j]) != KeyOf(e)
    ensures KeysApart(entries + [e])
    ensures KeyOf(e) !in AsMap(entries) && AsMap(entries + [e]) == AsMap(entries)[KeyOf(e) := e]
  {
    hide KeyOf;
    MapHolds(entries);
    assert (entries + [e])[..|entries|] == entries;
  }

  lemma {:induction false} ReplaceAt(entries: seq<Entry>, i: nat, e: Entry)
    requires KeysApart(entries) && i < |entries| && KeyOf(entries[i]) == KeyOf(e)
    ensures KeysApart(entries[i := e])
    ensures AsMap(entries[i := e]) == AsMap(entries)[KeyOf(e) := e]
  {
    hide KeyOf, AsMap;
    var after := entries[i := e];
    assert KeysApart(after) by {
      forall j, k | 0 <= j < k < |after| ensures KeyOf(after[j]) != KeyOf(after[k]) {
        assert KeyOf(entries[j]) != KeyOf(entries[k]);
      }
    }
    MapHolds(entries);
    MapHolds(after);
    ReplacedMembers(entries, i, e);
    RepresentsUnique(AsMap(after), AsMap(entries)[KeyOf(e) := e], after);
  }

  lemma {:induction false} ReplacedMembers(entries: seq<Entry>, i: nat, e: Entry)
    requires KeysApart(entries) && i < |entries| && KeyOf(entries[i]) == KeyOf(e)
    ensures forall x :: x in entries[i := e] <==> x == e || (x in entries && KeyOf(x) != KeyOf(e))
  {
    hide KeyOf;
    var after := entries[i := e];
    forall x ensures x in after <==> x == e || (x in entries && KeyOf(x) != KeyOf(e)) {
      if x in after && x != e {
        var j :| 0 <= j < |after| && after[j] == x;
        assert KeyOf(entries[j]) != KeyOf(entries[i]);
      }
      if x in entries && KeyOf(x) != KeyOf(e) {
        var j :| 0 <= j < |entries| && entries[j] == x;
        assert after[j] == x;
      }
      assert after[i] == e;
    }
  }

  function Without(entries: seq<Entry>, i: nat): (r: seq<Entry>)
    requires i < |entries|
    ensures |r| == |entries| - 1
    ensures forall j :: 0 <= j < |r| ==> r[j] == entries[if j < i then j else j + 1]
  {
    entries[..i] + entries[i + 1..]
  }

  lemma {:induction false} RemovedMembers(entries: seq<Entry>, i: nat)
    requires KeysApart(entries) && i < |entries|
    ensures forall x :: x in Without(entries, i) <==> x in entries && KeyOf(x) != KeyOf(entries[i])
  {
    hide KeyOf;
    var after := Without(entries, i);
    forall x ensures x in after <==> x in entries && KeyOf(x) != KeyOf(entries[i]) {
      if x in after {
        var j :| 0 <= j < |after| && after[j] == x;
        var k := if j < i then j else j + 1;
        assert entries[k] == x && KeyOf(entries[k]) != KeyOf(entries[i]);
      }
      if x in entries && KeyOf(x) != KeyOf(entries[i]) {
        var j :| 0 <= j < |entries| && entries[j] == x;
        assert after[if j < i then j else j - 1] == x;
      }
    }
  }

  lemma {:induction false} RemovedApart(entries: seq<Entry>, i: nat)
    requires KeysApart(entries) && i < |entries|
    ensures KeysApart(Without(entries, i))
  {
    hide KeyOf, Without;
    var after := Without(entries, i);
    forall j, k | 0 <= j < k < |after| ensures KeyOf(after[j]) != KeyOf(after[k]) {
      assert KeyOf(entries[if j < i then j else j + 1]) != KeyOf(entries[if k < i then k else k + 1]);
    }
  }

  lemma {:induction false} RemoveAt(entries: seq<Entry>, i: nat)
    requires KeysApart(entries) && i < |entries|
    ensures KeysApart(Without(entries, i))
    ensures KeyOf(entries[i]) in AsMap(entries) && AsMap(Without(entries, i)) == AsMap(entries) - {KeyOf(entries[i])}
  {
    hide KeyOf, AsMap, Without;
    RemovedApart(entries, i);
    hide KeysApart;
    var after, key := Without(entries, i), KeyOf(entries[i]);
    MapHolds(entries);
    MapHolds(after);
    RemovedMembers(entries, i);
    assert entries[i] in entries;
    RepresentsWithout(AsMap(entries), entries, after, key);
    hide Represents;
    RepresentsUnique(AsMap(after), AsMap(entries) - {key}, after);
  }

  /** Where a mutation writes, and what: the three cases a successful request can be. */
  lemma {:induction false} MutationCases(entries: seq<Entry>, policy: Entry, action: string, labels: seq<string>)
    requires Mutated(entries, policy, action, labels).Ok?
    ensures var after := Mutated(entries, policy, action, labels).entries;
            var i := IndexOf(entries, TrimSpace(policy.owner), TrimSpace(policy.name));
            && Accepted(after, labels)
            && ((i < 0 && (action == "add" || action == "reconcile") && after == entries + [policy])
                || (i >= 0 && action == "reconcile" && after == entries[i := policy])
                || (i >= 0 && action == "remove" && after == Without(entries, i)))
  {
    hide Accepted, TrimSpace, IndexOf;
  }

  /** Main result on mutations: a successful add inserts a new key, reconcile puts, remove deletes an
      existing key; the result is again accepted, and tidy if the policy is. */
  lemma {:induction false} MutationsActOnTheMap(entries: seq<Entry>, policy: Entry, action: string, labels: seq<string>)
    requires Accepted(entries, labels) && AllTidy(entries) && Tidy(policy)
    requires Mutated(entries, policy, action, labels).Ok?
    ensures var after := Mutated(entries, policy, action, labels).entries;
            var key := KeyOf(policy);
            && Accepted(after, labels) && AllTidy(after)
            && action in {"add", "reconcile", "remove"}
            && (action == "add" ==> key !in AsMap(entries) && AsMap(after) == AsMap(entries)[key := policy])
            && (action == "reconcile" ==> AsMap(after) == AsMap(entries)[key := policy])
            && (action == "remove" ==> key in AsMap(entries) && AsMap(after) == AsMap(entries) - {key})
  {
    hide Accepted, TrimSpace, Lower, KeyOf, Mutated, IndexOf, AsMap, Tidy, Names, KeysApart, Without;
    AcceptedKeysApart(entries, labels);
    LookupIsByKey(entries, policy);
    MutationCases(entries, policy, action, labels);
    MutationKeepsTidy(entries, policy, action, labels);
    hide AllTidy;
    var i := IndexOf(entries, TrimSpace(policy.owner), TrimSpace(policy.name));
    if i < 0 {
      AppendNew(entries, policy);
    } else if action == "reconcile" {
      ReplaceAt(entries, i, policy);
    } else {
      RemoveAt(entries, i);
    }
  }

  lemma {:induction false} InMapIff(entries: seq<Entry>, policy: Entry)
    requires KeysApart(entries) && Tidy(policy)
    ensures KeyOf(policy) in AsMap(entries) <==> IndexOf(entries, TrimSpace(policy.owner), TrimSpace(policy.name)) >= 0
  {
    hide TrimSpace, Lower, KeyOf, IndexOf, AsMap, Tidy, Names;
    MapHolds(entries);
    LookupIsByKey(entries, policy);
    hide KeysApart;
    var i := IndexOf(entries, TrimSpace(policy.owner), TrimSpace(policy.name));
    if i >= 0 {
      assert entries[i] in entries;
    }
  }

  /** A rejected mutation has one of these causes, and no other; the file is then left alone. */
  lemma {:induction false} RejectedExactlyWhen(entries: seq<Entry>, policy: Entry, action: string, labels: seq<string>)
    requires Accepted(entries, labels) && AllTidy(entries) && Tidy(policy)
    ensures Mutated(entries, policy, action, labels).Rejected? <==>
              || policy.owner == "" || policy.name == ""
              || action !in {"add", "reconcile", "remove"}
              || (action == "add" && KeyOf(policy) in AsMap(entries))
              || (action == "remove" && KeyOf(policy) !in AsMap(entries))
              || (action == "remove" && |entries| == 1)
              || (action != "remove" && !FitsIn(entries, policy, labels))
  {
    hide TrimSpace, Lower, KeyOf, FinalKey, IndexOf, AsMap, Accepted, FitsIn, Names, KeysApart, Tidy, AllTidy, Without;
    AcceptedKeysApart(entries, labels);
    InMapIff(entries, policy);
    WritesAcceptedIff(entries, policy, labels);
    TidyNames(policy);
    hide Without;
  }

  lemma {:induction false} TidyNames(e: Entry)
    requires Tidy(e)
    ensures TrimSpace(e.owner) == e.owner && TrimSpace(e.name) == e.name
  {
    hide TrimSpace;
  }

  /** When each of the three possible writes leaves an accepted list. */
  lemma {:induction false} WritesAcceptedIff(entries: seq<Entry>, policy: Entry, labels: seq<string>)
    requires Accepted(entries, labels) && AllTidy(entries) && Tidy(policy)
    ensures var i := IndexOf(entries, TrimSpace(policy.owner), TrimSpace(policy.name));
            && (i < 0 ==> (Accepted(entries + [policy], labels) <==> FitsIn(entries, policy, labels)))
            && (i >= 0 ==>
                  && (Accepted(entries[i := policy], labels) <==> FitsIn(entries, policy, labels))
                  && (Accepted(entries[..i] + entries[i + 1..], labels) <==> |entries| > 1))
  {
    hide TrimSpace, Lower, KeyOf, FinalKey, IndexOf, Accepted, FitsIn, Names, Tidy;
    TidyKey(policy);
    forall j | 0 <= j < |entries| ensures FinalKey(entries[j]) == KeyOf(entries[j]) {
      TidyKey(entries[j]);
    }
    LookupIsByKey(entries, policy);
    hide AllTidy;
    var i := IndexOf(entries, TrimSpace(policy.owner), TrimSpace(policy.name));
    if i < 0 {
      AppendAcceptedIff(entries, policy, labels);
    } else {
      ReplaceAcceptedIff(entries, i, policy, labels);
      RemoveAcceptedIff(entries, i, labels);
    }
  }

  /** The entries under other keys, in order. */
  function Others(entries: seq<Entry>, key: Key): seq<Entry> {
    if entries == [] then []
    else
      var before, last := Others(entries[..|entries| - 1], key), entries[|entries| - 1];
      if KeyOf(last) == key then before else before + [last]
  }

  lemma {:induction false} OthersConcat(a: seq<Entry>, b: seq<Entry>, key: Key)
    ensures Others(a + b, key) == Others(a, key) + Others(b, key)
  {
    hide KeyOf;
    if b == [] {
      assert a + b == a;
    } else {
      var n := |b| - 1;
      OthersConcat(a, b[..n], key);
      assert (a + b)[..|a| + n] == a + b[..n];
    }
  }

  /** Every action leaves the other entries and their order exactly as they were. */
  lemma {:induction false} OtherEntriesKept(entries: seq<Entry>, policy: Entry, action: string, labels: seq<string>)
    requires Tidy(policy) && Mutated(entries, policy, action, labels).Ok?
    ensures Others(Mutated(entries, policy, action, labels).entries, KeyOf(policy)) == Others(entries, KeyOf(policy))
  {
    hide *;
    LookupIsByKey(entries, policy);
    MutationCases(entries, policy, action, labels);
    var key := KeyOf(policy);
    var i := IndexOf(entries, TrimSpace(policy.owner), TrimSpace(policy.name));
    OthersOfOne(policy);
    if i < 0 {
      OthersConcat(entries, [policy], key);
    } else {
      OthersOfOne(entries[i]);
      OthersAround(entries[..i], entries[i], policy, entries[i + 1..]);
      assert entries == entries[..i] + [entries[i]] + entries[i + 1..];
      assert entries[i := policy] == entries[..i] + [policy] + entries[i + 1..];
      assert Without(entries, i) == entries[..i] + entries[i + 1..];
    }
  }

  lemma {:induction false} OthersOfOne(e: Entry)
    ensures Others([e], KeyOf(e)) == []
  {
    hide KeyOf;
    assert [e][..0] == [];
  }

  lemma {:induction false} OthersAround(a: seq<Entry>, x: Entry, y: Entry, b: seq<Entry>)
    requires KeyOf(x) == KeyOf(y)
    ensures Others(a + [x] + b, KeyOf(x)) == Others(a + [y] + b, KeyOf(x)) == Others(a + b, KeyOf(x))
  {
    hide KeyOf;
    var key := KeyOf(x);
    OthersOfOne(x);
    OthersOfOne(y);
    hide Others;
    OthersConcat(a, b, key);
    OthersConcat(a + [x], b, key);
    OthersConcat(a, [x], key);
    OthersConcat(a + [y], b, key);
    OthersConcat(a, [y], key);
  }

  lemma {:induction false} FoundWhere(entries: seq<Entry>, owner: string, name: string, at: nat)
    requires at < |entries| && Names(entries[at], owner, name)
    requires forall j :: 0 <= j < at ==> !Names(entries[j], owner, name)
    ensures IndexOf(entries, owner, name) == at
  {
    hide Names;
  }

  lemma {:induction false} ReconciledIsFound(entries: seq<Entry>, policy: Entry, labels: seq<string>)
    requires Tidy(policy) && Mutated(entries, policy, "reconcile", labels).Ok?
    ensures var after := Mutated(entries, policy, "reconcile", labels).entries;
            var at := IndexOf(after, TrimSpace(policy.owner), TrimSpace(policy.name));
            at >= 0 && after[at] == policy
  {
    hide *;
    MutationCases(entries, policy, "reconcile", labels);
    NamesItselfIff(policy);
    var owner, name := TrimSpace(policy.owner), TrimSpace(policy.name);
    var after := Mutated(entries, policy, "reconcile", labels).entries;
    var i := IndexOf(entries, owner, name);
    var at := if i >= 0 then i else |entries|;
    assert after[at] == policy;
    assert forall j :: 0 <= j < at ==> after[j] == entries[j];
    FoundWhere(after, owner, name, at);
  }

  /** Reconciling twice is reconciling once. */
  lemma {:induction false} ReconcileIsIdempotent(entries: seq<Entry>, policy: Entry, labels: seq<string>)
    requires Tidy(policy) && Mutated(entries, policy, "reconcile", labels).Ok?
    ensures var after := Mutated(entries, policy, "reconcile", labels);
            Mutated(after.entries, policy, "reconcile", labels) == after
  {
    ReconciledIsFound(entries, policy, labels);
    hide Accepted, TrimSpace, IndexOf;
    var after := Mutated(entries, policy, "reconcile", labels).entries;
    var at := IndexOf(after, TrimSpace(policy.owner), TrimSpace(policy.name));
    assert after[at := policy] == after;
  }


  lemma {:induction false} TrimShortens(s: string)
    ensures |TrimSpace(s)| <= |s|
    ensures |TrimSpace(s)| == |s| ==> Trimmed(s)
  {
    TrimLeftShortens(s);
  }

  lemma {:induction false} TrimLeftShortens(s: string)
    ensures |TrimLeft(s)| == |s| ==> TrimLeft(s) == s
  {
    if s != [] && IsSpace(s[0]) {
      assert |TrimLeft(s[1..])| <= |s| - 1;
    }
  }


  lemma {:induction false} NamesItselfIff(policy: Entry)
    ensures Names(policy, TrimSpace(policy.owner), TrimSpace(policy.name)) <==> Tidy(policy)
  {
    TrimShortens(policy.owner);
    TrimShortens(policy.name);
    var owner, name := TrimSpace(policy.owner), TrimSpace(policy.name);
    hide TrimSpace;
    assert |Lower(policy.owner)| == |policy.owner| && |Lower(policy.name)| == |policy.name|;
    assert |Lower(owner)| == |owner| && |Lower(name)| == |name|;
  }

  lemma {:induction false} AddedIsFoundIff(entries: seq<Entry>, policy: Entry)
    requires IndexOf(entries, TrimSpace(policy.owner), TrimSpace(policy.name)) == -1
    ensures IndexOf(entries + [policy], TrimSpace(policy.owner), TrimSpace(policy.name)) ==
            if Tidy(policy) then |entries| else -1
  {
    NamesItselfIff(policy);
    var owner, name := TrimSpace(policy.owner), TrimSpace(policy.name);
    var added := entries + [policy];
    hide TrimSpace, Names, Tidy;
    assert forall j :: 0 <= j < |entries| ==> !Names(added[j], owner, name);
    if Tidy(policy) {
      FoundWhere(added, owner, name, |entries|);
    }
  }

  /** Removing a policy just added restores the list exactly if the policy file names the repository without
      surrounding blanks; otherwise the entry it added is never found again. */
  lemma {:induction false} RemoveUndoesAddIff(entries: seq<Entry>, policy: Entry, labels: seq<string>)
    requires Accepted(entries, labels) && Mutated(entries, policy, "add", labels).Ok?
    ensures var added := Mutated(entries, policy, "add", labels).entries;
            && (Tidy(policy) ==> Mutated(added, policy, "remove", labels) == Ok(entries))
            && (!Tidy(policy) ==> Mutated(added, policy, "remove", labels) == Rejected)
  {
    hide Accepted, TrimSpace, Tidy, IndexOf, Names;
    AddedIsFoundIff(entries, policy);
    var added := entries + [policy];
    assert added[..|entries|] + added[|entries| + 1..] == entries;
  }

  /** A sequence of mutations; rejected ones leave the list as it is. */
  ghost function MutatedAll(entries: seq<Entry>, requests: seq<(Entry, string)>, labels: seq<string>): seq<Entry>
    decreases |requests|
  {
    if requests == [] then entries
    else
      var result := Mutated(entries, requests[0].0, requests[0].1, labels);
      MutatedAll(if result.Ok? then result.entries else entries, requests[1..], labels)
  }

  lemma {:induction false} MutationKeepsTidy(entries: seq<Entry>, policy: Entry, action: string, labels: seq<string>)
    requires Mutated(entries, policy, action, labels).Ok? && AllTidy(entries) && Tidy(policy)
    ensures AllTidy(Mutated(entries, policy, action, labels).entries)
  {
    hide Accepted, TrimSpace, Tidy, IndexOf, Mutated, Names, Without;
    MutationCases(entries, policy, action, labels);
  }

  /** A valid configuration stays valid under any sequence of mutations, and tidy under tidy policies. */
  lemma {:induction false} ValidUnderMutations(entries: seq<Entry>, requests: seq<(Entry, string)>, labels: seq<string>)
    requires Accepted(entries, labels)
    ensures Accepted(MutatedAll(entries, requests, labels), labels)
    ensures AllTidy(entries) && (forall i :: 0 <= i < |requests| ==> Tidy(requests[i].0)) ==>
              AllTidy(MutatedAll(entries, requests, labels)) && KeysApart(MutatedAll(entries, requests, labels))
    decreases |requests|
  {
    hide Accepted, Tidy, KeysApart, Mutated;
    if requests == [] {
      if AllTidy(entries) {
        AcceptedKeysApart(entries, labels);
      }
    } else {
      var policy, action := requests[0].0, requests[0].1;
      var result := Mutated(entries, policy, action, labels);
      if result.Ok? {
        MutationCases(entries, policy, action, labels);
        if AllTidy(entries) && Tidy(policy) {
          MutationKeepsTidy(entries, policy, action, labels);
        }
      }
      hide AllTidy;
      ValidUnderMutations(if result.Ok? then result.entries else entries, requests[1..], labels);
    }
  }
}
