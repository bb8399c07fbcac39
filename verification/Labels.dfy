/** Case-insensitive label comparisons (internal/participant/participant.go). */
module Labels {
  import opened Text

  /** Every required label is available, up to case. */
  predicate LabelsCompatible(required: seq<string>, available: seq<string>) {
    forall l :: l in required ==> Lower(l) in LowerAll(available)
  }

  /** The same labels with the same multiplicities, up to case. */
  predicate SameLabelBag(left: seq<string>, right: seq<string>) {
    multiset(LowerAll(left)) == multiset(LowerAll(right))
  }

  lemma {:induction false} LowerAllNext(values: seq<string>, i: nat)
    requires i < |values|
    ensures LowerAll(values[..i + 1]) == LowerAll(values[..i]) + [Lower(values[i])]
    ensures LowerAll(values)[..i + 1] == LowerAll(values[..i + 1])
  {
  }

  method LabelsMatch(required: seq<string>, available: seq<string>) returns (match_: bool)
    ensures match_ == LabelsCompatible(required, available)
  {
    hide Lower;
    var labels: set<string> := {};
    for i := 0 to |available|
      invariant forall l :: l in labels <==> l in LowerAll(available)[..i]
    {
      LowerAllNext(available, i);
      labels := labels + {Lower(available[i])};
    }
    for i := 0 to |required|
      invariant forall j :: 0 <= j < i ==> Lower(required[j]) in LowerAll(available)
    {
      if Lower(required[i]) !in labels {
        return false;
      }
    }
    return true;
  }

  function Count(counts: map<string, int>, key: string): int {
    if key in counts then counts[key] else 0
  }

  lemma {:induction false} FullSubBag<T>(a: multiset<T>, b: multiset<T>)
    requires b <= a && |a| == |b|
    ensures a == b
  {
    assert a == b + (a - b);
    assert |a - b| == 0;
  }

  method CountLabels(labels: seq<string>) returns (counts: map<string, int>)
    ensures forall k :: Count(counts, k) == multiset(LowerAll(labels))[k]
  {
    hide Lower;
    counts := map[];
    for i := 0 to |labels|
      invariant forall k :: Count(counts, k) == multiset(LowerAll(labels[..i]))[k]
    {
      LowerAllNext(labels, i);
      var key := Lower(labels[i]);
      counts := counts[key := Count(counts, key) + 1];
    }
    assert labels[..|labels|] == labels;
  }

  method SameLabels(left: seq<string>, right: seq<string>) returns (same: bool)
    ensures same == SameLabelBag(left, right)
  {
    hide Lower;
    ghost var l := multiset(LowerAll(left));
    ghost var r := multiset(LowerAll(right));
    if |left| != |right| {
      assert |l| != |r|;
      return false;
    }
    var counts := CountLabels(left);
    for i := 0 to |right|
      invariant forall k :: Count(counts, k) + multiset(LowerAll(right[..i]))[k] == l[k]
      invariant multiset(LowerAll(right[..i])) <= l
    {
      LowerAllNext(right, i);
      var key := Lower(right[i]);
      counts := counts[key := Count(counts, key) - 1];
      if counts[key] < 0 {
        assert LowerAll(right) == LowerAll(right)[..i + 1] + LowerAll(right)[i + 1..];
        assert r[key] >= multiset(LowerAll(right[..i + 1]))[key] > l[key];
        return false;
      }
    }
    assert right[..|right|] == right;
    FullSubBag(l, r);
    return true;
  }

  /** Compatibility depends only on the label bag, up to case. */
  lemma {:induction false} CompatibleUpToCase(left: seq<string>, right: seq<string>, available: seq<string>)
    requires SameLabelBag(left, right)
    ensures LabelsCompatible(left, available) == LabelsCompatible(right, available)
    ensures LabelsCompatible(available, left) == LabelsCompatible(available, right)
  {
    hide Lower;
    BagMembers(left, right);
    forall x | x in left ensures Lower(x) in LowerAll(right) {
      assert Lower(x) in LowerAll(left);
    }
    forall x | x in right ensures Lower(x) in LowerAll(left) {
      assert Lower(x) in LowerAll(right);
    }
    LowerMember(left);
    LowerMember(right);
  }

  lemma {:induction false} LowerMember(values: seq<string>)
    ensures forall l :: l in LowerAll(values) ==> exists x :: x in values && Lower(x) == l
  {
  }

  lemma {:induction false} BagMembers(left: seq<string>, right: seq<string>)
    requires SameLabelBag(left, right)
    ensures forall l :: l in LowerAll(left) <==> l in LowerAll(right)
    ensures |left| == |right|
  {
    forall l ensures l in LowerAll(left) <==> l in LowerAll(right) {
      assert l in multiset(LowerAll(left)) <==> l in multiset(LowerAll(right));
    }
    assert |left| == |multiset(LowerAll(left))| == |multiset(LowerAll(right))| == |right|;
  }
}
