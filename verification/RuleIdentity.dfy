/** canonicalRule (internal/config/config.go) is a normal form for authorization rules in whose values
    no NUL is followed by a tag. */
module RuleIdentity {
  import opened Text
  import opened Sorting
  import opened Labels
  import opened Config
  import Jobs
  import Policy

  /** The same rule up to the order of its values and the case of actors and labels. */
  ghost predicate SameRule(a: AuthorizationRule, b: AuthorizationRule) {
    && multiset(a.events) == multiset(b.events)
    && multiset(LowerAll(a.actors)) == multiset(LowerAll(b.actors))
    && multiset(LowerAll(a.requiredLabels)) == multiset(LowerAll(b.requiredLabels))
  }

  ghost predicate Without(values: seq<string>, c: char) {
    forall i :: 0 <= i < |values| ==> c !in values[i]
  }

  ghost predicate NulFree(rule: AuthorizationRule) {
    Without(rule.events, NUL) && Without(rule.actors, NUL) && Without(rule.requiredLabels, NUL)
  }

  /** One of the three tags stands at index `i`. */
  predicate TagAt(s: string, i: int) {
    0 <= i && i + 6 <= |s| && (s[i..i + 6] == "event:" || s[i..i + 6] == "actor:" || s[i..i + 6] == "label:")
  }

  /** No NUL is followed by a tag, so none can be taken for the boundary between two parts. */
  ghost predicate Unsplit(s: string) {
    forall i :: 0 <= i < |s| && s[i] == NUL ==> !TagAt(s, i + 1)
  }

  ghost predicate AllUnsplit(values: seq<string>) {
    forall i :: 0 <= i < |values| ==> Unsplit(values[i])
  }

  ghost predicate Unambiguous(rule: AuthorizationRule) {
    AllUnsplit(rule.events) && AllUnsplit(LowerAll(rule.actors)) && AllUnsplit(LowerAll(rule.requiredLabels))
  }

  lemma {:induction false} NulFreeIsUnambiguous(rule: AuthorizationRule)
    requires NulFree(rule)
    ensures Unambiguous(rule)
  {
    LowerWithout(rule.actors, NUL);
    LowerWithout(rule.requiredLabels, NUL);
    hide Lower, TagAt;
  }

  // ---------------------------------------------------------------------------------------------
  // Joining with NUL loses nothing when every part starts with a tag and holds no other boundary.

  ghost predicate Joinable(parts: seq<string>) {
    forall i :: 0 <= i < |parts| ==> TagAt(parts[i], 0) && Unsplit(parts[i])
  }

  /** What follows a part: nothing, or a boundary. */
  ghost predicate Follows(rest: string) {
    rest == "" || (rest[0] == NUL && TagAt(rest, 1))
  }

  /** A boundary that begins inside `q` lies wholly inside it, or its tag runs into what follows `q`. */
  lemma {:induction false} BoundaryInside(p: string, x: string, q: string, y: string)
    requires p + x == q + y && x != "" && Follows(x) && |p| < |q|
    ensures |p| + 7 <= |q| ==> q[|p|] == NUL && TagAt(q, |p| + 1)
    ensures |p| + 7 > |q| ==> y != "" && y[0] != NUL
  {
    var s := p + x;
    assert forall k :: 0 <= k < |x| ==> s[|p| + k] == x[k];
    if |p| + 7 <= |q| {
      assert q[|p| + 1..|p| + 7] == x[1..7];
    } else {
      var k := |q| - |p| - 1;
      assert y[0] == s[|q|] == x[1..7][k];
    }
  }

  lemma {:induction false} NotShorter(p: string, x: string, q: string, y: string)
    requires p + x == q + y && Unsplit(q) && Follows(x) && Follows(y)
    ensures |p| >= |q|
  {
    if |p| < |q| {
      assert |p + x| == |q + y|;
      BoundaryInside(p, x, q, y);
    }
  }

  lemma {:induction false} JoinShape(parts: seq<string>)
    requires Joinable(parts) && parts != []
    ensures TagAt(Join(parts, NUL), 0)
    ensures var rest := if |parts| == 1 then "" else [NUL] + Join(parts[1..], NUL);
            Join(parts, NUL) == parts[0] + rest && Follows(rest)
  {
    if |parts| >= 2 {
      JoinShape(parts[1..]);
      var tail := Join(parts[1..], NUL);
      assert ([NUL] + tail)[1..7] == tail[0..6];
    }
    var s := Join(parts, NUL);
    assert s[..6] == parts[0][..6];
    assert s[0..6] == s[..6] && parts[0][0..6] == parts[0][..6];
  }

  lemma {:induction false} JoinInjective(a: seq<string>, b: seq<string>)
    requires Joinable(a) && Joinable(b) && Join(a, NUL) == Join(b, NUL)
    ensures a == b
  {
    if a != [] && b != [] {
      JoinShape(a);
      JoinShape(b);
      hide TagAt, Unsplit;
      var x := if |a| == 1 then "" else [NUL] + Join(a[1..], NUL);
      var y := if |b| == 1 then "" else [NUL] + Join(b[1..], NUL);
      NotShorter(a[0], x, b[0], y);
      NotShorter(b[0], y, a[0], x);
      assert a[0] == (a[0] + x)[..|a[0]|] && b[0] == (b[0] + y)[..|b[0]|];
      assert x == (a[0] + x)[|a[0]|..] && y == (b[0] + y)[|b[0]|..];
      if |a| >= 2 && |b| >= 2 {
        assert x[1..] == Join(a[1..], NUL) && y[1..] == Join(b[1..], NUL);
        JoinInjective(a[1..], b[1..]);
        assert a == [a[0]] + a[1..] && b == [b[0]] + b[1..];
      } else {
        assert a == [a[0]] && b == [b[0]];
      }
    } else if a != [] {
      JoinShape(a);
    } else if b != [] {
      JoinShape(b);
    }
  }

  // ---------------------------------------------------------------------------------------------
  // Tagging keeps the three lists apart.

  lemma {:induction false} TaggedCount(tag: string, values: seq<string>, value: string)
    ensures multiset(Tagged(tag, values))[tag + value] == multiset(values)[value]
  {
    if values != [] {
      var n := |values| - 1;
      TaggedCount(tag, values[..n], value);
      assert values == values[..n] + [values[n]];
      assert Tagged(tag, values) == Tagged(tag, values[..n]) + [tag + values[n]];
      assert tag + values[n] == tag + value ==> values[n] == value by {
        assert (tag + values[n])[|tag|..] == values[n] && (tag + value)[|tag|..] == value;
      }
    }
  }

  lemma {:induction false} OtherTag(tag: string, other: string, values: seq<string>, value: string)
    requires |tag| == |other| && tag != other
    ensures multiset(Tagged(other, values))[tag + value] == 0
  {
    assert tag == (tag + value)[..|tag|];
    forall i | 0 <= i < |values| ensures Tagged(other, values)[i] != tag + value {
      assert other == (other + values[i])[..|other|];
    }
  }

  lemma {:induction false} PartsCount(rule: AuthorizationRule, value: string)
    ensures multiset(Parts(rule))["event:" + value] == multiset(rule.events)[value]
    ensures multiset(Parts(rule))["actor:" + value] == multiset(LowerAll(rule.actors))[value]
    ensures multiset(Parts(rule))["label:" + value] == multiset(LowerAll(rule.requiredLabels))[value]
  {
    hide Tagged;
    var events, actors, labels := rule.events, LowerAll(rule.actors), LowerAll(rule.requiredLabels);
    assert "event:"[0] == 'e' && "actor:"[0] == 'a' && "label:"[0] == 'l';
    TaggedCount("event:", events, value);
    TaggedCount("actor:", actors, value);
    TaggedCount("label:", labels, value);
    OtherTag("event:", "actor:", actors, value);
    OtherTag("event:", "label:", labels, value);
    OtherTag("actor:", "event:", events, value);
    OtherTag("actor:", "label:", labels, value);
    OtherTag("label:", "event:", events, value);
    OtherTag("label:", "actor:", actors, value);
  }

  lemma {:induction false} TaggedBag(tag: string, a: seq<string>, b: seq<string>)
    requires multiset(a) == multiset(b)
    ensures multiset(Tagged(tag, a)) == multiset(Tagged(tag, b))
  {
    forall part ensures multiset(Tagged(tag, a))[part] == multiset(Tagged(tag, b))[part] {
      if tag <= part {
        assert part == tag + part[|tag|..];
        TaggedCount(tag, a, part[|tag|..]);
        TaggedCount(tag, b, part[|tag|..]);
      } else {
        assert forall i :: 0 <= i < |a| ==> tag <= Tagged(tag, a)[i];
        assert forall i :: 0 <= i < |b| ==> tag <= Tagged(tag, b)[i];
      }
    }
  }

  lemma {:induction false} SameParts(a: AuthorizationRule, b: AuthorizationRule)
    ensures multiset(Parts(a)) == multiset(Parts(b)) <==> SameRule(a, b)
  {
    hide Tagged, Lower;
    if multiset(Parts(a)) == multiset(Parts(b)) {
      forall v
        ensures multiset(a.events)[v] == multiset(b.events)[v]
        ensures multiset(LowerAll(a.actors))[v] == multiset(LowerAll(b.actors))[v]
        ensures multiset(LowerAll(a.requiredLabels))[v] == multiset(LowerAll(b.requiredLabels))[v]
      {
        PartsCount(a, v);
        PartsCount(b, v);
      }
    }
    if SameRule(a, b) {
      TaggedBag("event:", a.events, b.events);
      TaggedBag("actor:", LowerAll(a.actors), LowerAll(b.actors));
      TaggedBag("label:", LowerAll(a.requiredLabels), LowerAll(b.requiredLabels));
    }
  }

  lemma {:induction false} LowerWithout(values: seq<string>, c: char)
    requires Without(values, c) && !('a' <= c <= 'z')
    ensures Without(LowerAll(values), c)
  {
    forall i, j | 0 <= i < |values| && 0 <= j < |values[i]| ensures Lower(values[i])[j] != c {
    }
  }

  lemma {:induction false} PartsJoinable(rule: AuthorizationRule)
    requires Unambiguous(rule)
    ensures Joinable(Parts(rule))
  {
    hide TagAt, Unsplit, Tagged, Lower;
    TaggedJoinable("event:", rule.events);
    TaggedJoinable("actor:", LowerAll(rule.actors));
    TaggedJoinable("label:", LowerAll(rule.requiredLabels));
  }

  lemma {:induction false} TaggedJoinable(tag: string, values: seq<string>)
    requires AllUnsplit(values) && (tag == "event:" || tag == "actor:" || tag == "label:")
    ensures Joinable(Tagged(tag, values))
  {
    forall i | 0 <= i < |values| ensures TagAt(tag + values[i], 0) && Unsplit(tag + values[i]) {
      TaggedUnsplit(tag, values[i]);
    }
    hide TagAt, Unsplit;
  }

  lemma {:induction false} TaggedUnsplit(tag: string, value: string)
    requires Unsplit(value) && (tag == "event:" || tag == "actor:" || tag == "label:")
    ensures TagAt(tag + value, 0) && Unsplit(tag + value)
  {
    var part := tag + value;
    assert part[0..6] == tag;
    forall i | 0 <= i < |part| && part[i] == NUL ensures !TagAt(part, i + 1) {
      assert i >= 6;
      assert value[i - 6] == NUL && !TagAt(value, i - 5);
      if i + 7 <= |part| {
        assert part[i + 1..i + 7] == value[i - 5..i + 1];
      }
    }
  }

  lemma {:induction false} SortedJoinable(parts: seq<string>)
    requires Joinable(parts)
    ensures Joinable(Sort(StringLeq, parts))
  {
    hide TagAt, Unsplit;
    SortPermutes(StringLeq, parts);
    var sorted := Sort(StringLeq, parts);
    forall i | 0 <= i < |sorted| ensures TagAt(sorted[i], 0) && Unsplit(sorted[i]) {
      assert sorted[i] in multiset(parts);
    }
  }

  lemma {:induction false} SortDecidesBag(a: seq<string>, b: seq<string>)
    ensures Sort(StringLeq, a) == Sort(StringLeq, b) <==> multiset(a) == multiset(b)
  {
    StringOrder();
    SortPermutes(StringLeq, a);
    SortPermutes(StringLeq, b);
    SortSorts(StringLeq, a);
    SortSorts(StringLeq, b);
    if multiset(a) == multiset(b) {
      SortedUnique(StringLeq, Sort(StringLeq, a), Sort(StringLeq, b));
    }
  }

  /** Equal rules always get equal strings; equal strings come only from equal rules, for values in which no NUL is
      followed by a tag, and so for values without NUL. */
  lemma {:induction false} CanonicalIsNormalForm(a: AuthorizationRule, b: AuthorizationRule)
    ensures SameRule(a, b) ==> CanonicalRule(a) == CanonicalRule(b)
    ensures Unambiguous(a) && Unambiguous(b) ==> (CanonicalRule(a) == CanonicalRule(b) <==> SameRule(a, b))
  {
    hide Unambiguous, Joinable, Parts, Join, Sort, SameRule;
    SameParts(a, b);
    SortDecidesBag(Parts(a), Parts(b));
    if Unambiguous(a) && Unambiguous(b) && CanonicalRule(a) == CanonicalRule(b) {
      PartsJoinable(a);
      PartsJoinable(b);
      SortedJoinable(Parts(a));
      SortedJoinable(Parts(b));
      JoinInjective(Sort(StringLeq, Parts(a)), Sort(StringLeq, Parts(b)));
    }
  }

  /** Rules with equal normal forms accept exactly the same jobs. */
  lemma {:induction false} EqualFormsMatchAlike(a: AuthorizationRule, b: AuthorizationRule, job: Jobs.ObservedJob)
    requires Unambiguous(a) && Unambiguous(b) && CanonicalRule(a) == CanonicalRule(b)
    ensures Policy.RuleMatches(a, job) == Policy.RuleMatches(b, job)
  {
    hide Unambiguous, SameRule, CanonicalRule, Policy.RuleMatches;
    CanonicalIsNormalForm(a, b);
    SameRuleMatchesAlike(a, b, job);
  }

  lemma {:induction false} SameRuleMatchesAlike(a: AuthorizationRule, b: AuthorizationRule, job: Jobs.ObservedJob)
    requires SameRule(a, b)
    ensures Policy.RuleMatches(a, job) == Policy.RuleMatches(b, job)
  {
    hide Lower;
    Policy.SameMembers(a.events, b.events);
    CompatibleUpToCase(a.requiredLabels, b.requiredLabels, job.labels);
    ActorsAlike(a.actors, b.actors, job.actor);
    ActorsAlike(a.actors, b.actors, job.triggeringActor);
    WildcardAlike(a.actors, b.actors);
  }

  lemma {:induction false} ActorsAlike(a: seq<string>, b: seq<string>, actor: string)
    requires SameLabelBag(a, b)
    ensures ContainsFold(a, actor) == ContainsFold(b, actor)
  {
    hide Lower;
    BagMembers(a, b);
    ContainsFoldMember(a, actor);
    ContainsFoldMember(b, actor);
  }

  lemma {:induction false} ContainsFoldMember(values: seq<string>, wanted: string)
    ensures ContainsFold(values, wanted) <==> Lower(wanted) in LowerAll(values)
  {
    hide Lower;
    if Lower(wanted) in LowerAll(values) {
      var i :| 0 <= i < |values| && LowerAll(values)[i] == Lower(wanted);
      assert EqualFold(values[i], wanted);
    }
    if i :| 0 <= i < |values| && EqualFold(values[i], wanted) {
      assert LowerAll(values)[i] == Lower(wanted);
    }
  }

  /** "*" is the only string that folds to "*". */
  lemma {:induction false} WildcardAlike(a: seq<string>, b: seq<string>)
    requires SameLabelBag(a, b)
    ensures (|a| == 1 && a[0] == "*") <==> (|b| == 1 && b[0] == "*")
  {
    BagMembers(a, b);
    if |a| == 1 {
      assert LowerAll(a)[0] in LowerAll(b) && LowerAll(b)[0] in LowerAll(a);
      assert Lower(a[0]) == Lower(b[0]);
      OnlyWildcard(a[0]);
      OnlyWildcard(b[0]);
    }
  }

  lemma {:induction false} OnlyWildcard(value: string)
    ensures Lower(value) == "*" <==> value == "*"
  {
    if Lower(value) == "*" {
      assert |value| == 1 && Lower(value)[0] == '*';
    }
  }

  function EventsRule(events: seq<string>): AuthorizationRule {
    AuthorizationRule(events, ["*"], ["x"])
  }

  lemma {:induction false} EventsRuleParts(events: seq<string>)
    ensures Parts(EventsRule(events)) == Tagged("event:", events) + ["actor:*", "label:x"]
  {
    assert Lower("*") == "*" && Lower("x") == "x";
    assert LowerAll(["*"]) == ["*"] && LowerAll(["x"]) == ["x"];
    assert "actor:" + "*" == "actor:*" && "label:" + "x" == "label:x";
    assert Tagged("actor:", ["*"]) == ["actor:*"] && Tagged("label:", ["x"]) == ["label:x"];
  }

  lemma {:induction false} TagOrder(event: string)
    ensures StringLeq("actor:*", "event:" + event) && StringLeq("event:" + event, "label:x")
    ensures StringLeq("actor:*", "label:x")
  {
  }

  lemma {:induction false} OneEventForm(event: string)
    ensures CanonicalRule(EventsRule([event])) == "actor:*" + [NUL] + (("event:" + event) + [NUL] + "label:x")
  {
    var first, second, third := "actor:*", "event:" + event, "label:x";
    assert Parts(EventsRule([event])) == [second, first, third] by {
      EventsRuleParts([event]);
      assert Tagged("event:", [event]) == [second];
    }
    TagOrder(event);
    hide Parts, EventsRule, StringLeq, Join, Sort;
    FormOfThree(first, second, third);
  }

  lemma {:induction false} FormOfThree(a: string, b: string, c: string)
    requires StringLeq(a, b) && StringLeq(b, c)
    ensures Join(Sort(StringLeq, [b, a, c]), NUL) == a + [NUL] + (b + [NUL] + c)
  {
    hide StringLeq, Join, Sort;
    var parts, sorted := [b, a, c], [a] + ([b] + [c]);
    assert parts == [b] + [a] + [c] && sorted == [a] + [b] + [c];
    Swap([b], [a], [c]);
    forall i | 0 <= i < |sorted| - 1 ensures StringLeq(sorted[i], sorted[i + 1]) {
      if i == 0 {} else {}
    }
    OrderedForm(parts, sorted);
    JoinCons(a, [b] + [c]);
    JoinCons(b, [c]);
  }

  lemma {:induction false} OrderedForm(parts: seq<string>, sorted: seq<string>)
    requires multiset(parts) == multiset(sorted)
    requires forall i :: 0 <= i < |sorted| - 1 ==> StringLeq(sorted[i], sorted[i + 1])
    ensures Sort(StringLeq, parts) == sorted
  {
    StringOrder();
    hide StringLeq;
    forall i, j | 0 <= i < j < |sorted| ensures StringLeq(sorted[i], sorted[j]) {
      Chain(sorted, i, j);
    }
    SortIs(parts, sorted);
  }

  lemma {:induction false} Chain(sorted: seq<string>, i: nat, j: nat)
    requires i < j < |sorted|
    requires forall k :: 0 <= k < |sorted| - 1 ==> StringLeq(sorted[k], sorted[k + 1])
    ensures StringLeq(sorted[i], sorted[j])
  {
    if i + 1 < j {
      Chain(sorted, i, j - 1);
      assert sorted[j - 1 + 1] == sorted[j];
      StringLeqTransitive(sorted[i], sorted[j - 1], sorted[j]);
    }
  }

  lemma {:induction false} JoinCons(first: string, rest: seq<string>)
    requires rest != []
    ensures Join([first] + rest, NUL) == first + [NUL] + Join(rest, NUL)
    ensures |rest| == 1 ==> Join(rest, NUL) == rest[0]
  {
  }

  lemma {:induction false} TwoEventForm(p: string, q: string)
    requires StringLeq(p, q)
    ensures CanonicalRule(EventsRule([p, q]))
         == "actor:*" + [NUL] + (("event:" + p) + [NUL] + (("event:" + q) + [NUL] + "label:x"))
  {
    EventsRuleParts([p, q]);
    TagOrder(p);
    TagOrder(q);
    PrefixOrder("event:", p, q);
    assert Tagged("event:", [p, q]) == ["event:" + p, "event:" + q];
    hide StringLeq, Tagged, Join, Sort;
    FormOfFour("actor:*", "event:" + p, "event:" + q, "label:x");
  }

  lemma {:induction false} Swap(x: seq<string>, y: seq<string>, z: seq<string>)
    ensures multiset(x + y + z) == multiset(y + x + z)
  {
  }

  lemma {:induction false} FormOfFour(a: string, b: string, c: string, d: string)
    requires StringLeq(a, b) && StringLeq(b, c) && StringLeq(c, d)
    ensures Join(Sort(StringLeq, [b, c] + [a, d]), NUL) == a + [NUL] + (b + [NUL] + (c + [NUL] + d))
  {
    hide StringLeq, Join, Sort;
    var parts, sorted := [b, c] + [a, d], [a] + ([b] + ([c] + [d]));
    assert parts == [b, c] + [a] + [d] && sorted == [a] + [b, c] + [d];
    Swap([b, c], [a], [d]);
    forall i | 0 <= i < |sorted| - 1 ensures StringLeq(sorted[i], sorted[i + 1]) {
      if i == 0 {} else if i == 1 {} else {}
    }
    OrderedForm(parts, sorted);
    JoinCons(a, [b] + ([c] + [d]));
    JoinCons(b, [c] + [d]);
    JoinCons(c, [d]);
  }

  /** The condition is needed, and validation does not impose it: two rules with valid event names, one
      of them with a NUL inside, differ and accept different events, yet share one string. */
  lemma {:induction false} NulCollision(p: string, q: string) returns (a: AuthorizationRule, b: AuthorizationRule)
    requires StringLeq(p, q) && p != q
    requires ValidPolicyValue(p, false) && ValidPolicyValue(q, false) && |p| + |q| <= 90
    ensures CanonicalRule(a) == CanonicalRule(b) && !SameRule(a, b)
    ensures |b.events| == 1 && ValidPolicyValue(b.events[0], false)
    ensures a == EventsRule([p, q]) && b == EventsRule(b.events) && p !in b.events
  {
    var glued := p + [NUL] + ("event:" + q);
    a, b := EventsRule([p, q]), EventsRule([glued]);
    hide StringLeq, CanonicalRule, ContainsAny;
    OneEventForm(glued);
    TwoEventForm(p, q);
    assert (("event:" + p) + [NUL] + (("event:" + q) + [NUL] + "label:x")) == (("event:" + glued) + [NUL] + "label:x");
    assert |glued| > |p|;
    assert multiset(a.events)[p] >= 1 by { assert a.events[0] == p; }
    assert multiset(b.events)[p] == 0;
    GluedIsValid(p, q);
  }

  lemma {:induction false} GluedIsValid(p: string, q: string)
    requires ValidPolicyValue(p, false) && ValidPolicyValue(q, false) && |p| + |q| <= 90
    ensures ValidPolicyValue(p + [NUL] + ("event:" + q), false)
  {
    var glued := p + [NUL] + ("event:" + q);
    var bad := " \t\r\n/\\?#";
    forall i | 0 <= i < |glued| ensures glued[i] !in bad {
      if i < |p| {
        assert p[i] !in bad;
      } else if i >= |p| + 7 {
        assert glued[i] == q[i - |p| - 7] && q[i - |p| - 7] !in bad;
      }
    }
  }

  lemma {:induction false} PrefixOrder(prefix: string, a: string, b: string)
    ensures StringLeq(prefix + a, prefix + b) == StringLeq(a, b)
  {
    if prefix == "" {
      assert prefix + a == a && prefix + b == b;
    } else {
      assert (prefix + a)[1..] == prefix[1..] + a && (prefix + b)[1..] == prefix[1..] + b;
      PrefixOrder(prefix[1..], a, b);
    }
  }

  lemma {:induction false} SortIs(parts: seq<string>, sorted: seq<string>)
    requires multiset(parts) == multiset(sorted) && Sorted(StringLeq, sorted)
    ensures Sort(StringLeq, parts) == sorted
  {
    StringOrder();
    SortPermutes(StringLeq, parts);
    SortSorts(StringLeq, parts);
    SortedUnique(StringLeq, Sort(StringLeq, parts), sorted);
  }
}
