/** The admission check at the head of Manager.Run (internal/runner/manager.go): adding to one counter and
    loading another are separate atomic steps, and a refused caller raises the counter until it backs out. */
module Admission {
  import opened Collections

  /** A caller that has added itself: the sum it got back and, as history, the order of its addition. */
  datatype Caller = Caller(stage: Stage, sum: int, ticket: nat)

  datatype Stage = Added | Admitted | Refused

  /** `local` and `recovered` are the two counters; `clock` numbers the additions. */
  datatype State = State(local: int, recovered: nat, callers: map<string, Caller>, clock: nat)

  datatype Step =
    | Add(caller: string)
    | Load(caller: string)
    | BackOut(caller: string)
    | Return(caller: string)
    | Store(recovered: nat)

  function Initial(): State {
    State(0, 0, map[], 0)
  }

  predicate Next(capacity: int, s: State, step: Step, s': State) {
    match step
    case Add(c) =>
      && c !in s.callers
      && s' == s.(local := s.local + 1, callers := s.callers[c := Caller(Added, s.local + 1, s.clock)],
        clock := s.clock + 1)
    case Load(c) =>
      && c in s.callers && s.callers[c].stage == Added
      && var stage := if s.callers[c].sum + s.recovered > capacity then Refused else Admitted;
         s' == s.(callers := s.callers[c := s.callers[c].(stage := stage)])
    case BackOut(c) =>
      && c in s.callers && s.callers[c].stage == Refused
      && s' == s.(local := s.local - 1, callers := s.callers - {c})
    case Return(c) =>
      && c in s.callers && s.callers[c].stage == Admitted
      && s' == s.(local := s.local - 1, callers := s.callers - {c})
    case Store(r) => s' == s.(recovered := r)
  }

  /** The callers that added themselves no later than `c` and are still counted. */
  ghost function UpTo(s: State, c: string): set<string>
    requires c in s.callers
  {
    set d | d in s.callers && s.callers[d].ticket <= s.callers[c].ticket
  }

  ghost function AdmittedCallers(s: State): set<string> {
    set c | c in s.callers && s.callers[c].stage == Admitted
  }

  /** The counter counts the callers, additions have distinct tickets, and the sum a caller got back covers
      everyone who added no later and is still counted. */
  ghost predicate Inv(capacity: int, s: State) {
    && s.local == |s.callers|
    && (forall c :: c in s.callers ==> s.callers[c].ticket < s.clock)
    && (forall c, d :: c in s.callers && d in s.callers && s.callers[c].ticket == s.callers[d].ticket ==> c == d)
    && (forall c :: c in s.callers ==> |UpTo(s, c)| <= s.callers[c].sum)
    && (forall c :: c in s.callers && s.callers[c].stage == Admitted ==> s.callers[c].sum <= capacity)
  }

  lemma {:induction false} UpToShrinks(capacity: int, s: State, step: Step, s': State, c: string)
    requires Inv(capacity, s) && Next(capacity, s, step, s') && c in s.callers && c in s'.callers
    ensures UpTo(s', c) <= UpTo(s, c)
  {
  }

  lemma {:induction false} CoveredAfter(capacity: int, s: State, step: Step, s': State, c: string)
    requires Inv(capacity, s) && Next(capacity, s, step, s') && c in s'.callers
    ensures |UpTo(s', c)| <= s'.callers[c].sum
  {
    if c in s.callers {
      UpToShrinks(capacity, s, step, s', c);
      SubsetSize(UpTo(s', c), UpTo(s, c));
      hide UpTo;
    } else {
      assert s'.callers.Keys == s.callers.Keys + {c};
      SubsetSize(UpTo(s', c), s'.callers.Keys);
      hide UpTo;
    }
  }

  lemma {:induction false} CountedAfter(capacity: int, s: State, step: Step, s': State)
    requires s.local == |s.callers| && Next(capacity, s, step, s')
    ensures s'.local == |s'.callers|
  {
    match step {
      case Add(c) => assert s'.callers.Keys == s.callers.Keys + {c};
      case BackOut(c) => assert s'.callers.Keys == s.callers.Keys - {c};
      case Return(c) => assert s'.callers.Keys == s.callers.Keys - {c};
      case Load(c) => assert s'.callers.Keys == s.callers.Keys;
      case Store(_) =>
    }
  }

  lemma {:induction false} StepKeeps(capacity: int, s: State, step: Step, s': State)
    requires Inv(capacity, s) && Next(capacity, s, step, s')
    ensures Inv(capacity, s')
  {
    CountedAfter(capacity, s, step, s');
    forall c | c in s'.callers ensures |UpTo(s', c)| <= s'.callers[c].sum {
      CoveredAfter(capacity, s, step, s', c);
    }
    hide UpTo;
  }

  /** The member of a non-empty set of callers that added itself last. */
  lemma {:induction false} LastTicket(s: State, group: set<string>) returns (last: string)
    requires group != {} && group <= s.callers.Keys
    ensures last in group && forall c :: c in group ==> s.callers[c].ticket <= s.callers[last].ticket
  {
    assert |group| > 0;
    var c :| c in group;
    if group == {c} {
      last := c;
    } else {
      var other := LastTicket(s, group - {c});
      last := if s.callers[c].ticket <= s.callers[other].ticket then other else c;
    }
  }

  /** Safety of one state: the last admitted caller counted everyone else who is past the check. */
  lemma {:induction false} AdmittedFit(capacity: int, s: State)
    requires Inv(capacity, s) && capacity >= 0
    ensures |AdmittedCallers(s)| <= capacity
  {
    var group := AdmittedCallers(s);
    if group != {} {
      var last := LastTicket(s, group);
      assert group <= UpTo(s, last);
      SubsetSize(group, UpTo(s, last));
    }
  }

  ghost predicate Behaviour(capacity: int, states: seq<State>, steps: seq<Step>) {
    && |states| == |steps| + 1 && states[0] == Initial()
    && forall i :: 0 <= i < |steps| ==> Next(capacity, states[i], steps[i], states[i + 1])
  }

  lemma {:induction false} BehaviourInv(capacity: int, states: seq<State>, steps: seq<Step>, n: nat)
    requires Behaviour(capacity, states, steps) && n < |states|
    ensures Inv(capacity, states[n])
  {
    hide Inv, Next;
    if n == 0 {
      InitialInv(capacity);
    } else {
      BehaviourInv(capacity, states, steps, n - 1);
      assert Next(capacity, states[n - 1], steps[n - 1], states[n - 1 + 1]);
      StepKeeps(capacity, states[n - 1], steps[n - 1], states[n]);
    }
  }

  lemma {:induction false} InitialInv(capacity: int)
    ensures Inv(capacity, Initial())
  {
  }

  /** Main result: in every interleaving of any number of callers, whatever the reconciler stores, at most
      `capacity` of them are past the check, and the counter is never below their number. */
  lemma {:induction false} AdmissionIsSafe(capacity: int, states: seq<State>, steps: seq<Step>, n: nat)
    requires Behaviour(capacity, states, steps) && n < |states| && capacity >= 0
    ensures |AdmittedCallers(states[n])| <= capacity
    ensures |AdmittedCallers(states[n])| <= states[n].local
  {
    hide Next;
    BehaviourInv(capacity, states, steps, n);
    AdmittedFit(capacity, states[n]);
    SubsetSize(AdmittedCallers(states[n]), states[n].callers.Keys);
  }

  /** Between its addition and its load a caller stays undecided, with the sum it got back. */
  lemma {:induction false} UndecidedSince(capacity: int, states: seq<State>, steps: seq<Step>, n: nat, c: string)
    returns (i: nat)
    requires Behaviour(capacity, states, steps) && n < |states|
    requires c in states[n].callers && states[n].callers[c].stage == Added
    ensures i < n && steps[i] == Add(c) && (forall k :: i < k < n ==> steps[k] != Add(c) && steps[k] != Load(c))
    ensures states[n].callers[c].sum == |states[i].callers| + 1
  {
    hide Inv;
    var k := n - 1;
    assert n > 0;
    assert Next(capacity, states[k], steps[k], states[k + 1]);
    if steps[k] == Add(c) {
      i := k;
      BehaviourInv(capacity, states, steps, k);
      CountedNow(capacity, states[k]);
    } else {
      i := UndecidedSince(capacity, states, steps, k, c);
    }
  }

  lemma {:induction false} CountedNow(capacity: int, s: State)
    requires Inv(capacity, s)
    ensures s.local == |s.callers|
  {
  }

  /** When exactly a caller is refused: when those counted at the moment it added itself, itself, and the
      recovered ones at the moment it loads exceed the capacity.  `i` is the moment it added itself. */
  lemma {:induction false} RefusedExactlyWhen(capacity: int, states: seq<State>, steps: seq<Step>, n: nat, c: string)
    returns (i: nat)
    requires Behaviour(capacity, states, steps) && n < |steps| && steps[n] == Load(c)
    ensures i < n && steps[i] == Add(c) && (forall k :: i < k < n ==> steps[k] != Add(c) && steps[k] != Load(c))
    ensures c in states[n + 1].callers
    ensures states[n + 1].callers[c].stage == Refused <==> |states[i].callers| + 1 + states[n].recovered > capacity
    ensures states[n + 1].callers[c].stage == Admitted <==> |states[i].callers| + 1 + states[n].recovered <= capacity
  {
    assert Next(capacity, states[n], steps[n], states[n + 1]);
    i := UndecidedSince(capacity, states, steps, n, c);
  }

  /** Callers counted at a moment but not past the check: undecided or about to back out. */
  ghost function InTransit(s: State): set<string> {
    set c | c in s.callers && s.callers[c].stage != Admitted
  }

  /** So a refusal is spurious, the admitted and the recovered having left room, only on account of callers in
      transit when the refused one added itself; with none in transit it is refused exactly when they had not. */
  lemma {:induction false} SpuriousRefusalNeedsTransit(capacity: int, states: seq<State>, steps: seq<Step>, n: nat,
                                                       c: string)
    returns (i: nat)
    requires Behaviour(capacity, states, steps) && n < |steps| && steps[n] == Load(c)
    ensures i < n && steps[i] == Add(c) && c in states[n + 1].callers
    ensures var room := |AdmittedCallers(states[i])| + states[n].recovered < capacity;
            var refused := states[n + 1].callers[c].stage == Refused;
            && (!room ==> refused)
            && (refused && room ==> InTransit(states[i]) != {})
            && (InTransit(states[i]) == {} ==> (refused <==> !room))
            && (refused <==> |AdmittedCallers(states[i])| + |InTransit(states[i])| + states[n].recovered >= capacity)
  {
    i := RefusedExactlyWhen(capacity, states, steps, n, c);
    var s := states[i];
    assert s.callers.Keys == AdmittedCallers(s) + InTransit(s);
    hide Behaviour;
  }

  /** Such refusals do occur: a refused caller that has not backed out yet makes the next one be refused although
      nothing runs and nothing is left over. */
  lemma {:induction false} RefusalCanBeSpurious() returns (states: seq<State>, steps: seq<Step>)
    ensures Behaviour(1, states, steps)
    ensures var last := states[|states| - 1];
            last.recovered == 0 && AdmittedCallers(last) == {} && "b" in last.callers &&
              last.callers["b"].stage == Refused
  {
    var s1 := Initial().(recovered := 1);
    var s2 := s1.(local := 1, callers := map["a" := Caller(Added, 1, 0)], clock := 1);
    var s3 := s2.(callers := map["a" := Caller(Refused, 1, 0)]);
    var s4 := s3.(recovered := 0);
    var s5 := s4.(local := 2, callers := s4.callers["b" := Caller(Added, 2, 1)], clock := 2);
    var s6 := s5.(callers := s5.callers["b" := Caller(Refused, 2, 1)]);
    states := [Initial(), s1, s2, s3, s4, s5, s6];
    steps := [Store(1), Add("a"), Load("a"), Store(0), Add("b"), Load("b")];
  }
}
