/** Passes of the penalizer's timer (packages/relay/src/penalizer/PenalizerService.ts:122-128, :216-244). The timer
    starts a pass whether or not an earlier one is over, so any number of them interleave at their `await`s. */
module PenalizerPasses {
  import opened Outcomes
  import opened Penalizer

  /** The identity of a scheduled object. */
  type Id = nat

  /** Everything ever scheduled, the list, the ready blocks known, what each pass has still to go through, and what was
      attempted so far. */
  datatype State = State(
    known: seq<Id>, scheduled: seq<Id>, readyBlocks: map<Id, nat>, passes: map<nat, seq<Id>>, attempts: seq<Id>)

  datatype Event =
    | Arrive(p: Id)                       // a request pushes a delayed penalization
    | SetReady(p: Id, block: nat)         // the commitment was mined
    | Begin(pass: nat, block: nat)        // the current block is known: the ready ones are filtered
    | Take(pass: nat)                     // the next one is spliced out and its broadcast started
    | End(pass: nat)                      // the list is finished, or a broadcast failed

  const START := State([], [], map[], map[], [])

  predicate Enabled(s: State, e: Event)
  {
    match e
    case Arrive(p) => p !in s.known
    case SetReady(p, _) => p in s.known
    case Begin(pass, _) => pass !in s.passes
    case Take(pass) => pass in s.passes && s.passes[pass] != []
    case End(pass) => pass in s.passes
  }

  /** The ready ones, in order. */
  function Filtered(s: seq<Id>, readyBlocks: map<Id, nat>, block: nat): (r: seq<Id>)
  {
    if s == [] then []
    else
      var rest := Filtered(s[1..], readyBlocks, block);
      if s[0] in readyBlocks && readyBlocks[s[0]] <= block then [s[0]] + rest else rest
  }

  lemma {:induction false} FilteredIsPart(s: seq<Id>, readyBlocks: map<Id, nat>, block: nat)
    ensures var r := Filtered(s, readyBlocks, block);
            multiset(r) <= multiset(s) && forall p :: p in r <==> p in s && p in readyBlocks && readyBlocks[p] <= block
  {
    if s != [] {
      FilteredIsPart(s[1..], readyBlocks, block);
      assert s == [s[0]] + s[1..];
    }
  }

  /** They keep their order. */
  lemma {:induction false} FilteredInOrder(s: seq<Id>, p: Id, readyBlocks: map<Id, nat>, block: nat)
    ensures Filtered(s + [p], readyBlocks, block)
         == Filtered(s, readyBlocks, block) + if p in readyBlocks && readyBlocks[p] <= block then [p] else []
  {
    if s != [] {
      FilteredInOrder(s[1..], p, readyBlocks, block);
      assert (s + [p])[1..] == s[1..] + [p];
    }
  }

  function Step(s: State, e: Event): State
    requires Enabled(s, e)
  {
    match e
    case Arrive(p) => s.(known := s.known + [p], scheduled := s.scheduled + [p])
    case SetReady(p, block) => s.(readyBlocks := s.readyBlocks[p := block])
    case Begin(pass, block) => s.(passes := s.passes[pass := Filtered(s.scheduled, s.readyBlocks, block)])
    case Take(pass) =>
      var p := s.passes[pass][0];
      s.(scheduled := TakeOut(s.scheduled, p), passes := s.passes[pass := s.passes[pass][1..]],
          attempts := s.attempts + [p])
    case End(pass) => s.(passes := s.passes - {pass})
  }

  ghost predicate Run(s: State, events: seq<Event>, t: State)
    decreases |events|
  {
    if events == [] then s == t
    else Enabled(s, events[0]) && Run(Step(s, events[0]), events[1..], t)
  }

  /** The step takes out something that is no longer in the list. */
  predicate TakesGone(s: State, e: Event)
  {
    e.Take? && e.pass in s.passes && s.passes[e.pass] != [] && s.passes[e.pass][0] !in s.scheduled
  }

  ghost predicate NeverTakesGone(s: State, events: seq<Event>)
    decreases |events|
  {
    events == [] || (!TakesGone(s, events[0])
        && (Enabled(s, events[0]) ==> NeverTakesGone(Step(s, events[0]), events[1..])))
  }

  // ---------- nothing lost, nothing attempted twice ----------

  ghost predicate Inv(s: State)
  {
    && Once(multiset(s.known))
    && (forall p :: p in s.scheduled || p in s.attempts ==> p in s.known)
    && forall pass, p :: pass in s.passes && p in s.passes[pass] ==> p in s.known
  }

  /** Every penalization ever scheduled is either still in the list or was attempted, once. */
  ghost predicate Accounted(s: State)
  {
    multiset(s.scheduled) + multiset(s.attempts) == multiset(s.known)
  }

  lemma TakeOutIsPart(s: seq<Id>, x: Id)
    ensures forall p :: p in TakeOut(s, x) ==> p in s
  {
  }

  lemma StepKeepsInv(s: State, e: Event)
    requires Inv(s) && Enabled(s, e)
    ensures Inv(Step(s, e))
  {
    match e
    case Arrive(p) => OnceMore(multiset(s.known), p); assert multiset(s.known + [p]) == multiset(s.known) + multiset{p};
    case Take(pass) => TakeOutIsPart(s.scheduled, s.passes[pass][0]);
    case Begin(_, block) => FilteredIsPart(s.scheduled, s.readyBlocks, block);
    case _ =>
  }

  lemma CleanStepAccounts(s: State, e: Event)
    requires Inv(s) && Accounted(s) && Enabled(s, e) && !TakesGone(s, e)
    ensures Accounted(Step(s, e))
  {
    if e.Take? {
      OnceSmaller(multiset(s.scheduled), multiset(s.known));
      OnceHasNoDuplicates(s.scheduled);
      TakeOutRemoves(s.scheduled, s.passes[e.pass][0]);
    }
  }

  lemma GoneIsAttemptedTwice(s: State, e: Event)
    requires Inv(s) && Accounted(s) && Enabled(s, e) && TakesGone(s, e)
    ensures multiset(Step(s, e).attempts)[s.passes[e.pass][0]] == 2 && s.passes[e.pass][0] in s.known
  {
    var p := s.passes[e.pass][0];
    assert p in s.passes[e.pass];
    assert p in s.known;
    assert p in multiset(s.known);
    assert multiset(s.known)[p] == 1 && multiset(s.scheduled)[p] == 0;
  }

  lemma {:induction false} AttemptsStay(s: State, events: seq<Event>, t: State)
    requires Run(s, events, t)
    ensures multiset(s.attempts) <= multiset(t.attempts) && multiset(s.known) <= multiset(t.known)
    decreases |events|
  {
    if events != [] { AttemptsStay(Step(s, events[0]), events[1..], t); }
  }

  /** Nothing was attempted twice, and what was not attempted is still scheduled. */
  ghost predicate NoHarm(s: State)
  {
    forall p :: p in s.known ==> multiset(s.attempts)[p] <= 1 && (p in s.scheduled || p in s.attempts)
  }

  lemma AccountedMeansNoHarm(s: State)
    requires Inv(s) && Accounted(s)
    ensures NoHarm(s)
  {
    forall p | p in s.known ensures multiset(s.attempts)[p] <= 1 && (p in s.scheduled || p in s.attempts) {
      assert (multiset(s.scheduled) + multiset(s.attempts))[p] == multiset(s.known)[p] == 1;
    }
  }

  lemma {:induction false} RunIsHarmlessIff(s: State, events: seq<Event>, t: State)
    requires Inv(s) && Accounted(s) && Run(s, events, t)
    ensures NoHarm(t) <==> NeverTakesGone(s, events)
    ensures NeverTakesGone(s, events) ==> Accounted(t)
    decreases |events|
  {
    if events == [] {
      AccountedMeansNoHarm(t);
    } else if TakesGone(s, events[0]) {
      GoneIsAttemptedTwice(s, events[0]);
      AttemptsStay(Step(s, events[0]), events[1..], t);
      assert s.passes[events[0].pass][0] in multiset(t.known);
    } else {
      StepKeepsInv(s, events[0]);
      CleanStepAccounts(s, events[0]);
      RunIsHarmlessIff(Step(s, events[0]), events[1..], t);
    }
  }

  /** However passes interleave: something is lost or attempted twice exactly when some pass goes on to a penalization
      that is no longer scheduled. Otherwise the list and the attempts are together exactly what was scheduled. */
  lemma HarmlessIff(events: seq<Event>, t: State)
    requires Run(START, events, t)
    ensures NoHarm(t) <==> NeverTakesGone(START, events)
    ensures NeverTakesGone(START, events) ==> Accounted(t)
  {
    RunIsHarmlessIff(START, events, t);
  }

  // ---------- it takes two passes with the same penalization ahead of them ----------

  /** No penalization is ahead of two passes. */
  ghost predicate Apart(s: State)
  {
    forall a, b, p :: a in s.passes && b in s.passes && p in s.passes[a] && p in s.passes[b] ==> a == b
  }

  ghost predicate ApartThroughout(s: State, events: seq<Event>)
    decreases |events|
  {
    Apart(s) && (events == [] || (Enabled(s, events[0]) ==> ApartThroughout(Step(s, events[0]), events[1..])))
  }

  /** What is ahead of a pass is in the list, and ahead of it once. */
  ghost predicate AheadIsScheduled(s: State)
  {
    forall pass :: pass in s.passes ==> NoDuplicates(s.passes[pass]) && forall p :: p in s.passes[pass] ==>
        p in s.scheduled
  }

  lemma FilteredOnce(s: State, block: nat)
    requires Inv(s) && Accounted(s)
    ensures NoDuplicates(Filtered(s.scheduled, s.readyBlocks, block))
  {
    var ready := Filtered(s.scheduled, s.readyBlocks, block);
    FilteredIsPart(s.scheduled, s.readyBlocks, block);
    OnceSmaller(multiset(ready), multiset(s.known));
    OnceHasNoDuplicates(ready);
  }

  lemma TakeKeepsAhead(s: State, pass: nat)
    requires Inv(s) && Accounted(s) && Apart(s) && AheadIsScheduled(s) && Enabled(s, Take(pass))
    ensures AheadIsScheduled(Step(s, Take(pass)))
  {
    var p := s.passes[pass][0];
    OnceSmaller(multiset(s.scheduled), multiset(s.known));
    OnceHasNoDuplicates(s.scheduled);
    TakeOutRemoves(s.scheduled, p);
    var s' := Step(s, Take(pass));
    forall other | other in s'.passes
      ensures NoDuplicates(s'.passes[other]) && forall x :: x in s'.passes[other] ==> x in s'.scheduled
    {
      if other == pass {
        forall x | x in s.passes[pass][1..] ensures x != p && x in s.passes[pass] { }
      } else {
        assert p !in s.passes[other];
      }
    }
  }

  lemma {:induction false} ApartIsClean(s: State, events: seq<Event>, t: State)
    requires Inv(s) && Accounted(s) && AheadIsScheduled(s) && Run(s, events, t) && ApartThroughout(s, events)
    ensures NeverTakesGone(s, events)
    decreases |events|
  {
    if events != [] {
      var e := events[0];
      assert !TakesGone(s, e);
      StepKeepsInv(s, e);
      CleanStepAccounts(s, e);
      if e.Take? { TakeKeepsAhead(s, e.pass); }
      if e.Begin? { FilteredOnce(s, e.block); FilteredIsPart(s.scheduled, s.readyBlocks, e.block); }
      ApartIsClean(Step(s, e), events[1..], t);
    }
  }

  /** While no penalization is ahead of two passes at once, nothing is lost or attempted twice. */
  lemma ApartIsHarmless(events: seq<Event>, t: State)
    requires Run(START, events, t) && ApartThroughout(START, events)
    ensures NoHarm(t) && Accounted(t)
  {
    ApartIsClean(START, events, t);
    HarmlessIff(events, t);
  }

  /** Each pass begins when no other is under way. */
  ghost predicate OneAtATime(s: State, events: seq<Event>)
    decreases |events|
  {
    events == [] || ((events[0].Begin? ==> s.passes == map[])
                     && (Enabled(s, events[0]) ==> OneAtATime(Step(s, events[0]), events[1..])))
  }

  lemma {:induction false} OneAtATimeIsApart(s: State, events: seq<Event>, t: State)
    requires Run(s, events, t) && OneAtATime(s, events) && forall a, b :: a in s.passes && b in s.passes ==> a == b
    ensures ApartThroughout(s, events)
    decreases |events|
  {
    if events != [] { OneAtATimeIsApart(Step(s, events[0]), events[1..], t); }
  }

  /** So it is with a timer that waits for the pass before. */
  lemma OneAtATimeIsHarmless(events: seq<Event>, t: State)
    requires Run(START, events, t) && OneAtATime(START, events)
    ensures NoHarm(t) && Accounted(t)
  {
    OneAtATimeIsApart(START, events, t);
    ApartIsHarmless(events, t);
  }

  // ---------- two passes that overlap ----------

  lemma {:induction false} Append(s: State, events: seq<Event>, t: State, e: Event)
    requires Run(s, events, t) && Enabled(t, e)
    ensures Run(s, events + [e], Step(t, e))
    decreases |events|
  {
    if events == [] {
      assert [e][1..] == [];
    } else {
      Append(Step(s, events[0]), events[1..], t, e);
      assert (events + [e])[1..] == events[1..] + [e];
    }
  }

  /** A pass under way can always be finished: it attempts what it has ahead, in order, and ends. */
  lemma {:induction false} PassCanFinish(s: State, pass: nat) returns (events: seq<Event>, t: State)
    requires pass in s.passes
    ensures Run(s, events, t) && t.passes == s.passes - {pass} && t.attempts == s.attempts + s.passes[pass]
    ensures t.known == s.known && t.readyBlocks == s.readyBlocks
    decreases |s.passes[pass]|
  {
    if s.passes[pass] == [] {
      events, t := [End(pass)], Step(s, End(pass));
      assert [End(pass)][1..] == [];
    } else {
      var s1 := Step(s, Take(pass));
      var rest;
      rest, t := PassCanFinish(s1, pass);
      events := [Take(pass)] + rest;
      assert events[1..] == rest && s1.passes - {pass} == s.passes - {pass};
      assert s.attempts + s.passes[pass] == s1.attempts + s1.passes[pass];
    }
  }

  /** Some run ends in this state. */
  ghost predicate Reachable(t: State)
  {
    exists events :: Run(START, events, t)
  }

  lemma Reach(s: State, e: Event, t: State)
    requires Reachable(s) && Enabled(s, e) && t == Step(s, e)
    ensures Reachable(t)
  {
    var events :| Run(START, events, s);
    Append(START, events, s, e);
  }

  /** Three penalizations are scheduled, the first two ready at once. */
  lemma ScheduleThree(p: Id, q: Id, r: Id, block: nat)
    requires p != q && q != r && p != r
    ensures Reachable(State([p, q, r], [p, q, r], map[p := block, q := block], map[], []))
  {
    var s1, s2 := State([p], [p], map[], map[], []), State([p, q], [p, q], map[], map[], []);
    var s3 := State([p, q, r], [p, q, r], map[], map[], []);
    var s4 := s3.(readyBlocks := map[p := block]);
    assert Run(START, [], START);
    Reach(START, Arrive(p), s1);
    Reach(s1, Arrive(q), s2);
    Reach(s2, Arrive(r), s3);
    Reach(s3, SetReady(p, block), s4);
    Reach(s4, SetReady(q, block), s4.(readyBlocks := map[p := block, q := block]));
  }

  lemma ReachBegun(s: State, pass: nat, block: nat, ready: seq<Id>, t: State)
    requires Reachable(s) && pass !in s.passes && Filtered(s.scheduled, s.readyBlocks, block) == ready
    requires t == s.(passes := s.passes[pass := ready])
    ensures Reachable(t)
  {
    Reach(s, Begin(pass, block), t);
  }

  lemma ReachTaken(s: State, pass: nat, p: Id, todo: seq<Id>, rest: seq<Id>, t: State)
    requires Reachable(s) && pass in s.passes && s.passes[pass] == [p] + todo && TakeOut(s.scheduled, p) == rest
    requires t == s.(scheduled := rest, passes := s.passes[pass := todo], attempts := s.attempts + [p])
    ensures Reachable(t)
  {
    assert s.passes[pass][1..] == todo;
    Reach(s, Take(pass), t);
  }

  lemma FilterOne(s: seq<Id>, readyBlocks: map<Id, nat>, block: nat, first: Id, rest: seq<Id>, filtered: seq<Id>)
    requires s == [first] + rest && filtered == Filtered(rest, readyBlocks, block)
    ensures Filtered(s, readyBlocks, block)
         == (if first in readyBlocks && readyBlocks[first] <= block then [first] else []) + filtered
  {
    assert s[1..] == rest;
  }

  lemma FilterThree(p: Id, q: Id, r: Id, readyBlocks: map<Id, nat>, block: nat)
    requires p != q && q != r && p != r && readyBlocks == map[p := block, q := block]
    ensures Filtered([p, q, r], readyBlocks, block) == [p, q] && Filtered([q, r], readyBlocks, block) == [q]
  {
    FilterOne([r], readyBlocks, block, r, [], []);
    FilterOne([q, r], readyBlocks, block, q, [r], []);
    FilterOne([p, q, r], readyBlocks, block, p, [q, r], [q]);
  }

  lemma TakeOutFirst(x: Id, rest: seq<Id>)
    ensures TakeOut([x] + rest, x) == rest
  {
    assert ([x] + rest)[1..] == rest;
  }

  /** The first pass has both ready ones ahead and takes the first. */
  lemma FirstPass(p: Id, q: Id, r: Id, readyBlocks: map<Id, nat>, block: nat)
    requires p != q && q != r && p != r && readyBlocks == map[p := block, q := block]
    requires Reachable(State([p, q, r], [p, q, r], readyBlocks, map[], []))
    ensures Reachable(State([p, q, r], [q, r], readyBlocks, map[0 := [q]], [p]))
  {
    var s := State([p, q, r], [p, q, r], readyBlocks, map[], []);
    var begun := s.(passes := map[0 := [p, q]]);
    FilterThree(p, q, r, readyBlocks, block);
    ReachBegun(s, 0, block, [p, q], begun);
    TakeOutFirst(p, [q, r]);
    assert [p] + [q, r] == [p, q, r];
    ReachTaken(begun, 0, p, [q], [q, r], State([p, q, r], [q, r], readyBlocks, map[0 := [q]], [p]));
  }

  /** During its broadcast a second pass begins and takes the other one. */
  lemma SecondPass(p: Id, q: Id, r: Id, readyBlocks: map<Id, nat>, block: nat)
    requires p != q && q != r && p != r && readyBlocks == map[p := block, q := block]
    requires Reachable(State([p, q, r], [q, r], readyBlocks, map[0 := [q]], [p]))
    ensures Reachable(State([p, q, r], [r], readyBlocks, map[0 := [q], 1 := []], [p, q]))
  {
    var s := State([p, q, r], [q, r], readyBlocks, map[0 := [q]], [p]);
    var begun := s.(passes := map[0 := [q], 1 := [q]]);
    FilterThree(p, q, r, readyBlocks, block);
    ReachBegun(s, 1, block, [q], begun);
    TakeOutFirst(q, [r]);
    assert [q] + [r] == [q, r];
    ReachTaken(begun, 1, q, [], [r], State([p, q, r], [r], readyBlocks, map[0 := [q], 1 := []], [p, q]));
  }

  /** The first pass goes on: it attempts the second one again and drops the third, which nobody attempted. */
  lemma OverlappingPassesLoseOne(p: Id, q: Id, r: Id, block: nat) returns (events: seq<Event>, t: State)
    requires p != q && q != r && p != r
    ensures Run(START, events, t) && t.known == [p, q, r] && t.attempts == [p, q, q] && t.scheduled == []
  {
    var readyBlocks := map[p := block, q := block];
    ScheduleThree(p, q, r, block);
    FirstPass(p, q, r, readyBlocks, block);
    SecondPass(p, q, r, readyBlocks, block);
    TakeOutOfNothing([r], q);
    t := State([p, q, r], [], readyBlocks, map[0 := [], 1 := []], [p, q, q]);
    ReachTaken(State([p, q, r], [r], readyBlocks, map[0 := [q], 1 := []], [p, q]), 0, q, [], [], t);
    events :| Run(START, events, t);
  }
}
