/** waitForSuccess (packages/common/src/Utils.ts:439-484): the callbacks of n promises and one timer, in any order.
    A result is identified with the index of the promise it came from. */
module Race {
  import opened Outcomes

  /** A URL, used as the key of a promise. */
  datatype Key = Url(id: nat)

  /** How a promise settles, if it ever does. */
  datatype Promise = Fulfils | Rejects(reason: nat)

  datatype WaitForSuccessResults = WaitForSuccessResults(winner: Option<nat>, results: seq<nat>, errors: map<Key, nat>)

  datatype Timer = Idle | Running | Fired

  datatype State = State(settled: set<nat>, finished: set<nat>, ret: WaitForSuccessResults, timer: Timer,
    resolved: bool)

  /** The callbacks: `then` or `catch` of a promise, its `finally`, and the grace timer.
      `pick` is the random index into the results, drawn when the callback calls `complete`. */
  datatype Event = Settle(i: nat) | Finally(i: nat, pick: nat) | Timeout(pick: nat)

  const START := State({}, {}, WaitForSuccessResults(None, [], map[]), Idle, false)

  function Indices(n: nat): (r: set<nat>)
    ensures |r| == n && forall i: nat :: i in r <==> i < n
  {
    if n == 0 then {} else Indices(n - 1) + {n - 1}
  }

  predicate Distinct(keys: seq<Key>)
  {
    forall i, j :: 0 <= i < j < |keys| ==> keys[i] != keys[j]
  }

  function IndexOf(keys: seq<Key>, k: Key): (i: nat)
    requires k in keys
    ensures i < |keys| && keys[i] == k && k !in keys[..i]
  {
    if keys[0] == k then 0 else 1 + IndexOf(keys[1..], k)
  }

  datatype KeyError = InvalidErrorKeysLength | DuplicateKeys

  /** The checks made before any promise is awaited. */
  method CheckErrorKeys(n: nat, errorKeys: seq<Key>) returns (r: Option<KeyError>)
    ensures r == Some(InvalidErrorKeysLength) <==> |errorKeys| != n
    ensures r.None? <==> |errorKeys| == n && Distinct(errorKeys)
  {
    if n != |errorKeys| { return Some(InvalidErrorKeysLength); }
    for i := 0 to |errorKeys|
      invariant Distinct(errorKeys[..i])
    {
      var indexOfKey := IndexOf(errorKeys, errorKeys[i]);
      if indexOfKey != i {
        assert errorKeys[indexOfKey] == errorKeys[i];
        return Some(DuplicateKeys);
      }
    }
    assert errorKeys[..|errorKeys|] == errorKeys;
    return None;
  }

  // ---------- the callbacks as functions on the state ----------

  predicate Enabled(s: State, promises: seq<Promise>, e: Event)
  {
    match e
    case Settle(i) => i < |promises| && i !in s.settled
    case Finally(i, pick) => i in s.settled && i !in s.finished && ValidPick(s, pick)
    case Timeout(pick) => s.timer == Running && ValidPick(s, pick)
  }

  predicate ValidPick(s: State, pick: nat)
  {
    s.ret.results != [] ==> pick < |s.ret.results|
  }

  /** The winner is drawn anew on every call; only the first call resolves. */
  function Complete(s: State, pick: nat): State
    requires ValidPick(s, pick)
  {
    var ret := if s.ret.results != [] then s.ret.(winner := Some(s.ret.results[pick])) else s.ret;
    s.(ret := ret, resolved := true)
  }

  function OnThen(s: State, i: nat): State
  {
    var results := s.ret.results + [i];
    s.(settled := s.settled + {i}, ret := s.ret.(results := results),
        timer := if |results| == 1 then Running else s.timer)
  }

  function OnCatch(s: State, i: nat, key: Key, reason: nat): State
  {
    s.(settled := s.settled + {i}, ret := s.ret.(errors := s.ret.errors[key := reason]))
  }

  function OnFinally(s: State, n: nat, i: nat, pick: nat): State
    requires ValidPick(s, pick)
  {
    var s' := s.(finished := s.finished + {i});
    if |s'.ret.results| + |s'.ret.errors| == n then Complete(s', pick) else s'
  }

  function Step(s: State, promises: seq<Promise>, keys: seq<Key>, e: Event): State
    requires |keys| == |promises| && Enabled(s, promises, e)
  {
    match e
    case Settle(i) => if promises[i].Fulfils? then OnThen(s, i) else OnCatch(s, i, keys[i], promises[i].reason)
    case Finally(i, pick) => OnFinally(s, |promises|, i, pick)
    case Timeout(pick) => Complete(s.(timer := Fired), pick)
  }

  /** States reached by any order of callbacks. */
  ghost predicate Run(s: State, promises: seq<Promise>, keys: seq<Key>, events: seq<Event>, s': State)
    requires |keys| == |promises|
    decreases |events|
  {
    if events == [] then s == s'
    else Enabled(s, promises, events[0]) && Run(Step(s, promises, keys, events[0]), promises, keys, events[1..], s')
  }

  // ---------- what holds after every callback ----------

  ghost predicate ResultsInv(s: State, promises: seq<Promise>, keys: seq<Key>)
    requires |keys| == |promises|
  {
    && (forall j :: 0 <= j < |s.ret.results| ==>
        s.ret.results[j] in s.settled && s.ret.results[j] < |promises| && promises[s.ret.results[j]].Fulfils?)
    && (forall i, j :: 0 <= i < j < |s.ret.results| ==> s.ret.results[i] != s.ret.results[j])
    && (forall i :: 0 <= i < |promises| ==> (keys[i] in s.ret.errors <==> i in s.settled && promises[i].Rejects?))
    && (forall k :: k in s.ret.errors ==> k in keys)
    && |s.ret.results| + |s.ret.errors| == |s.settled|
  }

  ghost predicate Inv(s: State, promises: seq<Promise>, keys: seq<Key>)
    requires |keys| == |promises|
  {
    && s.finished <= s.settled <= Indices(|promises|)
    && ResultsInv(s, promises, keys)
    && (s.ret.winner.Some? ==> s.resolved && s.ret.winner.value in s.ret.results)
    && (s.resolved && s.ret.winner.None? ==> s.ret.results == [] && s.settled == Indices(|promises|))
    && (s.timer.Idle? <==> s.ret.results == [])
    && (s.timer.Fired? ==> s.resolved)
    && (s.resolved ==> s.timer.Fired? || s.settled == Indices(|promises|))
    && (s.settled == s.finished == Indices(|promises|) && promises != [] ==> s.resolved)
  }

  lemma {:induction false} SubsetCount(a: set<nat>, b: set<nat>)
    requires a <= b
    ensures |a| <= |b| && (|a| == |b| ==> a == b)
    decreases |a|
  {
    if a != {} {
      var x :| x in a;
      SubsetCount(a - {x}, b - {x});
      assert a == (a - {x}) + {x} && b == (b - {x}) + {x};
    }
  }

  lemma ThenKeepsInv(s: State, promises: seq<Promise>, keys: seq<Key>, i: nat)
    requires |keys| == |promises| && Inv(s, promises, keys)
    requires i < |promises| && i !in s.settled && promises[i].Fulfils?
    ensures Inv(OnThen(s, i), promises, keys)
  {
    var s' := OnThen(s, i);
    assert i in s'.settled && i !in s'.finished;
    assert s.ret.winner.Some? ==> s'.ret.winner.value in s'.ret.results;
  }

  lemma CatchKeepsResults(s: State, promises: seq<Promise>, keys: seq<Key>, i: nat, reason: nat)
    requires |keys| == |promises| && Distinct(keys) && ResultsInv(s, promises, keys)
    requires i < |promises| && i !in s.settled && promises[i].Rejects?
    ensures ResultsInv(OnCatch(s, i, keys[i], reason), promises, keys)
  {
    var s' := OnCatch(s, i, keys[i], reason);
    assert keys[i] !in s.ret.errors;
    assert s'.ret.errors.Keys == s.ret.errors.Keys + {keys[i]};
    forall j | 0 <= j < |promises| ensures keys[j] in s'.ret.errors <==> j in s'.settled && promises[j].Rejects? {
      if j != i { assert keys[j] != keys[i]; }
    }
  }

  lemma CatchKeepsInv(s: State, promises: seq<Promise>, keys: seq<Key>, i: nat)
    requires |keys| == |promises| && Distinct(keys) && Inv(s, promises, keys)
    requires i < |promises| && i !in s.settled && promises[i].Rejects?
    ensures Inv(OnCatch(s, i, keys[i], promises[i].reason), promises, keys)
  {
    var s' := OnCatch(s, i, keys[i], promises[i].reason);
    CatchKeepsResults(s, promises, keys, i, promises[i].reason);
    assert i in s'.settled && i !in s'.finished;
  }

  lemma StepKeepsInv(s: State, promises: seq<Promise>, keys: seq<Key>, e: Event)
    requires |keys| == |promises| && Distinct(keys) && Inv(s, promises, keys) && Enabled(s, promises, e)
    ensures Inv(Step(s, promises, keys, e), promises, keys)
  {
    match e
    case Settle(i) =>
      if promises[i].Fulfils? { ThenKeepsInv(s, promises, keys, i); } else { CatchKeepsInv(s, promises, keys, i); }
    case Finally(i, pick) => FinallyKeepsInv(s, promises, keys, i, pick);
    case Timeout(pick) => TimeoutKeepsInv(s, promises, keys, pick);
  }

  lemma FinallyKeepsInv(s: State, promises: seq<Promise>, keys: seq<Key>, i: nat, pick: nat)
    requires |keys| == |promises| && Inv(s, promises, keys)
    requires i in s.settled && ValidPick(s, pick)
    ensures Inv(OnFinally(s, |promises|, i, pick), promises, keys)
  {
    var s' := OnFinally(s, |promises|, i, pick);
    SubsetCount(s.settled, Indices(|promises|));
    assert ResultsInv(s', promises, keys);
    if s'.ret.results != [] && s'.resolved && !s.resolved { assert s'.ret.results[pick] in s'.ret.results; }
  }

  lemma TimeoutKeepsInv(s: State, promises: seq<Promise>, keys: seq<Key>, pick: nat)
    requires |keys| == |promises| && Inv(s, promises, keys) && s.timer == Running && ValidPick(s, pick)
    ensures Inv(Complete(s.(timer := Fired), pick), promises, keys)
  {
    var s' := Complete(s.(timer := Fired), pick);
    assert s'.ret.winner == Some(s.ret.results[pick]);
    assert ResultsInv(s', promises, keys);
  }

  lemma {:induction false} RunKeepsInv(s: State, promises: seq<Promise>, keys: seq<Key>, events: seq<Event>, s': State)
    requires |keys| == |promises| && Distinct(keys) && Inv(s, promises, keys) && Run(s, promises, keys, events, s')
    ensures Inv(s', promises, keys)
    decreases |events|
  {
    if events != [] {
      StepKeepsInv(s, promises, keys, events[0]);
      RunKeepsInv(Step(s, promises, keys, events[0]), promises, keys, events[1..], s');
    }
  }

  // ---------- the outcome ----------

  /** The winner is one of the results, results and errors come from different promises, and there is
      no winner exactly when all n promises rejected. */
  predicate Legal(r: WaitForSuccessResults, keys: seq<Key>)
  {
    && (forall j :: 0 <= j < |r.results| ==> r.results[j] < |keys| && keys[r.results[j]] !in r.errors)
    && (forall i, j :: 0 <= i < j < |r.results| ==> r.results[i] != r.results[j])
    && (forall k :: k in r.errors ==> k in keys)
    && |r.results| + |r.errors| <= |keys|
    && (r.winner.Some? ==> r.winner.value in r.results)
    && (r.winner.None? <==> |r.errors| == |keys|)
    && (r.winner.None? <==> forall i :: 0 <= i < |keys| ==> keys[i] in r.errors)
  }

  /** Whatever the order of the callbacks, and however many run after the first `resolve`. */
  lemma OutcomeIsLegal(promises: seq<Promise>, keys: seq<Key>, events: seq<Event>, s: State)
    requires |keys| == |promises| > 0 && Distinct(keys)
    requires Run(START, promises, keys, events, s) && s.resolved
    ensures Legal(s.ret, keys)
    ensures s.ret.winner.None? <==> forall i :: 0 <= i < |promises| ==> promises[i].Rejects?
  {
    assert Inv(START, promises, keys);
    RunKeepsInv(START, promises, keys, events, s);
    SubsetCount(s.settled, Indices(|promises|));
    if s.ret.winner.Some? {
      var w := s.ret.winner.value;
      assert promises[w].Fulfils? && keys[w] !in s.ret.errors;
    } else {
      forall i | 0 <= i < |promises| ensures promises[i].Rejects? && keys[i] in s.ret.errors {
        if promises[i].Fulfils? { FulfilledIsResult(s, promises, keys, i); }
      }
    }
  }

  /** At any time the winner is a result, results come from different promises that fulfil, and errors from promises
      that reject. */
  lemma ResultsAreOfPromises(promises: seq<Promise>, keys: seq<Key>, events: seq<Event>, s: State)
    requires |keys| == |promises| && Distinct(keys) && Run(START, promises, keys, events, s)
    ensures s.ret.winner.Some? ==> s.ret.winner.value in s.ret.results
    ensures forall j :: 0 <= j < |s.ret.results| ==>
              s.ret.results[j] < |promises| && promises[s.ret.results[j]].Fulfils?
    ensures forall i, j :: 0 <= i < j < |s.ret.results| ==> s.ret.results[i] != s.ret.results[j]
    ensures forall i :: 0 <= i < |keys| && keys[i] in s.ret.errors ==> promises[i].Rejects?
    ensures |s.ret.results| + |s.ret.errors| <= |promises|
  {
    assert Inv(START, promises, keys);
    RunKeepsInv(START, promises, keys, events, s);
    SubsetCount(s.settled, Indices(|promises|));
  }

  /** A settled promise that fulfils is among the results. */
  lemma FulfilledIsResult(s: State, promises: seq<Promise>, keys: seq<Key>, i: nat)
    requires |keys| == |promises| && Distinct(keys) && Inv(s, promises, keys) && i in s.settled && promises[i].Fulfils?
    ensures i in s.ret.results
  {
    var rejected := set j | j in s.settled && promises[j].Rejects?;
    KeysCount(s.ret.errors.Keys, rejected, keys);
    var resulting := ElementsOf(s.ret.results);
    DistinctCount(s.ret.results);
    CoverCount(resulting, rejected, s.settled);
  }

  lemma CoverCount(a: set<nat>, b: set<nat>, whole: set<nat>)
    requires a * b == {} && a <= whole && b <= whole && |a| + |b| == |whole|
    ensures a + b == whole
  {
    assert |a + b| == |a| + |b|;
    SubsetCount(a + b, whole);
  }

  function ElementsOf(q: seq<nat>): (r: set<nat>)
    ensures forall x :: x in r <==> x in q
  {
    if q == [] then {} else {q[0]} + ElementsOf(q[1..])
  }

  lemma {:induction false} DistinctCount(q: seq<nat>)
    requires forall i, j :: 0 <= i < j < |q| ==> q[i] != q[j]
    ensures |ElementsOf(q)| == |q|
  {
    if q != [] { DistinctCount(q[1..]); }
  }

  lemma {:induction false} KeysCount(found: set<Key>, at: set<nat>, keys: seq<Key>)
    requires Distinct(keys) && (forall i :: i in at ==> i < |keys|)
    requires forall i :: 0 <= i < |keys| ==> (keys[i] in found <==> i in at)
    requires forall k :: k in found ==> k in keys
    ensures |found| == |at|
    decreases |at|
  {
    if at == {} {
      assert found == {};
    } else {
      var i :| i in at;
      KeysCount(found - {keys[i]}, at - {i}, keys);
    }
  }

  /** Once every promise has settled and its callbacks have run, the race has resolved; over an empty list it never
      does. */
  lemma ResolvesWhenAllSettle(promises: seq<Promise>, keys: seq<Key>, events: seq<Event>, s: State)
    requires |keys| == |promises| && Distinct(keys) && Run(START, promises, keys, events, s)
    requires s.finished == Indices(|promises|)
    ensures s.resolved <==> promises != []
  {
    assert Inv(START, promises, keys);
    RunKeepsInv(START, promises, keys, events, s);
  }

  lemma {:induction false} OneMoreRun(s: State, promises: seq<Promise>, keys: seq<Key>, events: seq<Event>, t: State,
                                      e: Event)
    requires |keys| == |promises| && Run(s, promises, keys, events, t) && Enabled(t, promises, e)
    ensures Run(s, promises, keys, events + [e], Step(t, promises, keys, e))
    decreases |events|
  {
    if events == [] {
      assert [e][1..] == [];
    } else {
      OneMoreRun(Step(s, promises, keys, events[0]), promises, keys, events[1..], t, e);
      assert (events + [e])[1..] == events[1..] + [e];
    }
  }

  /** The callbacks of one promise run. */
  lemma FinishOne(promises: seq<Promise>, keys: seq<Key>, events: seq<Event>, s: State, i: nat)
    returns (more: seq<Event>, t: State)
    requires |keys| == |promises| && Run(START, promises, keys, events, s) && i < |promises| && i !in s.finished
    ensures Run(START, promises, keys, more, t) && events <= more && t.finished == s.finished + {i}
  {
    more, t := events, s;
    if i !in s.settled {
      OneMoreRun(START, promises, keys, events, s, Settle(i));
      more, t := events + [Settle(i)], Step(s, promises, keys, Settle(i));
    }
    OneMoreRun(START, promises, keys, more, t, Finally(i, 0));
    more, t := more + [Finally(i, 0)], Step(t, promises, keys, Finally(i, 0));
  }

  /** Waiting never gets stuck: whatever happened so far, the callbacks of the other promises can still run, and then
      the race has resolved. */
  lemma {:induction false} CanStillResolve(promises: seq<Promise>, keys: seq<Key>, events: seq<Event>, s: State)
    returns (more: seq<Event>, t: State)
    requires |keys| == |promises| > 0 && Distinct(keys) && Run(START, promises, keys, events, s)
    ensures Run(START, promises, keys, more, t) && events <= more && t.resolved
    decreases |Indices(|promises|) - s.finished|
  {
    var left := Indices(|promises|) - s.finished;
    if left == {} {
      FinishedAreIndices(promises, keys, events, s);
      ResolvesWhenAllSettle(promises, keys, events, s);
      more, t := events, s;
    } else {
      var i :| i in left;
      var events', s' := FinishOne(promises, keys, events, s, i);
      assert Indices(|promises|) - s'.finished == left - {i};
      more, t := CanStillResolve(promises, keys, events', s');
    }
  }

  lemma FinishedAreIndices(promises: seq<Promise>, keys: seq<Key>, events: seq<Event>, s: State)
    requires |keys| == |promises| && Distinct(keys) && Run(START, promises, keys, events, s)
    requires Indices(|promises|) - s.finished == {}
    ensures s.finished == Indices(|promises|)
  {
    assert Inv(START, promises, keys);
    RunKeepsInv(START, promises, keys, events, s);
  }

  ghost predicate TimedOut(events: seq<Event>)
  {
    exists i :: 0 <= i < |events| && events[i].Timeout?
  }

  /** The timer only fires by its own callback. */
  lemma {:induction false} FiredTimedOut(s: State, promises: seq<Promise>, keys: seq<Key>, events: seq<Event>,
                                         s': State)
    requires |keys| == |promises| && Run(s, promises, keys, events, s')
    ensures s'.timer.Fired? ==> s.timer.Fired? || TimedOut(events)
    decreases |events|
  {
    if events != [] {
      FiredTimedOut(Step(s, promises, keys, events[0]), promises, keys, events[1..], s');
      if TimedOut(events[1..]) {
        var i :| 0 <= i < |events[1..]| && events[1..][i].Timeout?;
        assert events[i + 1].Timeout?;
      } else if events[0].Timeout? {
        assert events[0].Timeout?;
      }
    }
  }

  /** The grace time is waited for: a race resolves only when every promise has settled or the timer has fired, and the
      timer runs from the first success on. */
  lemma GraceIsWaitedFor(promises: seq<Promise>, keys: seq<Key>, events: seq<Event>, s: State)
    requires |keys| == |promises| && Distinct(keys) && Run(START, promises, keys, events, s)
    ensures s.resolved && !TimedOut(events) ==> forall i: nat :: i < |promises| ==> i in s.settled
    ensures s.timer == Idle <==> s.ret.results == []
  {
    assert Inv(START, promises, keys);
    RunKeepsInv(START, promises, keys, events, s);
    FiredTimedOut(START, promises, keys, events, s);
  }

  // ---------- the callbacks as the source runs them ----------

  class WaitForSuccess {
    const promises: seq<Promise>
    const errorKeys: seq<Key>
    var results: seq<nat>
    var errors: map<Key, nat>
    var winner: Option<nat>
    var resolved: bool
    var timer: Timer
    ghost var settled: set<nat>
    ghost var finished: set<nat>

    ghost function Current(): State
      reads this
    {
      State(settled, finished, WaitForSuccessResults(winner, results, errors), timer, resolved)
    }

    constructor (promises: seq<Promise>, errorKeys: seq<Key>)
      requires |errorKeys| == |promises|
      ensures this.promises == promises && this.errorKeys == errorKeys && Current() == START
    {
      this.promises, this.errorKeys := promises, errorKeys;
      results, errors, winner, resolved, timer := [], map[], None, false, Idle;
      settled, finished := {}, {};
    }

    method OnComplete(pick: nat)
      requires ValidPick(Current(), pick)
      modifies this
      ensures Current() == Complete(old(Current()), pick)
    {
      if results != [] { winner := Some(results[pick]); }
      resolved := true;
    }

    method OnSettle(i: nat)
      requires |errorKeys| == |promises| && Enabled(Current(), promises, Settle(i))
      modifies this
      ensures Current() == Step(old(Current()), promises, errorKeys, Settle(i))
      ensures settled == old(settled) + {i}
      ensures finished == old(finished) && winner == old(winner) && resolved == old(resolved)
      // the first success starts the timer
      ensures match promises[i]
              case Fulfils =>
                results == old(results) + [i] && errors == old(errors)
                && timer == if old(results) == [] then Running else old(timer)
              case Rejects(reason) =>
                results == old(results) && errors == old(errors)[errorKeys[i] := reason] && timer == old(timer)
    {
      settled := settled + {i};
      match promises[i]
      case Fulfils =>
        results := results + [i];
        if |results| == 1 { timer := Running; }
      case Rejects(reason) =>
        errors := errors[errorKeys[i] := reason];
    }

    method OnFinallyOf(i: nat, pick: nat)
      requires |errorKeys| == |promises| && Enabled(Current(), promises, Finally(i, pick))
      modifies this
      ensures Current() == Step(old(Current()), promises, errorKeys, Finally(i, pick))
      ensures finished == old(finished) + {i}
      ensures settled == old(settled) && results == old(results) && errors == old(errors) && timer == old(timer)
      // the race is over once as many have answered as there are promises
      ensures var last := |old(results)| + |old(errors)| == |promises|;
              && resolved == (old(resolved) || last)
              && winner == if last && old(results) != [] then Some(old(results)[pick]) else old(winner)
    {
      finished := finished + {i};
      if |results| + |errors| == |promises| { OnComplete(pick); }
    }

    method OnTimeout(pick: nat)
      requires |errorKeys| == |promises| && Enabled(Current(), promises, Timeout(pick))
      modifies this
      ensures Current() == Step(old(Current()), promises, errorKeys, Timeout(pick))
      ensures finished == old(finished) && settled == old(settled)
      ensures results == old(results) && errors == old(errors) && timer == Fired
      ensures resolved && winner == if old(results) != [] then Some(old(results)[pick]) else old(winner)
    {
      timer := Fired;
      OnComplete(pick);
    }
  }
}
