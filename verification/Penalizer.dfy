/** The commit/reveal schedule (packages/relay/src/penalizer/PenalizerService.ts:216-267, :300-304). */
module Penalizer {
  import opened Outcomes

  datatype Commitment = Commitment(commitHash: nat, readyBlockNumber: nat)

  class DelayedPenalization {
    const commitHash: nat
    var readyBlockNumber: Option<nat>

    constructor (commitHash: nat)
      ensures this.commitHash == commitHash && readyBlockNumber == None
    {
      this.commitHash, readyBlockNumber := commitHash, None;
    }

    predicate ReadyAt(block: nat)
      reads this
    {
      readyBlockNumber.Some? && readyBlockNumber.value <= block
    }
  }

  // ---------- arrays ----------

  function IndexOf<T(==)>(s: seq<T>, x: T): (i: int)
    ensures -1 <= i < |s| && (i >= 0 <==> x in s) && (i >= 0 ==> s[i] == x)
    ensures forall j :: 0 <= j < i ==> s[j] != x
  {
    if s == [] then -1
    else if s[0] == x then 0
    else
      var i := IndexOf(s[1..], x);
      if i < 0 then -1 else i + 1
  }

  /** s.splice(start, 1): a negative start counts from the end. */
  function Splice<T>(s: seq<T>, start: int): seq<T>
  {
    var from := if start >= 0 then start else if |s| + start > 0 then |s| + start else 0;
    if from < |s| then s[..from] + s[from + 1..] else s
  }

  function TakeOut<T(==)>(s: seq<T>, x: T): seq<T> { Splice(s, IndexOf(s, x)) }

  predicate NoDuplicates<T(==)>(s: seq<T>) { forall i, j :: 0 <= i < j < |s| ==> s[i] != s[j] }

  lemma OthersStay<T>(s: seq<T>, i: nat, y: T)
    requires NoDuplicates(s) && i < |s|
    ensures y in s[..i] + s[i + 1..] <==> y in s && y != s[i]
  {
    if y in s && y != s[i] {
      var j :| 0 <= j < |s| && s[j] == y;
      if j < i { assert s[..i][j] == y; } else { assert s[i + 1..][j - i - 1] == y; }
    }
  }

  /** Taking out an element that is there removes it alone. */
  lemma TakeOutRemoves<T>(s: seq<T>, x: T)
    requires NoDuplicates(s) && x in s
    ensures var r := TakeOut(s, x);
            NoDuplicates(r) && x !in r && multiset(r) + multiset{x} == multiset(s)
                && (forall y :: y in r <==> y in s && y != x)
    ensures exists i :: 0 <= i < |s| && s[i] == x && TakeOut(s, x) == s[..i] + s[i + 1..]
  {
    var i := IndexOf(s, x);
    assert s == s[..i] + [x] + s[i + 1..];
    forall y ensures y in TakeOut(s, x) <==> y in s && y != x { OthersStay(s, i, y); }
  }

  /** Taking out an element that is not there drops the last one instead, so the rest is untouched only if there is
      none. */
  lemma TakeOutOfNothing<T>(s: seq<T>, x: T)
    requires x !in s
    ensures TakeOut(s, x) == (if s == [] then [] else s[..|s| - 1])
    ensures TakeOut(s, x) == s <==> s == []
  {
  }

  function FindCommitment(commitments: seq<Commitment>, hash: nat): Option<Commitment>
  {
    if commitments == [] then None
    else if commitments[0].commitHash == hash then Some(commitments[0])
    else FindCommitment(commitments[1..], hash)
  }

  lemma {:induction false} FoundIsFirst(commitments: seq<Commitment>, hash: nat)
    ensures match FindCommitment(commitments, hash)
            case None => forall k :: 0 <= k < |commitments| ==> commitments[k].commitHash != hash
            case Some(commitment) => IsFirst(commitments, hash, commitment.readyBlockNumber)
  {
    if commitments != [] && commitments[0].commitHash != hash {
      FoundIsFirst(commitments[1..], hash);
      assert forall k :: 0 < k < |commitments| ==> commitments[k] == commitments[1..][k - 1];
      if FindCommitment(commitments, hash).Some? {
        var block := FindCommitment(commitments, hash).value.readyBlockNumber;
        var k :| 0 <= k < |commitments[1..]| && commitments[1..][k] == Commitment(hash, block)
                 && forall l :: 0 <= l < k ==> commitments[1..][l].commitHash != hash;
        assert commitments[k + 1] == Commitment(hash, block);
      }
    } else if commitments != [] {
      assert commitments[0] == Commitment(hash, commitments[0].readyBlockNumber);
    }
  }

  /** The first commitment of this hash is ready at this block. */
  ghost predicate IsFirst(commitments: seq<Commitment>, hash: nat, block: nat)
  {
    exists k :: 0 <= k < |commitments| && commitments[k] == Commitment(hash, block)
      && forall l :: 0 <= l < k ==> commitments[l].commitHash != hash
  }

  datatype Attempt = Attempt(penalization: DelayedPenalization, block: nat)

  function Penalizations(attempts: seq<Attempt>): (r: seq<DelayedPenalization>)
    ensures |r| == |attempts| && forall i :: 0 <= i < |r| ==> r[i] == attempts[i].penalization
  {
    seq(|attempts|, i requires 0 <= i < |attempts| => attempts[i].penalization)
  }

  /** No object twice. */
  ghost predicate Once<T>(m: multiset<T>)
  {
    forall x :: x in m ==> m[x] == 1
  }

  lemma {:induction false} OnceHasNoDuplicates<T>(s: seq<T>)
    requires Once(multiset(s))
    ensures NoDuplicates(s)
  {
    if s != [] {
      assert s == [s[0]] + s[1..];
      assert multiset(s)[s[0]] == 1 + multiset(s[1..])[s[0]];
      forall x | x in multiset(s[1..]) ensures multiset(s[1..])[x] == 1 { assert x in multiset(s); }
      OnceHasNoDuplicates(s[1..]);
      assert s[0] !in s[1..];
    }
  }

  lemma OnceSmaller<T>(m: multiset<T>, m': multiset<T>)
    requires Once(m') && m <= m'
    ensures Once(m)
  {
    forall x | x in m ensures m[x] == 1 { assert x in m'; }
  }

  lemma OnceMore<T>(m: multiset<T>, x: T)
    requires Once(m) && x !in m
    ensures Once(m + multiset{x})
  {
    forall y | y in m + multiset{x} ensures (m + multiset{x})[y] == 1 {
      if y != x { assert y in m; }
    }
  }

  /** What requests schedule while the first n broadcasts of a pass are awaited. */
  function Arrived<T>(arriving: seq<seq<T>>, n: nat): seq<T>
  {
    if n == 0 then [] else Arrived(arriving, n - 1) + if n - 1 < |arriving| then arriving[n - 1] else []
  }

  lemma ArrivedIsPart<T>(arriving: seq<seq<T>>, n: nat)
    ensures multiset(Arrived(arriving, n)) <= multiset(Flatten(arriving))
    ensures n >= |arriving| ==> Arrived(arriving, n) == Flatten(arriving)
  {
    if n >= |arriving| {
      ArrivedIsAll(arriving, n);
    } else {
      ArrivedIsTake(arriving, n);
      FlattenTake(arriving, n);
    }
  }

  lemma FlattenTake<T>(parts: seq<seq<T>>, n: nat)
    requires n <= |parts|
    ensures multiset(Flatten(parts[..n])) <= multiset(Flatten(parts))
  {
    FlattenAppend(parts[..n], parts[n..]);
    assert parts == parts[..n] + parts[n..];
  }

  lemma {:induction false} ArrivedIsAll<T>(arriving: seq<seq<T>>, n: nat)
    requires n >= |arriving|
    ensures Arrived(arriving, n) == Flatten(arriving)
  {
    if n > |arriving| {
      ArrivedIsAll(arriving, n - 1);
    } else {
      ArrivedIsTake(arriving, n);
      assert arriving[..n] == arriving;
    }
  }

  lemma {:induction false} ArrivedIsTake<T>(arriving: seq<seq<T>>, n: nat)
    requires n <= |arriving|
    ensures Arrived(arriving, n) == Flatten(arriving[..n])
  {
    if n > 0 {
      ArrivedIsTake(arriving, n - 1);
      assert arriving[..n] == arriving[..n - 1] + [arriving[n - 1]];
      FlattenAppend(arriving[..n - 1], [arriving[n - 1]]);
      assert Flatten([arriving[n - 1]]) == arriving[n - 1];
    }
  }

  lemma ArrivalsAreNew<T>(known: multiset<T>, arriving: seq<seq<T>>, n: nat)
    requires Once(known + multiset(Flatten(arriving)))
    ensures Once(known + multiset(Arrived(arriving, n)))
  {
    ArrivedIsPart(arriving, n);
    OnceSmaller(known + multiset(Arrived(arriving, n)), known + multiset(Flatten(arriving)));
  }

  function ReadyOf(s: seq<DelayedPenalization>, block: nat): seq<DelayedPenalization>
    reads set p | p in s
  {
    if s == [] then []
    else if s[0].ReadyAt(block) then [s[0]] + ReadyOf(s[1..], block) else ReadyOf(s[1..], block)
  }

  /** The ready ones are those with a ready block that is not in the future. */
  lemma {:induction false} ReadyAreReady(s: seq<DelayedPenalization>, block: nat)
    ensures multiset(ReadyOf(s, block)) <= multiset(s)
    ensures forall i :: 0 <= i < |ReadyOf(s, block)| ==>
              ReadyOf(s, block)[i] in s && ReadyOf(s, block)[i].readyBlockNumber.Some?
              && ReadyOf(s, block)[i].readyBlockNumber.value <= block
    ensures forall p :: p in s && p.readyBlockNumber.Some? && p.readyBlockNumber.value <= block ==>
              p in ReadyOf(s, block)
  {
    if s != [] {
      ReadyAreReady(s[1..], block);
      assert s == [s[0]] + s[1..];
    }
  }

  /** The ready ones keep their order. */
  lemma {:induction false} ReadyInOrder(s: seq<DelayedPenalization>, p: DelayedPenalization, block: nat)
    ensures ReadyOf(s + [p], block)
         == ReadyOf(s, block) + if p.readyBlockNumber.Some? && p.readyBlockNumber.value <= block then [p] else []
  {
    if s != [] {
      ReadyInOrder(s[1..], p, block);
      assert (s + [p])[1..] == s[1..] + [p];
    }
  }

  class PenalizerService {
    var scheduledPenalizations: seq<DelayedPenalization>
    /** Every penalization broadcast so far, and the block it was broadcast at. */
    ghost var attempts: seq<Attempt>

    /** Everything ever scheduled: what still is, and what was attempted. */
    ghost function Known(): multiset<DelayedPenalization>
      reads this
    {
      multiset(scheduledPenalizations) + multiset(Penalizations(attempts))
    }

    /** Nothing is scheduled twice, attempted twice, or still scheduled once attempted. */
    ghost predicate Valid()
      reads this
    {
      Once(Known())
    }

    constructor ()
      ensures Valid() && scheduledPenalizations == [] && attempts == []
    {
      scheduledPenalizations, attempts := [], [];
    }

    method CommitAndScheduleReveal(p: DelayedPenalization)
      requires Valid() && p !in Known()
      modifies this
      ensures Valid() && Known() == old(Known()) + multiset{p}
      ensures scheduledPenalizations == old(scheduledPenalizations) + [p] && attempts == old(attempts)
    {
      OnceMore(Known(), p);
      scheduledPenalizations := scheduledPenalizations + [p];
      assert Known() == old(Known()) + multiset{p};
    }

    /** A commitment that was mined gets its ready block, once. */
    method QueryReadyBlocksForMinedCommitments(commitments: seq<Commitment>)
      requires Valid()
      modifies set p | p in scheduledPenalizations
      ensures forall p :: p in scheduledPenalizations ==> UpdatedFrom(p, old(p.readyBlockNumber), commitments)
    {
      OnceSmaller(multiset(scheduledPenalizations), Known());
      OnceHasNoDuplicates(scheduledPenalizations);
      for i := 0 to |scheduledPenalizations|
        invariant forall j :: 0 <= j < i ==> UpdatedFrom(scheduledPenalizations[j],
                    old(scheduledPenalizations[j].readyBlockNumber), commitments)
        invariant forall j :: i <= j < |scheduledPenalizations|
                    ==> scheduledPenalizations[j].readyBlockNumber == old(scheduledPenalizations[j].readyBlockNumber)
      {
        var it := scheduledPenalizations[i];
        if it.readyBlockNumber.None? {
          var commitment := FindCommitment(commitments, it.commitHash);
          FoundIsFirst(commitments, it.commitHash);
          if commitment.Some? { it.readyBlockNumber := Some(commitment.value.readyBlockNumber); }
        }
      }
    }

    /** A penalization is taken out and broadcast; what arrives while the broadcast is awaited is scheduled. */
    method AttemptOne(penalization: DelayedPenalization, currentBlockNumber: nat, arrivals: seq<DelayedPenalization>)
      requires Valid() && penalization in scheduledPenalizations
      modifies this
      ensures Known() == old(Known()) + multiset(arrivals)
      ensures attempts == old(attempts) + [Attempt(penalization, currentBlockNumber)]
      ensures scheduledPenalizations == TakeOut(old(scheduledPenalizations), penalization) + arrivals
      ensures multiset(scheduledPenalizations)
                == old(multiset(scheduledPenalizations)) - multiset{penalization} + multiset(arrivals)
    {
      OnceSmaller(multiset(scheduledPenalizations), Known());
      OnceHasNoDuplicates(scheduledPenalizations);
      var index := IndexOf(scheduledPenalizations, penalization);
      assert index >= 0;
      TakeOutRemoves(scheduledPenalizations, penalization);
      scheduledPenalizations := Splice(scheduledPenalizations, index) + arrivals;
      assert Penalizations(attempts + [Attempt(penalization, currentBlockNumber)])
          == Penalizations(attempts) + [penalization];
      attempts := attempts + [Attempt(penalization, currentBlockNumber)];
    }

    /** The first k of the ready penalizations were attempted, the others are still scheduled. */
    ghost predicate Progress(known: multiset<DelayedPenalization>, before: seq<Attempt>,
                             ready: seq<DelayedPenalization>,
                             arriving: seq<seq<DelayedPenalization>>, k: nat, block: nat)
      requires k <= |ready|
      reads this
    {
      && Known() == known + multiset(Arrived(arriving, k))
      && attempts == before + AttemptsAt(ready[..k], block)
      && multiset(ready[k..]) <= multiset(scheduledPenalizations)
    }

    method AttemptNext(ready: seq<DelayedPenalization>, k: nat, block: nat, arriving: seq<seq<DelayedPenalization>>,
                       ghost known: multiset<DelayedPenalization>, ghost before: seq<Attempt>)
      requires k < |ready| && Progress(known, before, ready, arriving, k, block)
                 && Once(known + multiset(Flatten(arriving)))
      modifies this
      ensures Progress(known, before, ready, arriving, k + 1, block)
    {
      var arrivals := if k < |arriving| then arriving[k] else [];
      assert Valid() by { ArrivalsAreNew(known, arriving, k); }
      TakeOne(scheduledPenalizations, ready, k);
      StillThere(multiset(ready[k + 1..]), multiset(scheduledPenalizations), ready[k], multiset(arrivals));
      AttemptOne(ready[k], block, arrivals);
      ArrivedOneMore(arriving, k);
      OneAttemptMore(before, ready, k, block);
    }

    /** One pass: the ready penalizations in order, each taken out and broadcast; requests arriving meanwhile are
        scheduled. A failed broadcast ends the pass, its penalization attempted and gone. */
    method ExecuteReadyPenalizations(currentBlockNumber: nat, arriving: seq<seq<DelayedPenalization>>,
                                     fails: nat -> bool)
      returns (executed: nat)
      requires Valid() && Once(Known() + multiset(Flatten(arriving)))
      modifies this
      ensures Valid() && Known() == old(Known()) + multiset(Arrived(arriving, executed))
      ensures var ready := old(ReadyOf(scheduledPenalizations, currentBlockNumber));
              && executed == Broadcasts(fails, 0, |ready|)
              && attempts == old(attempts) + AttemptsAt(ready[..executed], currentBlockNumber)
    {
      var ready := ReadyOf(scheduledPenalizations, currentBlockNumber);
      assert Progress(Known(), attempts, ready, arriving, 0, currentBlockNumber) by {
        ReadyAreReady(scheduledPenalizations, currentBlockNumber);
        assert ready[0..] == ready;
      }
      executed := Execute(ready, currentBlockNumber, arriving, fails, Known(), attempts);
      ArrivalsAreNew(old(Known()), arriving, executed);
    }

    /** The loop over the ready penalizations, up to the first broadcast that fails. */
    method Execute(ready: seq<DelayedPenalization>, currentBlockNumber: nat, arriving: seq<seq<DelayedPenalization>>,
                   fails: nat -> bool, ghost known: multiset<DelayedPenalization>, ghost before: seq<Attempt>)
      returns (executed: nat)
      requires Progress(known, before, ready, arriving, 0, currentBlockNumber)
      requires Once(known + multiset(Flatten(arriving)))
      modifies this
      ensures executed == Broadcasts(fails, 0, |ready|)
      ensures Progress(known, before, ready, arriving, executed, currentBlockNumber)
    {
      executed := 0;
      var failed := false;
      while executed < |ready| && !failed
        invariant executed <= |ready| && Progress(known, before, ready, arriving, executed, currentBlockNumber)
        invariant Broadcasts(fails, 0, |ready|) == if failed then executed else Broadcasts(fails, executed, |ready|)
        decreases |ready| - executed
      {
        AttemptNext(ready, executed, currentBlockNumber, arriving, known, before);
        failed := fails(executed);
        executed := executed + 1;
      }
    }

    /** A tick of the timer, the previous pass being over: nothing is attempted before its ready block. */
    method IntervalHandler(commitments: seq<Commitment>, currentBlockNumber: nat,
                           arriving: seq<seq<DelayedPenalization>>, fails: nat -> bool)
      returns (executed: nat)
      requires Valid() && Once(Known() + multiset(Flatten(arriving)))
      modifies this, set p | p in scheduledPenalizations
      ensures Valid() && Known() == old(Known()) + multiset(Arrived(arriving, executed))
      // first the mined commitments set their ready blocks, then the ready penalizations are attempted in order
      ensures forall p :: p in old(scheduledPenalizations) ==>
                UpdatedFrom(p, old(p.readyBlockNumber), commitments)
      ensures var ready := ReadyOf(old(scheduledPenalizations), currentBlockNumber);
              && executed == Broadcasts(fails, 0, |ready|)
              && attempts == old(attempts) + AttemptsAt(ready[..executed], currentBlockNumber)
      ensures forall a :: a in attempts[|old(attempts)|..]
                ==> a.block == currentBlockNumber && a.penalization.readyBlockNumber.Some?
                    && a.penalization.readyBlockNumber.value <= currentBlockNumber
    {
      if scheduledPenalizations == [] { return 0; }
      QueryReadyBlocksForMinedCommitments(commitments);
      ghost var ready := ReadyOf(scheduledPenalizations, currentBlockNumber);
      ReadyAreReady(scheduledPenalizations, currentBlockNumber);
      executed := ExecuteReadyPenalizations(currentBlockNumber, arriving, fails);
      AllReady(old(attempts), ready, executed, currentBlockNumber);
    }
  }

  /** How many of the broadcasts from the i-th on are made, when the first that fails is the last. */
  function Broadcasts(fails: nat -> bool, i: nat, total: nat): (made: nat)
    requires i <= total
    ensures i <= made <= total
    decreases total - i
  {
    if i == total then total else if fails(i) then i + 1 else Broadcasts(fails, i + 1, total)
  }

  lemma {:induction false} StopsAtFirstFailure(fails: nat -> bool, i: nat, total: nat)
    requires i <= total
    ensures var made := Broadcasts(fails, i, total);
            && (made < total ==> made > i && fails(made - 1))
            && forall j :: i <= j < made - 1 ==> !fails(j)
    decreases total - i
  {
    if i < total && !fails(i) { StopsAtFirstFailure(fails, i + 1, total); }
  }

  /** These penalizations, attempted at this block. */
  function AttemptsAt(done: seq<DelayedPenalization>, block: nat): (r: seq<Attempt>)
    ensures |r| == |done| && forall i :: 0 <= i < |r| ==> r[i] == Attempt(done[i], block)
  {
    seq(|done|, i requires 0 <= i < |done| => Attempt(done[i], block))
  }

  lemma OneAttemptMore(before: seq<Attempt>, ready: seq<DelayedPenalization>, k: nat, block: nat)
    requires k < |ready|
    ensures before + AttemptsAt(ready[..k], block) + [Attempt(ready[k], block)]
              == before + AttemptsAt(ready[..k + 1], block)
  {
  }

  lemma AllReady(before: seq<Attempt>, ready: seq<DelayedPenalization>, k: nat, block: nat)
    requires k <= |ready| && forall i :: 0 <= i < |ready| ==> ready[i].ReadyAt(block)
    ensures var after := before + AttemptsAt(ready[..k], block);
            after[..|before|] == before && forall a :: a in after[|before|..] ==>
                a.block == block && a.penalization.ReadyAt(block)
  {
    assert (before + AttemptsAt(ready[..k], block))[|before|..] == AttemptsAt(ready[..k], block);
  }

  lemma StillThere<T>(rest: multiset<T>, scheduled: multiset<T>, taken: T, arrivals: multiset<T>)
    requires rest + multiset{taken} <= scheduled
    ensures rest <= scheduled - multiset{taken} + arrivals
  {
  }

  lemma ArrivedOneMore<T>(arriving: seq<seq<T>>, k: nat)
    ensures multiset(Arrived(arriving, k + 1))
         == multiset(Arrived(arriving, k)) + multiset(if k < |arriving| then arriving[k] else [])
  {
  }

  lemma TakeOne(s: seq<DelayedPenalization>, ready: seq<DelayedPenalization>, k: nat)
    requires k < |ready| && multiset(ready[k..]) <= multiset(s)
    ensures ready[k] in s && multiset(ready[k + 1..]) + multiset{ready[k]} == multiset(ready[k..])
  {
    assert ready[k..] == [ready[k]] + ready[k + 1..];
    assert ready[k] in multiset(ready[k..]);
  }

  /** A ready block once known stays; otherwise it is that of the first commitment of the hash, if there is one. */
  ghost predicate UpdatedFrom(p: DelayedPenalization, before: Option<nat>, commitments: seq<Commitment>)
    reads p
  {
    if before.Some? || forall k :: 0 <= k < |commitments| ==> commitments[k].commitHash != p.commitHash
    then p.readyBlockNumber == before
    else p.readyBlockNumber.Some? && IsFirst(commitments, p.commitHash, p.readyBlockNumber.value)
  }
}
