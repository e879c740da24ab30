/** The tiers fed to relay selection and the auditors (packages/provider/src/KnownRelaysManager.ts), and the in-place
    shuffle of packages/common/src/Utils.ts:400-416. */
module KnownRelays {
  import opened Outcomes
  import opened Race
  import opened RelaySelection

  // ---------- shuffle ----------

  /** `draw(n)` is the index drawn among n remaining elements. */
  ghost predicate Draws(draw: nat -> nat, n: nat)
  {
    forall k: nat :: 0 < k <= n ==> draw(k) < k
  }

  function Swap<T>(s: seq<T>, i: nat, j: nat): (r: seq<T>)
    requires i < |s| && j < |s|
    ensures |r| == |s|
  {
    s[i := s[j]][j := s[i]]
  }

  function Shuffled<T>(s: seq<T>, n: nat, draw: nat -> nat): (r: seq<T>)
    requires n <= |s| && Draws(draw, n)
    ensures |r| == |s|
    decreases n
  {
    if n == 0 then s else Shuffled(Swap(s, n - 1, draw(n)), n - 1, draw)
  }

  method Shuffle<T>(a: array<T>, draw: nat -> nat)
    requires Draws(draw, a.Length)
    modifies a
    ensures a[..] == Shuffled(old(a[..]), a.Length, draw)
  {
    var currentIndex: nat := a.Length;
    while currentIndex != 0
      invariant currentIndex <= a.Length
      invariant Shuffled(a[..], currentIndex, draw) == Shuffled(old(a[..]), a.Length, draw)
    {
      var randomIndex := draw(currentIndex);
      ghost var before := a[..];
      currentIndex := currentIndex - 1;
      a[currentIndex], a[randomIndex] := a[randomIndex], a[currentIndex];
      assert a[..] == Swap(before, currentIndex, randomIndex);
    }
  }

  lemma SwapPermutes<T>(s: seq<T>, i: nat, j: nat)
    requires i < |s| && j < |s|
    ensures multiset(Swap(s, i, j)) == multiset(s)
  {
  }

  lemma {:induction false} ShuffledPermutes<T>(s: seq<T>, n: nat, draw: nat -> nat)
    requires n <= |s| && Draws(draw, n)
    ensures multiset(Shuffled(s, n, draw)) == multiset(s) && Shuffled(s, n, draw)[n..] == s[n..]
    decreases n
  {
    if n > 0 {
      SwapPermutes(s, n - 1, draw(n));
      ShuffledPermutes(Swap(s, n - 1, draw(n)), n - 1, draw);
    }
  }

  lemma LastInPlace<T>(s: seq<T>, n: nat, target: seq<T>, j: nat)
    requires 0 < n <= |s| == |target| && multiset(s[..n]) == multiset(target[..n]) && s[n..] == target[n..]
    requires j < n && s[j] == target[n - 1]
    ensures var swapped := Swap(s, n - 1, j);
            multiset(swapped[..n - 1]) == multiset(target[..n - 1]) && swapped[n - 1..] == target[n - 1..]
  {
    var swapped := Swap(s, n - 1, j);
    SwapPermutes(s[..n], n - 1, j);
    assert Swap(s[..n], n - 1, j) == swapped[..n];
    DropLast(swapped, target, n);
    assert swapped[n..] == s[n..];
    forall i | n - 1 <= i < |s| ensures swapped[i] == target[i] {
      if i >= n { assert swapped[i] == s[n..][i - n] == target[n..][i - n]; }
    }
  }

  lemma DropLast<T>(a: seq<T>, b: seq<T>, n: nat)
    requires 0 < n <= |a| == |b| && multiset(a[..n]) == multiset(b[..n]) && a[n - 1] == b[n - 1]
    ensures multiset(a[..n - 1]) == multiset(b[..n - 1])
  {
    assert a[..n] == a[..n - 1] + [a[n - 1]] && b[..n] == b[..n - 1] + [b[n - 1]];
    assert multiset(a[..n - 1]) == multiset(a[..n]) - multiset{a[n - 1]};
    assert multiset(b[..n - 1]) == multiset(b[..n]) - multiset{b[n - 1]};
  }

  lemma PlaceOfLast<T>(s: seq<T>, n: nat, target: seq<T>) returns (j: nat)
    requires 0 < n <= |s| == |target| && multiset(s[..n]) == multiset(target[..n])
    ensures j < n && s[j] == target[n - 1]
  {
    assert target[..n][n - 1] in multiset(s[..n]);
    j :| j < n && s[..n][j] == target[n - 1];
  }

  /** Every order of the elements is reached by some draws. */
  lemma {:induction false} ShuffleReachesEveryOrder<T>(s: seq<T>, n: nat, target: seq<T>) returns (draw: nat -> nat)
    requires n <= |s| == |target| && multiset(s[..n]) == multiset(target[..n]) && s[n..] == target[n..]
    ensures Draws(draw, n) && Shuffled(s, n, draw) == target
    decreases n
  {
    if n == 0 {
      draw := (k: nat) => 0;
      assert s == s[0..] && target == target[0..];
    } else {
      var j := PlaceOfLast(s, n, target);
      LastInPlace(s, n, target, j);
      var rest := ShuffleReachesEveryOrder(Swap(s, n - 1, j), n - 1, target);
      draw := (k: nat) => if k == n then j else rest(k);
      SameDraws(Swap(s, n - 1, j), n - 1, draw, rest);
    }
  }

  lemma {:induction false} SameDraws<T>(s: seq<T>, n: nat, draw: nat -> nat, draw': nat -> nat)
    requires n <= |s| && Draws(draw', n) && forall k: nat :: k <= n ==> draw(k) == draw'(k)
    ensures Draws(draw, n) && Shuffled(s, n, draw) == Shuffled(s, n, draw')
    decreases n
  {
    if n > 0 { SameDraws(Swap(s, n - 1, draw(n)), n - 1, draw, draw'); }
  }

  // ---------- filters ----------

  function Filter<T>(s: seq<T>, keep: T -> bool): (r: seq<T>)
    ensures |r| <= |s|
  {
    if s == [] then [] else if keep(s[0]) then [s[0]] + Filter(s[1..], keep) else Filter(s[1..], keep)
  }

  lemma {:induction false} FilterCounts<T>(s: seq<T>, keep: T -> bool, x: T)
    ensures multiset(Filter(s, keep))[x] == if keep(x) then multiset(s)[x] else 0
  {
    if s != [] {
      FilterCounts(s[1..], keep, x);
      assert s == [s[0]] + s[1..];
    }
  }

  /** What is kept keeps its order. */
  lemma {:induction false} FilterInOrder<T>(s: seq<T>, keep: T -> bool, x: T)
    ensures Filter(s + [x], keep) == if keep(x) then Filter(s, keep) + [x] else Filter(s, keep)
  {
    if s != [] {
      FilterInOrder(s[1..], keep, x);
      assert (s + [x])[1..] == s[1..] + [x];
    }
  }

  // ---------- failures ----------

  datatype RelayFailure = RelayFailure(lastErrorTime: int)

  datatype FailureEvent = Saved(relayUrl: Key, lastErrorTime: int) | Refreshed(now: int, relayTimeoutGrace: int)

  /** Times are in milliseconds, the grace in seconds. */
  predicate Recent(f: RelayFailure, now: int, relayTimeoutGrace: int)
  {
    now - f.lastErrorTime < relayTimeoutGrace * 1000
  }

  function AfterEvent(failures: map<Key, seq<RelayFailure>>, e: FailureEvent): map<Key, seq<RelayFailure>>
  {
    match e
    case Saved(url, time) => failures[url := (if url in failures then failures[url] else []) + [RelayFailure(time)]]
    case Refreshed(now, grace) => map url | url in failures :: Filter(failures[url], f => Recent(f, now, grace))
  }

  function AfterEvents(events: seq<FailureEvent>): map<Key, seq<RelayFailure>>
  {
    if events == [] then map[] else AfterEvent(AfterEvents(events[..|events| - 1]), events[|events| - 1])
  }

  ghost predicate EverSaved(events: seq<FailureEvent>, url: Key)
  {
    exists i :: 0 <= i < |events| && events[i].Saved? && events[i].relayUrl == url
  }

  /** Refreshing never forgets a relay: once it failed it counts as failing, however long ago that was. */
  lemma {:induction false} FailuresAreNeverForgotten(events: seq<FailureEvent>, url: Key)
    ensures url in AfterEvents(events) <==> EverSaved(events, url)
  {
    if events != [] {
      var before, last := events[..|events| - 1], events[|events| - 1];
      FailuresAreNeverForgotten(before, url);
      if EverSaved(before, url) {
        var i :| 0 <= i < |before| && before[i].Saved? && before[i].relayUrl == url;
        assert events[i] == before[i];
      }
      if last.Saved? && last.relayUrl == url { assert events[|events| - 1] == last; }
      if EverSaved(events, url) && !(last.Saved? && last.relayUrl == url) {
        var i :| 0 <= i < |events| && events[i].Saved? && events[i].relayUrl == url;
        assert before[i] == events[i];
      }
    }
  }

  // ---------- auditors ----------

  /** Every index below n comes up again and again; `when(t, i)` is the next draw of i from the t-th on. */
  ghost predicate FairDraws(random: nat -> nat, when: (nat, nat) -> nat, n: nat)
  {
    && (forall t: nat :: random(t) < n)
    && forall t: nat, i: nat :: i < n ==>
        when(t, i) >= t && random(when(t, i)) == i && (random(t) != i ==> when(t + 1, i) == when(t, i))
  }

  ghost predicate AllIn(urls: seq<Key>, flat: seq<Key>)
  {
    forall i :: 0 <= i < |urls| ==> urls[i] in flat
  }

  function DedupUrls(urls: seq<Key>, exclude: seq<Key>): (r: seq<Key>)
    ensures Distinct(r) && forall k :: k in r <==> k in urls && k !in exclude
  {
    if urls == [] then []
    else
      var front := DedupUrls(urls[..|urls| - 1], exclude);
      var last := urls[|urls| - 1];
      assert urls == urls[..|urls| - 1] + [last];
      if last in exclude || last in front then front else front + [last]
  }

  /** An index that was not drawn yet. */
  function Missing(indexes: seq<nat>, n: nat): (i: nat)
    requires |indexes| < n
    requires forall j, k :: 0 <= j < k < |indexes| ==> indexes[j] != indexes[k]
    requires forall j :: 0 <= j < |indexes| ==> indexes[j] < n
    ensures i < n && i !in indexes
  {
    SomeMissing(indexes, n);
    FirstMissing(indexes, n)
  }

  lemma SomeMissing(indexes: seq<nat>, n: nat)
    requires |indexes| < n
    requires forall j, k :: 0 <= j < k < |indexes| ==> indexes[j] != indexes[k]
    ensures exists i: nat :: i < n && i !in indexes
  {
    DistinctCount(indexes);
    if Indices(n) <= ElementsOf(indexes) { SubsetCount(Indices(n), ElementsOf(indexes)); }
    var i :| i in Indices(n) && i !in ElementsOf(indexes);
    assert i !in indexes;
  }

  function FirstMissing(indexes: seq<nat>, n: nat): (i: nat)
    requires exists i: nat :: i < n && i !in indexes
    ensures i < n && i !in indexes
    decreases n
  {
    if n - 1 !in indexes then n - 1 else FirstMissing(indexes, n - 1)
  }

  class KnownRelaysManager {
    const relayTimeoutGrace: int
    const auditorsCount: nat
    var relayFailures: map<Key, seq<RelayFailure>>
    var preferredRelayers: seq<Relay>
    var allRelayers: seq<RelayInfo>

    constructor (relayTimeoutGrace: int, auditorsCount: nat)
      ensures this.relayTimeoutGrace == relayTimeoutGrace && this.auditorsCount == auditorsCount
      ensures relayFailures == AfterEvents([]) && preferredRelayers == [] && allRelayers == []
    {
      this.relayTimeoutGrace, this.auditorsCount := relayTimeoutGrace, auditorsCount;
      relayFailures, preferredRelayers, allRelayers := map[], [], [];
    }

    method RefreshFailures(now: int)
      modifies this`relayFailures
      ensures relayFailures == AfterEvent(old(relayFailures), Refreshed(now, relayTimeoutGrace))
      // every relay stays; of its failures those younger than the grace do
      ensures relayFailures.Keys == old(relayFailures).Keys
      ensures forall url, f :: url in relayFailures ==>
                multiset(relayFailures[url])[f]
                == if f.lastErrorTime + 1000 * relayTimeoutGrace > now then multiset(old(relayFailures)[url])[f] else 0
    {
      var newMap: map<Key, seq<RelayFailure>> := map[];
      var left := relayFailures.Keys;
      while left != {}
        invariant left <= relayFailures.Keys && newMap.Keys == relayFailures.Keys - left
        invariant forall url :: url in newMap
                    ==> newMap[url] == Filter(relayFailures[url], f => Recent(f, now, relayTimeoutGrace))
        decreases |left|
      {
        var url :| url in left;
        newMap := newMap[url := Filter(relayFailures[url], f => Recent(f, now, relayTimeoutGrace))];
        left := left - {url};
      }
      forall url, f | url in newMap
        ensures multiset(newMap[url])[f]
             == if f.lastErrorTime + 1000 * relayTimeoutGrace > now then multiset(relayFailures[url])[f] else 0
      {
        FilterCounts(relayFailures[url], f => Recent(f, now, relayTimeoutGrace), f);
      }
      relayFailures := newMap;
    }

    method SaveRelayFailure(lastErrorTime: int, relayUrl: Key)
      modifies this`relayFailures
      ensures relayFailures == AfterEvent(old(relayFailures), Saved(relayUrl, lastErrorTime))
      ensures relayFailures == old(relayFailures)[relayUrl :=
                if relayUrl in old(relayFailures) then old(relayFailures)[relayUrl] + [RelayFailure(lastErrorTime)]
                else [RelayFailure(lastErrorTime)]]
    {
      if relayUrl !in relayFailures {
        assert [] + [RelayFailure(lastErrorTime)] == [RelayFailure(lastErrorTime)];
        relayFailures := relayFailures[relayUrl := [RelayFailure(lastErrorTime)]];
      } else {
        relayFailures := relayFailures[relayUrl := relayFailures[relayUrl] + [RelayFailure(lastErrorTime)]];
      }
    }

    /** Preferred relays as configured, then the registered ones without and with failures, each shuffled; URLs that
        are not valid are dropped. */
    method GetRelaysShuffledForTransaction(draw1: nat -> nat, draw2: nat -> nat,
                                           valid: Key -> bool) returns (sortedRelays: seq<seq<Relay>>)
      requires forall k: nat :: 0 < k ==> draw1(k) < k && draw2(k) < k
      ensures |sortedRelays| == 3 && sortedRelays[0] == Filter(preferredRelayers, (r: Relay) => valid(r.relayUrl))
      ensures forall r: Relay :: multiset(sortedRelays[0])[r]
                == if valid(r.relayUrl) then multiset(preferredRelayers)[r] else 0
      ensures TierOf(sortedRelays[1], allRelayers, relayFailures.Keys, false, valid)
      ensures TierOf(sortedRelays[2], allRelayers, relayFailures.Keys, true, valid)
    {
      var isValid := (r: Relay) => valid(r.relayUrl);
      var failures := relayFailures.Keys;
      var without := ShuffledTier(Filter(AsRelays(allRelayers), (r: Relay) => r.relayUrl !in failures), draw1);
      var withFailures := ShuffledTier(Filter(AsRelays(allRelayers), (r: Relay) => r.relayUrl in failures), draw2);
      sortedRelays := [Filter(preferredRelayers, isValid), Filter(without, isValid), Filter(withFailures, isValid)];
      forall r: Relay ensures multiset(sortedRelays[1])[r] == TierCount(r, allRelayers, failures, false, valid)
                              && multiset(sortedRelays[2])[r] == TierCount(r, allRelayers, failures, true, valid)
                              && multiset(sortedRelays[0])[r]
                                 == if isValid(r) then multiset(preferredRelayers)[r] else 0
      {
        FilterCounts(preferredRelayers, isValid, r);
        FilterCounts(without, isValid, r);
        FilterCounts(withFailures, isValid, r);
        FilterCounts(AsRelays(allRelayers), (r: Relay) => r.relayUrl !in failures, r);
        FilterCounts(AsRelays(allRelayers), (r: Relay) => r.relayUrl in failures, r);
      }
    }

    method GetAuditors(excludeUrls: seq<Key>, random: nat -> nat, ghost when: (nat, nat) -> nat)
      returns (auditors: seq<Key>)
      requires var flat := DedupUrls(AllUrls(preferredRelayers, allRelayers), excludeUrls);
               |flat| > auditorsCount > 0 ==> FairDraws(random, when, |flat|)
      ensures var flat := DedupUrls(AllUrls(preferredRelayers, allRelayers), excludeUrls);
              && Distinct(auditors) && AllIn(auditors, flat)
              && |auditors| == if auditorsCount < |flat| then auditorsCount else |flat|
    {
      if auditorsCount == 0 { return []; }
      var flatRelayers := DedupUrls(AllUrls(preferredRelayers, allRelayers), excludeUrls);
      if |flatRelayers| <= auditorsCount { return flatRelayers; }
      var indexes: seq<nat>, t: nat := [], 0;
      auditors := [];
      while |auditors| < auditorsCount
        invariant |indexes| == |auditors| <= auditorsCount
        invariant forall j :: 0 <= j < |indexes|
                    ==> indexes[j] < |flatRelayers| && auditors[j] == flatRelayers[indexes[j]]
        invariant forall j, k :: 0 <= j < k < |indexes| ==> indexes[j] != indexes[k]
        decreases auditorsCount - |auditors|, when(t, Missing(indexes, |flatRelayers|)) - t
      {
        ghost var missing := Missing(indexes, |flatRelayers|);
        assert when(t, missing) >= t && (random(t) != missing ==> when(t + 1, missing) == when(t, missing));
        var index := random(t);
        if index !in indexes {
          auditors := auditors + [flatRelayers[index]];
          indexes := indexes + [index];
        }
        t := t + 1;
      }
    }
  }

  function AsRelays(infos: seq<RelayInfo>): (r: seq<Relay>)
    ensures |r| == |infos| && forall i :: 0 <= i < |r| ==> r[i] == Relay(infos[i].relayUrl, Some(infos[i].manager))
  {
    seq(|infos|, i requires 0 <= i < |infos| => Relay(infos[i].relayUrl, Some(infos[i].manager)))
  }

  function AllUrls(preferred: seq<Relay>, infos: seq<RelayInfo>): (urls: seq<Key>)
    ensures forall url :: url in urls <==>
              || (exists i :: 0 <= i < |preferred| && preferred[i].relayUrl == url)
              || (exists i :: 0 <= i < |infos| && infos[i].relayUrl == url)
  {
    KeysOf(preferred) + KeysOf(AsRelays(infos))
  }

  /** How often a registered relay belongs to the tier of those with, or without, failures. */
  ghost function TierCount(r: Relay, infos: seq<RelayInfo>, failures: set<Key>, failing: bool, valid: Key -> bool): nat
  {
    if valid(r.relayUrl) && (r.relayUrl in failures) == failing then multiset(AsRelays(infos))[r] else 0
  }

  /** The tier holds exactly the registered relays with a valid URL that have, or have not, failed. */
  ghost predicate TierOf(tier: seq<Relay>, infos: seq<RelayInfo>, failures: set<Key>, failing: bool, valid: Key -> bool)
  {
    forall r: Relay :: multiset(tier)[r] == TierCount(r, infos, failures, failing, valid)
  }

  method ShuffledTier(relays: seq<Relay>, draw: nat -> nat) returns (r: seq<Relay>)
    requires forall k: nat :: 0 < k ==> draw(k) < k
    ensures r == Shuffled(relays, |relays|, draw) && multiset(r) == multiset(relays)
  {
    var a := new Relay[|relays|](i requires 0 <= i < |relays| => relays[i]);
    assert a[..] == relays;
    Shuffle(a, draw);
    ShuffledPermutes(relays, |relays|, draw);
    r := a[..];
  }
}
