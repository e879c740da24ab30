/** Relay selection (packages/provider/src/RelaySelectionManager.ts) and the client's retry loop
    (packages/provider/src/RelayClient.ts:283-312). */
module RelaySelection {
  import opened Outcomes
  import opened Race

  /** A relay known from an event has a manager; a preferred relay is only a URL. */
  datatype Relay = Relay(relayUrl: Key, manager: Option<nat>)

  datatype RelayInfo = RelayInfo(relayUrl: Key, manager: nat)

  /** What a selection runs against: how each race settles, the manager each ping answers with,
      and the registered relays a manager is looked up in. */
  datatype Network = Network(
    sliceSize: nat, race: (nat, seq<Key>) -> WaitForSuccessResults, managerOf: Key -> nat, registered: seq<RelayInfo>)

  ghost predicate LegalRaces(net: Network)
  {
    forall n: nat, keys: seq<Key> :: keys != [] && Distinct(keys) ==> Legal(net.race(n, keys), keys)
  }

  /** What `waitForSuccess` hands over after some order of callbacks. */
  ghost predicate IsOutcome(keys: seq<Key>, r: WaitForSuccessResults)
  {
    exists promises: seq<Promise>, events: seq<Event>, s: State ::
      |keys| == |promises| && Run(START, promises, keys, events, s) && s.resolved && s.ret == r
  }

  /** Every race that settles as some run of `waitForSuccess` does is legal. */
  lemma RunsAreLegal(net: Network)
    requires forall n: nat, keys: seq<Key> :: keys != [] && Distinct(keys) ==> IsOutcome(keys, net.race(n, keys))
    ensures LegalRaces(net)
  {
    forall n: nat, keys: seq<Key> | keys != [] && Distinct(keys) ensures Legal(net.race(n, keys), keys) {
      assert IsOutcome(keys, net.race(n, keys));
      var promises: seq<Promise>, events: seq<Event>, s: State :|
        |keys| == |promises| && Run(START, promises, keys, events, s) && s.resolved && s.ret == net.race(n, keys);
      OutcomeIsLegal(promises, keys, events, s);
    }
  }

  datatype Selection = Selection(remaining: seq<seq<Relay>>, errors: map<Key, nat>, rounds: nat)

  // ---------- URLs and removal ----------

  function UrlsOf(relays: seq<Relay>): set<Key>
  {
    if relays == [] then {} else {relays[0].relayUrl} + UrlsOf(relays[1..])
  }

  function Urls(tiers: seq<seq<Relay>>): set<Key>
  {
    if tiers == [] then {} else UrlsOf(tiers[0]) + Urls(tiers[1..])
  }

  function Total(tiers: seq<seq<Relay>>): nat
  {
    if tiers == [] then 0 else |tiers[0]| + Total(tiers[1..])
  }

  function Without(relays: seq<Relay>, out: set<Key>): (kept: seq<Relay>)
    ensures |kept| <= |relays|
  {
    if relays == [] then []
    else if relays[0].relayUrl in out then Without(relays[1..], out)
    else [relays[0]] + Without(relays[1..], out)
  }

  function Prune(tiers: seq<seq<Relay>>, out: set<Key>): (kept: seq<seq<Relay>>)
    ensures |kept| == |tiers|
  {
    if tiers == [] then [] else [Without(tiers[0], out)] + Prune(tiers[1..], out)
  }

  lemma {:induction false} UrlAt(relays: seq<Relay>, i: nat)
    requires i < |relays|
    ensures relays[i].relayUrl in UrlsOf(relays)
  {
    if i > 0 { UrlAt(relays[1..], i - 1); }
  }

  lemma {:induction false} WithoutUrls(relays: seq<Relay>, out: set<Key>)
    ensures UrlsOf(Without(relays, out)) == UrlsOf(relays) - out
    ensures UrlsOf(relays) * out != {} ==> |Without(relays, out)| < |relays|
  {
    if relays != [] { WithoutUrls(relays[1..], out); }
  }

  lemma {:induction false} PruneUrls(tiers: seq<seq<Relay>>, out: set<Key>)
    ensures Urls(Prune(tiers, out)) == Urls(tiers) - out
    ensures Total(Prune(tiers, out)) <= Total(tiers)
              && (Urls(tiers) * out != {} ==> Total(Prune(tiers, out)) < Total(tiers))
  {
    if tiers != [] {
      WithoutUrls(tiers[0], out);
      PruneUrls(tiers[1..], out);
    }
  }

  lemma {:induction false} PruneAt(tiers: seq<seq<Relay>>, out: set<Key>, i: nat)
    requires i < |tiers|
    ensures Prune(tiers, out)[i] == Without(tiers[i], out)
  {
    if i > 0 { PruneAt(tiers[1..], out, i - 1); }
  }

  ghost predicate InOrder(relays: seq<Relay>, a: Relay, b: Relay)
  {
    exists k, l :: 0 <= k < l < |relays| && relays[k] == a && relays[l] == b
  }

  /** Every relay at another URL is there as often as before, and none at these URLs. */
  ghost predicate SameBut(relays: seq<Relay>, out: set<Key>, kept: seq<Relay>)
  {
    forall relay :: multiset(kept)[relay] == if relay.relayUrl in out then 0 else multiset(relays)[relay]
  }

  /** kept is what stays of the relays, in the order they had, when those at the URLs `out` are taken out. */
  ghost predicate TakenOut(relays: seq<Relay>, out: set<Key>, kept: seq<Relay>)
  {
    SameBut(relays, out, kept) && forall i, j :: 0 <= i < j < |kept| ==> InOrder(relays, kept[i], kept[j])
  }

  lemma InOrderLater(relays: seq<Relay>, a: Relay, b: Relay)
    requires relays != [] && InOrder(relays[1..], a, b)
    ensures InOrder(relays, a, b)
  {
    var k, l :| 0 <= k < l < |relays[1..]| && relays[1..][k] == a && relays[1..][l] == b;
    assert relays[k + 1] == a && relays[l + 1] == b;
  }

  lemma FirstInOrder(relays: seq<Relay>, b: Relay)
    requires relays != [] && b in relays[1..]
    ensures InOrder(relays, relays[0], b)
  {
    var l :| 0 <= l < |relays[1..]| && relays[1..][l] == b;
    assert relays[l + 1] == b;
  }

  lemma {:induction false} WithoutKeepsRelays(relays: seq<Relay>, out: set<Key>)
    ensures SameBut(relays, out, Without(relays, out))
  {
    if relays != [] {
      WithoutKeepsRelays(relays[1..], out);
      assert relays == [relays[0]] + relays[1..];
    }
  }

  lemma KeptWasThere(relays: seq<Relay>, out: set<Key>, i: nat)
    requires i < |Without(relays, out)|
    ensures Without(relays, out)[i] in relays
  {
    WithoutKeepsRelays(relays, out);
    assert multiset(Without(relays, out))[Without(relays, out)[i]] > 0;
  }

  lemma {:induction false} WithoutKeepsOrder(relays: seq<Relay>, out: set<Key>, i: nat, j: nat)
    requires i < j < |Without(relays, out)|
    ensures InOrder(relays, Without(relays, out)[i], Without(relays, out)[j])
  {
    if relays[0].relayUrl in out {
      WithoutKeepsOrder(relays[1..], out, i, j);
      InOrderLater(relays, Without(relays, out)[i], Without(relays, out)[j]);
    } else if i > 0 {
      WithoutKeepsOrder(relays[1..], out, i - 1, j - 1);
      InOrderLater(relays, Without(relays, out)[i], Without(relays, out)[j]);
    } else {
      KeptWasThere(relays[1..], out, j - 1);
      FirstInOrder(relays, Without(relays, out)[j]);
    }
  }

  lemma WithoutTakesOut(relays: seq<Relay>, out: set<Key>)
    ensures TakenOut(relays, out, Without(relays, out))
  {
    WithoutKeepsRelays(relays, out);
    var kept := Without(relays, out);
    forall i, j | 0 <= i < j < |kept| ensures InOrder(relays, kept[i], kept[j]) {
      WithoutKeepsOrder(relays, out, i, j);
    }
  }

  /** Every tier loses the relays at these URLs and nothing else. */
  lemma PruneTakesOut(tiers: seq<seq<Relay>>, out: set<Key>)
    ensures |Prune(tiers, out)| == |tiers|
    ensures forall t :: 0 <= t < |tiers| ==> TakenOut(tiers[t], out, Prune(tiers, out)[t])
  {
    forall t | 0 <= t < |tiers| ensures TakenOut(tiers[t], out, Prune(tiers, out)[t]) {
      PruneAt(tiers, out, t);
      WithoutTakesOut(tiers[t], out);
    }
  }

  // ---------- one round ----------

  /** The first relays of the first tier that is not empty. */
  function NextSlice(tiers: seq<seq<Relay>>, sliceSize: nat): seq<Relay>
  {
    if tiers == [] then []
    else
      var bulkSize := if sliceSize < |tiers[0]| then sliceSize else |tiers[0]|;
      if bulkSize > 0 then tiers[0][..bulkSize] else NextSlice(tiers[1..], sliceSize)
  }

  lemma {:induction false} SliceIsLeft(tiers: seq<seq<Relay>>, sliceSize: nat)
    ensures UrlsOf(NextSlice(tiers, sliceSize)) <= Urls(tiers)
    ensures NextSlice(tiers, sliceSize) == [] <==> sliceSize == 0 || Total(tiers) == 0
  {
    if tiers != [] {
      var bulkSize := if sliceSize < |tiers[0]| then sliceSize else |tiers[0]|;
      UrlsOfTake(tiers[0], bulkSize);
      SliceIsLeft(tiers[1..], sliceSize);
    }
  }

  lemma {:induction false} UrlsOfTake(relays: seq<Relay>, k: nat)
    requires k <= |relays|
    ensures UrlsOf(relays[..k]) <= UrlsOf(relays)
  {
    if k > 0 {
      assert relays[..k][1..] == relays[1..][..k - 1];
      UrlsOfTake(relays[1..], k - 1);
    }
  }

  /** Map.set: the relay takes the place of the one with its URL, or comes last. */
  function SetRelay(entries: seq<Relay>, relay: Relay): seq<Relay>
  {
    if entries == [] then [relay]
    else if entries[0].relayUrl == relay.relayUrl then [relay] + entries[1..]
    else [entries[0]] + SetRelay(entries[1..], relay)
  }

  predicate DistinctUrls(relays: seq<Relay>)
  {
    relays != [] ==> relays[0].relayUrl !in UrlsOf(relays[1..]) && DistinctUrls(relays[1..])
  }

  /** The slice through a Map keyed by URL: one relay for each URL, in order of first appearance, the last one
      winning. */
  function AsMap(entries: seq<Relay>, relays: seq<Relay>): seq<Relay>
    decreases |relays|
  {
    if relays == [] then entries else AsMap(SetRelay(entries, relays[0]), relays[1..])
  }

  lemma {:induction false} SetRelayUrls(entries: seq<Relay>, relay: Relay)
    requires DistinctUrls(entries)
    ensures DistinctUrls(SetRelay(entries, relay))
              && UrlsOf(SetRelay(entries, relay)) == UrlsOf(entries) + {relay.relayUrl}
  {
    if entries != [] && entries[0].relayUrl != relay.relayUrl { SetRelayUrls(entries[1..], relay); }
  }

  lemma {:induction false} AsMapUrls(entries: seq<Relay>, relays: seq<Relay>)
    requires DistinctUrls(entries)
    ensures DistinctUrls(AsMap(entries, relays)) && UrlsOf(AsMap(entries, relays)) == UrlsOf(entries) + UrlsOf(relays)
    decreases |relays|
  {
    if relays != [] {
      SetRelayUrls(entries, relays[0]);
      AsMapUrls(SetRelay(entries, relays[0]), relays[1..]);
    }
  }

  /** A relay of the slice that is the last one there with its URL. */
  ghost predicate LastWithUrl(slice: seq<Relay>, relay: Relay)
  {
    exists k :: 0 <= k < |slice| && slice[k] == relay
      && forall l :: k < l < |slice| ==> slice[l].relayUrl != relay.relayUrl
  }

  /** The URL u appears in the slice before v does. */
  ghost predicate AppearsBefore(slice: seq<Relay>, u: Key, v: Key)
  {
    exists k :: 0 <= k < |slice| && slice[k].relayUrl == u && forall l :: 0 <= l <= k ==> slice[l].relayUrl != v
  }

  ghost predicate HasUrl(relays: seq<Relay>, url: Key)
  {
    exists i :: 0 <= i < |relays| && relays[i].relayUrl == url
  }

  /** One relay for each URL of the slice, the last one it has, in the order in which the URLs first appear. */
  ghost predicate OncePerUrl(slice: seq<Relay>, relays: seq<Relay>)
  {
    && (forall i :: 0 <= i < |relays| ==> LastWithUrl(slice, relays[i]))
    && (forall k :: 0 <= k < |slice| ==> HasUrl(relays, slice[k].relayUrl))
    && (forall i, j :: 0 <= i < j < |relays| ==> AppearsBefore(slice, relays[i].relayUrl, relays[j].relayUrl))
  }

  lemma {:induction false} SetRelayAt(entries: seq<Relay>, relay: Relay) returns (at: nat)
    ensures at <= |entries| && (forall i :: 0 <= i < at ==> entries[i].relayUrl != relay.relayUrl)
    ensures if at < |entries|
            then entries[at].relayUrl == relay.relayUrl && SetRelay(entries, relay) == entries[at := relay]
            else SetRelay(entries, relay) == entries + [relay]
  {
    at := 0;
    if entries != [] && entries[0].relayUrl != relay.relayUrl {
      var later := SetRelayAt(entries[1..], relay);
      at := later + 1;
      forall i | 0 <= i < at ensures entries[i].relayUrl != relay.relayUrl {
        assert i > 0 ==> entries[i] == entries[1..][i - 1];
      }
      assert entries == [entries[0]] + entries[1..];
    }
  }

  lemma AppearsLater(slice: seq<Relay>, u: Key, v: Key, relay: Relay)
    requires AppearsBefore(slice, u, v)
    ensures AppearsBefore(slice + [relay], u, v)
  {
    var k :| 0 <= k < |slice| && slice[k].relayUrl == u && forall l :: 0 <= l <= k ==> slice[l].relayUrl != v;
    assert (slice + [relay])[k].relayUrl == u;
    assert forall l :: 0 <= l <= k ==> (slice + [relay])[l] == slice[l];
  }

  lemma StaysLast(slice: seq<Relay>, entry: Relay, relay: Relay)
    requires LastWithUrl(slice, entry) && entry.relayUrl != relay.relayUrl
    ensures LastWithUrl(slice + [relay], entry)
  {
    var k :| 0 <= k < |slice| && slice[k] == entry
             && forall l :: k < l < |slice| ==> slice[l].relayUrl != entry.relayUrl;
    assert (slice + [relay])[k] == entry;
  }

  /** A URL of the slice that is not the relay's appears before it, if the relay's is new. */
  lemma NewUrlIsLast(slice: seq<Relay>, entry: Relay, relay: Relay)
    requires LastWithUrl(slice, entry) && forall k :: 0 <= k < |slice| ==> slice[k].relayUrl != relay.relayUrl
    ensures AppearsBefore(slice + [relay], entry.relayUrl, relay.relayUrl)
  {
    var k :| 0 <= k < |slice| && slice[k] == entry;
    assert (slice + [relay])[k].relayUrl == entry.relayUrl;
    assert forall l :: 0 <= l <= k ==> (slice + [relay])[l] == slice[l];
  }

  lemma EntriesDiffer(slice: seq<Relay>, entries: seq<Relay>, i: nat, j: nat)
    requires OncePerUrl(slice, entries) && i < |entries| && j < |entries| && i != j
    ensures entries[i].relayUrl != entries[j].relayUrl
  {
    var (a, b) := if i < j then (i, j) else (j, i);
    assert AppearsBefore(slice, entries[a].relayUrl, entries[b].relayUrl);
  }

  lemma SetKeepsEntries(slice: seq<Relay>, entries: seq<Relay>, relay: Relay, i: nat)
    requires OncePerUrl(slice, entries) && i < |SetRelay(entries, relay)|
    ensures LastWithUrl(slice + [relay], SetRelay(entries, relay)[i])
  {
    var at := SetRelayAt(entries, relay);
    if i == at {
      assert (slice + [relay])[|slice|] == relay;
    } else {
      if at < |entries| { EntriesDiffer(slice, entries, i, at); }
      StaysLast(slice, entries[i], relay);
    }
  }

  lemma SetKeepsOrder(slice: seq<Relay>, entries: seq<Relay>, relay: Relay, i: nat, j: nat)
    requires OncePerUrl(slice, entries) && i < j < |SetRelay(entries, relay)|
    ensures AppearsBefore(slice + [relay], SetRelay(entries, relay)[i].relayUrl, SetRelay(entries, relay)[j].relayUrl)
  {
    var at := SetRelayAt(entries, relay);
    if j < |entries| {
      assert AppearsBefore(slice, entries[i].relayUrl, entries[j].relayUrl);
      AppearsLater(slice, entries[i].relayUrl, entries[j].relayUrl, relay);
    } else {
      forall k | 0 <= k < |slice| ensures slice[k].relayUrl != relay.relayUrl {
        assert HasUrl(entries, slice[k].relayUrl);
      }
      NewUrlIsLast(slice, entries[i], relay);
    }
  }

  lemma SetKeepsUrls(slice: seq<Relay>, entries: seq<Relay>, relay: Relay, k: nat)
    requires OncePerUrl(slice, entries) && k <= |slice|
    ensures HasUrl(SetRelay(entries, relay), (slice + [relay])[k].relayUrl)
  {
    var at := SetRelayAt(entries, relay);
    var set' := SetRelay(entries, relay);
    if k == |slice| {
      assert set'[at].relayUrl == relay.relayUrl;
    } else {
      assert HasUrl(entries, slice[k].relayUrl);
      var i :| 0 <= i < |entries| && entries[i].relayUrl == slice[k].relayUrl;
      assert set'[i].relayUrl == slice[k].relayUrl;
    }
  }

  lemma SetOncePerUrl(slice: seq<Relay>, entries: seq<Relay>, relay: Relay)
    requires OncePerUrl(slice, entries)
    ensures OncePerUrl(slice + [relay], SetRelay(entries, relay))
  {
    var set' := SetRelay(entries, relay);
    forall i | 0 <= i < |set'| ensures LastWithUrl(slice + [relay], set'[i]) {
      SetKeepsEntries(slice, entries, relay, i);
    }
    forall k | 0 <= k < |slice + [relay]| ensures HasUrl(set', (slice + [relay])[k].relayUrl) {
      SetKeepsUrls(slice, entries, relay, k);
    }
    forall i, j | 0 <= i < j < |set'| ensures AppearsBefore(slice + [relay], set'[i].relayUrl, set'[j].relayUrl) {
      SetKeepsOrder(slice, entries, relay, i, j);
    }
  }

  /** Going through the Map leaves one relay for each URL, the last, in order of first appearance. */
  lemma {:induction false} AsMapIsOncePerUrl(done: seq<Relay>, entries: seq<Relay>, relays: seq<Relay>)
    requires OncePerUrl(done, entries)
    ensures OncePerUrl(done + relays, AsMap(entries, relays))
    decreases |relays|
  {
    if relays == [] {
      assert done + relays == done;
    } else {
      SetOncePerUrl(done, entries, relays[0]);
      AsMapIsOncePerUrl(done + [relays[0]], SetRelay(entries, relays[0]), relays[1..]);
      assert done + [relays[0]] + relays[1..] == done + relays;
    }
  }

  function KeysOf(relays: seq<Relay>): (keys: seq<Key>)
    ensures |keys| == |relays| && forall i :: 0 <= i < |keys| ==> keys[i] == relays[i].relayUrl
  {
    seq(|relays|, i requires 0 <= i < |relays| => relays[i].relayUrl)
  }

  lemma {:induction false} DistinctUrlsAreDistinct(relays: seq<Relay>)
    requires DistinctUrls(relays)
    ensures Distinct(KeysOf(relays))
  {
    if relays != [] {
      DistinctUrlsAreDistinct(relays[1..]);
      forall i, j | 0 <= i < j < |relays| ensures KeysOf(relays)[i] != KeysOf(relays)[j] {
        if i > 0 { assert KeysOf(relays[1..])[i - 1] != KeysOf(relays[1..])[j - 1]; }
        else { UrlAt(relays[1..], j - 1); }
      }
    }
  }

  /** The URLs a race settles: the winner's and those that failed. */
  function Settled(relays: seq<Relay>, r: WaitForSuccessResults): set<Key>
    requires r.winner.Some? ==> r.winner.value < |relays|
  {
    r.errors.Keys + if r.winner.Some? then {relays[r.winner.value].relayUrl} else {}
  }

  function RelayInfoForManager(registered: seq<RelayInfo>, manager: nat): Option<RelayInfo>
  {
    if registered == [] then None
    else if registered[0].manager == manager then Some(registered[0])
    else RelayInfoForManager(registered[1..], manager)
  }

  /** An event relay is returned as it is; a preferred one with the registration of the manager it answered with,
      under its own URL. */
  function Chosen(net: Network, winner: Relay): (info: Option<RelayInfo>)
    ensures info.Some? ==> info.value.relayUrl == winner.relayUrl
  {
    if winner.manager.Some? then Some(RelayInfo(winner.relayUrl, winner.manager.value))
    else
      var event := RelayInfoForManager(net.registered, net.managerOf(winner.relayUrl));
      if event.Some? then Some(event.value.(relayUrl := winner.relayUrl)) else None
  }

  /** The relays pinged in a round. */
  function Pinged(slice: seq<Relay>): seq<Relay> { AsMap([], slice) }

  function RaceOf(net: Network, n: nat, relays: seq<Relay>): WaitForSuccessResults { net.race(n, KeysOf(relays)) }

  /** The winner is a relay that was pinged and did not fail; something settled, and only relays of the slice. */
  ghost predicate GoodRace(slice: seq<Relay>, relays: seq<Relay>, r: WaitForSuccessResults)
  {
    && (r.winner.Some? ==> r.winner.value < |relays| && relays[r.winner.value].relayUrl !in r.errors)
    && Settled(relays, r) != {} && Settled(relays, r) <= UrlsOf(slice)
  }

  lemma RaceIsGood(net: Network, slice: seq<Relay>, n: nat)
    requires LegalRaces(net) && slice != []
    ensures GoodRace(slice, Pinged(slice), RaceOf(net, n, Pinged(slice)))
  {
    var relays := Pinged(slice);
    AsMapUrls([], slice);
    DistinctUrlsAreDistinct(relays);
    UrlAt(slice, 0);
    assert UrlsOf(relays) == UrlsOf(slice) && relays != [];
    LegalRaceIsGood(relays, net.race(n, KeysOf(relays)));
  }

  lemma LegalRaceIsGood(relays: seq<Relay>, r: WaitForSuccessResults)
    requires relays != [] && Legal(r, KeysOf(relays))
    ensures GoodRace(relays, relays, r)
  {
    var keys := KeysOf(relays);
    forall k | k in keys ensures k in UrlsOf(relays) {
      var i :| 0 <= i < |keys| && keys[i] == k;
      UrlAt(relays, i);
    }
    if r.winner.None? { assert keys[0] in r.errors; } else { assert keys[r.winner.value] in keys; }
  }

  function Round(net: Network, s: Selection, slice: seq<Relay>): (Selection, Option<RelayInfo>)
    requires LegalRaces(net) && slice != []
  {
    RaceIsGood(net, slice, s.rounds);
    AfterRace(net, s, Pinged(slice), RaceOf(net, s.rounds, Pinged(slice)))
  }

  function AfterRace(net: Network, s: Selection, relays: seq<Relay>, race: WaitForSuccessResults): (Selection,
                     Option<RelayInfo>)
    requires race.winner.Some? ==> race.winner.value < |relays|
  {
    (Selection(Prune(s.remaining, Settled(relays, race)), s.errors + race.errors, s.rounds + 1),
     if race.winner.Some? then Chosen(net, relays[race.winner.value]) else None)
  }

  /** What a call leaves behind: nothing new to try, errors only of relays no longer left, and only an untried relay
      that did not fail returned. */
  predicate Advances(s: Selection, s': Selection, info: Option<RelayInfo>)
  {
    && Urls(s'.remaining) <= Urls(s.remaining)
    && s.errors.Keys <= s'.errors.Keys <= s.errors.Keys + (Urls(s.remaining) - Urls(s'.remaining))
    && (info.Some? ==> Returns(s, s', info.value.relayUrl))
  }

  predicate Returns(s: Selection, s': Selection, url: Key)
  {
    url in Urls(s.remaining) && url !in Urls(s'.remaining) && (url in s'.errors ==> url in s.errors)
  }

  /** A round settles at least one URL of the slice, removes what it settled everywhere, and returns only a URL that
      did not fail. */
  lemma RoundSettles(net: Network, s: Selection, slice: seq<Relay>)
    requires LegalRaces(net) && slice != [] && UrlsOf(slice) <= Urls(s.remaining)
    ensures Advances(s, Round(net, s, slice).0, Round(net, s, slice).1)
    ensures Total(Round(net, s, slice).0.remaining) < Total(s.remaining)
  {
    RaceIsGood(net, slice, s.rounds);
    GoodRaceAdvances(net, s, slice, Pinged(slice), RaceOf(net, s.rounds, Pinged(slice)));
  }

  lemma GoodRaceAdvances(net: Network, s: Selection, slice: seq<Relay>, relays: seq<Relay>, race: WaitForSuccessResults)
    requires GoodRace(slice, relays, race) && UrlsOf(slice) <= Urls(s.remaining)
    ensures Advances(s, AfterRace(net, s, relays, race).0, AfterRace(net, s, relays, race).1)
    ensures Total(AfterRace(net, s, relays, race).0.remaining) < Total(s.remaining)
  {
    var out := Settled(relays, race);
    PruneUrls(s.remaining, out);
    var url :| url in out;
    assert url in Urls(s.remaining) * out;
  }

  // ---------- what a round promises, from the relays and the network alone ----------

  ghost predicate IsRegistered(net: Network, manager: nat)
  {
    exists k :: 0 <= k < |net.registered| && net.registered[k].manager == manager
  }

  /** What the winner of a race is returned as: an event relay with its own manager; a preferred relay under its own
      URL with the manager it answered with, if that manager is registered, and otherwise not at all. */
  ghost predicate ReturnedAs(net: Network, winner: Relay, info: Option<RelayInfo>)
  {
    match winner.manager
    case Some(manager) => info == Some(RelayInfo(winner.relayUrl, manager))
    case None =>
      if IsRegistered(net, net.managerOf(winner.relayUrl))
      then info == Some(RelayInfo(winner.relayUrl, net.managerOf(winner.relayUrl)))
      else info == None
  }

  /** After a race between these relays: the failed ones and the winner are gone from every tier, which otherwise stay
      as they were, and the failures are noted. */
  ghost predicate RacePromise(net: Network, s: Selection, relays: seq<Relay>, race: WaitForSuccessResults,
                              s': Selection, info: Option<RelayInfo>)
    requires race.winner.Some? ==> race.winner.value < |relays|
  {
    && s'.rounds == s.rounds + 1 && s'.errors == s.errors + race.errors && |s'.remaining| == |s.remaining|
    && (match race.winner
        case None =>
          info == None && forall t :: 0 <= t < |s.remaining| ==>
            TakenOut(s.remaining[t], race.errors.Keys, s'.remaining[t])
        case Some(w) =>
          ReturnedAs(net, relays[w], info) && forall t :: 0 <= t < |s.remaining| ==>
            TakenOut(s.remaining[t], race.errors.Keys + {relays[w].relayUrl}, s'.remaining[t]))
  }

  /** A round races the last relay of each URL of the slice. */
  ghost predicate RoundPromise(net: Network, s: Selection, slice: seq<Relay>, s': Selection, info: Option<RelayInfo>)
  {
    exists relays: seq<Relay>, keys: seq<Key> ::
      && OncePerUrl(slice, relays)
      && |keys| == |relays| && (forall i :: 0 <= i < |keys| ==> keys[i] == relays[i].relayUrl)
      && (net.race(s.rounds, keys).winner.Some? ==> net.race(s.rounds, keys).winner.value < |relays|)
      && RacePromise(net, s, relays, net.race(s.rounds, keys), s', info)
  }

  lemma {:induction false} FoundIsRegistered(net: Network, registered: seq<RelayInfo>, manager: nat)
    ensures var found := RelayInfoForManager(registered, manager);
            && (found.Some? <==> exists k :: 0 <= k < |registered| && registered[k].manager == manager)
            && (found.Some? ==> found.value.manager == manager)
  {
    if registered != [] && registered[0].manager != manager {
      FoundIsRegistered(net, registered[1..], manager);
      assert forall k :: 0 < k < |registered| ==> registered[k] == registered[1..][k - 1];
    }
  }

  lemma ChosenIsReturned(net: Network, winner: Relay)
    ensures ReturnedAs(net, winner, Chosen(net, winner))
  {
    FoundIsRegistered(net, net.registered, net.managerOf(winner.relayUrl));
  }

  lemma AfterRaceKeepsItsPromise(net: Network, s: Selection, relays: seq<Relay>, race: WaitForSuccessResults)
    requires race.winner.Some? ==> race.winner.value < |relays|
    ensures RacePromise(net, s, relays, race, AfterRace(net, s, relays, race).0, AfterRace(net, s, relays, race).1)
  {
    var out := race.errors.Keys + if race.winner.Some? then {relays[race.winner.value].relayUrl} else {};
    var s' := AfterRace(net, s, relays, race).0;
    PruneTakesOut(s.remaining, out);
    if race.winner.Some? {
      ChosenIsReturned(net, relays[race.winner.value]);
    } else {
      assert out == race.errors.Keys;
    }
  }

  lemma RoundKeepsItsPromise(net: Network, s: Selection, slice: seq<Relay>, s': Selection, info: Option<RelayInfo>)
    requires LegalRaces(net) && slice != [] && (s', info) == Round(net, s, slice)
    ensures RoundPromise(net, s, slice, s', info)
  {
    RaceIsGood(net, slice, s.rounds);
    var relays := Pinged(slice);
    AsMapIsOncePerUrl([], [], slice);
    assert [] + slice == slice;
    AfterRaceKeepsItsPromise(net, s, relays, net.race(s.rounds, KeysOf(relays)));
  }

  /** The relay is in one of the tiers. */
  ghost predicate IsLeft(tiers: seq<seq<Relay>>, relay: Relay)
  {
    exists t :: 0 <= t < |tiers| && relay in tiers[t]
  }

  /** A preferred relay whose manager is not registered: it is dropped when it wins. */
  ghost predicate Unregistered(net: Network, tiers: seq<seq<Relay>>, url: Key)
  {
    IsLeft(tiers, Relay(url, None)) && !IsRegistered(net, net.managerOf(url))
  }

  /** What is returned was left to try, and is returned with the manager it is known by: its own for an event relay; the
      one it answered with, a registered one, for a preferred relay. */
  ghost predicate KnownRelay(net: Network, tiers: seq<seq<Relay>>, info: RelayInfo)
  {
    || IsLeft(tiers, Relay(info.relayUrl, Some(info.manager)))
    || (IsLeft(tiers, Relay(info.relayUrl, None)) && info.manager == net.managerOf(info.relayUrl)
        && IsRegistered(net, info.manager))
  }

  /** A relay leaves for one of three reasons: it failed, it is returned, or it is a preferred relay that answered with
      a manager that is not registered. */
  ghost predicate LeavesForAReason(net: Network, s: Selection, s': Selection, info: Option<RelayInfo>, url: Key)
  {
    url !in Urls(s'.remaining) ==>
      || url in s'.errors
      || (info.Some? && info.value.relayUrl == url)
      || Unregistered(net, s.remaining, url)
  }

  lemma {:induction false} UrlIsLeft(relays: seq<Relay>, url: Key)
    ensures url in UrlsOf(relays) <==> exists i :: 0 <= i < |relays| && relays[i].relayUrl == url
  {
    if relays != [] {
      UrlIsLeft(relays[1..], url);
      assert forall i :: 0 < i < |relays| ==> relays[i] == relays[1..][i - 1];
    }
  }

  lemma WinnerIsOfSlice(slice: seq<Relay>, w: nat)
    requires w < |Pinged(slice)|
    ensures Pinged(slice)[w] in slice
  {
    AsMapIsOncePerUrl([], [], slice);
    assert [] + slice == slice && LastWithUrl(slice, Pinged(slice)[w]);
  }

  lemma RelaysLeaveForAReason(net: Network, s: Selection, slice: seq<Relay>, url: Key)
    requires LegalRaces(net) && slice != [] && (forall relay :: relay in slice ==> IsLeft(s.remaining, relay))
    requires url in Urls(s.remaining)
    ensures LeavesForAReason(net, s, Round(net, s, slice).0, Round(net, s, slice).1, url)
  {
    RaceIsGood(net, slice, s.rounds);
    var race := RaceOf(net, s.rounds, Pinged(slice));
    PruneUrls(s.remaining, Settled(Pinged(slice), race));
    if race.winner.Some? {
      WinnerIsOfSlice(slice, race.winner.value);
      ChosenIsReturned(net, Pinged(slice)[race.winner.value]);
    }
  }

  lemma RoundReturnsKnownRelays(net: Network, s: Selection, slice: seq<Relay>)
    requires LegalRaces(net) && slice != [] && (forall relay :: relay in slice ==> IsLeft(s.remaining, relay))
    ensures var info := Round(net, s, slice).1;
            info.Some? ==> KnownRelay(net, s.remaining, info.value)
  {
    RaceIsGood(net, slice, s.rounds);
    var race := RaceOf(net, s.rounds, Pinged(slice));
    if race.winner.Some? {
      WinnerIsOfSlice(slice, race.winner.value);
      ChosenIsReturned(net, Pinged(slice)[race.winner.value]);
    }
  }

  // ---------- a call to selectNextRelay ----------

  function Select(net: Network, s: Selection): (r: (Selection, Option<RelayInfo>))
    requires LegalRaces(net)
    ensures Total(r.0.remaining) <= Total(s.remaining) && (r.1.Some? ==> Total(r.0.remaining) < Total(s.remaining))
    decreases Total(s.remaining)
  {
    var slice := NextSlice(s.remaining, net.sliceSize);
    if slice == [] then (s, None)
    else
      SliceIsLeft(s.remaining, net.sliceSize);
      RoundSettles(net, s, slice);
      var next := Round(net, s, slice);
      if next.1.None? then Select(net, next.0) else next
  }

  /** Every call to `selectNextRelay` ends; what it returns was left to try, and is not left nor failed. */
  lemma {:induction false} SelectReturnsUntried(net: Network, s: Selection)
    requires LegalRaces(net)
    ensures Advances(s, Select(net, s).0, Select(net, s).1)
    ensures Select(net, s).1.None? ==> net.sliceSize == 0 || Total(Select(net, s).0.remaining) == 0
    decreases Total(s.remaining)
  {
    var slice := NextSlice(s.remaining, net.sliceSize);
    SliceIsLeft(s.remaining, net.sliceSize);
    if slice != [] {
      RoundSettles(net, s, slice);
      var next := Round(net, s, slice);
      if next.1.None? {
        SelectReturnsUntried(net, next.0);
        AdvanceTwice(s, next.0, Select(net, next.0).0, Select(net, next.0).1);
      }
    }
  }

  lemma AdvanceTwice(s: Selection, s': Selection, s'': Selection, info: Option<RelayInfo>)
    requires Advances(s, s', None) && Advances(s', s'', info)
    ensures Advances(s, s'', info)
  {
  }

  lemma {:induction false} SliceRelaysAreLeft(tiers: seq<seq<Relay>>, sliceSize: nat)
    ensures forall relay :: relay in NextSlice(tiers, sliceSize) ==> IsLeft(tiers, relay)
  {
    if tiers != [] {
      SliceRelaysAreLeft(tiers[1..], sliceSize);
      forall relay | relay in NextSlice(tiers, sliceSize) ensures IsLeft(tiers, relay) {
        if relay !in tiers[0] {
          assert IsLeft(tiers[1..], relay);
          var t :| 0 <= t < |tiers[1..]| && relay in tiers[1..][t];
          assert relay in tiers[t + 1];
        }
      }
    }
  }

  /** A round brings no relay back. */
  lemma RoundAddsNoRelay(net: Network, s: Selection, slice: seq<Relay>, relay: Relay)
    requires LegalRaces(net) && slice != [] && IsLeft(Round(net, s, slice).0.remaining, relay)
    ensures IsLeft(s.remaining, relay)
  {
    RaceIsGood(net, slice, s.rounds);
    var out := Settled(Pinged(slice), RaceOf(net, s.rounds, Pinged(slice)));
    var t :| 0 <= t < |s.remaining| && relay in Prune(s.remaining, out)[t];
    PruneAt(s.remaining, out, t);
    WithoutTakesOut(s.remaining[t], out);
  }

  /** Over all rounds of a call relays leave for the same three reasons, and what is returned is a known relay. */
  lemma {:induction false} SelectReturnsKnownRelays(net: Network, s: Selection)
    requires LegalRaces(net)
    ensures var (s', info) := Select(net, s);
            && (info.Some? ==> KnownRelay(net, s.remaining, info.value))
            && forall url :: url in Urls(s.remaining) ==> LeavesForAReason(net, s, s', info, url)
    decreases Total(s.remaining)
  {
    var slice := NextSlice(s.remaining, net.sliceSize);
    SliceIsLeft(s.remaining, net.sliceSize);
    if slice != [] {
      SliceRelaysAreLeft(s.remaining, net.sliceSize);
      RoundSettles(net, s, slice);
      RoundReturnsKnownRelays(net, s, slice);
      var (s1, info1) := Round(net, s, slice);
      var (s2, info2) := Select(net, s1);
      forall url | url in Urls(s.remaining) ensures LeavesForAReason(net, s, s1, info1, url) {
        RelaysLeaveForAReason(net, s, slice, url);
      }
      if info1.None? {
        SelectReturnsKnownRelays(net, s1);
        SelectReturnsUntried(net, s1);
        forall relay | IsLeft(s1.remaining, relay) ensures IsLeft(s.remaining, relay) {
          RoundAddsNoRelay(net, s, slice, relay);
        }
        forall url | url in Urls(s.remaining) ensures LeavesForAReason(net, s, s2, info2, url) {
          assert LeavesForAReason(net, s, s1, info1, url);
          assert url in Urls(s1.remaining) ==> LeavesForAReason(net, s1, s2, info2, url);
        }
      }
    }
  }

  // ---------- tiers ----------

  /** The first tier that is not empty. */
  function FirstTier(tiers: seq<seq<Relay>>): (t: nat)
    ensures t <= |tiers| && forall u :: 0 <= u < t ==> tiers[u] == []
    ensures t < |tiers| ==> tiers[t] != []
  {
    if tiers == [] then 0 else if tiers[0] != [] then 0 else 1 + FirstTier(tiers[1..])
  }

  /** Only relays of the first tier that is not empty are pinged, `sliceSize` at a time. */
  lemma {:induction false} SliceIsOfFirstTier(tiers: seq<seq<Relay>>, sliceSize: nat)
    requires NextSlice(tiers, sliceSize) != []
    ensures var t := FirstTier(tiers);
            t < |tiers| && NextSlice(tiers, sliceSize)
                == tiers[t][..if sliceSize < |tiers[t]| then sliceSize else |tiers[t]|]
  {
    SliceIsLeft(tiers, sliceSize);
    if tiers[0] == [] { SliceIsOfFirstTier(tiers[1..], sliceSize); }
  }

  /** Rounds never go back to an earlier tier. */
  lemma TiersAreTriedInOrder(net: Network, s: Selection, slice: seq<Relay>)
    requires LegalRaces(net) && slice != []
    ensures FirstTier(s.remaining) <= FirstTier(Round(net, s, slice).0.remaining)
  {
    var kept := Round(net, s, slice).0.remaining;
    RaceIsGood(net, slice, s.rounds);
    var out := Settled(Pinged(slice), RaceOf(net, s.rounds, Pinged(slice)));
    forall u | 0 <= u < FirstTier(s.remaining) ensures kept[u] == [] { PruneAt(s.remaining, out, u); }
  }

  // ---------- a run of calls ----------

  /** Each selection is what a call to `selectNextRelay` leaves of the one before. */
  ghost predicate CallAfterCall(net: Network, ss: seq<Selection>)
    requires LegalRaces(net)
  {
    forall k :: 0 <= k < |ss| - 1 ==> ss[k + 1] == Select(net, ss[k]).0
  }

  ghost predicate EachAdvances(ss: seq<Selection>)
  {
    forall k :: 0 <= k < |ss| - 1 ==> Advances(ss[k], ss[k + 1], None)
  }

  lemma CallsAdvance(net: Network, ss: seq<Selection>)
    requires LegalRaces(net) && CallAfterCall(net, ss)
    ensures EachAdvances(ss)
  {
    forall k | 0 <= k < |ss| - 1 ensures Advances(ss[k], ss[k + 1], None) {
      SelectReturnsUntried(net, ss[k]);
    }
  }

  lemma {:induction false} AdvanceOften(ss: seq<Selection>, i: nat, j: nat)
    requires EachAdvances(ss) && i <= j < |ss|
    ensures Advances(ss[i], ss[j], None)
    decreases j
  {
    if i < j {
      AdvanceOften(ss, i, j - 1);
      assert Advances(ss[j - 1], ss[j - 1 + 1], None);
      AdvanceTwice(ss[i], ss[j - 1], ss[j], None);
    }
  }

  /** Over a whole run of calls that starts with nothing failed left to try, what a call returns was left to try from
      the start, is not left after it, never fails, before or after, and is returned by no later call. */
  lemma NoUrlTwice(net: Network, ss: seq<Selection>, i: nat, j: nat)
    requires LegalRaces(net) && CallAfterCall(net, ss) && i < j < |ss| && Select(net, ss[i]).1.Some?
    requires ss[0].errors.Keys !! Urls(ss[0].remaining)
    ensures var url := Select(net, ss[i]).1.value.relayUrl;
            && url in Urls(ss[0].remaining) && url !in Urls(ss[j].remaining) && url !in ss[j].errors
            && (Select(net, ss[j]).1.Some? ==> Select(net, ss[j]).1.value.relayUrl != url)
  {
    CallsAdvance(net, ss);
    AdvanceOften(ss, 0, i);
    SelectReturnsUntried(net, ss[i]);
    assert ss[i + 1] == Select(net, ss[i]).0;
    AdvanceOften(ss, i + 1, j);
    SelectReturnsUntried(net, ss[j]);
  }

  // ---------- the manager as the source runs it ----------

  class RelaySelectionManager {
    const net: Network
    var remainingRelays: seq<seq<Relay>>
    var errors: map<Key, nat>
    var rounds: nat

    ghost function Current(): Selection
      reads this
    {
      Selection(remainingRelays, errors, rounds)
    }

    /** Constructed and initialised with the shuffled tiers. */
    constructor (net: Network, tiers: seq<seq<Relay>>)
      ensures this.net == net && Current() == Selection(tiers, map[], 0)
    {
      this.net, remainingRelays, errors, rounds := net, tiers, map[], 0;
    }

    method GetNextSlice() returns (slice: seq<Relay>)
      ensures slice == NextSlice(remainingRelays, net.sliceSize)
    {
      for i := 0 to |remainingRelays|
        invariant NextSlice(remainingRelays, net.sliceSize) == NextSlice(remainingRelays[i..], net.sliceSize)
      {
        var relays := remainingRelays[i];
        var bulkSize := if net.sliceSize < |relays| then net.sliceSize else |relays|;
        slice := relays[..bulkSize];
        assert remainingRelays[i..][1..] == remainingRelays[i + 1..];
        if slice != [] { return; }
      }
      slice := [];
    }

    method HandleWaitForSuccessResults(winner: Option<Key>, raceErrors: map<Key, nat>)
      modifies this
      ensures errors == old(errors) + raceErrors && rounds == old(rounds)
      ensures remainingRelays == Prune(old(remainingRelays),
                raceErrors.Keys + if winner.Some? then {winner.value} else {})
    {
      var out := raceErrors.Keys + if winner.Some? then {winner.value} else {};
      errors := errors + raceErrors;
      var tiers := [];
      for i := 0 to |remainingRelays|
        invariant remainingRelays == old(remainingRelays)
                    && tiers + Prune(remainingRelays[i..], out) == Prune(remainingRelays, out)
      {
        assert remainingRelays[i..][1..] == remainingRelays[i + 1..];
        tiers := tiers + [Without(remainingRelays[i], out)];
      }
      remainingRelays := tiers;
    }

    method NextRelayInternal(slice: seq<Relay>) returns (relayInfo: Option<RelayInfo>)
      requires LegalRaces(net) && slice != []
      modifies this
      ensures (Current(), relayInfo) == Round(net, old(Current()), slice)
      ensures RoundPromise(net, old(Current()), slice, Current(), relayInfo)
    {
      RaceIsGood(net, slice, rounds);
      var asArray := Pinged(slice);
      var raceResult := RaceOf(net, rounds, asArray);
      rounds := rounds + 1;
      if raceResult.winner.None? {
        HandleWaitForSuccessResults(None, raceResult.errors);
        relayInfo := None;
      } else {
        var winner := asArray[raceResult.winner.value];
        HandleWaitForSuccessResults(Some(winner.relayUrl), raceResult.errors);
        relayInfo := Chosen(net, winner);
      }
      RoundKeepsItsPromise(net, old(Current()), slice, Current(), relayInfo);
    }

    method SelectNextRelay() returns (relayInfo: Option<RelayInfo>)
      requires LegalRaces(net)
      modifies this
      ensures (Current(), relayInfo) == Select(net, old(Current()))
      ensures relayInfo.Some? ==> KnownRelay(net, old(remainingRelays), relayInfo.value)
      ensures forall url :: url in Urls(old(remainingRelays)) ==>
                LeavesForAReason(net, old(Current()), Current(), relayInfo, url)
    {
      SelectReturnsKnownRelays(net, Current());
      while true
        invariant Select(net, Current()) == Select(net, old(Current()))
        decreases Total(remainingRelays)
      {
        var slice := GetNextSlice();
        if slice == [] { return None; }
        SliceIsLeft(remainingRelays, net.sliceSize);
        RoundSettles(net, Current(), slice);
        relayInfo := NextRelayInternal(slice);
        if relayInfo.Some? { return; }
      }
    }
  }

  // ---------- the client's retry loop ----------

  datatype RelayingAttempt = Relayed | RelayError(error: nat) | OtherError(error: nat)

  datatype RelayingResult = RelayingResult(transaction: Option<Key>, attempts: seq<Key>, relayingErrors: map<Key, nat>)

  /** Relays are attempted until one relays, one fails for another reason than the relay, or none is left. */
  function Attempts(net: Network, s: Selection, attempt: Key -> RelayingAttempt): RelayingResult
    requires LegalRaces(net)
    decreases Total(s.remaining)
  {
    var next := Select(net, s);
    if next.1.None? then RelayingResult(None, [], map[])
    else
      var url := next.1.value.relayUrl;
      match attempt(url)
      case Relayed => RelayingResult(Some(url), [url], map[])
      case OtherError(e) => RelayingResult(None, [url], map[url := e])
      case RelayError(e) =>
        Failed(url, e, Attempts(net, next.0, attempt))
  }

  /** A relay error at `url`, then the rest. */
  function Failed(url: Key, e: nat, rest: RelayingResult): RelayingResult
  {
    RelayingResult(rest.transaction, [url] + rest.attempts, map[url := e] + rest.relayingErrors)
  }

  method RelayTransaction(net: Network, tiers: seq<seq<Relay>>, attempt: Key -> RelayingAttempt)
    returns (r: RelayingResult)
    requires LegalRaces(net)
    ensures r == Attempts(net, Selection(tiers, map[], 0), attempt)
  {
    var manager := new RelaySelectionManager(net, tiers);
    var attempts: seq<Key>, relayingErrors: map<Key, nat> := [], map[];
    ghost var all := Attempts(net, manager.Current(), attempt);
    while true
      invariant manager.net == net
      invariant ResumesAt(all, attempts, relayingErrors, net, manager.Current(), attempt)
      decreases Total(manager.remainingRelays)
    {
      ghost var before := manager.Current();
      var activeRelay := manager.SelectNextRelay();
      ResumeNext(all, attempts, relayingErrors, net, before, attempt, manager.Current(), activeRelay);
      if activeRelay.None? { return RelayingResult(None, attempts, relayingErrors); }
      var url := activeRelay.value.relayUrl;
      var relayingAttempt := attempt(url);
      attempts := attempts + [url];
      if relayingAttempt.Relayed? { return RelayingResult(Some(url), attempts, relayingErrors); }
      relayingErrors := relayingErrors + map[url := relayingAttempt.error];
      if relayingAttempt.OtherError? { return RelayingResult(None, attempts, relayingErrors); }
    }
  }

  ghost predicate Resumes(all: RelayingResult, attempts: seq<Key>, relayingErrors: map<Key, nat>, rest: RelayingResult)
  {
    all == RelayingResult(rest.transaction, attempts + rest.attempts, relayingErrors + rest.relayingErrors)
  }

  ghost predicate ResumesAt(all: RelayingResult, attempts: seq<Key>, relayingErrors: map<Key, nat>, net: Network,
                            s: Selection, attempt: Key -> RelayingAttempt)
    requires LegalRaces(net)
  {
    Resumes(all, attempts, relayingErrors, Attempts(net, s, attempt))
  }

  /** One more attempt, whatever its outcome. */
  lemma ResumeNext(all: RelayingResult, attempts: seq<Key>, relayingErrors: map<Key, nat>, net: Network,
                   s: Selection, attempt: Key -> RelayingAttempt, s': Selection, info: Option<RelayInfo>)
    requires LegalRaces(net) && ResumesAt(all, attempts, relayingErrors, net, s, attempt)
    requires (s', info) == Select(net, s)
    ensures info.None? ==> all == RelayingResult(None, attempts, relayingErrors)
    ensures info.Some? ==>
              var url := info.value.relayUrl;
              match attempt(url)
              case Relayed => all == RelayingResult(Some(url), attempts + [url], relayingErrors)
              case OtherError(e) => all == RelayingResult(None, attempts + [url], relayingErrors + map[url := e])
              case RelayError(e) => ResumesAt(all, attempts + [url], relayingErrors + map[url := e], net, s', attempt)
  {
    if info.Some? {
      var url := info.value.relayUrl;
      if attempt(url).RelayError? {
        ResumeFailed(all, attempts, relayingErrors, url, attempt(url).error, Attempts(net, s', attempt));
      }
    }
  }

  lemma ResumeFailed(all: RelayingResult, attempts: seq<Key>, relayingErrors: map<Key, nat>, url: Key, e: nat,
                     next: RelayingResult)
    requires Resumes(all, attempts, relayingErrors, Failed(url, e, next))
    ensures Resumes(all, attempts + [url], relayingErrors + map[url := e], next)
  {
    assert attempts + ([url] + next.attempts) == attempts + [url] + next.attempts;
    assert relayingErrors + (map[url := e] + next.relayingErrors)
        == relayingErrors + map[url := e] + next.relayingErrors;
  }

  /** Every attempt but the last failed with a relay error, the errors are those of the failed attempts, and there is a
      transaction exactly when the last attempt relayed. */
  ghost predicate Consistent(r: RelayingResult, attempt: Key -> RelayingAttempt)
  {
    && (forall i :: 0 <= i < |r.attempts| - 1 ==> attempt(r.attempts[i]).RelayError?)
    && (r.transaction.Some? <==> r.attempts != [] && attempt(r.attempts[|r.attempts| - 1]).Relayed?)
    && (r.transaction.Some? ==> r.transaction.value == r.attempts[|r.attempts| - 1])
    && (forall url :: url in r.relayingErrors <==> url in r.attempts && !attempt(url).Relayed?)
  }

  lemma {:induction false} AttemptsAreConsistent(net: Network, s: Selection, attempt: Key -> RelayingAttempt)
    requires LegalRaces(net)
    ensures Consistent(Attempts(net, s, attempt), attempt)
    decreases Total(s.remaining)
  {
    var next := Select(net, s);
    if next.1.Some? && attempt(next.1.value.relayUrl).RelayError? {
      AttemptsAreConsistent(net, next.0, attempt);
      FailedFirst(next.1.value.relayUrl, Attempts(net, next.0, attempt), attempt);
    }
  }

  lemma FailedFirst(url: Key, rest: RelayingResult, attempt: Key -> RelayingAttempt)
    requires Consistent(rest, attempt) && attempt(url).RelayError?
    ensures Consistent(Failed(url, attempt(url).error, rest), attempt)
  {
  }

  ghost predicate EachOnce(attempts: seq<Key>, urls: set<Key>)
  {
    Distinct(attempts) && |attempts| <= |urls| && forall i :: 0 <= i < |attempts| ==> attempts[i] in urls
  }

  /** At most one attempt for each distinct URL. */
  lemma {:induction false} OneAttemptPerUrl(net: Network, s: Selection, attempt: Key -> RelayingAttempt)
    requires LegalRaces(net)
    ensures EachOnce(Attempts(net, s, attempt).attempts, Urls(s.remaining))
    decreases Total(s.remaining)
  {
    SelectReturnsUntried(net, s);
    var next := Select(net, s);
    if next.1.Some? {
      var url := next.1.value.relayUrl;
      AttemptsStart(net, s, attempt);
      if attempt(url).RelayError? {
        OneAttemptPerUrl(net, next.0, attempt);
        OnceMore(url, Attempts(net, next.0, attempt).attempts, Urls(next.0.remaining), Urls(s.remaining));
      } else {
        OnceMore(url, [], {}, Urls(s.remaining));
      }
    }
  }

  lemma AttemptsStart(net: Network, s: Selection, attempt: Key -> RelayingAttempt)
    requires LegalRaces(net) && Select(net, s).1.Some?
    ensures var url := Select(net, s).1.value.relayUrl;
            Attempts(net, s, attempt).attempts
            == [url] + if attempt(url).RelayError? then Attempts(net, Select(net, s).0, attempt).attempts else []
  {
  }

  lemma OnceMore(url: Key, attempts: seq<Key>, left: set<Key>, urls: set<Key>)
    requires EachOnce(attempts, left) && left <= urls && url in urls && url !in left
    ensures EachOnce([url] + attempts, urls)
  {
    FewerUrls(left, urls, url);
  }

  lemma FewerUrls(a: set<Key>, b: set<Key>, x: Key)
    requires a <= b && x in b && x !in a
    ensures |a| + 1 <= |b|
  {
    assert a + {x} <= b;
    SubsetSize(a + {x}, b);
  }

  lemma {:induction false} SubsetSize(a: set<Key>, b: set<Key>)
    requires a <= b
    ensures |a| <= |b|
    decreases |a|
  {
    if a != {} {
      var x :| x in a;
      SubsetSize(a - {x}, b - {x});
    }
  }
}
