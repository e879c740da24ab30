/** JavaScript objects keyed by nonce, with the enumeration order of OrdinaryOwnPropertyKeys
    (section 10.1.11.1 of ECMA-262): array indices first, ascending, then other keys in creation order. */
module ObjectMaps {
  datatype ObjectMap<+V> = ObjectMap(entries: seq<(nat, V)>)

  /** Array indices are the integers below 2^32 - 1. */
  predicate IsArrayIndex(key: nat) { key < 0xFFFF_FFFF }

  predicate HasKey<V>(entries: seq<(nat, V)>, key: nat)
  {
    exists i :: 0 <= i < |entries| && entries[i].0 == key
  }

  /** `o[key] = value`: an existing property keeps its place. */
  function Assign<V>(entries: seq<(nat, V)>, key: nat, value: V): (r: seq<(nat, V)>)
    ensures !HasKey(entries, key) ==> r == entries + [(key, value)]
  {
    if entries == [] then [(key, value)]
    else if entries[0].0 == key then [(key, value)] + entries[1..]
    else
      assert HasKey(entries[1..], key) ==> HasKey(entries, key) by {
        if HasKey(entries[1..], key) {
          var i :| 0 <= i < |entries[1..]| && entries[1..][i].0 == key;
          assert entries[i + 1].0 == key;
        }
      }
      [entries[0]] + Assign(entries[1..], key, value)
  }

  /** `o[key] = value` on an existing property changes its value alone. */
  lemma {:induction false} AssignInPlace<V>(entries: seq<(nat, V)>, key: nat, value: V, i: nat)
    requires i < |entries| && entries[i].0 == key && forall j :: 0 <= j < i ==> entries[j].0 != key
    ensures Assign(entries, key, value) == entries[i := (key, value)]
  {
    if i > 0 {
      AssignInPlace(entries[1..], key, value, i - 1);
      assert entries == [entries[0]] + entries[1..];
    }
  }

  function InsertByKey<V>(e: (nat, V), s: seq<(nat, V)>): (r: seq<(nat, V)>)
  {
    if s == [] then [e] else if e.0 <= s[0].0 then [e] + s else [s[0]] + InsertByKey(e, s[1..])
  }

  function IndexEntries<V>(entries: seq<(nat, V)>): (r: seq<(nat, V)>)
  {
    if entries == [] then []
    else if IsArrayIndex(entries[0].0) then InsertByKey(entries[0], IndexEntries(entries[1..]))
    else IndexEntries(entries[1..])
  }

  function OtherEntries<V>(entries: seq<(nat, V)>): (r: seq<(nat, V)>)
  {
    if entries == [] then []
    else if IsArrayIndex(entries[0].0) then OtherEntries(entries[1..])
    else [entries[0]] + OtherEntries(entries[1..])
  }

  function Values<V>(entries: seq<(nat, V)>): (r: seq<V>)
    ensures |r| == |entries| && forall i :: 0 <= i < |r| ==> r[i] == entries[i].1
  {
    if entries == [] then [] else [entries[0].1] + Values(entries[1..])
  }

  /** `Object.values(o)`. */
  function ObjectValues<V>(o: ObjectMap<V>): (r: seq<V>)
  {
    Values(IndexEntries(o.entries) + OtherEntries(o.entries))
  }

  /** Of two properties the later one comes first exactly when it is an array index, so below 2^32 - 1, and smaller. */
  lemma TwoProperties<V>(a: nat, x: V, b: nat, y: V)
    requires a != b
    ensures ObjectValues(ObjectMap([(a, x), (b, y)])) == if b < a && b < 4294967295 then [y, x] else [x, y]
  {
    var first, second := (a, x), (b, y);
    var none: seq<(nat, V)> := [];
    assert [first, second][1..] == [second] && [second][1..] == none;
    assert IndexEntries([second]) == if b < 4294967295 then [second] else none;
    assert OtherEntries([second]) == if b < 4294967295 then none else [second];
    assert InsertByKey(first, none) == [first];
    assert InsertByKey(first, [second]) == if a <= b then [first, second] else [second, first];
    assert Values([second]) == [y] && Values([first])[..] == [x];
    assert Values([first, second]) == [x, y] && Values([second, first]) == [y, x];
  }

  ghost predicate RisingKeys<V>(entries: seq<(nat, V)>)
  {
    forall i, j :: 0 <= i < j < |entries| ==> entries[i].0 < entries[j].0
  }

  lemma {:induction false} LargeKeysKeepCreationOrder<V>(entries: seq<(nat, V)>)
    requires forall i :: 0 <= i < |entries| ==> !IsArrayIndex(entries[i].0)
    ensures IndexEntries(entries) == [] && OtherEntries(entries) == entries
  {
    if entries != [] { LargeKeysKeepCreationOrder(entries[1..]); }
  }

  lemma InsertFirst<V>(e: (nat, V), s: seq<(nat, V)>)
    requires s != [] ==> e.0 <= s[0].0
    ensures InsertByKey(e, s) == [e] + s
  {
  }

  lemma FirstIndex<V>(first: (nat, V), rest: seq<(nat, V)>)
    requires IsArrayIndex(first.0)
    ensures IndexEntries([first] + rest) == InsertByKey(first, IndexEntries(rest))
    ensures OtherEntries([first] + rest) == OtherEntries(rest)
  {
    assert ([first] + rest)[1..] == rest;
  }

  lemma Associate<V>(a: seq<V>, b: seq<V>, c: seq<V>)
    ensures (a + b) + c == a + (b + c)
  {
  }

  /** A smallest index in front of entries that are enumerated in order. */
  lemma FirstInOrder<V>(first: (nat, V), rest: seq<(nat, V)>, index: seq<(nat, V)>, other: seq<(nat, V)>)
    requires IsArrayIndex(first.0) && (index != [] ==> first.0 <= index[0].0)
    requires index == IndexEntries(rest) && other == OtherEntries(rest) && index + other == rest
    ensures IndexEntries([first] + rest) + OtherEntries([first] + rest) == [first] + rest
  {
    FirstIndex(first, rest);
    InsertFirst(first, index);
    Associate([first], index, other);
  }

  /** Properties created in rising key order are enumerated in that order, whatever side of 2^32 they fall on. */
  lemma {:induction false} RisingKeysEnumerateInOrder<V>(entries: seq<(nat, V)>)
    requires RisingKeys(entries)
    ensures IndexEntries(entries) + OtherEntries(entries) == entries
  {
    if entries == [] {
    } else if !IsArrayIndex(entries[0].0) {
      LargeKeysKeepCreationOrder(entries);
    } else {
      var first, rest := entries[0], entries[1..];
      RisingKeysEnumerateInOrder(rest);
      var index, other := IndexEntries(rest), OtherEntries(rest);
      if index != [] { assert index[0] == (index + other)[0] == entries[1]; }
      FirstInOrder(first, rest, index, other);
      assert entries == [first] + rest;
    }
  }

  /** `Object.values` yields as many values as `Object.keys` yields keys. */
  lemma {:induction false} EveryEntryEnumerated<V>(entries: seq<(nat, V)>)
    ensures |IndexEntries(entries)| + |OtherEntries(entries)| == |entries|
  {
    if entries != [] {
      EveryEntryEnumerated(entries[1..]);
      InsertGrows(entries[0], IndexEntries(entries[1..]));
    }
  }

  lemma {:induction false} InsertGrows<V>(e: (nat, V), s: seq<(nat, V)>)
    ensures |InsertByKey(e, s)| == |s| + 1
  {
    if s != [] { InsertGrows(e, s[1..]); }
  }
}
