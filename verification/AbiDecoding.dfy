/** Decoding what the head/tail encoding writes, by "Formal Specification of the Encoding" in the Solidity Contract ABI
    Specification: every field can be read back from its place. */
module AbiDecoding {
  import opened Outcomes
  import opened Calldata

  /** The number that bytes stand for, most significant first. */
  function BigEndian(b: seq<Byte>): nat
  {
    if b == [] then 0 else 256 * BigEndian(b[..|b| - 1]) + b[|b| - 1]
  }

  function Power(n: nat): nat
  {
    if n == 0 then 1 else 256 * Power(n - 1)
  }

  lemma {:induction false} BytesHold(v: nat)
    ensures BigEndian(Bytes(v)) == v
  {
    if v > 0 {
      BytesHold(v / 256);
      assert Bytes(v)[..|Bytes(v)| - 1] == Bytes(v / 256);
    }
  }

  lemma {:induction false} BytesAreFew(v: nat, n: nat)
    requires v < Power(n)
    ensures |Bytes(v)| <= n
  {
    if v > 0 && n > 0 { BytesAreFew(v / 256, n - 1); }
  }

  lemma {:induction false} LeadingZeros(n: nat, b: seq<Byte>)
    ensures BigEndian(Repeat(0, n) + b) == BigEndian(b)
  {
    var whole := Repeat(0, n) + b;
    if b != [] {
      LeadingZeros(n, b[..|b| - 1]);
      assert whole[..|whole| - 1] == Repeat(0, n) + b[..|b| - 1];
    } else if n > 0 {
      LeadingZeros(n - 1, []);
      assert whole[..|whole| - 1] == Repeat(0, n - 1) + [];
    }
  }

  const TWO_TO_THE_64: nat := 0x1_0000_0000_0000_0000

  lemma PowerOf32()
    ensures Power(32) == TWO_TO_THE_64 * TWO_TO_THE_64 * TWO_TO_THE_64 * TWO_TO_THE_64
  {
    assert Power(8) == TWO_TO_THE_64;
    PowerAdds(8, 8);
    PowerAdds(8, 16);
    PowerAdds(8, 24);
  }

  lemma {:induction false} PowerAdds(m: nat, n: nat)
    ensures Power(m + n) == Power(n) * Power(m)
  {
    if m > 0 {
      PowerAdds(m - 1, n);
      assert 256 * (Power(n) * Power(m - 1)) == Power(n) * (256 * Power(m - 1));
    }
  }

  /** A word holds its number, a uint256, most significant byte first. */
  lemma WordHolds(v: nat)
    requires v < TWO_TO_THE_64 * TWO_TO_THE_64 * TWO_TO_THE_64 * TWO_TO_THE_64
    ensures |Word(v)| == 32 && BigEndian(Word(v)) == v
  {
    PowerOf32();
    BytesAreFew(v, 32);
    BytesHold(v);
    LeadingZeros(32 - |Bytes(v)|, Bytes(v));
  }

  lemma PaddingRounds(n: nat)
    ensures (n + Padding(n)) % 32 == 0 && Padding(n) < 32
  {
  }

  lemma ThreePieces(a: seq<Byte>, b: seq<Byte>, c: seq<Byte>)
    ensures (a + b + c)[..|a|] == a && (a + b + c)[|a|..|a| + |b|] == b && (a + b + c)[|a| + |b|..] == c
  {
  }

  lemma AllZero(z: seq<Byte>, n: nat)
    requires z == Repeat(0, n)
    ensures |z| == n && forall i :: 0 <= i < n ==> z[i] == 0
  {
  }

  /** A variable field holds its length, its bytes, and then zeros up to a whole number of words, less than one. */
  lemma BytesDecode(b: seq<Byte>) returns (zeros: seq<Byte>)
    ensures |zeros| < 32 && (|b| + |zeros|) % 32 == 0 && forall i :: 0 <= i < |zeros| ==> zeros[i] == 0
    ensures |EncodeBytes(b)| == 32 + |b| + |zeros|
    ensures EncodeBytes(b)[..32] == Word(|b|)
    ensures EncodeBytes(b)[32..32 + |b|] == b
    ensures EncodeBytes(b)[32 + |b|..] == zeros
  {
    zeros := Repeat(0, Padding(|b|));
    PaddingRounds(|b|);
    AllZero(zeros, Padding(|b|));
    ThreePieces(Word(|b|), b, zeros);
  }

  lemma SliceInFront(a: seq<Byte>, b: seq<Byte>, from: nat, to: nat)
    requires from <= to <= |a|
    ensures (a + b)[from..to] == a[from..to]
  {
  }

  lemma SliceBehind(a: seq<Byte>, b: seq<Byte>, from: nat, to: nat)
    requires from <= to <= |b|
    ensures (a + b)[|a| + from..|a| + to] == b[from..to]
  {
  }

  lemma TailsBefore(parts: seq<Part>, i: nat)
    requires 0 < i <= |parts|
    ensures Tails(parts[..i]) == Tail(parts[0]) + Tails(parts[1..][..i - 1])
  {
    assert parts[..i][1..] == parts[1..][..i - 1];
  }

  /** The i-th word of the head is that of its field, whose tail comes after the tails of the fields before it. */
  lemma {:induction false} HeadAt(parts: seq<Part>, offset: nat, i: nat, at: nat)
    requires i < |parts| && at == offset + |Tails(parts[..i])|
    ensures |Heads(parts, offset, Word)| == 32 * |parts|
    ensures Heads(parts, offset, Word)[32 * i..32 * i + 32] == Head(parts[i], at, Word)
  {
    var next := offset + |Tail(parts[0])|;
    var head, rest := Head(parts[0], offset, Word), Heads(parts[1..], next, Word);
    HeadsLength(parts[1..], next);
    if i > 0 {
      TailsBefore(parts, i);
      HeadAt(parts[1..], next, i - 1, at);
      SliceBehind(head, rest, 32 * (i - 1), 32 * (i - 1) + 32);
    } else {
      SliceInFront(head, rest, 0, 32);
    }
  }

  lemma {:induction false} HeadsLength(parts: seq<Part>, offset: nat)
    ensures |Heads(parts, offset, Word)| == 32 * |parts|
  {
    if parts != [] { HeadsLength(parts[1..], offset + |Tail(parts[0])|); }
  }

  lemma {:induction false} TailAt(parts: seq<Part>, i: nat)
    requires i < |parts|
    ensures |Tails(parts[..i])| + |Tail(parts[i])| <= |Tails(parts)|
    ensures Tails(parts)[|Tails(parts[..i])|..|Tails(parts[..i])| + |Tail(parts[i])|] == Tail(parts[i])
  {
    if i > 0 {
      TailAt(parts[1..], i - 1);
      TailsBefore(parts, i);
    }
  }

  /** A number can be read from its word in the head of the tuple, */
  lemma StaticDecodes(parts: seq<Part>, i: nat)
    requires i < |parts| && parts[i].Static?
    ensures 32 * i + 32 <= |EncodeTuple(parts)| && EncodeTuple(parts)[32 * i..32 * i + 32] == Word(parts[i].value)
  {
    HeadAt(parts, 32 * |parts|, i, 32 * |parts| + |Tails(parts[..i])|);
    SliceInFront(Heads(parts, 32 * |parts|, Word), Tails(parts), 32 * i, 32 * i + 32);
  }

  /** and a variable field where its word in the head points. */
  lemma DynamicDecodes(parts: seq<Part>, i: nat) returns (offset: nat)
    requires i < |parts| && parts[i].Dynamic?
    ensures 32 * i + 32 <= |EncodeTuple(parts)| && EncodeTuple(parts)[32 * i..32 * i + 32] == Word(offset)
    ensures offset + |parts[i].encoding| <= |EncodeTuple(parts)|
    ensures EncodeTuple(parts)[offset..offset + |parts[i].encoding|] == parts[i].encoding
  {
    var before, after := |Tails(parts[..i])|, |Tails(parts[..i])| + |parts[i].encoding|;
    offset := 32 * |parts| + before;
    HeadAt(parts, 32 * |parts|, i, offset);
    SliceInFront(Heads(parts, 32 * |parts|, Word), Tails(parts), 32 * i, 32 * i + 32);
    TailAt(parts, i);
    SliceBehind(Heads(parts, 32 * |parts|, Word), Tails(parts), before, after);
  }

  /** A relay call is its selector, then the tuple of its five arguments in the order of the contract's signature. */
  lemma CallDecodes(selector: seq<Byte>, c: RelayCall)
    ensures |EncodeABI(selector, c)| >= |selector| && EncodeABI(selector, c)[..|selector|] == selector
    ensures EncodeABI(selector, c)[|selector|..] == EncodeTuple(RelayCallParts(c))
  {
  }
}
