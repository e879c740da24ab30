/** Relay URLs in the registrar (packages/common/src/Utils.ts:333-351): three words of 32 bytes, in hex.
    A URL is the sequence of its ASCII codes. */
module RegistrarUrl {
  import opened Outcomes

  const LINE_FEED: Byte := 10
  const CARRIAGE_RETURN: Byte := 13
  const WORD: nat := 32

  predicate Ascii(url: seq<Byte>) { forall i :: 0 <= i < |url| ==> url[i] < 128 }

  predicate LineTerminator(c: Byte) { c == LINE_FEED || c == CARRIAGE_RETURN }

  // ---------- hex ----------

  function Digit(n: int): char
    requires 0 <= n < 16
  {
    if n < 10 then '0' + n as char else 'a' + (n - 10) as char
  }

  function Value(c: char): int
  {
    if '0' <= c <= '9' then c as int - '0' as int else if 'a' <= c <= 'f' then c as int - 'a' as int + 10 else 0
  }

  lemma DigitsAreHex(n: int)
    requires 0 <= n < 16
    ensures Digit(n) == "0123456789abcdef"[n]
  {
  }

  function Hex(bytes: seq<Byte>): (s: string)
    ensures |s| == 2 * |bytes|
  {
    if bytes == [] then [] else [Digit(bytes[0] / 16), Digit(bytes[0] % 16)] + Hex(bytes[1..])
  }

  /** Buffer.from(s, 'hex') of whole bytes. */
  function FromHex(s: string): seq<Byte>
  {
    if |s| < 2 then [] else [(16 * Value(s[0]) + Value(s[1])) % 256] + FromHex(s[2..])
  }

  lemma ByteOfDigits(b: Byte)
    ensures (16 * Value(Digit(b / 16)) + Value(Digit(b % 16))) % 256 == b
  {
  }

  lemma FromHexStep(c: char, d: char, s: string)
    ensures FromHex([c, d] + s) == [(16 * Value(c) + Value(d)) % 256] + FromHex(s)
  {
    assert ([c, d] + s)[2..] == s;
  }

  lemma {:induction false} HexRoundTrip(bytes: seq<Byte>)
    ensures FromHex(Hex(bytes)) == bytes
  {
    if bytes != [] {
      ByteOfDigits(bytes[0]);
      FromHexStep(Digit(bytes[0] / 16), Digit(bytes[0] % 16), Hex(bytes[1..]));
      HexRoundTrip(bytes[1..]);
    }
  }

  lemma {:induction false} HexConcat(a: seq<Byte>, b: seq<Byte>)
    ensures Hex(a + b) == Hex(a) + Hex(b)
  {
    if a == [] {
      assert a + b == b;
    } else {
      var first, rest := [Digit(a[0] / 16), Digit(a[0] % 16)], Hex(a[1..]);
      HexConcat(a[1..], b);
      assert (a + b)[0] == a[0] && (a + b)[1..] == a[1..] + b;
      assert first + (rest + Hex(b)) == first + rest + Hex(b);
    }
  }

  // ---------- splitting ----------

  /** How far /.{1,32}/ reaches: up to 32 characters that end no line. */
  function RunLength(url: seq<Byte>, max: nat): (k: nat)
    ensures k <= max && k <= |url| && forall i :: 0 <= i < k ==> !LineTerminator(url[i])
    ensures k < max && k < |url| ==> LineTerminator(url[k])
  {
    if max == 0 || url == [] || LineTerminator(url[0]) then 0 else 1 + RunLength(url[1..], max - 1)
  }

  /** url.match(/.{1,32}/g) */
  function Matches(url: seq<Byte>): (parts: seq<seq<Byte>>)
    ensures FitWords(parts) && forall p :: p in parts ==> OneLine(p)
    decreases |url|
  {
    if url == [] then []
    else if LineTerminator(url[0]) then Matches(url[1..])
    else
      var k := RunLength(url, WORD);
      [url[..k]] + Matches(url[k..])
  }

  function Zeros(n: nat): (z: seq<Byte>) { seq(n, _ => 0) }

  function PadEnd(s: string, length: nat): string
  {
    s + if |s| < length then seq(length - |s|, _ => '0') else []
  }

  function PartAt(parts: seq<seq<Byte>>, i: nat): seq<Byte>
  {
    if i < |parts| then parts[i] else []
  }

  function Word(part: seq<Byte>): string { "0x" + PadEnd(Hex(part), 2 * WORD) }

  /** The parts from the i-th on. */
  function From(parts: seq<seq<Byte>>, i: nat): (rest: seq<seq<Byte>>)
  {
    if i <= |parts| then parts[i..] else []
  }

  /** The words of the first n parts. */
  function Words(parts: seq<seq<Byte>>, n: nat): seq<string>
    decreases n
  {
    if n == 0 then [] else [Word(PartAt(parts, 0))] + Words(From(parts, 1), n - 1)
  }

  datatype UrlError = UrlTooLong

  function Split(url: seq<Byte>, partsCount: nat): Result<seq<string>, UrlError>
  {
    if |url| > WORD * partsCount then Failure(UrlTooLong) else Success(Words(Matches(url), partsCount))
  }

  method SplitRelayUrlForRegistrar(url: seq<Byte>, partsCount: nat := 3) returns (r: Result<seq<string>, UrlError>)
    ensures r == Split(url, partsCount)
    ensures if |url| <= 32 * partsCount
            then r.Success? && |r.value| == partsCount && forall w :: w in r.value ==> Is32Bytes(w)
            else r == Failure(UrlTooLong)
  {
    var maxLength := WORD * partsCount;
    if |url| > maxLength { return Failure(UrlTooLong); }
    var parts := Matches(url);
    var result: seq<string> := [];
    assert From(parts, 0) == parts && [] + Words(parts, partsCount) == Words(parts, partsCount);
    for i := 0 to partsCount
      invariant Continues(result, parts, i, partsCount)
    {
      OneMoreWord(result, parts, i, partsCount);
      result := result + [Word(PartAt(parts, i))];
    }
    assert result + [] == result;
    WordsAre32Bytes(parts, partsCount);
    r := Success(result);
  }

  /** With the words of parts i to n - 1 the result is complete. */
  predicate Continues(result: seq<string>, parts: seq<seq<Byte>>, i: nat, n: nat)
    requires i <= n
  {
    result + Words(From(parts, i), n - i) == Words(parts, n)
  }

  lemma OneMoreWord(result: seq<string>, parts: seq<seq<Byte>>, i: nat, n: nat)
    requires i < n && Continues(result, parts, i, n)
    ensures Continues(result + [Word(PartAt(parts, i))], parts, i + 1, n)
  {
    var rest := Words(From(parts, i + 1), n - i - 1);
    assert From(From(parts, i), 1) == From(parts, i + 1) && PartAt(From(parts, i), 0) == PartAt(parts, i);
    assert Words(From(parts, i), n - i) == [Word(PartAt(parts, i))] + rest;
    assert result + [Word(PartAt(parts, i))] + rest == result + ([Word(PartAt(parts, i))] + rest);
  }

  // ---------- packing ----------

  /** s.replace(/0x/g, '') */
  function RemovePrefixes(s: string): string
  {
    if |s| < 2 then s
    else if s[0] == '0' && s[1] == 'x' then RemovePrefixes(s[2..])
    else [s[0]] + RemovePrefixes(s[1..])
  }

  /** s.replace(/(00)+$/g, ''): the longest even run of zeros at the end goes. */
  function StripZeroPairs(s: string): (r: string)
    ensures r <= s && (|s| - |r|) % 2 == 0 && forall i :: |r| <= i < |s| ==> s[i] == '0'
    ensures !(|r| >= 2 && r[|r| - 2] == '0' && r[|r| - 1] == '0')
  {
    if |s| >= 2 && s[|s| - 2] == '0' && s[|s| - 1] == '0' then StripZeroPairs(s[..|s| - 2]) else s
  }

  function PackRelayUrlForRegistrar(parts: seq<string>): seq<Byte>
  {
    FromHex(StripZeroPairs(RemovePrefixes(Flatten(parts))))
  }

  // ---------- the round trip ----------

  /** The bytes the words hold: each part filled up with NULs. */
  function Padded(parts: seq<seq<Byte>>, n: nat): seq<Byte>
    decreases n
  {
    if n == 0 then [] else Fill(PartAt(parts, 0)) + Padded(From(parts, 1), n - 1)
  }

  function Fill(part: seq<Byte>): seq<Byte>
  {
    part + if |part| < WORD then Zeros(WORD - |part|) else []
  }

  function TrimNuls(b: seq<Byte>): (r: seq<Byte>)
    ensures r <= b && (r != [] ==> r[|r| - 1] != 0)
  {
    if b != [] && b[|b| - 1] == 0 then TrimNuls(b[..|b| - 1]) else b
  }

  lemma {:induction false} HexOfZeros(n: nat)
    ensures Hex(Zeros(n)) == seq(2 * n, _ => '0')
  {
    if n > 0 {
      assert Zeros(n)[1..] == Zeros(n - 1);
      HexOfZeros(n - 1);
    }
  }

  lemma WordHoldsFill(part: seq<Byte>)
    requires |part| <= WORD
    ensures Word(part) == "0x" + Hex(Fill(part)) && |Fill(part)| == WORD
  {
    if |part| < WORD {
      HexConcat(part, Zeros(WORD - |part|));
      HexOfZeros(WORD - |part|);
      assert PadEnd(Hex(part), 2 * WORD) == Hex(part) + Hex(Zeros(WORD - |part|));
    } else {
      assert Fill(part) == part && PadEnd(Hex(part), 2 * WORD) == Hex(part);
    }
  }

  predicate NoPrefix(s: string) { forall i :: 0 <= i < |s| ==> s[i] != 'x' }

  lemma {:induction false} HexHasNoPrefix(bytes: seq<Byte>)
    ensures NoPrefix(Hex(bytes))
  {
    if bytes != [] {
      HexHasNoPrefix(bytes[1..]);
      forall i | 0 <= i < |Hex(bytes)| ensures Hex(bytes)[i] != 'x' {
        if i >= 2 { assert Hex(bytes)[i] == Hex(bytes[1..])[i - 2]; }
      }
    }
  }

  lemma RemoveKeeps(s: string)
    requires s != [] && (|s| >= 2 ==> s[1] != 'x')
    ensures RemovePrefixes(s) == [s[0]] + RemovePrefixes(s[1..])
  {
  }

  lemma {:induction false} RemoveSkips(h: string, rest: string)
    requires NoPrefix(h) && (rest != [] ==> rest[0] != 'x')
    ensures RemovePrefixes(h + rest) == h + RemovePrefixes(rest)
  {
    if h == [] {
      assert h + rest == rest;
    } else {
      assert (h + rest)[1..] == h[1..] + rest;
      RemoveKeeps(h + rest);
      RemoveSkips(h[1..], rest);
    }
  }

  lemma FirstPrefix(h: string, rest: string)
    requires NoPrefix(h) && (rest != [] ==> rest[0] != 'x')
    ensures RemovePrefixes("0x" + h + rest) == h + RemovePrefixes(rest)
  {
    var s := "0x" + h + rest;
    assert s[0] == '0' && s[1] == 'x' && s[2..] == h + rest;
    assert RemovePrefixes(s) == RemovePrefixes(s[2..]);
    RemoveSkips(h, rest);
  }

  lemma FirstWord(parts: seq<seq<Byte>>, n: nat)
    requires n > 0
    ensures Flatten(Words(parts, n)) == Word(PartAt(parts, 0)) + Flatten(Words(From(parts, 1), n - 1))
    ensures Padded(parts, n) == Fill(PartAt(parts, 0)) + Padded(From(parts, 1), n - 1)
  {
    var words := Words(From(parts, 1), n - 1);
    assert ([Word(PartAt(parts, 0))] + words)[1..] == words;
  }

  predicate FitWords(parts: seq<seq<Byte>>) { forall p :: p in parts ==> |p| <= WORD }

  /** Hex strings do not begin with the x of a prefix. */
  predicate Plain(s: string) { s != [] ==> s[0] == '0' }

  /** A word in front of what holds some bytes holds its part in front of them. */
  lemma WordInFront(part: seq<Byte>, rest: string, bytes: seq<Byte>)
    requires |part| <= WORD && Plain(rest) && RemovePrefixes(rest) == Hex(bytes)
    ensures RemovePrefixes(Word(part) + rest) == Hex(Fill(part) + bytes) && Plain(Word(part) + rest)
  {
    WordHoldsFill(part);
    HexHasNoPrefix(Fill(part));
    FirstPrefix(Hex(Fill(part)), rest);
    HexConcat(Fill(part), bytes);
  }

  lemma FirstFits(parts: seq<seq<Byte>>)
    requires FitWords(parts)
    ensures |PartAt(parts, 0)| <= WORD && FitWords(From(parts, 1))
  {
  }

  lemma WholeHolds(whole: string, all: seq<Byte>, part: seq<Byte>, rest: string, bytes: seq<Byte>)
    requires whole == Word(part) + rest && all == Fill(part) + bytes
    requires |part| <= WORD && Plain(rest) && RemovePrefixes(rest) == Hex(bytes)
    ensures RemovePrefixes(whole) == Hex(all) && Plain(whole)
  {
    WordInFront(part, rest, bytes);
  }

  lemma FirstWordHolds(parts: seq<seq<Byte>>, n: nat, rest: string, bytes: seq<Byte>)
    requires n > 0 && |PartAt(parts, 0)| <= WORD
    requires rest == Flatten(Words(From(parts, 1), n - 1)) && bytes == Padded(From(parts, 1), n - 1)
    requires RemovePrefixes(rest) == Hex(bytes) && Plain(rest)
    ensures RemovePrefixes(Flatten(Words(parts, n))) == Hex(Padded(parts, n)) && Plain(Flatten(Words(parts, n)))
  {
    FirstWord(parts, n);
    WholeHolds(Flatten(Words(parts, n)), Padded(parts, n), PartAt(parts, 0), rest, bytes);
  }

  lemma {:induction false} WordsHoldPadded(parts: seq<seq<Byte>>, n: nat)
    requires FitWords(parts)
    ensures RemovePrefixes(Flatten(Words(parts, n))) == Hex(Padded(parts, n)) && Plain(Flatten(Words(parts, n)))
    decreases n
  {
    if n > 0 {
      var rest := From(parts, 1);
      FirstFits(parts);
      WordsHoldPadded(rest, n - 1);
      FirstWordHolds(parts, n, Flatten(Words(rest, n - 1)), Padded(rest, n - 1));
    }
  }

  lemma StripPair(h: string, c: char, d: char)
    ensures StripZeroPairs(h + [c, d]) == if c == '0' && d == '0' then StripZeroPairs(h) else h + [c, d]
  {
    assert (h + [c, d])[..|h|] == h;
  }

  lemma HexLast(front: seq<Byte>, last: Byte)
    ensures Hex(front + [last]) == Hex(front) + [Digit(last / 16), Digit(last % 16)]
  {
    HexConcat(front, [last]);
    assert Hex([last]) == [Digit(last / 16), Digit(last % 16)];
  }

  /** The zeros stripped from the end are those of whole bytes. */
  lemma {:induction false} StripRemovesWholeBytes(b: seq<Byte>)
    ensures StripZeroPairs(Hex(b)) == Hex(TrimNuls(b))
  {
    if b != [] {
      var front, last := b[..|b| - 1], b[|b| - 1];
      assert b == front + [last];
      HexLast(front, last);
      StripPair(Hex(front), Digit(last / 16), Digit(last % 16));
      ZeroDigits(last);
      if last == 0 { StripRemovesWholeBytes(front); }
    }
  }

  lemma ZeroDigits(b: Byte)
    ensures Digit(b / 16) == '0' && Digit(b % 16) == '0' <==> b == 0
  {
  }

  /** What comes back is what the words hold, without trailing NULs. */
  lemma PackedSplit(url: seq<Byte>, partsCount: nat)
    requires |url| <= WORD * partsCount
    ensures PackRelayUrlForRegistrar(Split(url, partsCount).value) == TrimNuls(Padded(Matches(url), partsCount))
  {
    var b := Padded(Matches(url), partsCount);
    WordsHoldPadded(Matches(url), partsCount);
    StripRemovesWholeBytes(b);
    HexRoundTrip(TrimNuls(b));
  }

  /** No line feed and no carriage return. */
  predicate OneLine(url: seq<Byte>) { forall i :: 0 <= i < |url| ==> url[i] != 10 && url[i] != 13 }

  lemma CutFirst(url: seq<Byte>, k: nat)
    requires OneLine(url) && url != [] && k == if |url| < WORD then |url| else WORD
    ensures Matches(url) == [url[..k]] + Matches(url[k..])
  {
    assert RunLength(url, WORD) == k;
  }

  lemma JoinFirst(url: seq<Byte>, k: nat, partsCount: nat)
    requires url != [] && |url| <= WORD * partsCount && k == if |url| < WORD then |url| else WORD
    ensures |url[k..]| <= WORD * (partsCount - 1)
    ensures Fill(url[..k]) + (url[k..] + Zeros(WORD * (partsCount - 1) - |url[k..]|))
              == url + Zeros(WORD * partsCount - |url|)
  {
  }

  lemma PadFirst(url: seq<Byte>, k: nat, n: nat)
    requires OneLine(url) && url != [] && n > 0 && k == if |url| < WORD then |url| else WORD
    ensures Padded(Matches(url), n) == Fill(url[..k]) + Padded(Matches(url[k..]), n - 1)
  {
    CutFirst(url, k);
    FirstWord(Matches(url), n);
    assert From(Matches(url), 1) == Matches(url[k..]);
  }

  /** Without line ends the parts are the URL cut every 32 characters. */
  lemma {:induction false} PaddedUrl(url: seq<Byte>, partsCount: nat)
    requires OneLine(url) && |url| <= WORD * partsCount
    ensures Padded(Matches(url), partsCount) == url + Zeros(WORD * partsCount - |url|)
    decreases partsCount
  {
    if url == [] {
      NothingLeft(partsCount);
    } else {
      var k := if |url| < WORD then |url| else WORD;
      var rest := Padded(Matches(url[k..]), partsCount - 1);
      JoinFirst(url, k, partsCount);
      assert rest == url[k..] + Zeros(WORD * (partsCount - 1) - |url[k..]|) by {
        PaddedUrl(url[k..], partsCount - 1);
      }
      assert Padded(Matches(url), partsCount) == Fill(url[..k]) + rest by { PadFirst(url, k, partsCount); }
    }
  }

  lemma {:induction false} NothingLeft(n: nat)
    ensures Padded([], n) == Zeros(WORD * n)
  {
    if n > 0 { NothingLeft(n - 1); }
  }

  lemma {:induction false} TrimZeros(url: seq<Byte>, n: nat)
    requires url != [] ==> url[|url| - 1] != 0
    ensures TrimNuls(url + Zeros(n)) == url
  {
    if n == 0 {
      assert url + Zeros(0) == url;
    } else {
      assert (url + Zeros(n))[..|url| + n - 1] == url + Zeros(n - 1);
      TrimZeros(url, n - 1);
    }
  }

  lemma {:induction false} PaddedHasNoLineEnds(parts: seq<seq<Byte>>, n: nat)
    requires forall p :: p in parts ==> OneLine(p)
    ensures OneLine(Padded(parts, n))
    decreases n
  {
    if n > 0 {
      PaddedHasNoLineEnds(From(parts, 1), n - 1);
      var part := PartAt(parts, 0);
      assert OneLine(part) by { if parts != [] { assert parts[0] in parts; } }
    }
  }

  lemma TrimmedEnd(b: seq<Byte>, url: seq<Byte>)
    requires OneLine(b) && TrimNuls(b) == url
    ensures OneLine(url) && (url != [] ==> url[|url| - 1] != 0)
  {
    forall i | 0 <= i < |url| ensures !LineTerminator(url[i]) { assert url[i] == b[i]; }
  }

  /** Splitting and packing returns the URL exactly when it holds no line end and no NUL at its end. */
  lemma RoundTripIff(url: seq<Byte>)
    requires Ascii(url) && |url| <= 96
    ensures Split(url, 3).Success? && |Split(url, 3).value| == 3
    ensures forall w :: w in Split(url, 3).value ==> Is32Bytes(w)
    ensures PackRelayUrlForRegistrar(Split(url, 3).value) == url <==>
              OneLine(url) && (url != [] ==> url[|url| - 1] != 0)
  {
    PackedSplit(url, 3);
    PaddedHasNoLineEnds(Matches(url), 3);
    WordsAre32Bytes(Matches(url), 3);
    if OneLine(url) && (url != [] ==> url[|url| - 1] != 0) {
      PaddedUrl(url, 3);
      TrimZeros(url, 96 - |url|);
    } else if TrimNuls(Padded(Matches(url), 3)) == url {
      TrimmedEnd(Padded(Matches(url), 3), url);
    }
  }

  predicate Is32Bytes(w: string) { |w| == 66 && w[..2] == "0x" }

  lemma WordIs32Bytes(part: seq<Byte>)
    requires |part| <= WORD
    ensures Is32Bytes(Word(part))
  {
  }

  /** Every word of the split is 32 bytes. */
  lemma {:induction false} WordsAre32Bytes(parts: seq<seq<Byte>>, n: nat)
    requires FitWords(parts)
    ensures |Words(parts, n)| == n && forall w :: w in Words(parts, n) ==> Is32Bytes(w)
    decreases n
  {
    if n > 0 {
      WordIs32Bytes(PartAt(parts, 0));
      WordsAre32Bytes(From(parts, 1), n - 1);
    }
  }
}
