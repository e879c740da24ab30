/** Nonzero bytes of a head/tail encoding, counted from the shape of its components alone. */
module HeadTailCounts {

  /** A static word with so many nonzero bytes, or a tail of some length, which the head holds an offset to. */
  datatype Shape = Fixed(word: nat) | Displaceable(length: nat, nonzero: nat)

  function Length(s: Shape): nat { if s.Fixed? then 0 else s.length }

  /** What one component adds: its word or offset, and its tail. `w` counts the nonzero bytes of an offset. */
  ghost function CountOne(s: Shape, offset: nat, w: nat -> nat): nat
  {
    if s.Fixed? then s.word else w(offset) + s.nonzero
  }

  ghost function Count(shapes: seq<Shape>, offset: nat, w: nat -> nat): nat
  {
    if shapes == [] then 0 else CountOne(shapes[0], offset, w) + Count(shapes[1..], offset + Length(shapes[0]), w)
  }

  function TailsLength(shapes: seq<Shape>): nat
  {
    if shapes == [] then 0 else Length(shapes[0]) + TailsLength(shapes[1..])
  }

  ghost predicate Narrow(w: nat -> nat, limit: nat)
  {
    forall v: nat :: 0 < v < limit ==> 1 <= w(v) <= 5
  }

  /** No more nonzero bytes, and a tail of the same length or at least a whole word shorter. */
  predicate ShapeFits(a: Shape, e: Shape)
  {
    match a
    case Fixed(v) => e.Fixed? && v <= e.word
    case Displaceable(l, n) => e.Displaceable? && n <= e.nonzero && (l == e.length || l + 32 <= e.length)
  }

  predicate ShapesFit(actual: seq<Shape>, estimate: seq<Shape>)
  {
    |actual| == |estimate| && forall i :: 0 <= i < |actual| ==> ShapeFits(actual[i], estimate[i])
  }

  /** The first `k` tails are as long as estimated. */
  predicate SameTails(actual: seq<Shape>, estimate: seq<Shape>, k: nat)
  {
    k <= |actual| && k <= |estimate| && forall i :: 0 <= i < k ==> Length(actual[i]) == Length(estimate[i])
  }

  function Offsets(shapes: seq<Shape>): nat
  {
    if shapes == [] then 0 else (if shapes[0].Displaceable? then 1 else 0) + Offsets(shapes[1..])
  }

  /** The number of offsets behind component `k`. */
  function LateOffsets(shapes: seq<Shape>, k: nat): nat
    requires k < |shapes|
  {
    Offsets(shapes[k + 1..])
  }

  lemma {:induction false} LateOffsetsBound(shapes: seq<Shape>, k: nat)
    requires k < |shapes|
    ensures LateOffsets(shapes, k) <= |shapes| - 1 - k
    decreases |shapes| - k
  {
    if k + 1 < |shapes| {
      LateOffsetsBound(shapes, k + 1);
      assert shapes[k + 1..][1..] == shapes[k + 2..];
    }
  }

  lemma LastIsFixed(shapes: seq<Shape>, k: nat)
    requires |shapes| == k + 2 && shapes[k + 1].Fixed?
    ensures LateOffsets(shapes, k) == 0
  {
    var late := shapes[k + 1..];
    assert late[1..] == [] && Offsets(late) == 0;
  }

  /** Where offsets are smaller than estimated, each may have four more nonzero bytes, and no more. */
  lemma {:induction false} DisplacedCount(actual: seq<Shape>, estimate: seq<Shape>, offset: nat, offset': nat,
                                          w: nat -> nat, limit: nat)
    requires Narrow(w, limit) && ShapesFit(actual, estimate)
    requires 0 < offset <= offset' && offset' + TailsLength(estimate) < limit
    ensures Count(actual, offset, w) <= Count(estimate, offset', w) + 4 * Offsets(actual)
  {
    if actual != [] {
      assert ShapeFits(actual[0], estimate[0]);
      DisplacedCount(actual[1..], estimate[1..], offset + Length(actual[0]), offset' + Length(estimate[0]), w, limit);
    }
  }

  /** Where the first `k` tails are as long as estimated, only offsets behind component `k` are displaced. */
  lemma {:induction false} AlignedCount(actual: seq<Shape>, estimate: seq<Shape>, k: nat, offset: nat, w: nat -> nat,
                                        limit: nat)
    requires Narrow(w, limit) && ShapesFit(actual, estimate) && k < |actual| && SameTails(actual, estimate, k)
    requires 0 < offset && offset + TailsLength(estimate) < limit
    ensures Count(actual, offset, w) <= Count(estimate, offset, w) + 4 * LateOffsets(actual, k)
  {
    assert ShapeFits(actual[0], estimate[0]);
    if k == 0 {
      DisplacedCount(actual[1..], estimate[1..], offset + Length(actual[0]), offset + Length(estimate[0]), w, limit);
    } else {
      AlignedCount(actual[1..], estimate[1..], k - 1, offset + Length(actual[0]), w, limit);
      assert actual[1..][k..] == actual[k + 1..];
    }
  }

  // ---------- one tail lighter than estimated ----------

  /** All tails but the k-th are as long as estimated; that one is shorter by `saved`. */
  predicate Shortened(actual: seq<Shape>, estimate: seq<Shape>, k: nat, saved: nat)
  {
    && |actual| == |estimate| && k < |actual|
    && forall i :: 0 <= i < |actual| ==> Length(actual[i]) + (if i == k then saved else 0) == Length(estimate[i])
  }

  lemma {:induction false} ShortenedTails(actual: seq<Shape>, estimate: seq<Shape>, k: nat, saved: nat)
    requires Shortened(actual, estimate, k, saved)
    ensures TailsLength(actual) + saved == TailsLength(estimate)
  {
    if k == 0 {
      SameTailsLength(actual[1..], estimate[1..]);
    } else {
      assert Length(actual[0]) == Length(estimate[0]);
      ShortenedTails(actual[1..], estimate[1..], k - 1, saved);
    }
  }

  lemma {:induction false} SameTailsLength(actual: seq<Shape>, estimate: seq<Shape>)
    requires |actual| == |estimate| && forall i :: 0 <= i < |actual| ==> Length(actual[i]) == Length(estimate[i])
    ensures TailsLength(actual) == TailsLength(estimate)
  {
    if actual != [] { SameTailsLength(actual[1..], estimate[1..]); }
  }

  function Lighter(s: Shape, lost: nat): Shape
    requires s.Displaceable? && lost <= s.nonzero
  {
    s.(nonzero := s.nonzero - lost)
  }

  lemma {:induction false} LighterCount(shapes: seq<Shape>, k: nat, lost: nat, offset: nat, w: nat -> nat)
    requires k < |shapes| && shapes[k].Displaceable? && lost <= shapes[k].nonzero
    ensures Count(shapes[k := Lighter(shapes[k], lost)], offset, w) + lost == Count(shapes, offset, w)
  {
    var lighter := shapes[k := Lighter(shapes[k], lost)];
    if k == 0 {
      assert lighter[1..] == shapes[1..];
    } else {
      assert lighter[1..] == shapes[1..][k - 1 := Lighter(shapes[k], lost)];
      LighterCount(shapes[1..], k - 1, lost, offset + Length(shapes[0]), w);
    }
  }

  /** Where the k-th tail is the only one to be shorter, its nonzero bytes are lost, up to four for each offset behind
      it. */
  lemma LightCountFits(actual: seq<Shape>, estimate: seq<Shape>, k: nat, lost: nat, offset: nat, w: nat -> nat,
                       limit: nat)
    requires Narrow(w, limit) && ShapesFit(actual, estimate) && k < |actual| && SameTails(actual, estimate, k)
    requires actual[k].Displaceable? && actual[k].nonzero + lost <= estimate[k].nonzero
    requires 0 < offset && offset + TailsLength(estimate) < limit
    ensures Count(actual, offset, w) + lost <= Count(estimate, offset, w) + 4 * LateOffsets(actual, k)
  {
    assert ShapeFits(actual[k], estimate[k]);
    var lighter := estimate[k := Lighter(estimate[k], lost)];
    LighterCount(estimate, k, lost, offset, w);
    SameTailsLength(lighter, estimate);
    AlignedCount(actual, lighter, k, offset, w, limit);
  }

  lemma CountOfFive(s0: Shape, s1: Shape, s2: Shape, s3: Shape, s4: Shape, offset: nat, w: nat -> nat,
                    o1: nat, o2: nat, o3: nat, o4: nat)
    requires o1 == offset + Length(s0) && o2 == o1 + Length(s1) && o3 == o2 + Length(s2) && o4 == o3 + Length(s3)
    ensures Count([s0, s1, s2, s3, s4], offset, w)
         == CountOne(s0, offset, w) + CountOne(s1, o1, w) + CountOne(s2, o2, w) + CountOne(s3, o3, w)
             + CountOne(s4, o4, w)
  {
    assert [s0, s1, s2, s3, s4][1..] == [s1, s2, s3, s4];
    assert [s1, s2, s3, s4][1..] == [s2, s3, s4];
    CountOfThree(s2, s3, s4, o2, w);
  }

  /** The second component of five is a static word. */
  lemma CountOfCall(l0: nat, n0: nat, n1: nat, l2: nat, n2: nat, l3: nat, n3: nat, l4: nat, n4: nat, offset: nat,
                    w: nat -> nat)
    ensures var (first, late) := (offset + l0, offset + l0 + l2);
            Count([Displaceable(l0, n0), Fixed(n1), Displaceable(l2, n2), Displaceable(l3, n3), Displaceable(l4, n4)],
                  offset, w)
            == w(offset) + n0 + n1 + w(first) + n2 + w(late) + n3 + w(late + l3) + n4
  {
    var (first, late) := (offset + l0, offset + l0 + l2);
    CountOfFive(Displaceable(l0, n0), Fixed(n1), Displaceable(l2, n2), Displaceable(l3, n3), Displaceable(l4, n4),
                offset, w, first, first, late, late + l3);
  }

  lemma CountOfThree(s0: Shape, s1: Shape, s2: Shape, offset: nat, w: nat -> nat)
    ensures Count([s0, s1, s2], offset, w)
         == CountOne(s0, offset, w) + CountOne(s1, offset + Length(s0), w)
            + CountOne(s2, offset + Length(s0) + Length(s1), w)
  {
    assert [s0, s1, s2][1..] == [s1, s2] && [s1, s2][1..] == [s2] && [s2][1..] == [];
    assert Count([s2], offset + Length(s0) + Length(s1), w) == CountOne(s2, offset + Length(s0) + Length(s1), w);
  }
}
