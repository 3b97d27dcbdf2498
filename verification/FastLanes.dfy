/**
  Registers of eight floats, as the fast kernels permute them: a vector of 64 floats reduced to eight sums while it
  streams past, and eight floats broadcast one at a time.
*/
module FastLanes {

  type Lanes = s: seq<real> | |s| == 8 witness [0.0, 0.0, 0.0, 0.0, 0.0, 0.0, 0.0, 0.0]

  function Plus(a: Lanes, b: Lanes): Lanes {
    [a[0] + b[0], a[1] + b[1], a[2] + b[2], a[3] + b[3], a[4] + b[4], a[5] + b[5], a[6] + b[6], a[7] + b[7]]
  }

  /** In each half: two lanes of a, then two lanes of b. */
  function Shuffle(a: Lanes, b: Lanes, i: nat, j: nat): Lanes
    requires i < 4 && j < 4
  {
    [a[i], a[j], b[i], b[j], a[4 + i], a[4 + j], b[4 + i], b[4 + j]]
  }

  /** Sums of neighbours. */
  function PairSums(a: Lanes, b: Lanes): Lanes {
    Plus(Shuffle(a, b, 0, 2), Shuffle(a, b, 1, 3))
  }

  /** High half of a, then low half of b. */
  function HighLow(a: Lanes, b: Lanes): Lanes {
    [a[4], a[5], a[6], a[7], b[0], b[1], b[2], b[3]]
  }

  /** Low half of a, high half of b. */
  function BlendHigh(a: Lanes, b: Lanes): Lanes {
    [a[0], a[1], a[2], a[3], b[4], b[5], b[6], b[7]]
  }

  function LaneTotal(x: Lanes): real {
    x[0] + x[1] + x[2] + x[3] + x[4] + x[5] + x[6] + x[7]
  }

  function HalfSums(a: Lanes, b: Lanes, c: Lanes, d: Lanes): Lanes {
    PairSums(PairSums(a, b), PairSums(c, d))
  }

  /** Lane k of each half: the sum of that half of the k-th register. */
  lemma HalfSumsAre(v: seq<Lanes>)
    requires |v| == 4
    ensures var y := HalfSums(v[0], v[1], v[2], v[3]);
            forall k :: 0 <= k < 4 ==>
                          && y[k] == v[k][0] + v[k][1] + v[k][2] + v[k][3]
                          && y[4 + k] == v[k][4] + v[k][5] + v[k][6] + v[k][7]
  {
  }

  /** The last step adds the halves. */
  lemma HalvesAdd(v: seq<Lanes>, w: seq<Lanes>)
    requires |v| == |w| == 4
    ensures var x, y := HalfSums(v[0], v[1], v[2], v[3]), HalfSums(w[0], w[1], w[2], w[3]);
            var z := Plus(BlendHigh(x, y), HighLow(x, y));
            forall k :: 0 <= k < 4 ==> z[k] == LaneTotal(v[k]) && z[4 + k] == LaneTotal(w[k])
  {
    hide HalfSums;
    HalfSumsAre(v);
    HalfSumsAre(w);
    var x, y := HalfSums(v[0], v[1], v[2], v[3]), HalfSums(w[0], w[1], w[2], w[3]);
    var z := Plus(BlendHigh(x, y), HighLow(x, y));
    assert z[0] == x[0] + x[4] && z[1] == x[1] + x[5] && z[2] == x[2] + x[6] && z[3] == x[3] + x[7];
    assert z[4] == y[4] + y[0] && z[5] == y[5] + y[1] && z[6] == y[6] + y[2] && z[7] == y[7] + y[3];
    forall k | 0 <= k < 4 ensures z[k] == LaneTotal(v[k]) && z[4 + k] == LaneTotal(w[k]) {
      assert z[k] == x[k] + x[4 + k] && z[4 + k] == y[4 + k] + y[k];
    }
  }

  /** Absorbs eight registers; then lane k of the first field is the sum of the k-th. */
  class IncrementalDownsample8 {
    var x0: Lanes
    var x1: Lanes
    var x2: Lanes
    ghost var absorbed: seq<Lanes>

    constructor ()
      ensures Valid() && absorbed == []
    {
      absorbed := [];
    }

    ghost predicate Valid()
      reads this
    {
      var n := |absorbed|;
      && n <= 8
      && (n == 1 || n == 3 || n == 5 || n == 7 ==> x0 == absorbed[n - 1])
      && (n == 2 || n == 3 ==> x1 == PairSums(absorbed[0], absorbed[1]))
      && (4 <= n < 8 ==> x2 == HalfSums(absorbed[0], absorbed[1], absorbed[2], absorbed[3]))
      && (n == 6 || n == 7 ==> x1 == PairSums(absorbed[4], absorbed[5]))
      && (n == 8 ==> forall k :: 0 <= k < 8 ==> x0[k] == LaneTotal(absorbed[k]))
    }

    method Add(n: nat, x: Lanes)
      requires Valid() && n == |absorbed| < 8
      modifies this
      ensures Valid() && absorbed == old(absorbed) + [x]
    {
      hide PairSums, HalfSums, LaneTotal;
      if n == 1 {
        x1 := PairSums(x0, x);
      } else if n == 3 {
        x2 := PairSums(x1, PairSums(x0, x));
        HalfSumsIs(absorbed[0], absorbed[1], absorbed[2], x);
      } else if n == 5 {
        x1 := PairSums(x0, x);
      } else if n == 7 {
        x0 := PairSums(x1, PairSums(x0, x));
        HalfSumsIs(absorbed[4], absorbed[5], absorbed[6], x);
        HalvesAdd(absorbed[..4], absorbed[4..] + [x]);
        x0 := Plus(BlendHigh(x2, x0), HighLow(x2, x0));
        AllTotals(x0, absorbed[..4], absorbed[4..] + [x], absorbed + [x]);
      } else {
        x0 := x;
      }
      absorbed := absorbed + [x];
    }

    /** Adds the eight sums to memory. */
    method Update(p: array<real>, at: nat)
      requires Valid() && |absorbed| == 8 && at + 8 <= p.Length
      modifies p
      ensures forall k :: 0 <= k < 8 ==> p[at + k] == old(p[at + k]) + LaneTotal(absorbed[k])
      ensures forall i :: 0 <= i < p.Length && !(at <= i < at + 8) ==> p[i] == old(p[i])
    {
      hide LaneTotal;
      forall k | 0 <= k < 8 { p[at + k] := x0[k] + p[at + k]; }
    }
  }

  lemma HalfSumsIs(a: Lanes, b: Lanes, c: Lanes, d: Lanes)
    ensures HalfSums(a, b, c, d) == PairSums(PairSums(a, b), PairSums(c, d))
  {
  }

  lemma AllTotals(x: Lanes, v: seq<Lanes>, w: seq<Lanes>, all: seq<Lanes>)
    requires |v| == |w| == 4 && all == v + w
    requires forall k :: 0 <= k < 4 ==> x[k] == LaneTotal(v[k]) && x[4 + k] == LaneTotal(w[k])
    ensures forall k :: 0 <= k < 8 ==> x[k] == LaneTotal(all[k])
  {
    hide LaneTotal;
    forall k | 0 <= k < 8 ensures x[k] == LaneTotal(all[k]) {
      if k >= 4 { assert x[4 + (k - 4)] == LaneTotal(w[k - 4]); }
    }
  }

  // ------------------------------------------------------------------------------------------------
  // Broadcasting

  /** The low half twice, and the high half twice. */
  datatype Upsample8 = Upsample8(x0: Lanes, x1: Lanes)

  function SwapHalves(x: Lanes): Lanes { HighLow(x, x) }

  function Upsample(x01: Lanes): Upsample8 {
    var x10 := SwapHalves(x01);
    Upsample8(BlendHigh(x01, x10), BlendHigh(x10, x01))
  }

  /** Lane i of each half, in every lane of that half. */
  function PermuteAll(x: Lanes, i: nat): Lanes
    requires i < 4
  {
    [x[i], x[i], x[i], x[i], x[4 + i], x[4 + i], x[4 + i], x[4 + i]]
  }

  function Get(u: Upsample8, n: nat): Lanes
    requires n < 8
  {
    if n < 4 then PermuteAll(u.x0, n) else PermuteAll(u.x1, n - 4)
  }

  lemma Broadcasts(x: Lanes, n: nat, k: nat)
    requires n < 8 && k < 8
    ensures Get(Upsample(x), n)[k] == x[n]
  {
  }

  function Times(a: Lanes, c: real): Lanes {
    [a[0] * c, a[1] * c, a[2] * c, a[3] * c, a[4] * c, a[5] * c, a[6] * c, a[7] * c]
  }

  function LoadLanes(p: seq<real>, at: nat): Lanes
    requires at + 8 <= |p|
  {
    [p[at], p[at + 1], p[at + 2], p[at + 3], p[at + 4], p[at + 5], p[at + 6], p[at + 7]]
  }
}
