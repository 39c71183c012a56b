/** The per-pixel codes of the LBP variants over a map of block sums. The pixel at
    (y, x) of a feature map looks at the 3 x 3 window of blocks whose top-left block is
    (y, x): the centre is block (y+1, x+1) and the eight neighbours are visited clockwise
    from the top-left corner. A code is a list of comparison outcomes read as digits,
    least significant first. */
module LbpCodes {
  import opened NumpyOps

  function Power(radix: nat, n: nat): nat
  {
    if n == 0 then 1 else radix * Power(radix, n - 1)
  }

  /** The number whose digits in base `radix` are the outcomes, least significant first. */
  function PlaceValue(bits: seq<bool>, radix: nat): nat
  {
    if |bits| == 0 then 0 else (if bits[0] then 1 else 0) + radix * PlaceValue(bits[1..], radix)
  }

  /** Adding one more outcome on top adds its place value. */
  lemma {:induction false} PlaceValueAppend(bits: seq<bool>, b: bool, radix: nat)
    ensures PlaceValue(bits + [b], radix) == PlaceValue(bits, radix) + (if b then Power(radix, |bits|) else 0)
  {
    if |bits| > 0 {
      assert (bits + [b])[1..] == bits[1..] + [b];
      PlaceValueAppend(bits[1..], b, radix);
      var t := if b then Power(radix, |bits| - 1) else 0;
      assert radix * (PlaceValue(bits[1..], radix) + t) == radix * PlaceValue(bits[1..], radix) + radix * t;
    }
  }

  /** Reading one more outcome of a list adds its place value. */
  lemma PlaceValuePrefixStep(bits: seq<bool>, ind: nat, radix: nat)
    requires ind < |bits|
    ensures PlaceValue(bits[..ind + 1], radix) == PlaceValue(bits[..ind], radix) + (if bits[ind] then Power(radix, ind) else 0)
  {
    assert bits[..ind + 1] == bits[..ind] + [bits[ind]];
    PlaceValueAppend(bits[..ind], bits[ind], radix);
  }

  lemma MulLeft(a: int, b: int, c: int)
    requires a >= 0 && b <= c
    ensures a * b <= a * c
  {
  }

  lemma Distribute(a: int, d: int, r: int, v: int)
    ensures a * (d + r * v) == a * d + r * (a * v)
  {
  }

  /** One more digit d below a value `rest` of place value p keeps the bound. */
  lemma BoundStep(radix: int, d: int, rest: int, p: int, value: int, power: int)
    requires radix >= 1 && 0 <= d <= 1 && (radix - 1) * rest <= p - 1
    requires value == d + radix * rest && power == radix * p
    ensures (radix - 1) * value <= power - 1
  {
    Distribute(radix - 1, d, radix, rest);
    MulLeft(radix, (radix - 1) * rest, p - 1);
    MulLeft(radix - 1, d, 1);
  }

  /** n digits in base radix stay below radix^n: (radix - 1) * value <= radix^n - 1. */
  lemma {:induction false} PlaceValueBound(bits: seq<bool>, radix: nat)
    requires radix >= 1
    ensures (radix - 1) * PlaceValue(bits, radix) <= Power(radix, |bits|) - 1
  {
    if |bits| > 0 {
      PlaceValueBound(bits[1..], radix);
      BoundStep(radix, if bits[0] then 1 else 0, PlaceValue(bits[1..], radix), Power(radix, |bits| - 1),
                PlaceValue(bits, radix), Power(radix, |bits|));
    }
  }

  /** The n lowest binary digits of v, least significant first. */
  function LowBits(v: nat, n: nat): (bits: seq<bool>)
    ensures |bits| == n
  {
    if n == 0 then [] else [v % 2 == 1] + LowBits(v / 2, n - 1)
  }

  /** Reading a binary code back digit by digit gives the outcomes it was made from. */
  lemma {:induction false} LowBitsOfPlaceValue(bits: seq<bool>)
    ensures LowBits(PlaceValue(bits, 2), |bits|) == bits
  {
    if |bits| > 0 {
      var v := PlaceValue(bits, 2);
      LowBitsOfPlaceValue(bits[1..]);
      assert v % 2 == 1 <==> bits[0];
      assert v / 2 == PlaceValue(bits[1..], 2);
    }
  }

  /** coord of get_features: the (row, column) offsets of the eight neighbours. */
  const Coord: seq<(nat, nat)> := [(0, 0), (0, 1), (0, 2), (1, 2), (2, 2), (2, 1), (2, 0), (1, 0)]

  /** The 3 x 3 window of blocks at (y, x) lies inside the block map. */
  predicate InWindow(b: seq<seq<int>>, y: nat, x: nat)
  {
    IsMatrix(b, Width(b)) && y + 2 < |b| && x + 2 < Width(b)
  }

  function Neighbour(b: seq<seq<int>>, ind: nat, y: nat, x: nat): int
    requires InWindow(b, y, x) && ind < 8
  {
    b[y + Coord[ind].0][x + Coord[ind].1]
  }

  function Centre(b: seq<seq<int>>, y: nat, x: nat): int
    requires InWindow(b, y, x)
  {
    b[y + 1][x + 1]
  }

  /** lbp: neighbour ind is at least the centre. */
  function LbpBits(b: seq<seq<int>>, y: nat, x: nat): (bits: seq<bool>)
    requires InWindow(b, y, x)
    ensures |bits| == 8
  {
    seq(8, ind requires 0 <= ind < 8 => Neighbour(b, ind, y, x) >= Centre(b, y, x))
  }

  /** The lbp code: eight binary outcomes, so a byte. */
  function LbpCode(b: seq<seq<int>>, y: nat, x: nat): (c: int)
    requires InWindow(b, y, x)
    ensures 0 <= c <= 255
  {
    PlaceValueBound(LbpBits(b, y, x), 2);
    PlaceValue(LbpBits(b, y, x), 2)
  }

  /** An lbp code is a byte whose bit ind says whether neighbour ind is at least the
      centre. */
  lemma LbpCodeMeaning(b: seq<seq<int>>, y: nat, x: nat)
    requires InWindow(b, y, x)
    ensures 0 <= LbpCode(b, y, x) <= 255
    ensures forall ind :: 0 <= ind < 8 ==>
      (LowBits(LbpCode(b, y, x), 8)[ind] <==> Neighbour(b, ind, y, x) >= Centre(b, y, x))
  {
    PlaceValueBound(LbpBits(b, y, x), 2);
    LowBitsOfPlaceValue(LbpBits(b, y, x));
  }

  /** Sum of the first n neighbours. */
  function NeighbourSum(b: seq<seq<int>>, y: nat, x: nat, n: nat): int
    requires InWindow(b, y, x) && n <= 8
  {
    if n == 0 then 0 else NeighbourSum(b, y, x, n - 1) + Neighbour(b, n - 1, y, x)
  }

  /** mlbp: neighbour ind is at least the mean of the eight neighbours (the centre is not
      part of the mean), compared without division. */
  function MlbpBits(b: seq<seq<int>>, y: nat, x: nat): (bits: seq<bool>)
    requires InWindow(b, y, x)
    ensures |bits| == 8
  {
    seq(8, ind requires 0 <= ind < 8 => 8 * Neighbour(b, ind, y, x) >= NeighbourSum(b, y, x, 8))
  }

  /** The mlbp code: eight binary outcomes, so a byte. */
  function MlbpCode(b: seq<seq<int>>, y: nat, x: nat): (c: int)
    requires InWindow(b, y, x)
    ensures 0 <= c <= 255
  {
    PlaceValueBound(MlbpBits(b, y, x), 2);
    PlaceValue(MlbpBits(b, y, x), 2)
  }

  /** An mlbp code is a byte whose bit ind says whether neighbour ind is at least the
      mean of the neighbours. */
  lemma MlbpCodeMeaning(b: seq<seq<int>>, y: nat, x: nat)
    requires InWindow(b, y, x)
    ensures 0 <= MlbpCode(b, y, x) <= 255
    ensures forall ind :: 0 <= ind < 8 ==>
      (LowBits(MlbpCode(b, y, x), 8)[ind] <==>
        (Neighbour(b, ind, y, x) as real) >= (NeighbourSum(b, y, x, 8) as real) / 8.0)
  {
    PlaceValueBound(MlbpBits(b, y, x), 2);
    LowBitsOfPlaceValue(MlbpBits(b, y, x));
  }

  function AbsInt(v: int): int
  {
    if v < 0 then -v else v
  }

  /** dlbp, first part: pi and pi4 differ from the centre pc in the same direction. */
  predicate SameSide(pi: int, pi4: int, pc: int)
  {
    (pi - pc) * (pi4 - pc) > 0
  }

  /** dlbp, second part: pi differs from the centre pc at least as much as pi4. */
  predicate AtLeastAsFar(pi: int, pi4: int, pc: int)
  {
    AbsInt(pi - pc) >= AbsInt(pi4 - pc)
  }

  /** The sign outcomes of dlbp: neighbours ind and ind+4, on opposite sides of the
      centre, both differ from it in the same direction. */
  function DlbpSignBits(b: seq<seq<int>>, y: nat, x: nat): (bits: seq<bool>)
    requires InWindow(b, y, x)
    ensures |bits| == 4
  {
    seq(4, ind requires 0 <= ind < 4 => SameSide(Neighbour(b, ind, y, x), Neighbour(b, ind + 4, y, x), Centre(b, y, x)))
  }

  /** The magnitude outcomes of dlbp: neighbour ind differs from the centre at least as
      much as neighbour ind+4. */
  function DlbpMagnitudeBits(b: seq<seq<int>>, y: nat, x: nat): (bits: seq<bool>)
    requires InWindow(b, y, x)
    ensures |bits| == 4
  {
    seq(4, ind requires 0 <= ind < 4 => AtLeastAsFar(Neighbour(b, ind, y, x), Neighbour(b, ind + 4, y, x), Centre(b, y, x)))
  }

  /** The sign outcomes weigh 2^ind and the magnitude outcomes 4^ind, so a dlbp code
      lies in 0 .. 100 = (1 + 2 + 4 + 8) + (1 + 4 + 16 + 64). */
  function DlbpCode(b: seq<seq<int>>, y: nat, x: nat): (c: int)
    requires InWindow(b, y, x)
    ensures 0 <= c <= 100
  {
    PlaceValueBound(DlbpSignBits(b, y, x), 2);
    PlaceValueBound(DlbpMagnitudeBits(b, y, x), 4);
    PlaceValue(DlbpSignBits(b, y, x), 2) + PlaceValue(DlbpMagnitudeBits(b, y, x), 4)
  }
}
