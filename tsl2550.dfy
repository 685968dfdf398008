/** The lookup tables of the TSL2550 light sensor driver. */
module Tsl2550Tables {
  /** tsl2550_count: the count value of each 7-bit channel code. */
  const Tsl2550Count: seq<nat> := [
    0, 1, 2, 3, 4, 5, 6, 7, 8, 9, 10, 11, 12, 13, 14, 15, 16, 18, 20, 22, 24, 26,
    28, 30, 32, 34, 36, 38, 40, 42, 44, 46, 49, 53, 57, 61, 65, 69, 73, 77, 81,
    85, 89, 93, 97, 101, 105, 109, 115, 123, 131, 139, 147, 155, 163, 171, 179,
    187, 195, 203, 211, 219, 227, 235, 247, 263, 279, 295, 311, 327, 343, 359,
    375, 391, 407, 423, 439, 455, 471, 487, 511, 543, 575, 607, 639, 671, 703,
    735, 767, 799, 831, 863, 895, 927, 959, 991,
    1039, 1103, 1167, 1231, 1295, 1359, 1423, 1487,
    1551, 1615, 1679, 1743, 1807, 1871, 1935, 1999,
    2095, 2223, 2351, 2479, 2607, 2735, 2863, 2991,
    3119, 3247, 3375, 3503, 3631, 3759, 3887, 4015
  ]

  /** tsl2550_ratio: 129 entries, indexed by the channel ratio scaled to 128. */
  const Tsl2550RatioTable: seq<nat> := [
    100, 100, 100, 100, 100, 100, 100, 100,
    100, 100, 100, 100, 100, 100, 99, 99,
    99, 99, 99, 99, 99, 99, 99, 99,
    99, 99, 99, 98, 98, 98, 98, 98,
    98, 98, 97, 97, 97, 97, 97, 96,
    96, 96, 96, 95, 95, 95, 94, 94,
    93, 93, 93, 92, 92, 91, 91, 90,
    89, 89, 88, 87, 87, 86, 85, 84,
    83, 82, 81, 80, 79, 78, 77, 75,
    74, 73, 71, 69, 68, 66, 64, 62,
    60, 58, 56, 54, 52, 49, 47, 44,
    42, 41, 40, 40, 39, 39, 38, 38,
    37, 37, 37, 36, 36, 36, 35, 35,
    35, 35, 34, 34, 34, 34, 33, 33,
    33, 33, 32, 32, 32, 32, 32, 31,
    31, 31, 31, 31, 30, 30, 30, 30,
    30
  ]

  lemma Tsl2550TableSizes()
    ensures |Tsl2550Count| == 128 && |Tsl2550RatioTable| == 129
  {
  }

  /** The index into tsl2550_ratio: count(ch1) * 128 / count(ch0) when channel 1
      does not exceed a non-zero channel 0, otherwise 128, then clipped to 128. */
  function Tsl2550RatioIndex(ch0: nat, ch1: nat): (ratio: nat)
    requires ch0 < 128 && ch1 < 128
    ensures ratio <= 128
  {
    var c0 := Tsl2550Count[ch0];
    var c1 := Tsl2550Count[ch1];
    var ratio := if c1 <= c0 && c0 > 0 then (c1 * 128) / c0 else 128;
    if ratio > 128 then 128 else ratio
  }

  /** The scaled ratio of two counts. */
  lemma ScaledRatio(c0: nat, c1: nat)
    requires c1 <= c0 && c0 > 0
    ensures (c1 * 128) / c0 <= 128
    ensures (c1 * 128) / c0 == 128 <==> c1 == c0
  {
    if c1 < c0 {
      assert c1 * 128 < c0 * 128;
    }
  }

  /** The clip to 128 never fires, and the index is 128 exactly when channel 1
      counts at least as much as channel 0 or channel 0 counts nothing;
      otherwise it is the count ratio scaled to 128. */
  lemma Tsl2550RatioIndexRange(ch0: nat, ch1: nat)
    requires ch0 < 128 && ch1 < 128
    ensures var c0 := Tsl2550Count[ch0];
            var c1 := Tsl2550Count[ch1];
            (c1 < c0 ==> Tsl2550RatioIndex(ch0, ch1) == (c1 * 128) / c0)
            && (Tsl2550RatioIndex(ch0, ch1) == 128 <==> c1 >= c0)
  {
    var c0 := Tsl2550Count[ch0];
    var c1 := Tsl2550Count[ch1];
    if c1 <= c0 && c0 > 0 {
      ScaledRatio(c0, c1);
    }
  }

}
