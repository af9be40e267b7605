/**
  The formation generator: for a formation name and a side, the eleven
  starting seeds (jersey number, label, normalised position), listed
  goalkeeper first and then row by row from the own goal line outwards.
 */
module Tactic {
  import opened Types
  import opened Text

  datatype FormationName = F442 | F433 | F352 | F4231 | F4141 | F532

  /** The formations offered by the team panels, in display order. */
  const FormationList: seq<FormationName> := [F442, F433, F352, F4231, F4141, F532]

  /** The list offers every formation exactly once. */
  lemma FormationListComplete(f: FormationName)
    ensures f in FormationList
    ensures forall i, j :: 0 <= i < j < |FormationList| ==> FormationList[i] != FormationList[j]
  {
  }

  datatype Seed = Seed(number: nat, name: string, nx: real, ny: real)

  /** The vertical bands of one half: goalkeeper, defence, midfield, attack. */
  datatype Bands = Bands(gk: real, def: real, mid: real, att: real)

  const TopY: Bands := Bands(0.06, 0.20, 0.35, 0.48)
  const BotY: Bands := Bands(0.94, 0.80, 0.65, 0.52)

  function BandsFor(side: Side): Bands {
    if side == Top then TopY else BotY
  }

  /* Conventional jersey numbers per line. */
  const GkNum: nat := 1
  const DefNums: seq<nat> := [2, 3, 4, 5]
  const Mid4Nums: seq<nat> := [6, 7, 8, 10]
  const Mid3Nums: seq<nat> := [6, 8, 10]
  const Mid5Nums: seq<nat> := [6, 7, 8, 10, 11]
  const Att2Nums: seq<nat> := [9, 11]
  const Att3Nums: seq<nat> := [7, 9, 11]
  const Att1Nums: seq<nat> := [9]

  /* Horizontal spreads of a row. */
  const FourX: seq<real> := [0.2, 0.4, 0.6, 0.8]
  const ThreeX: seq<real> := [0.26, 0.5, 0.74]
  const ThreeAltX: seq<real> := [0.28, 0.5, 0.72]
  const TwoX: seq<real> := [0.4, 0.6]
  const OneX: seq<real> := [0.5]
  const FiveX: seq<real> := [0.14, 0.32, 0.5, 0.68, 0.86]
  /** The wide four-man midfield spread written inline for 4-4-2 and 4-1-4-1. */
  const WideFourX: seq<real> := [0.18, 0.38, 0.62, 0.82]

  /** One horizontal row: the i-th player gets number `nums[i]` at `(xs[i], y)`. */
  datatype RowSpec = RowSpec(nums: seq<nat>, xs: seq<real>, y: real)

  predicate WellFormed(r: RowSpec) {
    |r.nums| == |r.xs|
  }

  predicate AllWellFormed(rows: seq<RowSpec>) {
    forall i :: 0 <= i < |rows| ==> WellFormed(rows[i])
  }

  /** A seed labelled "P" followed by its number, as every push in the generator labels it. */
  function MkSeed(n: nat, x: real, y: real): Seed {
    Seed(n, "P" + Decimal(n), x, y)
  }

  function Row(r: RowSpec): (s: seq<Seed>)
    requires WellFormed(r)
    ensures |s| == |r.xs|
    ensures forall i :: 0 <= i < |s| ==> s[i] == MkSeed(r.nums[i], r.xs[i], r.y)
  {
    seq(|r.xs|, i requires 0 <= i < |r.xs| => MkSeed(r.nums[i], r.xs[i], r.y))
  }

  /** The rows pushed one after another. */
  function Flatten(rows: seq<RowSpec>): seq<Seed>
    requires AllWellFormed(rows)
    decreases |rows|
  {
    if |rows| == 0 then [] else Row(rows[0]) + Flatten(rows[1..])
  }

  /**
    The rows each formation pushes, goalkeeper first. The in-between band of
    4-2-3-1 and 4-1-4-1 is the mean of the midfield and defence bands.
   */
  function Layout(f: FormationName, side: Side): (rows: seq<RowSpec>)
    ensures AllWellFormed(rows)
  {
    var y := BandsFor(side);
    var pivot := (y.mid + y.def) / 2.0;
    [RowSpec([GkNum], OneX, y.gk)] +
    match f
    case F442 =>
      [RowSpec(DefNums, FourX, y.def), RowSpec(Mid4Nums, WideFourX, y.mid), RowSpec(Att2Nums, TwoX, y.att)]
    case F433 =>
      [RowSpec(DefNums, FourX, y.def), RowSpec(Mid3Nums, ThreeAltX, y.mid), RowSpec(Att3Nums, ThreeX, y.att)]
    case F352 =>
      [RowSpec([3, 4, 5], ThreeX, y.def), RowSpec(Mid5Nums, FiveX, y.mid), RowSpec(Att2Nums, TwoX, y.att)]
    case F4231 =>
      [RowSpec(DefNums, FourX, y.def), RowSpec([6, 8], TwoX, pivot),
       RowSpec([7, 10, 11], ThreeAltX, y.mid), RowSpec(Att1Nums, OneX, y.att)]
    case F4141 =>
      [RowSpec(DefNums, FourX, y.def), RowSpec([6], OneX, pivot),
       RowSpec(Mid4Nums, WideFourX, y.mid), RowSpec([9], OneX, y.att)]
    case F532 =>
      [RowSpec([2, 3, 4, 5, 12], FiveX, y.def), RowSpec(Mid3Nums, ThreeAltX, y.mid), RowSpec(Att2Nums, TwoX, y.att)]
  }

  /** `generateFormation(name, side)`: the starting seeds of one side. */
  function GenerateFormation(f: FormationName, side: Side): (seeds: seq<Seed>)
    ensures |seeds| == 11
    ensures seeds[0] == Seed(1, "P1", 0.5, BandsFor(side).gk)
  {
    FlattenLength(Layout(f, side));
    LayoutCells(f, side);
    Flatten(Layout(f, side))
  }

  /* ---------------- general facts about rows ---------------- */

  function CellCount(rows: seq<RowSpec>): nat
    decreases |rows|
  {
    if |rows| == 0 then 0 else |rows[0].xs| + CellCount(rows[1..])
  }

  /** Every formation pushes eleven seeds in all. */
  lemma LayoutCells(f: FormationName, side: Side)
    ensures CellCount(Layout(f, side)) == 11
  {
    var r0 := Layout(f, side);
    var r1 := r0[1..];
    var r2 := r1[1..];
    var r3 := r2[1..];
    var r4 := r3[1..];
    assert CellCount(r0) == |r0[0].xs| + CellCount(r1);
    assert CellCount(r1) == |r1[0].xs| + CellCount(r2);
    assert CellCount(r2) == |r2[0].xs| + CellCount(r3);
    assert CellCount(r3) == |r3[0].xs| + CellCount(r4);
    if |r4| > 0 {
      assert CellCount(r4) == |r4[0].xs| + CellCount(r4[1..]);
    }
  }

  lemma {:induction false} FlattenLength(rows: seq<RowSpec>)
    requires AllWellFormed(rows)
    ensures |Flatten(rows)| == CellCount(rows)
    ensures |rows| > 0 && |rows[0].xs| > 0 ==> Flatten(rows)[0] == Row(rows[0])[0]
    decreases |rows|
  {
    if |rows| > 0 {
      FlattenLength(rows[1..]);
    }
  }

  /** Every seed is labelled by its number, lies in [0.14, 0.86] across and in [lo, hi] down. */
  predicate SeedIn(s: Seed, lo: real, hi: real) {
    && s.name == "P" + Decimal(s.number)
    && 0.14 <= s.nx <= 0.86
    && lo <= s.ny <= hi
  }

  /** A row whose spread is strictly left to right, inside [0.14, 0.86], at a depth in [lo, hi]. */
  predicate RowIn(r: RowSpec, lo: real, hi: real) {
    && WellFormed(r)
    && lo <= r.y <= hi
    && SpreadIn(r.xs)
  }

  /** A non-empty spread, strictly left to right, inside [0.14, 0.86]. */
  predicate SpreadIn(xs: seq<real>) {
    && |xs| >= 1
    && (forall i :: 0 <= i < |xs| ==> 0.14 <= xs[i] <= 0.86)
    && (forall i :: 0 <= i < |xs| - 1 ==> xs[i] < xs[i + 1])
  }

  lemma Spreads()
    ensures SpreadIn(FourX) && SpreadIn(ThreeX) && SpreadIn(ThreeAltX) && SpreadIn(TwoX)
    ensures SpreadIn(OneX) && SpreadIn(FiveX) && SpreadIn(WideFourX)
  {
  }

  predicate RowsIn(rows: seq<RowSpec>, lo: real, hi: real) {
    forall i :: 0 <= i < |rows| ==> RowIn(rows[i], lo, hi)
  }

  /** Rows are listed from the goal line outwards: strictly deeper for the top side. */
  predicate RowsDescend(rows: seq<RowSpec>) {
    forall i :: 0 <= i < |rows| - 1 ==> rows[i].y < rows[i + 1].y
  }

  /** Along the list, depth never decreases. */
  predicate DepthNonDecreasing(s: seq<Seed>) {
    forall i :: 0 <= i < |s| - 1 ==> s[i].ny <= s[i + 1].ny
  }

  /** Along the list, depth never increases. */
  predicate DepthNonIncreasing(s: seq<Seed>) {
    forall i :: 0 <= i < |s| - 1 ==> s[i].ny >= s[i + 1].ny
  }

  /** Neighbours at the same depth (in the same row) are strictly left to right. */
  predicate RowsLeftToRight(s: seq<Seed>) {
    forall i :: 0 <= i < |s| - 1 && s[i].ny == s[i + 1].ny ==> s[i].nx < s[i + 1].nx
  }

  lemma {:induction false} FlattenIn(rows: seq<RowSpec>, lo: real, hi: real)
    requires RowsIn(rows, lo, hi)
    ensures AllWellFormed(rows)
    ensures forall k :: 0 <= k < |Flatten(rows)| ==> SeedIn(Flatten(rows)[k], lo, hi)
    decreases |rows|
  {
    if |rows| > 0 {
      FlattenIn(rows[1..], lo, hi);
      var head, tail := Row(rows[0]), Flatten(rows[1..]);
      assert Flatten(rows) == head + tail;
      forall k | 0 <= k < |head + tail|
        ensures SeedIn((head + tail)[k], lo, hi)
      {
        if k >= |head| {
          assert (head + tail)[k] == tail[k - |head|];
        }
      }
    }
  }

  lemma {:induction false} FlattenOrdered(rows: seq<RowSpec>)
    requires RowsIn(rows, 0.0, 1.0) && RowsDescend(rows)
    ensures AllWellFormed(rows)
    ensures DepthNonDecreasing(Flatten(rows))
    ensures RowsLeftToRight(Flatten(rows))
    ensures |rows| > 0 ==> forall k :: 0 <= k < |Flatten(rows)| ==> Flatten(rows)[k].ny >= rows[0].y
    decreases |rows|
  {
    if |rows| > 0 {
      var rest := rows[1..];
      FlattenOrdered(rest);
      var head, tail := Row(rows[0]), Flatten(rest);
      var s := head + tail;
      assert Flatten(rows) == s;
      forall k | 0 <= k < |tail|
        ensures tail[k].ny > rows[0].y
      {
        assert rest[0] == rows[1];
      }
      forall i | 0 <= i < |s| - 1
        ensures s[i].ny <= s[i + 1].ny
        ensures s[i].ny == s[i + 1].ny ==> s[i].nx < s[i + 1].nx
      {
        if i + 1 < |head| {
        } else if i + 1 == |head| {
          assert s[i + 1] == tail[0];
        } else {
          assert s[i] == tail[i - |head|] && s[i + 1] == tail[i + 1 - |head|];
        }
      }
      forall k | 0 <= k < |s|
        ensures s[k].ny >= rows[0].y
      {
        if k >= |head| {
          assert s[k] == tail[k - |head|];
        }
      }
    }
  }

  /* ---------------- mirroring ---------------- */

  function MirrorSeed(s: Seed): Seed {
    s.(ny := 1.0 - s.ny)
  }

  /** The list reflected across the halfway line: only `ny` changes, to `1 - ny`. */
  function Mirror(seeds: seq<Seed>): (m: seq<Seed>)
    ensures |m| == |seeds|
  {
    seq(|seeds|, i requires 0 <= i < |seeds| => MirrorSeed(seeds[i]))
  }

  function MirrorRows(rows: seq<RowSpec>): (m: seq<RowSpec>)
    ensures |m| == |rows|
  {
    seq(|rows|, i requires 0 <= i < |rows| => rows[i].(y := 1.0 - rows[i].y))
  }

  lemma {:induction false} FlattenMirror(rows: seq<RowSpec>)
    requires AllWellFormed(rows)
    ensures AllWellFormed(MirrorRows(rows))
    ensures Flatten(MirrorRows(rows)) == Mirror(Flatten(rows))
    decreases |rows|
  {
    var m := MirrorRows(rows);
    assert AllWellFormed(m);
    if |rows| > 0 {
      FlattenMirror(rows[1..]);
      assert m[1..] == MirrorRows(rows[1..]);
      assert Row(m[0]) == Mirror(Row(rows[0]));
      var a, b := Row(rows[0]), Flatten(rows[1..]);
      assert Mirror(a + b) == Mirror(a) + Mirror(b);
    }
  }

  /** Each bottom band is the top band reflected: TOP_Y + BOT_Y = 1 per band. */
  lemma LayoutMirror(f: FormationName)
    ensures Layout(f, Bottom) == MirrorRows(Layout(f, Top))
  {
  }

  /* ---------------- properties of the generator ---------------- */

  lemma TopRows(f: FormationName)
    ensures RowsIn(Layout(f, Top), 0.06, 0.48)
    ensures RowsDescend(Layout(f, Top))
  {
    Spreads();
    match f
    case F442 =>
    case F433 =>
    case F352 =>
    case F4231 =>
    case F4141 =>
    case F532 =>
  }

  /** The bottom list is the top list reflected: numbers, labels, `nx` and order agree, `ny` becomes `1 - ny`. */
  lemma BottomMirrorsTop(f: FormationName)
    ensures GenerateFormation(f, Bottom) == Mirror(GenerateFormation(f, Top))
  {
    LayoutMirror(f);
    FlattenMirror(Layout(f, Top));
  }

  /**
    Every seed is labelled "P" and its number, lies strictly inside the pitch
    across, and stays in its own half: [0.06, 0.48] for the top side,
    [0.52, 0.94] for the bottom side, so never on the halfway line.
   */
  lemma SeedsInOwnHalf(f: FormationName, side: Side)
    ensures var seeds := GenerateFormation(f, side);
      forall k :: 0 <= k < |seeds| ==>
        && seeds[k].name == "P" + Decimal(seeds[k].number)
        && 0.14 <= seeds[k].nx <= 0.86
        && (side == Top ==> 0.06 <= seeds[k].ny <= 0.48)
        && (side == Bottom ==> 0.52 <= seeds[k].ny <= 0.94)
  {
    TopRows(f);
    FlattenIn(Layout(f, Top), 0.06, 0.48);
    if side == Bottom {
      BottomMirrorsTop(f);
    }
  }

  /**
    The list runs from the own goal outwards (depth non-decreasing for the top
    side, non-increasing for the bottom side) and each row runs left to right.
   */
  lemma SeedsOrdered(f: FormationName, side: Side)
    ensures side == Top ==> DepthNonDecreasing(GenerateFormation(f, side))
    ensures side == Bottom ==> DepthNonIncreasing(GenerateFormation(f, side))
    ensures RowsLeftToRight(GenerateFormation(f, side))
  {
    TopRows(f);
    FlattenOrdered(Layout(f, Top));
    if side == Bottom {
      BottomMirrorsTop(f);
      var t, b := GenerateFormation(f, Top), GenerateFormation(f, Bottom);
      forall i | 0 <= i < |b| - 1
        ensures b[i].ny >= b[i + 1].ny
        ensures b[i].ny == b[i + 1].ny ==> b[i].nx < b[i + 1].nx
      {
        assert b[i] == MirrorSeed(t[i]) && b[i + 1] == MirrorSeed(t[i + 1]);
      }
    }
  }

  /* ---------------- jersey numbers ---------------- */

  function Numbers(seeds: seq<Seed>): (ns: seq<nat>)
    ensures |ns| == |seeds|
  {
    seq(|seeds|, i requires 0 <= i < |seeds| => seeds[i].number)
  }

  function AllNums(rows: seq<RowSpec>): seq<nat>
    decreases |rows|
  {
    if |rows| == 0 then [] else rows[0].nums + AllNums(rows[1..])
  }

  lemma {:induction false} FlattenNumbers(rows: seq<RowSpec>)
    requires AllWellFormed(rows)
    ensures Numbers(Flatten(rows)) == AllNums(rows)
    decreases |rows|
  {
    if |rows| > 0 {
      FlattenNumbers(rows[1..]);
      var a, b := Row(rows[0]), Flatten(rows[1..]);
      assert Numbers(a) == rows[0].nums;
      assert Numbers(a + b) == Numbers(a) + Numbers(b);
    }
  }

  /** The jersey numbers of a formation, in list order. */
  function JerseyNumbers(f: FormationName): seq<nat> {
    match f
    case F442 => [1, 2, 3, 4, 5, 6, 7, 8, 10, 9, 11]
    case F433 => [1, 2, 3, 4, 5, 6, 8, 10, 7, 9, 11]
    case F352 => [1, 3, 4, 5, 6, 7, 8, 10, 11, 9, 11]
    case F4231 => [1, 2, 3, 4, 5, 6, 8, 7, 10, 11, 9]
    case F4141 => [1, 2, 3, 4, 5, 6, 6, 7, 8, 10, 9]
    case F532 => [1, 2, 3, 4, 5, 12, 6, 8, 10, 9, 11]
  }

  lemma LayoutNumbers(f: FormationName, side: Side)
    ensures AllNums(Layout(f, side)) == JerseyNumbers(f)
  {
    var r0 := Layout(f, side);
    var r1 := r0[1..];
    var r2 := r1[1..];
    var r3 := r2[1..];
    var r4 := r3[1..];
    assert AllNums(r0) == r0[0].nums + AllNums(r1);
    assert AllNums(r1) == r1[0].nums + AllNums(r2);
    assert AllNums(r2) == r2[0].nums + AllNums(r3);
    assert AllNums(r3) == r3[0].nums + AllNums(r4);
    if |r4| > 0 {
      assert AllNums(r4) == r4[0].nums + AllNums(r4[1..]);
    }
  }

  /** Both sides carry the same jersey numbers in the same order, as listed per formation. */
  lemma FormationNumbers(f: FormationName, side: Side)
    ensures Numbers(GenerateFormation(f, side)) == JerseyNumbers(f)
  {
    FlattenNumbers(Layout(f, side));
    LayoutNumbers(f, side);
  }

  /** Numbers are not unique in general: 3-5-2 hands out 11 twice, 4-1-4-1 hands out 6 twice. */
  lemma RepeatedJerseys(side: Side)
    ensures GenerateFormation(F352, side)[8].number == GenerateFormation(F352, side)[10].number == 11
    ensures GenerateFormation(F4141, side)[5].number == GenerateFormation(F4141, side)[6].number == 6
  {
    FormationNumbers(F352, side);
    FormationNumbers(F4141, side);
    assert Numbers(GenerateFormation(F352, side))[8] == 11;
  }

  /**
    A pairwise check: `ns[i]` differs from every later entry from `j` on, and
    every entry after `i` differs from every entry after it.
   */
  predicate DistinctFrom(ns: seq<nat>, i: nat, j: nat)
    decreases |ns| - i, |ns| - j
  {
    if i >= |ns| then true
    else if j >= |ns| then DistinctFrom(ns, i + 1, i + 2)
    else ns[i] != ns[j] && DistinctFrom(ns, i, j + 1)
  }

  lemma {:induction false} DistinctFromSound(ns: seq<nat>, i: nat, j: nat)
    requires i < j && DistinctFrom(ns, i, j)
    ensures forall b :: j <= b < |ns| ==> ns[i] != ns[b]
    ensures forall a, b :: i < a < b < |ns| ==> ns[a] != ns[b]
    decreases |ns| - i, |ns| - j
  {
    if i >= |ns| {
    } else if j >= |ns| {
      DistinctFromSound(ns, i + 1, i + 2);
    } else {
      DistinctFromSound(ns, i, j + 1);
    }
  }

  lemma JerseyListsDistinct(f: FormationName)
    requires f != F352 && f != F4141
    ensures forall i, j :: 0 <= i < j < |JerseyNumbers(f)| ==> JerseyNumbers(f)[i] != JerseyNumbers(f)[j]
  {
    var ns := JerseyNumbers(f);
    match f {
      case F442 => assert DistinctFrom([1, 2, 3, 4, 5, 6, 7, 8, 10, 9, 11], 0, 1);
      case F433 => assert DistinctFrom([1, 2, 3, 4, 5, 6, 8, 10, 7, 9, 11], 0, 1);
      case F4231 => assert DistinctFrom([1, 2, 3, 4, 5, 6, 8, 7, 10, 11, 9], 0, 1);
      case F532 => assert DistinctFrom([1, 2, 3, 4, 5, 12, 6, 8, 10, 9, 11], 0, 1);
    }
    DistinctFromSound(ns, 0, 1);
  }

  /** The four other formations hand out eleven distinct numbers. */
  lemma DistinctJerseys(f: FormationName, side: Side)
    requires f != F352 && f != F4141
    ensures forall i, j :: 0 <= i < j < 11 ==>
      GenerateFormation(f, side)[i].number != GenerateFormation(f, side)[j].number
  {
    FormationNumbers(f, side);
    var ns := JerseyNumbers(f);
    JerseyListsDistinct(f);
    var seeds := GenerateFormation(f, side);
    forall i, j | 0 <= i < j < 11
      ensures seeds[i].number != seeds[j].number
    {
      assert Numbers(seeds)[i] == ns[i] && Numbers(seeds)[j] == ns[j];
    }
  }

  /** No seed wears number 0, so every seed's label is "P" and a non-empty number. */
  lemma JerseysPositive(f: FormationName, side: Side)
    ensures forall k :: 0 <= k < 11 ==> GenerateFormation(f, side)[k].number >= 1
  {
    FormationNumbers(f, side);
    JerseyListPositive(f);
    var seeds := GenerateFormation(f, side);
    forall k | 0 <= k < 11
      ensures seeds[k].number >= 1
    {
      assert Numbers(seeds)[k] == JerseyNumbers(f)[k];
    }
  }

  lemma JerseyListPositive(f: FormationName)
    ensures forall k :: 0 <= k < |JerseyNumbers(f)| ==> JerseyNumbers(f)[k] >= 1
  {
    var ns := JerseyNumbers(f);
    assert forall k :: 0 <= k < |ns| ==> ns[k] >= 1;
  }
}
