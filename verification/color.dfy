/**
  `lighten`: the outline colour of a team, derived from its fill colour by
  moving each 8-bit channel 35% of the way towards 255 and printing the
  result back as "#rrggbb".
 */
module Color {
  import opened Wrappers
  import opened Text
  import opened Numeric

  /** The mixing ratio; every caller uses the default `p = 0.35`. */
  const Ratio: real := 0.35

  /** `s.replace("#", "")`: only the first "#" is removed, wherever it is. */
  function RemoveFirstHash(s: string): (r: string)
    ensures '#' !in s ==> r == s
    ensures |s| > 0 && s[0] == '#' ==> r == s[1..]
    decreases |s|
  {
    if |s| == 0 then s
    else if s[0] == '#' then s[1..]
    else [s[0]] + RemoveFirstHash(s[1..])
  }

  /** The longest prefix of base-16 digits. */
  function HexPrefix(s: string): (p: string)
    ensures AllHex(p) && |p| <= |s| && p == s[..|p|]
    ensures |p| < |s| ==> !IsHexChar(s[|p|])
    ensures AllHex(s) ==> p == s
    decreases |s|
  {
    if |s| == 0 || !IsHexChar(s[0]) then []
    else
      assert AllHex(s) ==> AllHex(s[1..]);
      assert [s[0]] + s[1..] == s;
      [s[0]] + HexPrefix(s[1..])
  }

  /**
    `parseInt(s, 16)`: the value of the leading base-16 digits, or `None`
    (NaN) when there are none.
   */
  function ParseInt16(s: string): (r: Option<nat>)
    ensures AllHex(s) && |s| > 0 ==> r == Some(ParseHex(s))
  {
    var digits := HexPrefix(s);
    if |digits| == 0 then None else Some(ParseHex(digits))
  }

  /**
    `(num >> shift) & 255` for shift 16, 8 or 0. The 32-bit shift and mask
    keep bits shift..shift+7 of the integer, which is this quotient-remainder
    for any non-negative integer; NaN converts to 0 first.
   */
  function Channel(num: Option<nat>, shift: nat): (c: nat)
    ensures c <= 255
  {
    match num
    case None => 0
    case Some(v) => (v / Pow2(shift)) % 256
  }

  function Pow2(k: nat): (p: nat)
    ensures p >= 1
  {
    if k == 0 then 1 else 2 * Pow2(k - 1)
  }

  /** `mix(c)`: the channel moved `Ratio` of the way to 255, rounded, capped at 255. */
  function Mix(c: int): (m: int)
    ensures 0 <= c <= 255 ==> c <= m <= 255
  {
    var x := c as real + (255 - c) as real * Ratio;
    var m := Round(x);
    assert 0 <= c <= 255 ==> x >= c as real;
    if m <= 255 then m else 255
  }

  /** Every channel gets lighter or stays, and never exceeds 255. */
  lemma MixBounds(c: int)
    requires 0 <= c <= 255
    ensures c <= Mix(c) <= 255
  {
    var x := c as real + (255 - c) as real * Ratio;
    assert x >= c as real;
    assert (x + 0.5).Floor >= c;
  }

  /** The three lightened channels of a colour string, packed as 0xRRGGBB. */
  function LightenedValue(hex: string): (v: nat)
    ensures v < Pow16(6)
  {
    var num := ParseInt16(RemoveFirstHash(hex));
    var rr, gg, bb := Mix(Channel(num, 16)), Mix(Channel(num, 8)), Mix(Channel(num, 0));
    MixBounds(Channel(num, 16));
    MixBounds(Channel(num, 8));
    MixBounds(Channel(num, 0));
    assert 0 <= rr && 0 <= gg && 0 <= bb;
    PackBound(rr, gg, bb);
    Pack(rr, gg, bb)
  }

  /** `(rr << 16) + (gg << 8) + bb` for channels of eight bits. */
  function Pack(r: nat, g: nat, b: nat): nat {
    r * 65536 + g * 256 + b
  }

  lemma PackBound(r: nat, g: nat, b: nat)
    requires r <= 255 && g <= 255 && b <= 255
    ensures Pack(r, g, b) < Pow16(6)
  {
    assert Pow16(6) == 16777216;
  }

  /** `lighten(hex)`: "#" and the rendering of `(1 << 24) + (rr << 16) + (gg << 8) + bb` without its first digit. */
  function Lighten(hex: string): (out: string)
    ensures |out| == 7 && out[0] == '#'
    ensures forall i :: 1 <= i < 7 ==> IsLowerHex(out[i])
  {
    var v := LightenedValue(hex);
    LightenPadding(v);
    "#" + ToHex(16777216 + v)[1..]
  }

  /** The leading 1 of 2^24 + v pads v to exactly six digits. */
  lemma LightenPadding(v: nat)
    requires v < Pow16(6)
    ensures ToHex(16777216 + v)[1..] == FixedHex(v, 6)
  {
    assert Pow16(6) == 16777216;
    ToHexOfOffset(v, 6);
  }

  /**
    Reading the output back with the source's own parser and channel
    extraction gives the lightened channels, each between the input channel
    and 255.
   */
  lemma LightenRoundTrip(hex: string)
    ensures var num := ParseInt16(RemoveFirstHash(hex));
      var back := ParseInt16(RemoveFirstHash(Lighten(hex)));
      && Channel(back, 16) == Mix(Channel(num, 16))
      && Channel(back, 8) == Mix(Channel(num, 8))
      && Channel(back, 0) == Mix(Channel(num, 0))
      && Channel(num, 16) <= Channel(back, 16) <= 255
      && Channel(num, 8) <= Channel(back, 8) <= 255
      && Channel(num, 0) <= Channel(back, 0) <= 255
  {
    LightenReparses(hex);
    LightenedChannels(hex);
  }

  /** The output of `lighten`, with its "#" removed, parses back to the packed value. */
  lemma LightenReparses(hex: string)
    ensures ParseInt16(RemoveFirstHash(Lighten(hex))) == Some(LightenedValue(hex))
  {
    var v := LightenedValue(hex);
    LightenPadding(v);
    assert Lighten(hex) == "#" + FixedHex(v, 6);
    ReparsePadded(v);
  }

  /** The packed value holds the three mixed channels of the input, each no darker. */
  lemma LightenedChannels(hex: string)
    ensures var num := ParseInt16(RemoveFirstHash(hex));
      var v := Some(LightenedValue(hex));
      && Channel(v, 16) == Mix(Channel(num, 16))
      && Channel(v, 8) == Mix(Channel(num, 8))
      && Channel(v, 0) == Mix(Channel(num, 0))
      && Channel(num, 16) <= Mix(Channel(num, 16)) <= 255
      && Channel(num, 8) <= Mix(Channel(num, 8)) <= 255
      && Channel(num, 0) <= Mix(Channel(num, 0)) <= 255
  {
    var num := ParseInt16(RemoveFirstHash(hex));
    var r, g, b := Channel(num, 16), Channel(num, 8), Channel(num, 0);
    MixBounds(r);
    MixBounds(g);
    MixBounds(b);
    assert LightenedValue(hex) == Pack(Mix(r), Mix(g), Mix(b));
    PackedChannels(Mix(r), Mix(g), Mix(b));
  }

  /** "#" and six digits parse back, after the "#" is removed, to the value they render. */
  lemma ReparsePadded(v: nat)
    requires v < Pow16(6)
    ensures ParseInt16(RemoveFirstHash("#" + FixedHex(v, 6))) == Some(v)
  {
    var digits := FixedHex(v, 6);
    assert ("#" + digits)[1..] == digits;
    assert AllHex(digits);
    ParseFixedHex(v, 6);
  }

  lemma PackedChannels(r: nat, g: nat, b: nat)
    requires r <= 255 && g <= 255 && b <= 255
    ensures Channel(Some(Pack(r, g, b)), 16) == r
    ensures Channel(Some(Pack(r, g, b)), 8) == g
    ensures Channel(Some(Pack(r, g, b)), 0) == b
  {
    assert Pow2(8) == 256 && Pow2(16) == 65536 && Pow2(0) == 1;
    var v := Pack(r, g, b);
    assert v / 65536 == r;
    assert v / 256 == r * 256 + g;
    assert (r * 256 + g) % 256 == g;
  }

  /** White stays white. */
  lemma LightenWhite()
    ensures Lighten("#ffffff") == "#ffffff"
  {
    WhiteDigits();
    ReparsePadded(16777215);
    assert "#" + FixedHex(16777215, 6) == "#ffffff";
    var num := ParseInt16(RemoveFirstHash("#ffffff"));
    assert num == Some(Pack(255, 255, 255));
    PackedChannels(255, 255, 255);
    assert Mix(255) == 255;
    assert LightenedValue("#ffffff") == 16777215;
    LightenPadding(16777215);
  }

  lemma WhiteDigits()
    ensures FixedHex(16777215, 6) == "ffffff"
  {
    assert FixedHex(15, 1) == "f";
    assert FixedHex(255, 2) == FixedHex(15, 1) + "f" == "ff";
    assert FixedHex(4095, 3) == FixedHex(255, 2) + "f" == "fff";
    assert FixedHex(65535, 4) == FixedHex(4095, 3) + "f" == "ffff";
    assert FixedHex(1048575, 5) == FixedHex(65535, 4) + "f" == "fffff";
    assert FixedHex(16777215, 6) == FixedHex(1048575, 5) + "f" == "ffffff";
  }
}
