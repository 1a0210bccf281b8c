// What a viewer reads from a pixel in its own format
// (src/runtime/src/transport/rfb_transport.cpp; section 7.4 of RFC 6143).
module PixelChannels {
  import opened Frames
  import opened Wire

  // ---- bits ------------------------------------------------------------------------------------------

  predicate Bit(v: nat, k: nat) {
    if k == 0 then v % 2 == 1 else Bit(v / 2, k - 1)
  }

  lemma {:induction false} ZeroHasNoBit(k: nat)
    ensures !Bit(0, k)
  {
    if k > 0 { ZeroHasNoBit(k - 1); }
  }

  lemma {:induction false} BitOfOr(a: nat, b: nat, k: nat)
    ensures Bit(BitOr(a, b), k) <==> Bit(a, k) || Bit(b, k)
    decreases k
  {
    ZeroHasNoBit(k);
    if a != 0 && b != 0 && k > 0 {
      assert BitOr(a, b) / 2 == BitOr(a / 2, b / 2);
      BitOfOr(a / 2, b / 2, k - 1);
    }
  }

  lemma {:induction false} BitOfShifted(v: nat, shift: nat, k: nat)
    ensures Bit(v * Pow2(shift), k) <==> k >= shift && Bit(v, k - shift)
    decreases shift
  {
    if shift > 0 {
      Twice(v, Pow2(shift - 1));
      if k > 0 { BitOfShifted(v, shift - 1, k - 1); }
    }
  }

  lemma {:induction false} NoBitAbove(v: nat, n: nat, k: nat)
    requires v < Pow2(n) && n <= k
    ensures !Bit(v, k)
    decreases n
  {
    if n == 0 { ZeroHasNoBit(k); } else { NoBitAbove(v / 2, n - 1, k - 1); }
  }

  lemma {:induction false} AllBitsBelow(n: nat, k: nat)
    requires k < n
    ensures Pow2(n) > 0 && Bit(Pow2(n) - 1, k)
    decreases n
  {
    PowIsPositive(n);
    PowIsPositive(n - 1);
    if k > 0 {
      assert (Pow2(n) - 1) / 2 == Pow2(n - 1) - 1;
      AllBitsBelow(n - 1, k - 1);
    }
  }

  lemma {:induction false} HalfOfQuotient(v: nat, p: nat)
    requires p > 0
    ensures v / (2 * p) == v / 2 / p && v % (2 * p) == 2 * (v / 2 % p) + v % 2
  {
    var half := v / 2;
    var q, r := half / p, half % p;
    assert v == 2 * p * q + (2 * r + v % 2) by {
      assert half == p * q + r;
      assert 2 * p * q == 2 * (p * q);
    }
    Division(v, 2 * p, q, 2 * r + v % 2);
  }

  lemma {:induction false} Division(v: nat, d: nat, q: nat, r: nat)
    requires r < d && v == d * q + r
    ensures v / d == q && v % d == r
  {
    var other := v / d;
    if other < q { Multiples(d, other, q); }
    if q < other { Multiples(d, q, other); }
  }

  lemma {:induction false} Multiples(d: nat, a: nat, b: nat)
    requires a < b
    ensures d * a + d <= d * b
  {
    var k := b - a;
    assert d * (a + k) == d * a + d * k;
    assert d * k >= d * 1;
  }

  lemma {:induction false} PowIsPositive(n: nat)
    ensures Pow2(n) > 0
  {
    if n > 0 { PowIsPositive(n - 1); }
  }

  function Quotient(v: nat, p: nat): nat
    requires p > 0
  {
    v / p
  }

  lemma {:induction false} BitOfQuotient(v: nat, p: nat, n: nat, k: nat)
    requires p == Pow2(n) > 0
    ensures Bit(Quotient(v, p), k) <==> Bit(v, n + k)
    decreases n
  {
    if n > 0 {
      var half := Pow2(n - 1);
      HalfOfQuotient(v, half);
      BitOfQuotient(v / 2, half, n - 1, k);
    }
  }

  lemma {:induction false} BitOfRemainder(v: nat, n: nat, k: nat)
    requires Pow2(n) > 0 && k < n
    ensures Bit(v % Pow2(n), k) <==> Bit(v, k)
    decreases n
  {
    PowIsPositive(n - 1);
    HalfOfQuotient(v, Pow2(n - 1));
    if k > 0 { BitOfRemainder(v / 2, n - 1, k - 1); }
  }

  lemma {:induction false} SameBits(a: nat, b: nat, n: nat)
    requires a < Pow2(n) && b < Pow2(n) && forall k: nat :: k < n ==> (Bit(a, k) <==> Bit(b, k))
    ensures a == b
    decreases n
  {
    if n > 0 {
      forall k: nat | k < n - 1
        ensures Bit(a / 2, k) <==> Bit(b / 2, k)
      {
        assert Bit(a, k + 1) <==> Bit(b, k + 1);
      }
      SameBits(a / 2, b / 2, n - 1);
      assert Bit(a, 0) <==> Bit(b, 0);
    }
  }

  // ---- reading a channel -----------------------------------------------------------------------------

  // Shift right, then mask with a maximum of one less than a power of two.
  function Channel(value: nat, max: nat, shift: nat): nat
    requires Pow2(shift) > 0
  {
    Quotient(value, Pow2(shift)) % (max + 1)
  }

  // The channel value closest to value / 255 of the maximum.
  predicate Nearest(got: nat, value: Byte, max: nat) {
    got <= max && -127 <= 255 * got - value as int * max <= 127
  }

  lemma {:induction false} ScaleIsNearest(value: Byte, max: nat)
    ensures Nearest(Scale(value, max), value, max)
  {
    ScaleBound(value, max);
    var sum := value as int * max + 127;
    assert sum == 255 * (sum / 255) + sum % 255;
  }

  // There is only one nearest value.
  lemma {:induction false} NearestIsOne(a: nat, b: nat, value: Byte, max: nat)
    requires Nearest(a, value, max) && Nearest(b, value, max)
    ensures a == b
  {
  }

  // The bit ranges of two channels have no bit in common.
  predicate Apart(shift1: nat, width1: nat, shift2: nat, width2: nat) {
    shift1 + width1 <= shift2 || shift2 + width2 <= shift1
  }

  // One bit of a channel that was read.
  lemma {:induction false} ChannelBit(value: nat, p: nat, shift: nat, width: nat, k: nat)
    requires p == Pow2(shift) > 0 && k < width
    ensures Pow2(width) > 0 && (Bit(Quotient(value, p) % Pow2(width), k) <==> Bit(value, shift + k))
  {
    PowIsPositive(width);
    BitOfRemainder(Quotient(value, p), width, k);
    BitOfQuotient(value, p, shift, k);
  }

  // The other channels leave the bits of this one alone.
  lemma {:induction false} ChannelIsFree(value: nat, x: nat, shift: nat, width: nat, others: nat)
    requires Pow2(shift) > 0 && x < Pow2(width)
    requires forall k :: shift <= k < shift + width ==> (Bit(value, k) <==> Bit(x * Pow2(shift), k) || Bit(others, k))
    requires forall k :: shift <= k < shift + width ==> !Bit(others, k)
    ensures Channel(value, Pow2(width) - 1, shift) == x
  {
    var p := Pow2(shift);
    var got := Quotient(value, p) % Pow2(width);
    forall k: nat | k < width
      ensures Bit(got, k) <==> Bit(x, k)
    {
      ChannelBit(value, p, shift, width, k);
      BitOfShifted(x, shift, shift + k);
    }
    SameBits(got, x, width);
  }

  // The bits of a shifted channel stay in its range.
  lemma {:induction false} StaysInRange(x: nat, shift: nat, width: nat, k: nat)
    requires x < Pow2(width) && (k < shift || shift + width <= k)
    ensures !Bit(x * Pow2(shift), k)
  {
    BitOfShifted(x, shift, k);
    if shift + width <= k { NoBitAbove(x, width, k - shift); }
  }

  lemma {:induction false} OthersStayOut(x: nat, shift1: nat, width1: nat, y: nat, shift2: nat, width2: nat, shift: nat, width: nat)
    requires x < Pow2(width1) && y < Pow2(width2) && Apart(shift1, width1, shift, width) && Apart(shift2, width2, shift, width)
    ensures forall k :: shift <= k < shift + width ==> !Bit(BitOr(x * Pow2(shift1), y * Pow2(shift2)), k)
  {
    forall k: nat | shift <= k < shift + width
      ensures !Bit(BitOr(x * Pow2(shift1), y * Pow2(shift2)), k)
    {
      BitOfOr(x * Pow2(shift1), y * Pow2(shift2), k);
      StaysInRange(x, shift1, width1, k);
      StaysInRange(y, shift2, width2, k);
    }
  }

  // Three channels or-ed together, each read back.
  lemma {:induction false} ThreeChannels(x: nat, s1: nat, w1: nat, y: nat, s2: nat, w2: nat, z: nat, s3: nat, w3: nat)
    requires x < Pow2(w1) && y < Pow2(w2) && z < Pow2(w3)
    requires Pow2(s1) > 0 && Pow2(s2) > 0 && Pow2(s3) > 0
    requires Apart(s1, w1, s2, w2) && Apart(s1, w1, s3, w3) && Apart(s2, w2, s3, w3)
    ensures var value := BitOr(BitOr(x * Pow2(s1), y * Pow2(s2)), z * Pow2(s3));
            && Channel(value, Pow2(w1) - 1, s1) == x && Channel(value, Pow2(w2) - 1, s2) == y
            && Channel(value, Pow2(w3) - 1, s3) == z
  {
    var a, b, c := x * Pow2(s1), y * Pow2(s2), z * Pow2(s3);
    var value := BitOr(BitOr(a, b), c);
    forall k: nat
      ensures Bit(value, k) <==> Bit(a, k) || Bit(b, k) || Bit(c, k)
      ensures Bit(BitOr(b, c), k) <==> Bit(b, k) || Bit(c, k)
      ensures Bit(BitOr(a, c), k) <==> Bit(a, k) || Bit(c, k)
      ensures Bit(BitOr(a, b), k) <==> Bit(a, k) || Bit(b, k)
    {
      BitOfOr(BitOr(a, b), c, k);
      BitOfOr(a, b, k);
      BitOfOr(b, c, k);
      BitOfOr(a, c, k);
    }
    OthersStayOut(y, s2, w2, z, s3, w3, s1, w1);
    OthersStayOut(x, s1, w1, z, s3, w3, s2, w2);
    OthersStayOut(x, s1, w1, y, s2, w2, s3, w3);
    ChannelIsFree(value, x, s1, w1, BitOr(b, c));
    ChannelIsFree(value, y, s2, w2, BitOr(a, c));
    ChannelIsFree(value, z, s3, w3, BitOr(a, b));
  }

  // ---- whole pixels ----------------------------------------------------------------------------------

  // The number a viewer of the format reads.
  function ReadPixel(b: Bytes, s: PixelSpec): nat {
    Value(if s.bigEndian then Reversed(b) else b)
  }

  // A viewer reads the nearest value of each channel.
  predicate ReadsBack(b: Bytes, c: Rgb, s: PixelSpec)
    requires Pow2(s.redShift) > 0 && Pow2(s.greenShift) > 0 && Pow2(s.blueShift) > 0
  {
    var value := ReadPixel(b, s);
    && Nearest(Channel(value, s.redMax, s.redShift), c.r, s.redMax)
    && Nearest(Channel(value, s.greenMax, s.greenShift), c.g, s.greenMax)
    && Nearest(Channel(value, s.blueMax, s.blueShift), c.b, s.blueMax)
  }

  // The maxima are masks of these widths.
  predicate Masks(s: PixelSpec, red: nat, green: nat, blue: nat) {
    s.redMax == Pow2(red) - 1 && s.greenMax == Pow2(green) - 1 && s.blueMax == Pow2(blue) - 1
  }

  predicate AllApart(s: PixelSpec, red: nat, green: nat, blue: nat) {
    && Apart(s.redShift, red, s.greenShift, green) && Apart(s.redShift, red, s.blueShift, blue)
    && Apart(s.greenShift, green, s.blueShift, blue)
  }

  lemma {:induction false} ShiftsArePositive(s: PixelSpec)
    ensures Pow2(s.redShift) > 0 && Pow2(s.greenShift) > 0 && Pow2(s.blueShift) > 0
  {
    PowIsPositive(s.redShift);
    PowIsPositive(s.greenShift);
    PowIsPositive(s.blueShift);
  }

  lemma {:induction false} ApartReadsBack(c: Rgb, s: PixelSpec, red: nat, green: nat, blue: nat)
    requires Supported(s) && Masks(s, red, green, blue) && AllApart(s, red, green, blue)
    requires Pow2(s.redShift) > 0 && Pow2(s.greenShift) > 0 && Pow2(s.blueShift) > 0
    ensures ReadsBack(EncodedPixel(c, s), c, s)
  {
    NothingIsCutOff(c, s);
    ScaleIsNearest(c.r, s.redMax);
    ScaleIsNearest(c.g, s.greenMax);
    ScaleIsNearest(c.b, s.blueMax);
    ThreeChannels(Scale(c.r, s.redMax), s.redShift, red, Scale(c.g, s.greenMax), s.greenShift, green,
                  Scale(c.b, s.blueMax), s.blueShift, blue);
  }

  // ---- and only then ---------------------------------------------------------------------------------

  // A channel reads some bit of another one that is all ones and shares a bit with it.
  lemma {:induction false} OverlapIsRead(value: nat, shift1: nat, width1: nat, shift2: nat, width2: nat)
    requires forall k :: shift1 <= k < shift1 + width1 ==> Bit(value, k)
    requires width1 > 0 && width2 > 0 && !Apart(shift1, width1, shift2, width2) && Pow2(shift2) > 0
    ensures Pow2(width2) > 0 && Channel(value, Pow2(width2) - 1, shift2) != 0
  {
    var k := if shift1 < shift2 then shift2 else shift1;
    PowIsPositive(width2);
    ChannelBit(value, Pow2(shift2), shift2, width2, k - shift2);
    assert Bit(value, k);
    ZeroHasNoBit(k - shift2);
  }

  lemma {:induction false} FullAndEmpty(max: nat)
    ensures Scale(255, max) == max && Scale(0, max) == 0
  {
  }

  // All bits of the range of a full channel are set, whatever it is or-ed with.
  lemma {:induction false} FullChannel(value: nat, max: nat, width: nat, shift: nat, a: nat, b: nat)
    requires Pow2(width) - 1 == max
    requires value == BitOr(BitOr(max * Pow2(shift), a), b) || value == BitOr(BitOr(a, max * Pow2(shift)), b)
    ensures forall k :: shift <= k < shift + width ==> Bit(value, k)
  {
    forall k: nat | shift <= k < shift + width
      ensures Bit(value, k)
    {
      var channel := max * Pow2(shift);
      BitOfShifted(max, shift, k);
      AllBitsBelow(width, k - shift);
      BitOfOr(channel, a, k);
      BitOfOr(a, channel, k);
      BitOfOr(BitOr(channel, a), b, k);
      BitOfOr(BitOr(a, channel), b, k);
    }
  }

  lemma {:induction false} WidthIsPositive(max: nat, width: nat)
    requires max == Pow2(width) - 1 && max > 0
    ensures width > 0
  {
  }

  // A channel that reads as nearest to 0 shares no bit with one whose bits are all set.
  lemma {:induction false} DarkIsApart(value: nat, shift1: nat, width1: nat, max: nat, shift2: nat, width2: nat)
    requires forall k :: shift1 <= k < shift1 + width1 ==> Bit(value, k)
    requires width1 > 0 && width2 > 0 && Pow2(shift2) > 0 && max == Pow2(width2) - 1
    requires Nearest(Channel(value, max, shift2), 0, max)
    ensures Apart(shift1, width1, shift2, width2)
  {
    if !Apart(shift1, width1, shift2, width2) { OverlapIsRead(value, shift1, width1, shift2, width2); }
  }

  function Placed(v: nat, shift: nat): nat {
    v * Pow2(shift)
  }

  lemma {:induction false} RedIsFull(c: Rgb, s: PixelSpec, red: nat)
    requires c.r == 255 && s.redMax == Pow2(red) - 1
    ensures forall k :: s.redShift as int <= k < s.redShift as int + red ==> Bit(PixelValue(c, s), k)
  {
    FullAndEmpty(s.redMax);
    var a, b := Placed(Scale(c.g, s.greenMax), s.greenShift), Placed(Scale(c.b, s.blueMax), s.blueShift);
    FullChannel(PixelValue(c, s), s.redMax, red, s.redShift, a, b);
  }

  lemma {:induction false} GreenIsFull(c: Rgb, s: PixelSpec, green: nat)
    requires c.g == 255 && s.greenMax == Pow2(green) - 1
    ensures forall k :: s.greenShift as int <= k < s.greenShift as int + green ==> Bit(PixelValue(c, s), k)
  {
    FullAndEmpty(s.greenMax);
    var a, b := Placed(Scale(c.r, s.redMax), s.redShift), Placed(Scale(c.b, s.blueMax), s.blueShift);
    FullChannel(PixelValue(c, s), s.greenMax, green, s.greenShift, a, b);
  }

  // Pure red shares no bit with green or blue.
  lemma {:induction false} RedIsApart(c: Rgb, s: PixelSpec, red: nat, green: nat, blue: nat)
    requires Supported(s) && Masks(s, red, green, blue) && c.r == 255 && c.g == 0 && c.b == 0
    requires Pow2(s.redShift) > 0 && Pow2(s.greenShift) > 0 && Pow2(s.blueShift) > 0
    requires ReadsBack(EncodedPixel(c, s), c, s)
    ensures Apart(s.redShift, red, s.greenShift, green) && Apart(s.redShift, red, s.blueShift, blue)
  {
    var value := PixelValue(c, s);
    NothingIsCutOff(c, s);
    WidthIsPositive(s.redMax, red);
    WidthIsPositive(s.greenMax, green);
    WidthIsPositive(s.blueMax, blue);
    RedIsFull(c, s, red);
    DarkIsApart(value, s.redShift, red, s.greenMax, s.greenShift, green);
    DarkIsApart(value, s.redShift, red, s.blueMax, s.blueShift, blue);
  }

  lemma {:induction false} GreenIsApart(c: Rgb, s: PixelSpec, red: nat, green: nat, blue: nat)
    requires Supported(s) && Masks(s, red, green, blue) && c.r == 0 && c.g == 255 && c.b == 0
    requires Pow2(s.redShift) > 0 && Pow2(s.greenShift) > 0 && Pow2(s.blueShift) > 0
    requires ReadsBack(EncodedPixel(c, s), c, s)
    ensures Apart(s.greenShift, green, s.blueShift, blue)
  {
    var value := PixelValue(c, s);
    NothingIsCutOff(c, s);
    WidthIsPositive(s.greenMax, green);
    WidthIsPositive(s.blueMax, blue);
    GreenIsFull(c, s, green);
    DarkIsApart(value, s.greenShift, green, s.blueMax, s.blueShift, blue);
  }

  // In a supported format whose maxima are masks, every colour arrives as the nearest one the
  // format has exactly when the bit ranges of the channels have no bit in common.
  lemma {:induction false} ChannelsReadBackIff(s: PixelSpec, red: nat, green: nat, blue: nat)
    requires Supported(s) && Masks(s, red, green, blue)
    ensures Pow2(s.redShift) > 0 && Pow2(s.greenShift) > 0 && Pow2(s.blueShift) > 0
    ensures (forall c: Rgb :: ReadsBack(EncodedPixel(c, s), c, s)) <==> AllApart(s, red, green, blue)
  {
    ShiftsArePositive(s);
    if AllApart(s, red, green, blue) {
      forall c: Rgb
        ensures ReadsBack(EncodedPixel(c, s), c, s)
      {
        ApartReadsBack(c, s, red, green, blue);
      }
    }
    if forall c: Rgb :: ReadsBack(EncodedPixel(c, s), c, s) {
      RedIsApart(Rgb(255, 0, 0), s, red, green, blue);
      GreenIsApart(Rgb(0, 255, 0), s, red, green, blue);
    }
  }

  // ---- which formats there are --------------------------------------------------------------------------

  // A true-colour format of 8, 16 or 32 bits is supported exactly when every channel has values
  // besides 0 and stays, shifted by less than 32, below the number of pixel values.
  lemma {:induction false} SupportedIff(s: PixelSpec)
    ensures Supported(s) <==>
            && s.trueColor && s.bitsPerPixel in {8, 16, 32}
            && s.redMax >= 1 && s.greenMax >= 1 && s.blueMax >= 1
            && s.redShift <= 31 && s.greenShift <= 31 && s.blueShift <= 31
            && s.redMax * Pow2(s.redShift) < Pow2(s.bitsPerPixel)
            && s.greenMax * Pow2(s.greenShift) < Pow2(s.bitsPerPixel)
            && s.blueMax * Pow2(s.blueShift) < Pow2(s.bitsPerPixel)
  {
  }
}
