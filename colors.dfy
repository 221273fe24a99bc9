/**
 * `adjustColor` of src/game/Player.ts: brighten or darken a CSS colour by
 * adding `amount` to each of its red, green and blue channels.
 *
 * A colour is accepted as a listed colour name (in any letter case), as
 * `#rgb`, or as `#rrggbb`; the result is then `#` and six lower-case hex
 * digits. Anything else is returned unchanged.
 */
module Colors {

  datatype Option<T> = None | Some(value: T)

  // ---------------------------------------------------------------------------
  // Characters and hex digits
  // ---------------------------------------------------------------------------

  /** Lower-casing of the ASCII letters; other characters are kept. */
  function ToLower(s: string): (r: string)
    ensures |r| == |s|
    ensures forall i :: 0 <= i < |s| ==>
              r[i] == (if 'A' <= s[i] <= 'Z' then (s[i] as int + 32) as char else s[i])
  {
    if |s| == 0 then [] else
      var c := s[0];
      [if 'A' <= c <= 'Z' then (c as int + 32) as char else c] + ToLower(s[1..])
  }

  /** The characters of `/^[0-9a-fA-F]+$/`. */
  predicate IsHexDigit(c: char)
  {
    '0' <= c <= '9' || 'a' <= c <= 'f' || 'A' <= c <= 'F'
  }

  predicate IsLowerHexDigit(c: char)
  {
    '0' <= c <= '9' || 'a' <= c <= 'f'
  }

  predicate AllHex(s: string)
  {
    forall i :: 0 <= i < |s| ==> IsHexDigit(s[i])
  }

  predicate AllLowerHex(s: string)
  {
    forall i :: 0 <= i < |s| ==> IsLowerHexDigit(s[i])
  }

  /** The value of a hex digit, either case (0 for any other character). */
  function HexValue(c: char): (v: nat)
    ensures v < 16
  {
    if '0' <= c <= '9' then c as int - '0' as int
    else if 'a' <= c <= 'f' then c as int - 'a' as int + 10
    else if 'A' <= c <= 'F' then c as int - 'A' as int + 10
    else 0
  }

  /** The lower-case digit `Number.prototype.toString(16)` writes for `d`. */
  function HexDigit(d: nat): (c: char)
    requires d < 16
    ensures IsLowerHexDigit(c) && HexValue(c) == d
  {
    if d < 10 then ('0' as int + d) as char else ('a' as int + d - 10) as char
  }

  /** Two lower-case digits with the same value are the same digit. */
  lemma LowerHexDigitInjective(c: char, d: char)
    requires IsLowerHexDigit(c) && IsLowerHexDigit(d)
    requires HexValue(c) == HexValue(d)
    ensures c == d
  {
  }

  // ---------------------------------------------------------------------------
  // parseInt(_, 16), toString(16) and padStart
  // ---------------------------------------------------------------------------

  function Pow16(k: nat): (p: nat)
    ensures p >= 1
  {
    if k == 0 then 1 else 16 * Pow16(k - 1)
  }

  /** `parseInt(s, 16)` of a string of hex digits, most significant first. */
  function ParseHex(s: string): nat
    decreases |s|
  {
    if |s| == 0 then 0 else ParseHex(s[..|s| - 1]) * 16 + HexValue(s[|s| - 1])
  }

  /** `n.toString(16)`: lower-case digits, no leading zeros, "0" for 0. */
  function ToHex(n: nat): (s: string)
    decreases n
  {
    if n < 16 then [HexDigit(n)] else ToHex(n / 16) + [HexDigit(n % 16)]
  }

  /** `s.padStart(n, c)`: `c` repeated in front of `s` up to length `n`. */
  function PadStart(s: string, n: nat, c: char): (r: string)
    ensures |r| == if |s| >= n then |s| else n
    ensures r[|r| - |s|..] == s
    ensures forall i :: 0 <= i < |r| - |s| ==> r[i] == c
  {
    if |s| >= n then s else seq(n - |s|, _ => c) + s
  }

  lemma {:induction false} ParseHexBound(s: string)
    ensures ParseHex(s) < Pow16(|s|)
    decreases |s|
  {
    if |s| > 0 {
      ParseHexBound(s[..|s| - 1]);
    }
  }

  lemma ShiftByDigit(x: int, p: int)
    ensures x * (16 * p) == 16 * (x * p)
  {
  }

  /** Digits appended after `a` shift its value by one hex place each. */
  lemma {:induction false} ParseHexAppend(a: string, b: string)
    ensures ParseHex(a + b) == ParseHex(a) * Pow16(|b|) + ParseHex(b)
    decreases |b|
  {
    if |b| == 0 {
      assert a + b == a;
    } else {
      var init := b[..|b| - 1];
      var ab := a + b;
      assert ab[..|ab| - 1] == a + init;
      assert ab[|ab| - 1] == b[|b| - 1];
      ParseHexAppend(a, init);
      var x, p, y, d := ParseHex(a), Pow16(|init|), ParseHex(init), HexValue(b[|b| - 1]);
      assert ParseHex(ab) == ParseHex(a + init) * 16 + d;
      assert ParseHex(a + init) == x * p + y;
      assert ParseHex(b) == y * 16 + d;
      assert Pow16(|b|) == 16 * p;
      ShiftByDigit(x, p);
    }
  }

  /** Leading zeros do not change the value. */
  lemma {:induction false} ParseHexZeros(n: nat)
    ensures ParseHex(seq(n, _ => '0')) == 0
    decreases n
  {
    if n > 0 {
      assert seq(n, _ => '0')[..n - 1] == seq(n - 1, _ => '0');
      ParseHexZeros(n - 1);
    }
  }

  /** `toString(16)` and `parseInt(_, 16)` are inverse; the digits are few and lower-case. */
  lemma {:induction false} ToHexRoundTrip(n: nat, k: nat)
    requires n < Pow16(k)
    ensures ParseHex(ToHex(n)) == n
    ensures AllLowerHex(ToHex(n))
    ensures k >= 1 ==> |ToHex(n)| <= k
    decreases n
  {
    var s := ToHex(n);
    if n >= 16 {
      assert Pow16(0) == 1 && Pow16(1) == 16;
      assert n / 16 < Pow16(k - 1);
      ToHexRoundTrip(n / 16, k - 1);
      assert s[..|s| - 1] == ToHex(n / 16);
    }
  }

  // ---------------------------------------------------------------------------
  // Channels
  // ---------------------------------------------------------------------------

  /** The per-channel limit of `if (c > 255) c = 255; else if (c < 0) c = 0;`. */
  function Clamp(v: int): (c: int)
    ensures 0 <= c <= 255
    ensures 0 <= v <= 255 ==> c == v
    ensures v > 255 ==> c == 255
    ensures v < 0 ==> c == 0
  {
    if v > 255 then 255 else if v < 0 then 0 else v
  }

  /** Three channels packed as `(r << 16) + (g << 8) + b` can be read back. */
  lemma Unpack(r: int, g: int, b: int)
    requires 0 <= r < 256 && 0 <= g < 256 && 0 <= b < 256
    ensures (r * 0x10000 + g * 0x100 + b) / 0x10000 == r
    ensures ((r * 0x10000 + g * 0x100 + b) / 0x100) % 0x100 == g
    ensures (r * 0x10000 + g * 0x100 + b) % 0x100 == b
    ensures 0 <= r * 0x10000 + g * 0x100 + b < 0x100_0000
  {
    var v := r * 0x10000 + g * 0x100 + b;
    assert v == (r * 0x100 + g) * 0x100 + b;
  }

  /** Two lower-case digit strings of one length and one value are equal. */
  lemma {:induction false} LowerHexInjective(s: string, t: string)
    requires |s| == |t| && AllLowerHex(s) && AllLowerHex(t)
    requires ParseHex(s) == ParseHex(t)
    ensures s == t
    decreases |s|
  {
    if |s| > 0 {
      var n := |s| - 1;
      assert ParseHex(s[..n]) == ParseHex(t[..n]) && HexValue(s[n]) == HexValue(t[n]);
      LowerHexInjective(s[..n], t[..n]);
      LowerHexDigitInjective(s[n], t[n]);
      assert s == s[..n] + [s[n]] && t == t[..n] + [t[n]];
    }
  }

  // ---------------------------------------------------------------------------
  // adjustColor
  // ---------------------------------------------------------------------------

  /** The named colours the source converts to hex before adjusting, as (name, hex) entries. */
  const NamedColors: seq<(string, string)> := [
    ("red", "#ff6b6b"), ("lightcoral", "#f08080"), ("darkred", "#8b0000"),
    ("blue", "#6ba5ff"),
    ("green", "#6bff6b"),
    ("yellow", "#ffff6b"),
    ("orange", "#ffa56b"),
    ("purple", "#a56bff"),
    ("pink", "#ff6bff"),
    ("brown", "#a56b6b"),
    ("black", "#000000"),
    ("white", "#ffffff"),
    ("gray", "#808080")
  ]

  /** `colors[key]`: the hex form listed for `key`, if any. */
  function Lookup(table: seq<(string, string)>, key: string): (r: Option<string>)
    ensures r.Some? ==> (key, r.value) in table
    ensures r.None? ==> forall e :: e in table ==> e.0 != key
  {
    if |table| == 0 then None
    else if table[0].0 == key then Some(table[0].1)
    else Lookup(table[1..], key)
  }

  /** Every name starts with a lower-case letter, and every listed colour is `#` and six lower-case digits. */
  lemma NamedColorsShape()
    ensures forall e :: e in NamedColors ==>
              |e.0| > 0 && 'a' <= e.0[0] <= 'z' &&
              |e.1| == 7 && e.1[0] == '#' && AllLowerHex(e.1[1..])
  {
    forall e | e in NamedColors
      ensures |e.0| > 0 && 'a' <= e.0[0] <= 'z' && |e.1| == 7 && e.1[0] == '#' && AllLowerHex(e.1[1..])
    {
      var i :| 0 <= i < |NamedColors| && NamedColors[i] == e;
    }
  }

  /** Names that all start with a letter: a colour starting with `#` is none of them. */
  ghost predicate NamesStartWithLetter(table: seq<(string, string)>)
  {
    forall e :: e in table ==> |e.0| > 0 && 'a' <= e.0[0] <= 'z'
  }

  /** A colour starting with `#` is never a listed name. */
  lemma HashIsNoName(table: seq<(string, string)>, s: string)
    requires NamesStartWithLetter(table)
    requires |s| > 0 && s[0] == '#'
    ensures Lookup(table, ToLower(s)).None?
  {
    assert ToLower(s)[0] == '#';
  }

  /** `hexColor.split('').map(char => char + char).join('')` */
  function Expand(s: string): (r: string)
    requires |s| == 3
    ensures |r| == 6
    ensures forall i :: 0 <= i < 6 ==> r[i] == s[i / 2]
  {
    [s[0], s[0], s[1], s[1], s[2], s[2]]
  }

  /** A listed name is replaced by its hex form; anything else is kept as it is. */
  function Named(color: string): string
  {
    var named := Lookup(NamedColors, ToLower(color));
    if named.Some? then named.value else color
  }

  /**
   * The six hex digits the `#` branch goes on to parse, or None when
   * `adjustColor` returns its input unchanged: the `#` is dropped (the
   * source's `usePound` is then always true), three digits are doubled,
   * and six hex digits pass.
   */
  function PoundDigits(hexColor: string): (r: Option<string>)
    ensures r.Some? ==> |r.value| == 6 && AllHex(r.value)
  {
    if |hexColor| > 0 && hexColor[0] == '#' then
      var digits := hexColor[1..];
      var expanded := if |digits| == 3 then Expand(digits) else digits;
      if |expanded| == 6 && AllHex(expanded) then Some(expanded) else None
    else None
  }

  /** The six hex digits `adjustColor` goes on to parse, if it accepts `color`. */
  function HexDigits(color: string): (r: Option<string>)
    ensures r.Some? ==> |r.value| == 6 && AllHex(r.value)
  {
    PoundDigits(Named(color))
  }

  /**
   * The accepted branch of `adjustColor`, from the parsed number `num`.
   * The source unpacks it with `num >> 16`, `(num >> 8) & 0xFF` and
   * `num & 0xFF`; the number is below 2^24, so these are the divisions and
   * remainders below. Its middle and last channels are named `b` and `g`
   * but repacked in the order they came.
   */
  function AdjustedNum(num: nat, amount: int): string
  {
    var r := Clamp(num / 0x10000 + amount);
    var b := Clamp((num / 0x100) % 0x100 + amount);
    var g := Clamp(num % 0x100 + amount);
    "#" + Hex6(Pack(r, b, g))
  }

  /** `(r << 16) + (g << 8) + b` for three channels; `adjustColor` passes its channels in the order r, b, g. */
  function Pack(r: int, g: int, b: int): nat
    requires 0 <= r < 256 && 0 <= g < 256 && 0 <= b < 256
  {
    r * 0x10000 + g * 0x100 + b
  }

  /** `v.toString(16).padStart(6, '0')` */
  function Hex6(v: nat): string
  {
    PadStart(ToHex(v), 6, '0')
  }

  /** `adjustColor(color, amount)`, for a whole-number `amount`. */
  function AdjustColor(color: string, amount: int): string
  {
    match HexDigits(color)
    case None => color
    case Some(hex) => AdjustedNum(ParseHex(hex), amount)
  }

  /** The value of channel `c` (0 red, 1 green, 2 blue) of six digits. */
  function Channel(hex: string, c: nat): (v: nat)
    requires |hex| == 6 && c < 3
    ensures v < 256
  {
    if c == 0 then 16 * HexValue(hex[0]) + HexValue(hex[1])
    else if c == 1 then 16 * HexValue(hex[2]) + HexValue(hex[3])
    else 16 * HexValue(hex[4]) + HexValue(hex[5])
  }

  /** Two digits are worth sixteen times the first plus the second. */
  lemma TwoDigits(x: string)
    requires |x| == 2
    ensures ParseHex(x) == 16 * HexValue(x[0]) + HexValue(x[1])
  {
    assert x[..1][..0] == [];
    assert ParseHex(x[..1]) == HexValue(x[0]);
  }

  /** Six hex digits are three two-digit channels. */
  lemma SixDigits(s: string)
    requires |s| == 6
    ensures ParseHex(s) == Channel(s, 0) * 0x10000 + Channel(s, 1) * 0x100 + Channel(s, 2)
  {
    var x, y, z := s[..2], s[2..4], s[4..];
    assert s == (x + y) + z;
    ParseHexAppend(x + y, z);
    ParseHexAppend(x, y);
    TwoDigits(x);
    TwoDigits(y);
    TwoDigits(z);
    assert Pow16(2) == 0x100;
  }

  /** Six lower-case digits that encode `v` with leading zeros. */
  lemma Hex6OfValue(v: nat)
    requires v < 0x100_0000
    ensures |Hex6(v)| == 6 && AllLowerHex(Hex6(v)) && ParseHex(Hex6(v)) == v
  {
    assert Pow16(6) == 0x100_0000;
    ToHexRoundTrip(v, 6);
    var s := ToHex(v);
    var out := Hex6(v);
    var zeros := seq(6 - |s|, _ => '0');
    assert out == zeros + s;
    ParseHexAppend(zeros, s);
    ParseHexZeros(6 - |s|);
    forall i | 0 <= i < 6
      ensures IsLowerHexDigit(out[i])
    {
      if i >= |zeros| { assert out[i] == s[i - |zeros|]; }
    }
  }

  /** The parsed number's `>> 16`, `>> 8 & 0xFF` and `& 0xFF` are the three channels. */
  lemma DecodeChannels(hex: string)
    requires |hex| == 6
    ensures ParseHex(hex) / 0x10000 == Channel(hex, 0)
    ensures (ParseHex(hex) / 0x100) % 0x100 == Channel(hex, 1)
    ensures ParseHex(hex) % 0x100 == Channel(hex, 2)
  {
    SixDigits(hex);
    Unpack(Channel(hex, 0), Channel(hex, 1), Channel(hex, 2));
  }

  /** `out` is `#` and six lower-case hex digits whose channels are `r`, `g`, `b`. */
  predicate IsOutput(out: string, r: int, g: int, b: int)
  {
    |out| == 7 && out[0] == '#' && AllLowerHex(out[1..]) &&
    Channel(out[1..], 0) == r && Channel(out[1..], 1) == g && Channel(out[1..], 2) == b
  }

  /** The six digits written for packed channels have those channels. */
  lemma EncodeChannels(r: int, g: int, b: int)
    requires 0 <= r < 256 && 0 <= g < 256 && 0 <= b < 256
    ensures IsOutput("#" + Hex6(Pack(r, g, b)), r, g, b)
  {
    Unpack(r, g, b);
    var v := Pack(r, g, b);
    Hex6OfValue(v);
    var six := Hex6(v);
    DecodeChannels(six);
    assert ("#" + six)[1..] == six;
  }

  /** The accepted branch writes the three limited channels it computed. */
  lemma AdjustedNumIs(num: nat, amount: int, r: int, g: int, b: int)
    requires r == Clamp(num / 0x10000 + amount)
    requires g == Clamp((num / 0x100) % 0x100 + amount)
    requires b == Clamp(num % 0x100 + amount)
    ensures AdjustedNum(num, amount) == "#" + Hex6(Pack(r, g, b))
  {
  }

  /**
   * The accepted branch gives `#` and six lower-case hex digits whose
   * channels are those of `num` plus `amount`, limited to 0..255, in order.
   */
  lemma AdjustedNumChannels(num: nat, amount: int)
    ensures IsOutput(AdjustedNum(num, amount), Clamp(num / 0x10000 + amount),
                     Clamp((num / 0x100) % 0x100 + amount), Clamp(num % 0x100 + amount))
  {
    var r := Clamp(num / 0x10000 + amount);
    var g := Clamp((num / 0x100) % 0x100 + amount);
    var b := Clamp(num % 0x100 + amount);
    AdjustedNumIs(num, amount, r, g, b);
    EncodeChannels(r, g, b);
  }

  /**
   * `out` is what the accepted branch should give on the six digits `hex`:
   * `#` and six lower-case digits whose channels are those of `hex` plus
   * `amount`, limited to 0..255, in order.
   */
  predicate AdjustedFrom(out: string, hex: string, amount: int)
  {
    |hex| == 6 &&
    IsOutput(out, Clamp(Channel(hex, 0) + amount), Clamp(Channel(hex, 1) + amount), Clamp(Channel(hex, 2) + amount))
  }

  /** The accepted branch on six digits, channel by channel. */
  lemma AdjustHex(hex: string, amount: int)
    requires |hex| == 6
    ensures AdjustedFrom(AdjustedNum(ParseHex(hex), amount), hex, amount)
  {
    var num := ParseHex(hex);
    DecodeChannels(hex);
    assert Channel(hex, 0) + amount == num / 0x10000 + amount;
    assert Channel(hex, 1) + amount == (num / 0x100) % 0x100 + amount;
    assert Channel(hex, 2) + amount == num % 0x100 + amount;
    AdjustedNumChannels(num, amount);
  }

  /** On an accepted colour `adjustColor` gives the adjusted form of the accepted digits. */
  lemma AdjustAccepted(color: string, amount: int)
    requires HexDigits(color).Some?
    ensures AdjustedFrom(AdjustColor(color, amount), HexDigits(color).value, amount)
  {
    var hex := HexDigits(color).value;
    AdjustHex(hex, amount);
  }

  /** Any colour that is not accepted comes back exactly as given. */
  lemma AdjustRejected(color: string, amount: int)
    requires HexDigits(color).None?
    ensures AdjustColor(color, amount) == color
  {
  }

  /** The `#` branch accepts `#` followed by three or six hex digits, and nothing else. */
  lemma PoundDigitsAccepts(h: string)
    ensures PoundDigits(h).Some? <==> |h| > 0 && h[0] == '#' && (|h| == 4 || |h| == 7) && AllHex(h[1..])
  {
    if |h| == 4 && h[0] == '#' {
      var digits := h[1..];
      var e := Expand(digits);
      if AllHex(e) {
        forall i | 0 <= i < 3
          ensures IsHexDigit(digits[i])
        {
          assert digits[i] == e[2 * i];
        }
      } else {
        var i :| 0 <= i < 6 && !IsHexDigit(e[i]);
        assert e[i] == digits[i / 2];
      }
    }
  }

  /** Every listed name is accepted, in any letter case. */
  lemma NamedAccepted(color: string)
    requires Lookup(NamedColors, ToLower(color)).Some?
    ensures HexDigits(color).Some?
  {
    var h := Lookup(NamedColors, ToLower(color)).value;
    NamedColorsShape();
    assert (ToLower(color), h) in NamedColors;
    assert Named(color) == h;
    PoundDigitsAccepts(h);
    assert AllHex(h[1..]);
  }

  /** Any other colour is accepted exactly when its own `#` form is (see `PoundDigitsAccepts`). */
  lemma UnnamedKept(color: string)
    requires Lookup(NamedColors, ToLower(color)).None?
    ensures HexDigits(color) == PoundDigits(color)
  {
  }

  /** Six lower-case digits adjusted by nothing are written back as they were. */
  lemma SixLowerRoundTrip(hex: string)
    requires |hex| == 6 && AllLowerHex(hex)
    ensures AdjustedNum(ParseHex(hex), 0) == "#" + hex
  {
    AdjustHex(hex, 0);
    var out := AdjustedNum(ParseHex(hex), 0);
    ChannelsInjective(out[1..], hex);
    assert out == [out[0]] + out[1..];
  }

  /** A channel written as two lower-case digits determines both digits. */
  lemma DigitPairInjective(a: char, b: char, c: char, d: char)
    requires IsLowerHexDigit(a) && IsLowerHexDigit(b) && IsLowerHexDigit(c) && IsLowerHexDigit(d)
    requires 16 * HexValue(a) + HexValue(b) == 16 * HexValue(c) + HexValue(d)
    ensures a == c && b == d
  {
    LowerHexDigitInjective(a, c);
    LowerHexDigitInjective(b, d);
  }

  /** Six lower-case digits are determined by their three channels. */
  lemma ChannelsInjective(x: string, y: string)
    requires |x| == 6 && |y| == 6 && AllLowerHex(x) && AllLowerHex(y)
    requires Channel(x, 0) == Channel(y, 0) && Channel(x, 1) == Channel(y, 1) && Channel(x, 2) == Channel(y, 2)
    ensures x == y
  {
    DigitPairInjective(x[0], x[1], y[0], y[1]);
    DigitPairInjective(x[2], x[3], y[2], y[3]);
    DigitPairInjective(x[4], x[5], y[4], y[5]);
  }

  /** `adjustColor(c, 0)` of a colour already in the output form gives it back. */
  lemma AdjustByZero(color: string)
    requires |color| == 7 && color[0] == '#' && AllLowerHex(color[1..])
    ensures AdjustColor(color, 0) == color
  {
    var hex := color[1..];
    assert color == "#" + hex;
    HashDigits(color);
    SixLowerRoundTrip(hex);
  }

  /** A `#` and six digits are no name, and `adjustColor` goes on to parse the six digits. */
  lemma HashDigits(color: string)
    requires |color| == 7 && color[0] == '#' && AllLowerHex(color[1..])
    ensures HexDigits(color) == Some(color[1..])
  {
    NamedColorsShape();
    HashIsNoName(NamedColors, color);
    assert Named(color) == color;
  }

  /** A listed name is adjusted as its hex form is, whatever its letter case. */
  lemma AdjustNamed(color: string, amount: int)
    requires Lookup(NamedColors, ToLower(color)).Some?
    ensures AdjustColor(color, amount) == AdjustColor(Lookup(NamedColors, ToLower(color)).value, amount)
  {
    var h := Lookup(NamedColors, ToLower(color)).value;
    NamedColorsShape();
    assert (ToLower(color), h) in NamedColors;
    HashIsNoName(NamedColors, h);
    assert Named(h) == h;
  }
}
