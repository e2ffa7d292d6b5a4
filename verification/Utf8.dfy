/**
 * UTF-8 as the app and the worker use it: the encoder of section 3 of RFC
 * 3629, the decoder of section 8.1.1 of the WHATWG Encoding Standard with
 * replacement of errors, and the clamp built on the two.
 */
module Utf8 {
  import opened Types

  /** A Unicode scalar value: a code point that is no surrogate. */
  type Scalar = c: int | 0 <= c < 0xD800 || 0xE000 <= c < 0x11_0000

  /** A string without lone surrogates. */
  type Str = seq<Scalar>

  const REPLACEMENT: Scalar := 0xFFFD
  const BOM: Scalar := 0xFEFF

  // --------------------------------------------------------------- encoder

  function EncodeScalar(c: Scalar): (bytes: seq<Byte>)
    ensures 1 <= |bytes| <= 4
  {
    if c < 0x80 then [c]
    else if c < 0x800 then [0xC0 + c / 0x40, 0x80 + c % 0x40]
    else if c < 0x1_0000 then [0xE0 + c / 0x1000, 0x80 + c / 0x40 % 0x40, 0x80 + c % 0x40]
    else [0xF0 + c / 0x4_0000, 0x80 + c / 0x1000 % 0x40, 0x80 + c / 0x40 % 0x40, 0x80 + c % 0x40]
  }

  function Encode(s: Str): seq<Byte> {
    if s == [] then [] else EncodeScalar(s[0]) + Encode(s[1..])
  }

  // --------------------------------------------------------------- decoder

  /** The variables of the decoder: code point so far, bytes seen and needed, bounds of the next byte. */
  datatype Decoder = Decoder(codePoint: nat, seen: nat, needed: nat, lower: Byte, upper: Byte) {

    /** What the variables can be between two bytes. */
    predicate Valid() {
      match needed
      case 0 => this == START
      case 1 => seen == 0 && 2 <= codePoint < 0x20 && lower == 0x80 && upper == 0xBF
      case 2 =>
        || (seen == 0 && codePoint < 0x10
            && lower == (if codePoint == 0 then 0xA0 else 0x80)
            && upper == (if codePoint == 0xD then 0x9F else 0xBF))
        || (seen == 1 && 0x20 <= codePoint < 0x400 && !(0x360 <= codePoint < 0x380)
            && lower == 0x80 && upper == 0xBF)
      case 3 =>
        || (seen == 0 && codePoint <= 4
            && lower == (if codePoint == 0 then 0x90 else 0x80)
            && upper == (if codePoint == 4 then 0x8F else 0xBF))
        || (seen == 1 && 0x10 <= codePoint < 0x110 && lower == 0x80 && upper == 0xBF)
        || (seen == 2 && 0x400 <= codePoint < 0x4400 && lower == 0x80 && upper == 0xBF)
      case _ => false
    }
  }

  const START := Decoder(0, 0, 0, 0x80, 0xBF)

  /** The decoder after a byte that leads a sequence; nothing when the byte cannot. */
  function Lead(b: Byte): (r: Option<Decoder>)
    ensures r.Some? ==> r.value.Valid() && r.value.needed > 0
  {
    if 0xC2 <= b <= 0xDF then Some(Decoder(b % 0x20, 0, 1, 0x80, 0xBF))
    else if 0xE0 <= b <= 0xEF then
      Some(Decoder(b % 0x10, 0, 2, if b == 0xE0 then 0xA0 else 0x80, if b == 0xED then 0x9F else 0xBF))
    else if 0xF0 <= b <= 0xF4 then
      Some(Decoder(b % 8, 0, 3, if b == 0xF0 then 0x90 else 0x80, if b == 0xF4 then 0x8F else 0xBF))
    else None
  }

  /**
   * The code points decoded from `bytes`, an error giving U+FFFD. A byte that
   * cannot continue a sequence ends it and is looked at again.
   */
  function Run(d: Decoder, bytes: seq<Byte>): Str
    requires d.Valid()
    decreases |bytes|, d.needed
  {
    if bytes == [] then (if d.needed == 0 then [] else [REPLACEMENT])
    else
      var b := bytes[0];
      if d.needed == 0 then
        if b < 0x80 then [b] + Run(START, bytes[1..])
        else
          var lead := Lead(b);
          if lead.Some? then Run(lead.value, bytes[1..]) else [REPLACEMENT] + Run(START, bytes[1..])
      else if b < d.lower || b > d.upper then [REPLACEMENT] + Run(START, bytes)
      else
        var codePoint := d.codePoint * 0x40 + b % 0x40;
        if d.seen + 1 == d.needed then [codePoint] + Run(START, bytes[1..])
        else Run(Decoder(codePoint, d.seen + 1, d.needed, 0x80, 0xBF), bytes[1..])
  }

  /** `TextDecoder.decode`: a byte order mark in front is not part of the result. */
  function Decode(bytes: seq<Byte>): Str {
    var s := Run(START, bytes);
    if s != [] && s[0] == BOM then s[1..] else s
  }

  // ----------------------------------------------------------------- clamp

  /** Without its last character, when that is U+FFFD. */
  function DropReplacement(s: Str): Str {
    if s != [] && s[|s| - 1] == REPLACEMENT then s[..|s| - 1] else s
  }

  /** A string that encodes to more than `max` bytes is decoded from the first `max` of them. */
  function ClampToBytes(value: Str, max: nat): Str {
    var bytes := Encode(value);
    if |bytes| <= max then value else DropReplacement(Decode(bytes[..max]))
  }

  // ----------------------------------------- the decoder undoes the encoder

  lemma RunLead(b: Byte, rest: seq<Byte>)
    requires Lead(b).Some?
    ensures Run(START, [b] + rest) == Run(Lead(b).value, rest)
  {
  }

  lemma RunContinue(d: Decoder, b: Byte, rest: seq<Byte>)
    requires d.Valid() && d.needed > 0 && d.lower <= b <= d.upper
    ensures d.seen + 1 == d.needed ==> Run(d, [b] + rest) == [d.codePoint * 0x40 + b % 0x40] + Run(START, rest)
    ensures d.seen + 1 != d.needed ==>
              Decoder(d.codePoint * 0x40 + b % 0x40, d.seen + 1, d.needed, 0x80, 0xBF).Valid()
              && Run(d, [b] + rest) ==
                 Run(Decoder(d.codePoint * 0x40 + b % 0x40, d.seen + 1, d.needed, 0x80, 0xBF), rest)
  {
  }

  lemma RunTwo(c: Scalar, rest: seq<Byte>)
    requires 0x80 <= c < 0x800
    ensures Run(START, EncodeScalar(c) + rest) == [c] + Run(START, rest)
  {
  }

  lemma RunThree(c: Scalar, rest: seq<Byte>)
    requires 0x800 <= c < 0x1_0000
    ensures Run(START, EncodeScalar(c) + rest) == [c] + Run(START, rest)
  {
    hide Run;
    var high, b2 := c / 0x40, 0x80 + c % 0x40;
    var b0, b1 := 0xE0 + high / 0x40, 0x80 + high % 0x40;
    assert EncodeScalar(c) + rest == [b0] + ([b1] + ([b2] + rest));
    RunLead(b0, [b1] + ([b2] + rest));
    RunContinue(Lead(b0).value, b1, [b2] + rest);
    RunContinue(Decoder(high, 1, 2, 0x80, 0xBF), b2, rest);
  }

  lemma FourBytes(c: Scalar)
    requires 0x1_0000 <= c
    ensures var middle, high := c / 0x40, c / 0x1000;
            && EncodeScalar(c) == [0xF0 + high / 0x40, 0x80 + high % 0x40, 0x80 + middle % 0x40, 0x80 + c % 0x40]
            && middle == 0x40 * high + middle % 0x40
            && 0x10 <= high < 0x110
  {
    assert c / 0x4_0000 == c / 0x1000 / 0x40;
  }

  lemma FourLead(high: nat)
    requires 0x10 <= high < 0x110
    ensures var lead := Lead(0xF0 + high / 0x40);
            && lead.Some?
            && lead.value.codePoint == high / 0x40 && lead.value.seen == 0 && lead.value.needed == 3
            && lead.value.lower <= 0x80 + high % 0x40 <= lead.value.upper
  {
  }

  lemma RunFour(c: Scalar, rest: seq<Byte>)
    requires 0x1_0000 <= c
    ensures Run(START, EncodeScalar(c) + rest) == [c] + Run(START, rest)
  {
    hide Run, EncodeScalar, Lead;
    FourBytes(c);
    var middle, high, b3 := c / 0x40, c / 0x1000, 0x80 + c % 0x40;
    var b0, b1, b2 := 0xF0 + high / 0x40, 0x80 + high % 0x40, 0x80 + middle % 0x40;
    FourLead(high);
    assert EncodeScalar(c) + rest == [b0] + ([b1] + ([b2] + ([b3] + rest)));
    RunLead(b0, [b1] + ([b2] + ([b3] + rest)));
    RunContinue(Lead(b0).value, b1, [b2] + ([b3] + rest));
    RunContinue(Decoder(high, 1, 3, 0x80, 0xBF), b2, [b3] + rest);
    RunContinue(Decoder(middle, 2, 3, 0x80, 0xBF), b3, rest);
  }

  lemma RunAscii(c: Scalar, rest: seq<Byte>)
    requires c < 0x80
    ensures Run(START, [c] + rest) == [c] + Run(START, rest)
  {
  }

  /** The encoding of a scalar value decodes to it, and the decoder starts afresh. */
  lemma RunScalar(c: Scalar, rest: seq<Byte>)
    ensures Run(START, EncodeScalar(c) + rest) == [c] + Run(START, rest)
  {
    hide Run;
    if c < 0x80 {
      RunAscii(c, rest);
    } else if c < 0x800 {
      RunTwo(c, rest);
    } else if c < 0x1_0000 {
      RunThree(c, rest);
    } else {
      RunFour(c, rest);
    }
  }

  lemma RunNothing(d: Decoder)
    requires d.Valid()
    ensures Run(d, []) == if d.needed == 0 then [] else [REPLACEMENT]
  {
  }

  /** The first byte of a longer encoding leads it, and the bytes that follow are within bounds. */
  lemma EncodedShape(c: Scalar)
    requires c >= 0x80
    ensures var bytes := EncodeScalar(c);
            && Lead(bytes[0]).Some?
            && var lead := Lead(bytes[0]).value;
            && lead.seen == 0 && lead.needed == |bytes| - 1
            && lead.lower <= bytes[1] <= lead.upper
            && (forall i :: 2 <= i < |bytes| ==> 0x80 <= bytes[i] <= 0xBF)
  {
  }

  lemma ShortIsAscii(c: Scalar)
    ensures |EncodeScalar(c)| == 1 <==> c < 0x80
  {
  }

  /** What cannot continue a sequence. */
  predicate StartsAfresh(bytes: seq<Byte>) {
    bytes == [] || bytes[0] < 0x80 || bytes[0] > 0xBF
  }

  /** An unfinished sequence gives one U+FFFD, and the byte that ended it is read as if nothing had been. */
  lemma RunStuck(d: Decoder, rest: seq<Byte>)
    requires d.Valid() && d.needed > 0 && StartsAfresh(rest)
    ensures Run(d, rest) == [REPLACEMENT] + Run(START, rest)
  {
  }

  /** An encoding that is cut short decodes to one U+FFFD, whatever comes next. */
  lemma RunCut(c: Scalar, k: nat, rest: seq<Byte>)
    requires 0 < k < |EncodeScalar(c)| && StartsAfresh(rest)
    ensures Run(START, EncodeScalar(c)[..k] + rest) == [REPLACEMENT] + Run(START, rest)
  {
    var bytes := EncodeScalar(c);
    hide Run, EncodeScalar, Lead, StartsAfresh;
    assert c >= 0x80 by {
      ShortIsAscii(c);
    }
    EncodedShape(c);
    var lead := Lead(bytes[0]).value;
    var d := Decoder(lead.codePoint * 0x40 + bytes[1] % 0x40, 1, lead.needed, 0x80, 0xBF);
    if k == 1 {
      assert bytes[..1] + rest == [bytes[0]] + rest;
      RunLead(bytes[0], rest);
      RunStuck(lead, rest);
    } else if k == 2 {
      assert bytes[..2] + rest == [bytes[0]] + ([bytes[1]] + rest);
      RunLead(bytes[0], [bytes[1]] + rest);
      RunContinue(lead, bytes[1], rest);
      RunStuck(d, rest);
    } else {
      assert bytes[..3] + rest == [bytes[0]] + ([bytes[1]] + ([bytes[2]] + rest));
      RunLead(bytes[0], [bytes[1]] + ([bytes[2]] + rest));
      RunContinue(lead, bytes[1], [bytes[2]] + rest);
      RunContinue(d, bytes[2], rest);
      RunStuck(Decoder(d.codePoint * 0x40 + bytes[2] % 0x40, 2, lead.needed, 0x80, 0xBF), rest);
    }
  }

  lemma {:induction false} RunEncoded(s: Str)
    ensures Run(START, Encode(s)) == s
  {
    hide Run, EncodeScalar;
    if s == [] {
      RunNothing(START);
    } else {
      RunScalar(s[0], Encode(s[1..]));
      RunEncoded(s[1..]);
    }
  }

  /** Encoding and decoding gives the string back, but for a byte order mark in front. */
  lemma RoundTrip(s: Str)
    ensures Decode(Encode(s)) == if s != [] && s[0] == BOM then s[1..] else s
  {
    RunEncoded(s);
  }

  lemma EncodedStartsAfresh(s: Str)
    ensures StartsAfresh(Encode(s))
  {
  }

  /** The decoder finds its way back: text behind a character cut short is read in full. */
  lemma CutThenText(c: Scalar, k: nat, s: Str)
    requires 0 < k < |EncodeScalar(c)|
    ensures Run(START, EncodeScalar(c)[..k] + Encode(s)) == [REPLACEMENT] + s
  {
    hide Run, Encode, EncodeScalar;
    EncodedStartsAfresh(s);
    RunCut(c, k, Encode(s));
    RunEncoded(s);
  }

  /** The bytes of the sequence being read, as the variables of the decoder have them. */
  function Pending(d: Decoder): seq<int>
    requires d.Valid()
  {
    var cp := d.codePoint;
    if d.needed == 0 then []
    else if d.needed == 1 then [0xC0 + cp]
    else if d.needed == 2 then
      if d.seen == 0 then [0xE0 + cp] else [0xE0 + cp / 0x40, 0x80 + cp % 0x40]
    else if d.seen == 0 then [0xF0 + cp]
    else if d.seen == 1 then [0xF0 + cp / 0x40, 0x80 + cp % 0x40]
    else [0xF0 + cp / 0x1000, 0x80 + cp / 0x40 % 0x40, 0x80 + cp % 0x40]
  }

  lemma PendingLead(b: Byte)
    requires Lead(b).Some?
    ensures Pending(Lead(b).value) == [b]
  {
  }

  lemma PendingContinue(d: Decoder, b: Byte)
    requires d.Valid() && d.needed > 0 && d.lower <= b <= d.upper && d.seen + 1 != d.needed
    ensures Decoder(d.codePoint * 0x40 + b % 0x40, d.seen + 1, d.needed, 0x80, 0xBF).Valid()
    ensures Pending(Decoder(d.codePoint * 0x40 + b % 0x40, d.seen + 1, d.needed, 0x80, 0xBF)) == Pending(d) + [b]
  {
    var codePoint := d.codePoint * 0x40 + b % 0x40;
    assert codePoint / 0x40 == d.codePoint && 0x80 + codePoint % 0x40 == b;
    assert codePoint / 0x1000 == d.codePoint / 0x40;
  }

  /** A sequence that is read to its end is the encoding of what was read. */
  lemma PendingEnds(d: Decoder, b: Byte)
    requires d.Valid() && d.needed > 0 && d.lower <= b <= d.upper && d.seen + 1 == d.needed
    ensures var codePoint := d.codePoint * 0x40 + b % 0x40;
            (codePoint < 0xD800 || 0xE000 <= codePoint < 0x11_0000) && EncodeScalar(codePoint) == Pending(d) + [b]
  {
    var codePoint := d.codePoint * 0x40 + b % 0x40;
    assert codePoint / 0x40 == d.codePoint && 0x80 + codePoint % 0x40 == b;
    assert codePoint / 0x1000 == d.codePoint / 0x40 && codePoint / 0x4_0000 == d.codePoint / 0x1000;
  }

  lemma PendingNone()
    ensures Pending(START) == []
  {
  }

  lemma EncodeNone()
    ensures Encode([]) == []
  {
  }

  lemma EncodeCons(c: Scalar, s: Str)
    ensures Encode([c] + s) == EncodeScalar(c) + Encode(s)
  {
    assert ([c] + s)[1..] == s;
  }

  lemma AsciiItself(c: Scalar)
    requires c < 0x80
    ensures EncodeScalar(c) == [c]
  {
  }

  lemma {:induction false} RunStrict(d: Decoder, bytes: seq<Byte>)
    requires d.Valid() && REPLACEMENT !in Run(d, bytes)
    ensures Encode(Run(d, bytes)) == Pending(d) + bytes
    decreases |bytes|
  {
    hide Lead, EncodeScalar, Pending, Encode;
    if bytes == [] {
      PendingNone();
      EncodeNone();
    } else {
      var b, rest := bytes[0], bytes[1..];
      assert bytes == [b] + rest;
      if d.needed == 0 {
        PendingNone();
        if b < 0x80 {
          RunStrict(START, rest);
          EncodeCons(b, Run(START, rest));
          ShortIsAscii(b);
          AsciiItself(b);
        } else if Lead(b).Some? {
          PendingLead(b);
          RunStrict(Lead(b).value, rest);
        }
      } else if d.lower <= b <= d.upper {
        var codePoint := d.codePoint * 0x40 + b % 0x40;
        if d.seen + 1 == d.needed {
          PendingEnds(d, b);
          PendingNone();
          RunStrict(START, rest);
          EncodeCons(codePoint, Run(START, rest));
        } else {
          PendingContinue(d, b);
          RunStrict(Decoder(codePoint, d.seen + 1, d.needed, 0x80, 0xBF), rest);
        }
      }
    }
  }

  /**
   * The decoder is strict: what it reads without a U+FFFD is the encoding of
   * what it gives, so overlong forms, surrogates and stray bytes never pass.
   */
  lemma DecoderStrict(bytes: seq<Byte>)
    ensures REPLACEMENT !in Run(START, bytes) <==> exists s: Str :: REPLACEMENT !in s && Encode(s) == bytes
    ensures REPLACEMENT !in Run(START, bytes) ==> Encode(Run(START, bytes)) == bytes
  {
    hide Run, Encode;
    if REPLACEMENT !in Run(START, bytes) {
      RunStrict(START, bytes);
      PendingNone();
    }
    if s: Str :| REPLACEMENT !in s && Encode(s) == bytes {
      RunEncoded(s);
    }
  }

  // ------------------------------------------------------ what the clamp keeps

  /** How many characters fit in `max` bytes as a whole. */
  function Fit(s: Str, max: nat): (k: nat)
    ensures k <= |s|
  {
    if s == [] || |EncodeScalar(s[0])| > max then 0 else 1 + Fit(s[1..], max - |EncodeScalar(s[0])|)
  }

  /** It is the largest such number. */
  lemma {:induction false} FitIsLargest(s: Str, max: nat)
    ensures |Encode(s[..Fit(s, max)])| <= max
    ensures Fit(s, max) < |s| ==> |Encode(s[..Fit(s, max) + 1])| > max
    ensures |Encode(s)| <= max <==> Fit(s, max) == |s|
  {
    hide EncodeScalar;
    var k := Fit(s, max);
    if s != [] {
      var c, rest := s[0], s[1..];
      if |EncodeScalar(c)| > max {
        assert s[..1] == [c];
        assert [c][1..] == [];
      } else {
        FitIsLargest(rest, max - |EncodeScalar(c)|);
        assert s[..k][1..] == rest[..k - 1];
        if k < |s| {
          assert s[..k + 1][1..] == rest[..k];
        }
      }
    }
  }

  /** The first `max` bytes decode to the characters that fit, and U+FFFD if one was cut through. */
  lemma {:induction false} RunTruncated(s: Str, max: nat)
    requires max < |Encode(s)|
    ensures var k := Fit(s, max);
            Run(START, Encode(s)[..max]) ==
            s[..k] + if |Encode(s[..k])| == max then [] else [REPLACEMENT]
  {
    hide Run, EncodeScalar;
    var c, rest := s[0], s[1..];
    var first := EncodeScalar(c);
    if |first| > max {
      assert Encode(s)[..max] == first[..max];
      if max == 0 {
        RunNothing(START);
      } else {
        RunCut(c, max, []);
        RunNothing(START);
        assert first[..max] + [] == first[..max];
      }
    } else {
      var k := Fit(s, max);
      assert Encode(s)[..max] == first + Encode(rest)[..max - |first|];
      RunScalar(c, Encode(rest)[..max - |first|]);
      RunTruncated(rest, max - |first|);
      assert s[..k] == [c] + rest[..k - 1];
      assert s[..k][1..] == rest[..k - 1];
    }
  }

  /** The characters the clamp keeps: those that fit, less a genuine U+FFFD that ends exactly at the cut. */
  function Kept(s: Str, max: nat): (k: nat)
    ensures k <= |s|
  {
    var k := Fit(s, max);
    if k > 0 && s[k - 1] == REPLACEMENT && |Encode(s[..k])| == max then k - 1 else k
  }

  /** Dropping the byte order mark and a final U+FFFD of what was decoded. */
  lemma StripAndDrop(decoded: Str, s: Str, k: nat, exact: bool)
    requires k <= |s| && s != []
    requires decoded == s[..k] + if exact then [] else [REPLACEMENT]
    ensures var stripped := if decoded != [] && decoded[0] == BOM then decoded[1..] else decoded;
            var kept := if k > 0 && s[k - 1] == REPLACEMENT && exact then k - 1 else k;
            DropReplacement(stripped) == if s[0] == BOM && kept > 0 then s[1..kept] else s[..kept]
  {
  }

  /** What the clamp returns, for every string. */
  lemma ClampExact(s: Str, max: nat)
    ensures ClampToBytes(s, max) ==
            if |Encode(s)| <= max then s
            else if s[0] == BOM && Kept(s, max) > 0 then s[1..Kept(s, max)]
            else s[..Kept(s, max)]
  {
    hide Run, EncodeScalar, DropReplacement;
    if |Encode(s)| > max {
      var k := Fit(s, max);
      RunTruncated(s, max);
      StripAndDrop(Run(START, Encode(s)[..max]), s, k, |Encode(s[..k])| == max);
    }
  }

  lemma SliceOfRest(s: Str, i: nat, j: nat)
    requires 0 < i <= j <= |s|
    ensures s[1..][i - 1..j - 1] == s[i..j]
    ensures s[..j][1..] == s[1..][..j - 1]
  {
  }

  lemma {:induction false} EncodeMonotone(s: Str, i: nat, j: nat)
    requires i <= j <= |s|
    ensures |Encode(s[i..j])| <= |Encode(s[..j])|
    decreases i
  {
    hide EncodeScalar;
    if i > 0 {
      EncodeMonotone(s[1..], i - 1, j - 1);
      SliceOfRest(s, i, j);
      SliceOfRest(s, 1, j);
    } else {
      assert s[0..j] == s[..j];
    }
  }

  lemma {:induction false} EncodePrefix(s: Str, i: nat, j: nat)
    requires i <= j <= |s|
    ensures |Encode(s[..i])| <= |Encode(s[..j])|
    decreases i
  {
    hide EncodeScalar;
    if i > 0 {
      EncodePrefix(s[1..], i - 1, j - 1);
      assert s[..i][1..] == s[1..][..i - 1];
      assert s[..j][1..] == s[1..][..j - 1];
    }
  }

  /** The result never takes more than `max` bytes, byte order mark or not. */
  lemma ClampFits(s: Str, max: nat)
    ensures |Encode(ClampToBytes(s, max))| <= max
  {
    hide ClampToBytes, Encode;
    ClampExact(s, max);
    FitIsLargest(s, max);
    EncodePrefix(s, Kept(s, max), Fit(s, max));
    if Kept(s, max) > 0 {
      EncodeMonotone(s, 1, Kept(s, max));
    }
  }

  /**
   * For a string that does not start with a byte order mark the clamp is a
   * prefix, of whole characters, and it drops no character that would still
   * fit, except one genuine U+FFFD that ends exactly at the cut.
   */
  lemma ClampIsLongestPrefix(s: Str, max: nat)
    requires s == [] || s[0] != BOM
    ensures var r := ClampToBytes(s, max);
            && r <= s && |Encode(r)| <= max
            && (|r| < |s| ==>
                  || |Encode(s[..|r| + 1])| > max
                  || (s[|r|] == REPLACEMENT && |Encode(s[..|r| + 1])| == max))
  {
    hide ClampToBytes, Encode;
    ClampExact(s, max);
    ClampFits(s, max);
    FitIsLargest(s, max);
  }

  /** How many byte order marks stand in front. */
  function Boms(s: Str): (b: nat)
    ensures b <= |s| && (forall i :: 0 <= i < b ==> s[i] == BOM) && (b < |s| ==> s[b] != BOM)
  {
    if s == [] || s[0] != BOM then 0 else 1 + Boms(s[1..])
  }

  /** They take three bytes each. */
  lemma {:induction false} BomsEncode(s: Str, k: nat)
    requires k <= |s| && forall i :: 0 <= i < k ==> s[i] == BOM
    ensures |Encode(s[..k])| == 3 * k
  {
    if k > 0 {
      BomsEncode(s[1..], k - 1);
      assert s[..k][1..] == s[1..][..k - 1];
    }
  }

  lemma {:induction false} EncodeSnoc(s: Str, k: nat)
    requires k < |s|
    ensures |Encode(s[..k + 1])| == |Encode(s[..k])| + |EncodeScalar(s[k])|
  {
    hide EncodeScalar;
    if k > 0 {
      EncodeSnoc(s[1..], k - 1);
      assert s[..k + 1][1..] == s[1..][..k];
      assert s[..k][1..] == s[1..][..k - 1];
    } else {
      assert s[..1] == [s[0]] && s[..1][1..] == [] && s[..0] == [];
    }
  }

  /** Whether a number of characters fits, by their bytes. */
  lemma FitsIff(s: Str, max: nat, k: nat)
    requires k <= |s|
    ensures k <= Fit(s, max) <==> |Encode(s[..k])| <= max
  {
    hide Encode, Fit;
    FitIsLargest(s, max);
    if k <= Fit(s, max) {
      EncodePrefix(s, k, Fit(s, max));
    } else {
      EncodePrefix(s, Fit(s, max) + 1, k);
    }
  }

  lemma ThreeBytes()
    ensures |EncodeScalar(REPLACEMENT)| == 3 && |EncodeScalar(BOM)| == 3
  {
  }

  /** The clamp keeps the byte order marks in front at most, by the bytes of what follows them. */
  lemma KeptBoms(s: Str, max: nat, b: nat)
    requires b < |s| && b == Boms(s) && |Encode(s)| > max
    ensures Kept(s, max) <= b <==>
            3 * b + |EncodeScalar(s[b])| > max || (s[b] == REPLACEMENT && 3 * b + 3 == max)
  {
    hide Encode, Fit, Boms, EncodeScalar;
    BomsEncode(s, b);
    EncodeSnoc(s, b);
    FitsIff(s, max, b + 1);
    if b + 2 <= |s| {
      EncodeSnoc(s, b + 1);
      FitsIff(s, max, b + 2);
    }
    ThreeBytes();
    FitIsLargest(s, max);
  }

  lemma {:induction false} BomsShift(s: Str, k: nat)
    requires 0 < k <= |s| && s[0] == BOM
    requires forall i :: 0 <= i < k - 1 ==> s[1..k][i] == s[i]
    ensures forall i :: 0 <= i < k ==> s[i] == BOM
  {
    if k > 1 {
      assert forall i :: 0 <= i < k - 2 ==> s[1..k - 1][i] == s[1..k][i];
      BomsShift(s, k - 1);
      assert s[1..k][k - 2] == s[k - 1];
    }
  }

  /** In terms of the characters kept: a prefix unless a character follows the marks. */
  lemma ClampPrefixKept(s: Str, max: nat)
    ensures ClampToBytes(s, max) <= s <==> |Encode(s)| <= max || Boms(s) == 0 || Kept(s, max) <= Boms(s)
  {
    hide ClampToBytes, EncodeScalar, Kept;
    ClampExact(s, max);
    var r, k := ClampToBytes(s, max), Kept(s, max);
    if |Encode(s)| > max && s[0] == BOM && k > 0 {
      assert r == s[1..k];
      if r <= s {
        BomsShift(s, k);
      }
    }
  }

  /**
   * When the clamp of any string is a prefix of it: it fits, it starts without
   * a byte order mark or has nothing else, or the first character behind its
   * marks does not fit, or is a U+FFFD that ends exactly at the cut.
   */
  lemma ClampIsPrefixIff(s: Str, max: nat)
    ensures var b := Boms(s);
            ClampToBytes(s, max) <= s <==>
            || |Encode(s)| <= max
            || b == 0 || b == |s|
            || 3 * b + |EncodeScalar(s[b])| > max
            || (s[b] == REPLACEMENT && 3 * b + 3 == max)
  {
    hide Encode, EncodeScalar, Kept, Boms, ClampToBytes;
    ClampPrefixKept(s, max);
    var b := Boms(s);
    if |Encode(s)| > max && b < |s| {
      KeptBoms(s, max, b);
    }
  }

  /** The condition fails for a byte order mark and two letters cut to four bytes: the result is the letter. */
  lemma ClampIsNoPrefix()
    ensures ClampToBytes([BOM, 0x61, 0x62], 4) == [0x61]
    ensures !(ClampToBytes([BOM, 0x61, 0x62], 4) <= [BOM, 0x61, 0x62])
  {
    hide Run, ClampToBytes;
    var s: Str := [BOM, 0x61, 0x62];
    ClampExact(s, 4);
    assert s[1..] == [0x61, 0x62] && s[1..][1..] == [0x62] && s[1..][1..][1..] == [];
    assert Fit([0x62], 0) == 0 && Fit([0x61, 0x62], 1) == 1 && Fit(s, 4) == 2;
    assert |Encode([0x61, 0x62])| == 2 && |Encode(s)| == 5;
    assert s[1..2] == [0x61];
  }
}
