/**
 * `base32.HexEncoding`: the "base32hex" alphabet of section 7 of RFC 4648
 * ("0123456789ABCDEFGHIJKLMNOPQRSTUV") with '=' padding. Every group of up
 * to five bytes becomes eight characters; the decoder reads eight-character
 * quanta the way Go's decoder does (lenient about the unused low bits of the
 * last character, strict about the padding).
 */
module Base32Hex {
  import opened GoTypes
  import Digits

  /** The alphabet character of the 5-bit value `d`. */
  function EncodeDigit(d: nat): (c: Byte)
    requires d < 32
  {
    if d < 10 then ('0' as int + d) as char else ('A' as int + d - 10) as char
  }

  /** The 5-bit value of an alphabet character; `None` for any other byte (lower case included). */
  function DecodeDigit(c: Byte): (r: Option<nat>)
    ensures r.Some? ==> r.value < 32
  {
    if '0' <= c <= '9' then Some(c as int - '0' as int)
    else if 'A' <= c <= 'V' then Some(c as int - 'A' as int + 10)
    else None
  }

  lemma DecodeEncodeDigit(d: nat)
    requires d < 32
    ensures DecodeDigit(EncodeDigit(d)) == Some(d) && EncodeDigit(d) != Pad
  {
  }

  const Pad: Byte := '='

  function Pads(n: nat): (r: GoString)
    ensures |r| == n && forall i :: 0 <= i < n ==> r[i] == Pad
  {
    seq(n, _ => Pad)
  }

  /** `EncodedLen(n)`: eight characters for every started group of five bytes. */
  function EncodedLen(n: nat): nat {
    (n + 4) / 5 * 8
  }

  /** A nonempty input has at least one whole quantum of output, and only whole quanta. */
  lemma EncodedLenWhole(n: nat)
    requires n >= 1
    ensures EncodedLen(n) >= 8 && EncodedLen(n) % 8 == 0
  {
  }

  /** How many alphabet characters encode a group of `k` bytes (section 6 of RFC 4648). */
  function DigitCount(k: nat): (d: nat)
    requires 1 <= k <= 5
    ensures 8 * k <= 5 * d < 8 * k + 5 && d <= 8
  {
    if k == 1 then 2 else if k == 2 then 4 else if k == 3 then 5 else if k == 4 then 7 else 8
  }

  /** Bytes as base-256 digits. */
  function ByteDigits(g: seq<Byte>): (ds: seq<nat>)
    ensures |ds| == |g| && Digits.AllBelow(ds, 256)
  {
    seq(|g|, i requires 0 <= i < |g| => g[i] as nat)
  }

  /** Base-256 digits as bytes. */
  function DigitBytes(ds: seq<nat>): (g: seq<Byte>)
    requires Digits.AllBelow(ds, 256)
    ensures |g| == |ds|
  {
    seq(|ds|, i requires 0 <= i < |ds| => ds[i] as char)
  }

  /** 5-bit values as alphabet characters. */
  function Spell(ds: seq<nat>): (cs: GoString)
    requires Digits.AllBelow(ds, 32)
    ensures |cs| == |ds|
  {
    seq(|ds|, i requires 0 <= i < |ds| => EncodeDigit(ds[i]))
  }

  /** The 5-bit values of a group of `k` bytes: the bytes' bits, then zero bits up to a multiple of five. */
  function GroupDigits(g: seq<Byte>): (ds: seq<nat>)
    requires 1 <= |g| <= 5
    ensures |ds| == DigitCount(|g|) && Digits.AllBelow(ds, 32)
  {
    var d := DigitCount(|g|);
    Digits.ToDigits(Digits.FromDigits(ByteDigits(g), 256) * Digits.Pow(2, 5 * d - 8 * |g|), 32, d)
  }

  /** One group of one to five bytes: its characters, then '=' up to eight. */
  function EncodeGroup(g: seq<Byte>): (r: GoString)
    requires 1 <= |g| <= 5
    ensures |r| == 8
  {
    Spell(GroupDigits(g)) + Pads(8 - DigitCount(|g|))
  }

  /** `HexEncoding.Encode`: the groups of five bytes in order, the last one padded. */
  function Encode(src: seq<Byte>): (r: GoString)
    ensures |r| == EncodedLen(|src|)
    decreases |src|
  {
    if |src| == 0 then []
    else if |src| <= 5 then
      EncodedLenOneGroup(|src|);
      EncodeGroup(src)
    else
      EncodedLenStep(|src|);
      EncodeGroup(src[..5]) + Encode(src[5..])
  }

  lemma EncodedLenOneGroup(n: nat)
    requires 1 <= n <= 5
    ensures EncodedLen(n) == 8
  {
    assert (n + 4) / 5 == 1;
  }

  lemma EncodedLenStep(n: nat)
    requires n > 5
    ensures EncodedLen(n) == 8 + EncodedLen(n - 5)
  {
    assert (n + 4) / 5 == 1 + (n - 1) / 5;
  }

  /** Every character of an encoding is an alphabet character or padding. */
  lemma {:induction false} EncodeAlphabet(src: seq<Byte>)
    ensures forall i :: 0 <= i < |Encode(src)| ==> Encode(src)[i] == Pad || DecodeDigit(Encode(src)[i]).Some?
    decreases |src|
  {
    if |src| > 0 {
      var g := if |src| <= 5 then src else src[..5];
      var head := EncodeGroup(g);
      var ds := GroupDigits(g);
      forall i | 0 <= i < |ds| ensures DecodeDigit(head[i]).Some? {
        DecodeEncodeDigit(ds[i]);
      }
      assert forall i :: |ds| <= i < 8 ==> head[i] == Pad;
      if |src| > 5 {
        EncodeAlphabet(src[5..]);
        var e := Encode(src);
        assert e == head + Encode(src[5..]);
        forall i | 8 <= i < |e| ensures e[i] == Pad || DecodeDigit(e[i]).Some? {
          assert e[i] == Encode(src[5..])[i - 8];
        }
      }
    }
  }

  /** One quantum read by the decoder: its 5-bit values, the input after it, and whether padding ended the input. */
  datatype Quantum = Quantum(digits: seq<nat>, rest: GoString, end: bool)

  /** The quantum lengths the decoder accepts. */
  predicate QuantumLength(n: nat) {
    n == 2 || n == 4 || n == 5 || n == 7 || n == 8
  }

  /**
   * The decoder's inner loop, with the values `acc` of the quantum read so
   * far. A '=' after at least two characters, with fewer than eight bytes
   * left, ends the input: the padding must fill the quantum, and a quantum of
   * three or six characters is refused (one character is excluded by the
   * guard). Whatever follows the padding is not read.
   */
  function ReadQuantum(src: GoString, acc: seq<nat>): (r: Option<Quantum>)
    requires |acc| < 8 && Digits.AllBelow(acc, 32)
    ensures r.Some? ==> |r.value.rest| < |src| && Digits.AllBelow(r.value.digits, 32) && QuantumLength(|r.value.digits|)
    decreases |src|
  {
    if |src| == 0 then None  // input ends inside a quantum: padding is missing
    else
      var c := src[0];
      var rest := src[1..];
      var j := |acc|;
      if c == Pad && j >= 2 && |rest| < 8 then
        if |rest| + j < 7 then None
        else if !(forall k :: 0 <= k < 7 - j ==> rest[k] == Pad) then None
        else if j == 3 || j == 6 then None
        else Some(Quantum(acc, rest, true))
      else
        match DecodeDigit(c)
        case None => None
        case Some(d) =>
          if j == 7 then Some(Quantum(acc + [d], rest, false)) else ReadQuantum(rest, acc + [d])
  }

  /** The bytes a quantum carries: the leading whole bytes of its bits, the remaining low bits dropped. */
  function QuantumBytes(ds: seq<nat>): (g: seq<Byte>)
    requires QuantumLength(|ds|)
    ensures |g| == |ds| * 5 / 8
  {
    var nb := |ds| * 5 / 8;
    var bits := 5 * |ds| - 8 * nb;
    DigitBytes(Digits.ToDigits(Digits.FromDigits(ds, 32) / Digits.Pow(2, bits), 256, nb))
  }

  /** The decoder: quanta until the input is used up or padding ends it; `None` for a corrupt input. */
  function Decode(src: GoString): (r: Option<seq<Byte>>)
    decreases |src|
  {
    if |src| == 0 then Some([])
    else
      match ReadQuantum(src, [])
      case None => None
      case Some(q) =>
        var bytes := QuantumBytes(q.digits);
        if q.end then Some(bytes)
        else
          match Decode(q.rest)
          case None => None
          case Some(more) => Some(bytes + more)
  }

  /** The input without its carriage returns and line feeds. */
  function StripNewlines(s: GoString): (r: GoString)
    ensures '\r' !in r && '\n' !in r
    ensures '\r' !in s && '\n' !in s ==> r == s
    decreases |s|
  {
    if |s| == 0 then []
    else if s[0] == '\r' || s[0] == '\n' then StripNewlines(s[1..])
    else [s[0]] + StripNewlines(s[1..])
  }

  /** `HexEncoding.DecodeString`: the decoded bytes, or `None` for the error. */
  function DecodeString(s: GoString): (r: Option<seq<Byte>>)
    ensures |s| == 0 ==> r == Some([])
  {
    Decode(StripNewlines(s))
  }

  /** Reading the spelled values of a quantum. */
  lemma {:induction false} ReadDigits(ds: seq<nat>, rest: GoString, acc: seq<nat>)
    requires Digits.AllBelow(ds, 32) && Digits.AllBelow(acc, 32)
    requires |acc| < 8 && |acc| + |ds| <= 8
    ensures |acc| + |ds| < 8 ==> ReadQuantum(Spell(ds) + rest, acc) == ReadQuantum(rest, acc + ds)
    ensures |acc| + |ds| == 8 ==> ReadQuantum(Spell(ds) + rest, acc) == Some(Quantum(acc + ds, rest, false))
    decreases |ds|
  {
    if |ds| == 0 {
      assert Spell(ds) + rest == rest && acc + ds == acc;
    } else {
      var src := Spell(ds) + rest;
      DecodeEncodeDigit(ds[0]);
      assert src[0] == EncodeDigit(ds[0]);
      assert src[1..] == Spell(ds[1..]) + rest;
      assert acc + [ds[0]] + ds[1..] == acc + ds;
      if |acc| < 7 {
        ReadDigits(ds[1..], rest, acc + [ds[0]]);
      } else {
        assert ds == [ds[0]] && src[1..] == rest;
        assert ReadQuantum(src, acc) == Some(Quantum(acc + [ds[0]], rest, false));
      }
    }
  }

  /** Reading the padding that completes a quantum ends the input. */
  lemma ReadPadding(acc: seq<nat>)
    requires Digits.AllBelow(acc, 32) && QuantumLength(|acc|) && |acc| < 8
    ensures ReadQuantum(Pads(8 - |acc|), acc) == Some(Quantum(acc, Pads(7 - |acc|), true))
  {
    assert Pads(8 - |acc|)[1..] == Pads(7 - |acc|);
  }

  /** The value of a group, shifted to fill its characters, fits in them. */
  lemma GroupValueFits(g: seq<Byte>)
    requires 1 <= |g| <= 5
    ensures var d := DigitCount(|g|);
      Digits.FromDigits(ByteDigits(g), 256) * Digits.Pow(2, 5 * d - 8 * |g|) < Digits.Pow(32, d)
  {
    Digits.FromDigitsBound(ByteDigits(g), 256);
    ShiftFits(Digits.FromDigits(ByteDigits(g), 256), |g|, DigitCount(|g|));
  }

  /** A number of `k` bytes shifted left by `5d - 8k` bits fits in `d` 5-bit digits. */
  lemma ShiftFits(v: nat, k: nat, d: nat)
    requires v < Digits.Pow(256, k) && 8 * k <= 5 * d
    ensures v * Digits.Pow(2, 5 * d - 8 * k) < Digits.Pow(32, d)
  {
    var s := 5 * d - 8 * k;
    var p := Digits.Pow(2, s);
    Digits.MulStrict(v, Digits.Pow(256, k), p);
    assert Digits.Pow(2, 8) == 256 && Digits.Pow(2, 5) == 32;
    Digits.PowMul(2, 8, k);
    Digits.PowAdd(2, 8 * k, s);
    Digits.PowMul(2, 5, d);
    assert 8 * k + s == 5 * d;
  }

  /** The characters of a group of `k` bytes carry `k` whole bytes. */
  lemma WholeBytes(k: nat)
    requires 1 <= k <= 5
    ensures DigitCount(k) * 5 / 8 == k
  {
    if k == 1 { assert 2 * 5 / 8 == 1; }
    else if k == 2 { assert 4 * 5 / 8 == 2; }
    else if k == 3 { assert 5 * 5 / 8 == 3; }
    else if k == 4 { assert 7 * 5 / 8 == 4; }
    else { assert 8 * 5 / 8 == 5; }
  }

  /** A group's quantum carries exactly the group's bytes. */
  lemma GroupBytes(g: seq<Byte>)
    requires 1 <= |g| <= 5
    ensures QuantumBytes(GroupDigits(g)) == g
  {
    var k := |g|;
    var d := DigitCount(k);
    var s := 5 * d - 8 * k;
    var v := Digits.FromDigits(ByteDigits(g), 256);
    var w := v * Digits.Pow(2, s);
    WholeBytes(k);
    GroupValueFits(g);
    Digits.ToFromDigits(w, 32, d);
    Digits.DivModDigit(v, 0, Digits.Pow(2, s));
    assert Digits.FromDigits(GroupDigits(g), 32) / Digits.Pow(2, s) == v;
    Digits.FromToDigits(ByteDigits(g), 256);
    assert DigitBytes(ByteDigits(g)) == g;
  }

  /** Decoding a full group's eight characters, followed by anything. */
  lemma ReadFullGroup(g: seq<Byte>, rest: GoString)
    requires |g| == 5
    ensures ReadQuantum(EncodeGroup(g) + rest, []) == Some(Quantum(GroupDigits(g), rest, false))
  {
    var ds := GroupDigits(g);
    assert EncodeGroup(g) + rest == Spell(ds) + rest;
    ReadDigits(ds, rest, []);
    assert [] + ds == ds;
  }

  /** Decoding the padded last group ends the input. */
  lemma ReadLastGroup(g: seq<Byte>)
    requires 1 <= |g| < 5
    ensures ReadQuantum(EncodeGroup(g), []) == Some(Quantum(GroupDigits(g), Pads(7 - DigitCount(|g|)), true))
  {
    var ds := GroupDigits(g);
    var d := |ds|;
    assert EncodeGroup(g) == Spell(ds) + Pads(8 - d);
    ReadDigits(ds, Pads(8 - d), []);
    assert [] + ds == ds;
    ReadPadding(ds);
  }

  /** `Decode(Encode(src)) == src`: the encoding loses nothing. */
  lemma {:induction false} DecodeEncodeRaw(src: seq<Byte>)
    ensures Decode(Encode(src)) == Some(src)
    decreases |src|
  {
    if 0 < |src| < 5 {
      DecodeLastGroup(src);
    } else if |src| >= 5 {
      DecodeEncodeRaw(src[5..]);
      DecodeFullGroup(src);
    }
  }

  lemma DecodeLastGroup(g: seq<Byte>)
    requires 1 <= |g| < 5
    ensures Decode(Encode(g)) == Some(g)
  {
    ReadLastGroup(g);
    GroupBytes(g);
  }

  /** A full group in front of the rest of the encoding decodes to itself in front of the rest. */
  lemma DecodeFullGroup(src: seq<Byte>)
    requires |src| >= 5
    requires Decode(Encode(src[5..])) == Some(src[5..])
    ensures Decode(Encode(src)) == Some(src)
  {
    var g := src[..5];
    var tail := Encode(src[5..]);
    var e := EncodeGroup(g) + tail;
    assert Encode(src) == e by {
      EncodeFront(src);
    }
    assert ReadQuantum(e, []) == Some(Quantum(GroupDigits(g), tail, false)) by {
      ReadFullGroup(g, tail);
    }
    assert QuantumBytes(GroupDigits(g)) == g by {
      GroupBytes(g);
    }
    DecodeStep(e, Quantum(GroupDigits(g), tail, false), src[5..]);
    SplitAt(src, 5);
  }

  lemma SplitAt(s: seq<Byte>, i: nat)
    requires i <= |s|
    ensures s[..i] + s[i..] == s
  {
  }

  /** One quantum that does not end the input, in front of a decodable rest. */
  lemma DecodeStep(e: GoString, q: Quantum, more: seq<Byte>)
    requires |e| > 0 && ReadQuantum(e, []) == Some(q) && !q.end && Decode(q.rest) == Some(more)
    ensures Decode(e) == Some(QuantumBytes(q.digits) + more)
  {
  }

  /** The first five bytes are encoded in front of the rest. */
  lemma EncodeFront(src: seq<Byte>)
    requires |src| >= 5
    ensures Encode(src) == EncodeGroup(src[..5]) + Encode(src[5..])
  {
    if |src| == 5 {
      assert src[..5] == src;
      assert Encode(src[5..]) == [];
    }
  }

  /** The round trip through `DecodeString`: the encoding holds no line breaks to strip. */
  lemma DecodeEncode(src: seq<Byte>)
    ensures DecodeString(Encode(src)) == Some(src)
  {
    EncodeAlphabet(src);
    DecodeEncodeRaw(src);
  }

  /** A lone character is a quantum without its padding: corrupt. */
  lemma MissingPaddingIsCorrupt(c: Byte)
    requires c != '\r' && c != '\n'
    ensures DecodeString([c]) == None
  {
    assert StripNewlines([c]) == [c] + StripNewlines([]);
  }

  /** A byte outside the alphabet (a lower-case letter, for one) is corrupt. */
  lemma ForeignByteIsCorrupt(c: Byte, rest: GoString)
    requires DecodeDigit(c).None? && c != Pad && c != '\r' && c != '\n'
    ensures DecodeString([c] + rest) == None
  {
    assert StripNewlines([c] + rest) == [c] + StripNewlines(rest);
  }
}
