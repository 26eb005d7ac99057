/**
 * The pagination cursor (pkg/cursor): an int64 written in base 36, the text
 * then encoded as padded base32hex, carried in the opaque bytes of a
 * `typesv1.Cursor`. Reading one back never fails: every problem reads as 0.
 */
module Cursor {
  import opened GoTypes
  import Strconv
  import Base32Hex

  /** `typesv1.Cursor`; `bytes` is its `Opaque` field. */
  datatype Cursor = Cursor(bytes: seq<Byte>)

  /** `FromInt64(i64)`. */
  function FromInt64(x: Int64): (c: Cursor)
    // eight characters for every started group of five base-36 characters
    ensures |c.bytes| == Base32Hex.EncodedLen(|Strconv.FormatInt(x, 36)|)
    ensures |c.bytes| >= 8 && |c.bytes| % 8 == 0
    // the opaque bytes decode to the base-36 text
    ensures Base32Hex.DecodeString(c.bytes) == Some(Strconv.FormatInt(x, 36))
  {
    var raw := Strconv.FormatInt(x, 36);
    Base32Hex.DecodeEncode(raw);
    Base32Hex.EncodedLenWhole(|raw|);
    Cursor(Base32Hex.Encode(raw))
  }

  /** `MustParseInt64(cursor)`, with `None` for a nil cursor. */
  function MustParseInt64(c: Option<Cursor>): (x: Int64)
    ensures c.None? ==> x == 0
    ensures c.Some? && |c.value.bytes| == 0 ==> x == 0
    ensures c.Some? && Base32Hex.DecodeString(c.value.bytes).None? ==> x == 0
    ensures (c.Some? && Base32Hex.DecodeString(c.value.bytes).Some? &&
             Strconv.ParseInt(Base32Hex.DecodeString(c.value.bytes).value, 36).Err?) ==> x == 0
    // a cursor that decodes to base-36 text within int64 reads as that number
    ensures (c.Some? && |c.value.bytes| > 0 && Base32Hex.DecodeString(c.value.bytes).Some? &&
             Strconv.ParseInt(Base32Hex.DecodeString(c.value.bytes).value, 36).Ok?) ==>
            x == Strconv.ParseInt(Base32Hex.DecodeString(c.value.bytes).value, 36).value
  {
    match c
    case None => 0
    case Some(cur) =>
      if |cur.bytes| == 0 then 0
      else
        match Base32Hex.DecodeString(cur.bytes)
        case None => 0
        case Some(raw) =>
          match Strconv.ParseInt(raw, 36)
          case Err(_) => 0
          case Ok(v) => v
  }

  /** Every int64, negatives included, survives the cursor. */
  lemma RoundTrip(x: Int64)
    ensures MustParseInt64(Some(FromInt64(x))) == x
  {
    Strconv.ParseFormatInt(x, 36);
  }

  /** Distinct values give distinct cursors. */
  lemma FromInt64Injective(x: Int64, y: Int64)
    requires FromInt64(x) == FromInt64(y)
    ensures x == y
  {
    RoundTrip(x);
    RoundTrip(y);
  }

  /** Lower-case base32 is not the alphabet, so a lower-cased cursor reads as 0. */
  lemma LowerCaseReadsAsZero(rest: seq<Byte>)
    ensures MustParseInt64(Some(Cursor(['a'] + rest))) == 0
  {
    Base32Hex.ForeignByteIsCorrupt('a', rest);
  }
}
