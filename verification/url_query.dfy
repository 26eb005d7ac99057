/**
 * The query-string half of Go's `net/url`: `QueryEscape`, its inverse, and
 * `Values.Add`/`Values.Encode`, plus a reference decoder for encoded queries.
 * A query is `key=value` pairs joined by `&` (section 3.4 of RFC 3986), and
 * every byte outside the unreserved set is written `%XX`, a space as `+`.
 */
module UrlQuery {
  import opened GoTypes
  import GoStrings

  /** Bytes `QueryEscape` leaves alone: letters, digits and `-_.~`. */
  predicate Unreserved(b: Byte) {
    || ('a' <= b <= 'z') || ('A' <= b <= 'Z') || ('0' <= b <= '9')
    || b == '-' || b == '_' || b == '.' || b == '~'
  }

  /** Upper-case hexadecimal digit for a value below 16. */
  function HexDigit(d: nat): (c: Byte)
    requires d < 16
    ensures Unreserved(c)
  {
    if d < 10 then ('0' as int + d) as char else ('A' as int + d - 10) as char
  }

  /** Value of a hexadecimal digit of either case (Go's `unhex`), if it is one. */
  function HexValue(c: Byte): (r: Option<nat>)
    ensures r.Some? ==> r.value < 16
  {
    if '0' <= c <= '9' then Some(c as int - '0' as int)
    else if 'a' <= c <= 'f' then Some(c as int - 'a' as int + 10)
    else if 'A' <= c <= 'F' then Some(c as int - 'A' as int + 10)
    else None
  }

  /** Bytes that can occur in the output of `QueryEscape`. */
  predicate EscapedByte(b: Byte) {
    Unreserved(b) || b == '+' || b == '%'
  }

  /** The escape of one byte in query-component mode. */
  function EscapeByte(b: Byte): (r: GoString)
    ensures 1 <= |r| <= 3
    ensures forall i :: 0 <= i < |r| ==> EscapedByte(r[i])
  {
    if Unreserved(b) then [b]
    else if b == ' ' then ['+']
    else ['%', HexDigit(b as int / 16), HexDigit(b as int % 16)]
  }

  /** `url.QueryEscape(s)`. */
  function QueryEscape(s: GoString): (r: GoString)
    ensures forall i :: 0 <= i < |r| ==> EscapedByte(r[i])
    ensures '&' !in r && '=' !in r
    decreases |s|
  {
    if |s| == 0 then []
    else
      var head := EscapeByte(s[0]);
      var tail := QueryEscape(s[1..]);
      assert forall i :: 0 <= i < |head + tail| ==> EscapedByte((head + tail)[i]) by {
        forall i | 0 <= i < |head + tail| ensures EscapedByte((head + tail)[i]) {
          if i < |head| { assert (head + tail)[i] == head[i]; }
          else { assert (head + tail)[i] == tail[i - |head|]; }
        }
      }
      head + tail
  }

  /** A string made only of unreserved bytes escapes to itself. */
  lemma {:induction false} EscapeUnreserved(s: GoString)
    requires forall i :: 0 <= i < |s| ==> Unreserved(s[i])
    ensures QueryEscape(s) == s
    decreases |s|
  {
    if |s| > 0 {
      EscapeUnreserved(s[1..]);
      assert [s[0]] + s[1..] == s;
    }
  }

  /**
   * `url.QueryUnescape(t)`: `%XX` becomes the byte XX, `+` a space; a `%`
   * without two hexadecimal digits after it is an error (`None`).
   */
  function QueryUnescape(t: GoString): Option<GoString>
    decreases |t|
  {
    if |t| == 0 then Some([])
    else if t[0] == '%' then
      if |t| < 3 then None
      else
        match (HexValue(t[1]), HexValue(t[2]))
        case (Some(hi), Some(lo)) => Prepend((hi * 16 + lo) as char, QueryUnescape(t[3..]))
        case _ => None
    else if t[0] == '+' then Prepend(' ', QueryUnescape(t[1..]))
    else Prepend(t[0], QueryUnescape(t[1..]))
  }

  function Prepend(b: Byte, r: Option<GoString>): Option<GoString> {
    match r
    case Some(s) => Some([b] + s)
    case None => None
  }

  lemma HexDigitValue(d: nat)
    requires d < 16
    ensures HexValue(HexDigit(d)) == Some(d)
  {
  }

  /** Unescaping the escape of one byte gives that byte back and resumes after it. */
  lemma UnescapeEscapeByte(b: Byte, rest: GoString)
    ensures QueryUnescape(EscapeByte(b) + rest) == Prepend(b, QueryUnescape(rest))
  {
    var t := EscapeByte(b) + rest;
    if Unreserved(b) {
      assert t[0] == b && t[1..] == rest;
    } else if b == ' ' {
      assert t[0] == '+' && t[1..] == rest;
    } else {
      HexDigitValue(b as int / 16);
      HexDigitValue(b as int % 16);
      assert t[0] == '%' && t[1] == HexDigit(b as int / 16) && t[2] == HexDigit(b as int % 16);
      assert t[3..] == rest;
      assert ((b as int / 16) * 16 + b as int % 16) as char == b;
    }
  }

  /** `QueryUnescape` undoes `QueryEscape` for every byte string. */
  lemma {:induction false} UnescapeEscape(s: GoString)
    ensures QueryUnescape(QueryEscape(s)) == Some(s)
    decreases |s|
  {
    if |s| > 0 {
      UnescapeEscapeByte(s[0], QueryEscape(s[1..]));
      UnescapeEscape(s[1..]);
      assert [s[0]] + s[1..] == s;
    }
  }

  /** `url.Values`, as its `Add` calls in order: one (key, value) pair per call. */
  type Values = seq<(GoString, GoString)>

  /** `v.Add(key, value)`. */
  function Add(v: Values, key: GoString, value: GoString): (r: Values)
    ensures |r| == |v| + 1 && r[|v|] == (key, value) && r[..|v|] == v
  {
    v + [(key, value)]
  }

  /** Byte-wise order of Go strings (`a <= b`). */
  predicate KeyLessEq(a: GoString, b: GoString)
    decreases |a|
  {
    if |a| == 0 then true
    else if |b| == 0 then false
    else if a[0] != b[0] then a[0] < b[0]
    else KeyLessEq(a[1..], b[1..])
  }

  /** Inserts `p` before the first pair whose key is not smaller than its own. */
  function InsertByKey(p: (GoString, GoString), sorted: Values): (r: Values)
    ensures |r| == |sorted| + 1
    decreases |sorted|
  {
    if |sorted| == 0 || KeyLessEq(p.0, sorted[0].0) then [p] + sorted
    else [sorted[0]] + InsertByKey(p, sorted[1..])
  }

  /**
   * The pairs grouped as `Encode` emits them: keys in ascending byte order, the
   * values of one key in the order they were added.
   */
  function SortByKey(v: Values): (r: Values)
    ensures |r| == |v|
    decreases |v|
  {
    if |v| == 0 then [] else InsertByKey(v[0], SortByKey(v[1..]))
  }

  /** Keys already in ascending order. */
  predicate KeysAscending(v: Values) {
    forall i :: 0 <= i < |v| - 1 ==> KeyLessEq(v[i].0, v[i + 1].0)
  }

  /** Sorting pairs whose keys already ascend changes nothing. */
  lemma {:induction false} SortAscending(v: Values)
    requires KeysAscending(v)
    ensures SortByKey(v) == v
    decreases |v|
  {
    if |v| > 0 {
      assert KeysAscending(v[1..]) by {
        forall i | 0 <= i < |v[1..]| - 1 ensures KeyLessEq(v[1..][i].0, v[1..][i + 1].0) {
          assert v[1..][i] == v[i + 1] && v[1..][i + 1] == v[i + 2];
        }
      }
      SortAscending(v[1..]);
      assert [v[0]] + v[1..] == v;
    }
  }

  /** One pair as `Encode` writes it. */
  function EncodePair(p: (GoString, GoString)): (r: GoString)
    ensures '&' !in r && '=' in r
  {
    var r := QueryEscape(p.0) + "=" + QueryEscape(p.1);
    assert r[|QueryEscape(p.0)|] == '=';
    r
  }

  function EncodePairs(v: Values): GoString {
    GoStrings.Join(seq(|v|, i requires 0 <= i < |v| => EncodePair(v[i])), '&')
  }

  /** `v.Encode()`: the pairs sorted by key, each as `key=value`, joined by `&`. */
  function Encode(v: Values): GoString {
    EncodePairs(SortByKey(v))
  }

  /**
   * Reference decoder of a query: the `&`-separated fields, each cut at its
   * first `=`, both halves unescaped; `None` when a half does not unescape.
   */
  function DecodeQuery(q: GoString): Option<Values> {
    if |q| == 0 then Some([]) else DecodeFields(GoStrings.Split(q, '&'))
  }

  function DecodeFields(fields: seq<GoString>): Option<Values>
    decreases |fields|
  {
    if |fields| == 0 then Some([])
    else
      var (k, v, _) := GoStrings.Cut(fields[0], '=');
      match (QueryUnescape(k), QueryUnescape(v), DecodeFields(fields[1..]))
      case (Some(key), Some(value), Some(rest)) => Some([(key, value)] + rest)
      case _ => None
  }

  lemma {:induction false} DecodeEncodedFields(v: Values)
    ensures DecodeFields(seq(|v|, i requires 0 <= i < |v| => EncodePair(v[i]))) == Some(v)
    decreases |v|
  {
    var fields := seq(|v|, i requires 0 <= i < |v| => EncodePair(v[i]));
    if |v| > 0 {
      GoStrings.CutAfterPrefix(QueryEscape(v[0].0), '=', QueryEscape(v[0].1));
      UnescapeEscape(v[0].0);
      UnescapeEscape(v[0].1);
      assert fields[1..] == seq(|v[1..]|, i requires 0 <= i < |v[1..]| => EncodePair(v[1..][i]));
      DecodeEncodedFields(v[1..]);
      assert [v[0]] + v[1..] == v;
    }
  }

  /** Decoding an encoded query gives back exactly its pairs, in encoding order. */
  lemma DecodeEncodePairs(v: Values)
    ensures DecodeQuery(EncodePairs(v)) == Some(v)
  {
    var fields := seq(|v|, i requires 0 <= i < |v| => EncodePair(v[i]));
    if |v| > 0 {
      assert |GoStrings.Join(fields, '&')| > 0 by {
        assert |fields| == 1 || GoStrings.Join(fields, '&') == fields[0] + ['&'] + GoStrings.Join(fields[1..], '&');
      }
      GoStrings.SplitJoin(fields, '&');
      DecodeEncodedFields(v);
    }
  }

  /**
   * The round trip of `Values.Encode`: an encoded query decodes to the added
   * pairs grouped by ascending key; when the keys were added in ascending
   * order that is the added sequence itself.
   */
  lemma DecodeEncode(v: Values)
    ensures DecodeQuery(Encode(v)) == Some(SortByKey(v))
    ensures KeysAscending(v) ==> DecodeQuery(Encode(v)) == Some(v)
  {
    DecodeEncodePairs(SortByKey(v));
    if KeysAscending(v) {
      SortAscending(v);
    }
  }
}
