/**
  The two textual encodings of hashes the cache relies on: lower-case hexadecimal
  (Go's encoding/hex) and the standard base64 alphabet with padding (section 4 of
  RFC 4648, as decoded by Go's base64.StdEncoding).
*/
module Encoding {
  import opened Wrappers

  type byte = x: int | 0 <= x < 256

  // ---------------------------------------------------------------- hexadecimal

  /** The lower-case hex digit for a nibble. */
  function HexDigit(v: int): (c: char)
    requires 0 <= v < 16
  {
    if v < 10 then ('0' as int + v) as char else ('a' as int + v - 10) as char
  }

  /** The value of a hex digit; hex.DecodeString accepts both cases. */
  function HexValue(c: char): (r: Option<int>)
    ensures r.Some? ==> 0 <= r.value < 16
  {
    if '0' <= c <= '9' then Some(c as int - '0' as int)
    else if 'a' <= c <= 'f' then Some(c as int - 'a' as int + 10)
    else if 'A' <= c <= 'F' then Some(c as int - 'A' as int + 10)
    else None
  }

  /** hex.EncodeToString: two lower-case digits per byte, high nibble first. */
  function HexEncode(b: seq<byte>): (s: string)
    ensures |s| == 2 * |b|
  {
    if b == [] then "" else [HexDigit(b[0] / 16), HexDigit(b[0] % 16)] + HexEncode(b[1..])
  }

  /** hex.DecodeString: fails on an odd length or a character that is not a hex digit. */
  function HexDecode(s: string): (r: Option<seq<byte>>)
    ensures r.Some? ==> |s| == 2 * |r.value|
  {
    if s == [] then Some([])
    else if |s| == 1 then None
    else match (HexValue(s[0]), HexValue(s[1]), HexDecode(s[2..]))
      case (Some(hi), Some(lo), Some(rest)) => Some([hi * 16 + lo] + rest)
      case _ => None
  }

  /** Every character hex.EncodeToString writes is a lower-case hex digit. */
  predicate IsLowerHex(s: string)
  {
    forall i :: 0 <= i < |s| ==> '0' <= s[i] <= '9' || 'a' <= s[i] <= 'f'
  }

  lemma HexDigitValue(v: int)
    requires 0 <= v < 16
    ensures HexValue(HexDigit(v)) == Some(v)
  {
  }

  /** Decoding what was encoded gives the bytes back. */
  lemma {:induction false} HexRoundTrip(b: seq<byte>)
    ensures HexDecode(HexEncode(b)) == Some(b)
  {
    if b != [] {
      var s := HexEncode(b);
      assert s[2..] == HexEncode(b[1..]);
      HexDigitValue(b[0] / 16);
      HexDigitValue(b[0] % 16);
      HexRoundTrip(b[1..]);
      assert [b[0] / 16 * 16 + b[0] % 16] + b[1..] == b;
    }
  }

  /** Encoding is injective, so distinct hashes give distinct cache names. */
  lemma HexEncodeInjective(a: seq<byte>, b: seq<byte>)
    requires HexEncode(a) == HexEncode(b)
    ensures a == b
  {
    HexRoundTrip(a);
    HexRoundTrip(b);
  }

  /** The encoder writes lower-case digits only. */
  lemma {:induction false} HexEncodeIsLower(b: seq<byte>)
    ensures IsLowerHex(HexEncode(b))
  {
    if b != [] {
      HexEncodeIsLower(b[1..]);
      var s := HexEncode(b);
      assert s[2..] == HexEncode(b[1..]);
      forall i | 2 <= i < |s| ensures '0' <= s[i] <= '9' || 'a' <= s[i] <= 'f' {
        assert s[i] == s[2..][i - 2];
      }
    }
  }

  // ---------------------------------------------------------------- base64

  /** The standard alphabet: A-Z, a-z, 0-9, '+', '/'. */
  function B64Digit(v: int): (c: char)
    requires 0 <= v < 64
  {
    if v < 26 then ('A' as int + v) as char
    else if v < 52 then ('a' as int + v - 26) as char
    else if v < 62 then ('0' as int + v - 52) as char
    else if v == 62 then '+'
    else '/'
  }

  function B64Value(c: char): (r: Option<int>)
    ensures r.Some? ==> 0 <= r.value < 64
  {
    if 'A' <= c <= 'Z' then Some(c as int - 'A' as int)
    else if 'a' <= c <= 'z' then Some(c as int - 'a' as int + 26)
    else if '0' <= c <= '9' then Some(c as int - '0' as int + 52)
    else if c == '+' then Some(62)
    else if c == '/' then Some(63)
    else None
  }

  lemma B64DigitValue(v: int)
    requires 0 <= v < 64
    ensures B64Value(B64Digit(v)) == Some(v)
  {
  }

  /** Padded encoding, three bytes to four characters. */
  function Base64Encode(b: seq<byte>): (s: string)
    ensures |s| % 4 == 0
    ensures |s| == 0 <==> |b| == 0
  {
    if |b| == 0 then ""
    else if |b| == 1 then PadOne(b[0])
    else if |b| == 2 then PadTwo(b[0], b[1])
    else Quad(b[0], b[1], b[2]) + Base64Encode(b[3..])
  }

  /** A last single byte: two digits and two pad characters. */
  function PadOne(x: byte): (q: string)
    ensures |q| == 4
  {
    [B64Digit(x / 4), B64Digit(x % 4 * 16), '=', '=']
  }

  /** Two last bytes: three digits and one pad character. */
  function PadTwo(x: byte, y: byte): (q: string)
    ensures |q| == 4
  {
    [B64Digit(x / 4), B64Digit(x % 4 * 16 + y / 16), B64Digit(y % 16 * 4), '=']
  }

  /** Three bytes as four digits, six bits each. */
  function Quad(x: byte, y: byte, z: byte): (q: string)
    ensures |q| == 4
  {
    [B64Digit(x / 4), B64Digit(x % 4 * 16 + y / 16), B64Digit(y % 16 * 4 + z / 64), B64Digit(z % 64)]
  }

  /** The decoder skips carriage returns and line feeds wherever they occur. */
  function StripNewlines(s: string): (r: string)
    ensures |r| <= |s|
  {
    if s == [] then ""
    else if s[0] == '\r' || s[0] == '\n' then StripNewlines(s[1..])
    else [s[0]] + StripNewlines(s[1..])
  }

  /** One unpadded quantum: four digits to three bytes. */
  function DecodeQuantum(a: int, b: int, c: int, d: int): (r: seq<byte>)
    requires 0 <= a < 64 && 0 <= b < 64 && 0 <= c < 64 && 0 <= d < 64
  {
    [a * 4 + b / 16, b % 16 * 16 + c / 4, c % 4 * 64 + d]
  }

  /**
    The last quantum may carry padding: "xx==" gives one byte, "xxx=" two. Bits
    below the last byte are ignored (the decoder is not strict).
  */
  function DecodeLast(q: string): (r: Option<seq<byte>>)
    requires |q| == 4
  {
    match (B64Value(q[0]), B64Value(q[1]))
    case (Some(a), Some(b)) =>
      if q[2] == '=' && q[3] == '=' then Some([a * 4 + b / 16])
      else if q[3] == '=' then
        (match B64Value(q[2])
         case Some(c) => Some([a * 4 + b / 16, b % 16 * 16 + c / 4])
         case None => None)
      else
        (match (B64Value(q[2]), B64Value(q[3]))
         case (Some(c), Some(d)) => Some(DecodeQuantum(a, b, c, d))
         case _ => None)
    case _ => None
  }

  /** Quanta before the last one carry no padding. */
  function DecodeQuanta(s: string): (r: Option<seq<byte>>)
    decreases |s|
  {
    if s == [] then Some([])
    else if |s| < 4 then None
    else if |s| == 4 then DecodeLast(s)
    else match (B64Value(s[0]), B64Value(s[1]), B64Value(s[2]), B64Value(s[3]))
      case (Some(a), Some(b), Some(c), Some(d)) =>
        (match DecodeQuanta(s[4..])
         case Some(rest) => Some(DecodeQuantum(a, b, c, d) + rest)
         case None => None)
      case _ => None
  }

  /** base64.StdEncoding.DecodeString. */
  function Base64Decode(s: string): (r: Option<seq<byte>>)
  {
    DecodeQuanta(StripNewlines(s))
  }

  /** The encoder never writes a line break. */
  lemma {:induction false} EncodeHasNoNewlines(b: seq<byte>)
    ensures StripNewlines(Base64Encode(b)) == Base64Encode(b)
    decreases |b|
  {
    var s := Base64Encode(b);
    if |b| >= 3 {
      EncodeHasNoNewlines(b[3..]);
      var head := s[..4];
      assert s == head + Base64Encode(b[3..]);
      StripAppend(head, Base64Encode(b[3..]));
    } else if |b| > 0 {
      assert s == s + "";
      StripAppend(s, "");
    }
  }

  lemma {:induction false} StripAppend(head: string, tail: string)
    requires forall i :: 0 <= i < |head| ==> head[i] != '\r' && head[i] != '\n'
    requires StripNewlines(tail) == tail
    ensures StripNewlines(head + tail) == head + tail
    decreases |head|
  {
    var s := head + tail;
    if head == [] {
      assert s == tail;
    } else {
      assert s[1..] == head[1..] + tail;
      StripAppend(head[1..], tail);
      assert s == [head[0]] + (head[1..] + tail);
    }
  }

  lemma QuantumRoundTrip(x: byte, y: byte, z: byte)
    ensures DecodeQuantum(x / 4, x % 4 * 16 + y / 16, y % 16 * 4 + z / 64, z % 64) == [x, y, z]
  {
  }

  /** Decoding what was encoded gives the bytes back. */
  lemma {:induction false} Base64RoundTrip(b: seq<byte>)
    ensures Base64Decode(Base64Encode(b)) == Some(b)
  {
    EncodeHasNoNewlines(b);
    QuantaRoundTrip(b);
  }

  lemma {:induction false} QuantaRoundTrip(b: seq<byte>)
    ensures DecodeQuanta(Base64Encode(b)) == Some(b)
    decreases |b|
  {
    if |b| == 1 {
      LastOneRoundTrip(b[0]);
      assert b == [b[0]];
    } else if |b| == 2 {
      LastTwoRoundTrip(b[0], b[1]);
      assert b == [b[0], b[1]];
    } else if |b| == 3 {
      assert b[3..] == [];
      QuadRoundTrip(b[0], b[1], b[2]);
      assert b == [b[0], b[1], b[2]];
    } else if |b| > 3 {
      QuantaRoundTrip(b[3..]);
      QuantaStep(b);
    }
  }

  lemma QuantaStep(b: seq<byte>)
    requires |b| > 3
    requires DecodeQuanta(Base64Encode(b[3..])) == Some(b[3..])
    ensures DecodeQuanta(Base64Encode(b)) == Some(b)
  {
    SplitThree(b);
    EncodeSplit(b);
    QuadThenTail(b[0], b[1], b[2], Base64Encode(b[3..]), b[3..]);
  }

  lemma SplitThree<T>(b: seq<T>)
    requires |b| >= 3
    ensures b == [b[0], b[1], b[2]] + b[3..]
  {
  }

  lemma EncodeSplit(b: seq<byte>)
    requires |b| > 3
    ensures Base64Encode(b) == Quad(b[0], b[1], b[2]) + Base64Encode(b[3..])
    ensures |Base64Encode(b[3..])| > 0
  {
  }

  lemma QuadThenTail(x: byte, y: byte, z: byte, tail: string, rest: seq<byte>)
    requires |tail| > 0 && DecodeQuanta(tail) == Some(rest)
    ensures DecodeQuanta(Quad(x, y, z) + tail) == Some([x, y, z] + rest)
  {
    QuadRoundTrip(x, y, z);
    DecodeQuantaCons(Quad(x, y, z), tail, [x, y, z], rest);
  }

  /** An unpadded quantum decodes to its three bytes. */
  lemma QuadRoundTrip(x: byte, y: byte, z: byte)
    ensures var q := Quad(x, y, z); q[2] != '=' && q[3] != '=' && DecodeLast(q) == Some([x, y, z])
  {
    B64DigitValue(x / 4);
    B64DigitValue(x % 4 * 16 + y / 16);
    B64DigitValue(y % 16 * 4 + z / 64);
    B64DigitValue(z % 64);
    QuantumRoundTrip(x, y, z);
  }

  /** A quantum followed by more input decodes quantum by quantum. */
  lemma DecodeQuantaCons(head: string, tail: string, first: seq<byte>, rest: seq<byte>)
    requires |head| == 4 && |tail| > 0
    requires head[2] != '=' && head[3] != '=' && DecodeLast(head) == Some(first)
    requires DecodeQuanta(tail) == Some(rest)
    ensures DecodeQuanta(head + tail) == Some(first + rest)
  {
    var s := head + tail;
    assert s[4..] == tail;
    assert s[0] == head[0] && s[1] == head[1] && s[2] == head[2] && s[3] == head[3];
  }

  lemma LastOneRoundTrip(x: byte)
    ensures DecodeQuanta(Base64Encode([x])) == Some([x])
  {
    B64DigitValue(x / 4);
    B64DigitValue(x % 4 * 16);
  }

  lemma LastTwoRoundTrip(x: byte, y: byte)
    ensures DecodeQuanta(Base64Encode([x, y])) == Some([x, y])
  {
    var bb := x % 4 * 16 + y / 16;
    B64DigitValue(x / 4);
    B64DigitValue(bb);
    B64DigitValue(y % 16 * 4);
    assert bb / 16 == x % 4 && bb % 16 == y / 16;
    assert x / 4 * 4 + bb / 16 == x;
    assert bb % 16 * 16 + y % 16 * 4 / 4 == y;
  }
}
