/**
 * Base16 as Go's encoding/hex implements it (RFC 4648, section 8):
 * EncodeToString emits lower-case digits; DecodeString accepts either case
 * and, on an error, still returns the bytes decoded before the offending pair.
 */
module Hex {
  import opened Wrappers

  type byte = b: int | 0 <= b < 256

  const LowerDigits: string := "0123456789abcdef"

  /** The errors of encoding/hex: InvalidByteError and ErrLength. */
  datatype HexError = InvalidByte(c: char) | OddLength

  /** What DecodeString returns: the decoded prefix and the error, if any. */
  datatype Decoded = Decoded(data: seq<byte>, err: Option<HexError>)

  predicate IsHexDigit(c: char) {
    ('0' <= c <= '9') || ('a' <= c <= 'f') || ('A' <= c <= 'F')
  }

  predicate IsLowerHexDigit(c: char) {
    ('0' <= c <= '9') || ('a' <= c <= 'f')
  }

  predicate AllHexDigits(s: string) {
    forall i :: 0 <= i < |s| ==> IsHexDigit(s[i])
  }

  function DigitValue(c: char): (v: int)
    requires IsHexDigit(c)
    ensures 0 <= v < 16
    ensures v < 10 <==> '0' <= c <= '9'
  {
    if '0' <= c <= '9' then c as int - '0' as int
    else if 'a' <= c <= 'f' then c as int - 'a' as int + 10
    else c as int - 'A' as int + 10
  }

  /** Lower-case digit for a nibble; DigitValue reads it back. */
  function Digit(v: int): (c: char)
    requires 0 <= v < 16
    ensures IsLowerHexDigit(c) && IsHexDigit(c) && DigitValue(c) == v
  {
    LowerDigits[v]
  }

  /** hex.EncodeToString: two lower-case digits per byte, high nibble first. */
  function Encode(bs: seq<byte>): (s: string)
    ensures |s| == 2 * |bs|
    ensures forall i :: 0 <= i < |s| ==> IsLowerHexDigit(s[i])
    ensures forall i :: 0 <= i < |bs| ==> s[2 * i] == Digit(bs[i] / 16) && s[2 * i + 1] == Digit(bs[i] % 16)
  {
    if bs == [] then [] else [Digit(bs[0] / 16), Digit(bs[0] % 16)] + Encode(bs[1..])
  }

  /**
   * hex.DecodeString: pairs are read left to right; an invalid first or second
   * character of a pair is reported as InvalidByte; a trailing single character
   * is reported as InvalidByte when it is not a digit and as OddLength otherwise.
   */
  function Decode(s: string): (d: Decoded)
    ensures |d.data| <= |s| / 2
  {
    if |s| == 0 then Decoded([], None)
    else if |s| == 1 then Decoded([], Some(if IsHexDigit(s[0]) then OddLength else InvalidByte(s[0])))
    else if !IsHexDigit(s[0]) then Decoded([], Some(InvalidByte(s[0])))
    else if !IsHexDigit(s[1]) then Decoded([], Some(InvalidByte(s[1])))
    else
      var rest := Decode(s[2..]);
      Decoded([DigitValue(s[0]) * 16 + DigitValue(s[1])] + rest.data, rest.err)
  }

  /**
   * What DecodeString returns on an error: exactly the decoding of the pairs
   * before the first pair that is incomplete or holds a non-digit.
   */
  lemma {:induction false} DecodeStopsAtFirstBadPair(s: string)
    ensures 2 * |Decode(s).data| <= |s|
    ensures Decode(s[..2 * |Decode(s).data|]) == Decoded(Decode(s).data, None)
    ensures Decode(s).err.None? ==> 2 * |Decode(s).data| == |s|
    ensures Decode(s).err.Some? ==>
              var k := 2 * |Decode(s).data|;
              k + 2 > |s| || !IsHexDigit(s[k]) || !IsHexDigit(s[k + 1])
  {
    if |s| >= 2 && IsHexDigit(s[0]) && IsHexDigit(s[1]) {
      DecodeStopsAtFirstBadPair(s[2..]);
      var r := Decode(s[2..]);
      var k := 2 * |r.data|;
      var p := s[..k + 2];
      assert p[2..] == s[2..][..k];
      assert p[0] == s[0] && p[1] == s[1];
      if r.err.Some? && k + 2 <= |s[2..]| {
        assert s[2..][k] == s[k + 2] && s[2..][k + 1] == s[k + 3];
      }
    } else {
      assert s[..0] == [];
    }
  }

  /** Encoding distributes over concatenation, so a prefix of the bytes is a prefix of the text. */
  lemma {:induction false} EncodeAppend(a: seq<byte>, b: seq<byte>)
    ensures Encode(a + b) == Encode(a) + Encode(b)
  {
    if a == [] {
      assert a + b == b;
    } else {
      assert (a + b)[1..] == a[1..] + b;
      EncodeAppend(a[1..], b);
    }
  }

  /** Round trip: decoding the encoding of any bytes gives them back, without error. */
  lemma {:induction false} DecodeEncode(bs: seq<byte>)
    ensures Decode(Encode(bs)) == Decoded(bs, None)
  {
    if bs != [] {
      var hi, lo := bs[0] / 16, bs[0] % 16;
      var s := Encode(bs);
      assert s == [Digit(hi), Digit(lo)] + Encode(bs[1..]);
      assert s[2..] == Encode(bs[1..]);
      DecodeEncode(bs[1..]);
      assert DigitValue(s[0]) == hi && DigitValue(s[1]) == lo;
      assert hi * 16 + lo == bs[0];
      assert [bs[0]] + bs[1..] == bs;
    }
  }

  /** The lower-case form of a hex digit; other characters are left alone. */
  function Lower(c: char): (l: char)
    ensures IsHexDigit(c) ==> IsLowerHexDigit(l)
    ensures IsLowerHexDigit(c) ==> l == c
  {
    if 'A' <= c <= 'F' then (c as int - 'A' as int + 'a' as int) as char else c
  }

  /** A digit of either case has the value of its lower-case form, which Digit spells back. */
  lemma DigitLower(c: char)
    requires IsHexDigit(c)
    ensures DigitValue(c) == DigitValue(Lower(c))
    ensures Digit(DigitValue(c)) == Lower(c)
  {
    var v := DigitValue(c);
    assert LowerDigits[v] == Lower(c) by {
      if v < 10 {
        assert LowerDigits[..10] == "0123456789";
        assert LowerDigits[v] == LowerDigits[..10][v];
      } else {
        assert LowerDigits[10..] == "abcdef";
        assert LowerDigits[v] == LowerDigits[10..][v - 10];
      }
    }
  }

  /**
   * The reverse round trip: re-encoding what DecodeString read from a valid
   * string gives that string back with its upper-case digits lowered, so
   * 'A'..'F' decode to the same values as 'a'..'f'.
   */
  lemma {:induction false} EncodeDecode(s: string)
    requires |s| % 2 == 0 && AllHexDigits(s)
    ensures Encode(Decode(s).data) == seq(|s|, i requires 0 <= i < |s| => Lower(s[i]))
  {
    if |s| > 0 {
      assert IsHexDigit(s[0]) && IsHexDigit(s[1]);
      var t := s[2..];
      assert AllHexDigits(t) by {
        forall i | 0 <= i < |t| ensures IsHexDigit(t[i]) {
          assert t[i] == s[i + 2];
        }
      }
      EncodeDecode(t);
      DigitLower(s[0]);
      DigitLower(s[1]);
      var hi, lo := DigitValue(s[0]), DigitValue(s[1]);
      var b := hi * 16 + lo;
      assert b / 16 == hi && b % 16 == lo;
      var d := Decode(s).data;
      assert d == [b] + Decode(t).data;
      assert d[0] == b && d[1..] == Decode(t).data;
      var lowered := seq(|s|, i requires 0 <= i < |s| => Lower(s[i]));
      var loweredTail := seq(|t|, i requires 0 <= i < |t| => Lower(t[i]));
      assert lowered == [Lower(s[0]), Lower(s[1])] + loweredTail;
    }
  }

  /**
   * Which error DecodeString reports: it stops at character k, the start of
   * the first bad pair; a lone trailing digit is ErrLength, and otherwise the
   * first non-digit of that pair is the InvalidByteError.
   */
  lemma {:induction false} DecodeError(s: string)
    requires Decode(s).err.Some?
    ensures 2 * |Decode(s).data| < |s|
    ensures var k := 2 * |Decode(s).data|;
            Decode(s).err.value ==
              if k + 1 == |s| && IsHexDigit(s[k]) then OddLength
              else if !IsHexDigit(s[k]) then InvalidByte(s[k])
              else InvalidByte(s[k + 1])
  {
    if |s| >= 2 && IsHexDigit(s[0]) && IsHexDigit(s[1]) {
      var t := s[2..];
      DecodeError(t);
      var k := 2 * |Decode(t).data|;
      assert 2 * |Decode(s).data| == k + 2;
      assert t[k] == s[k + 2];
      if k + 1 < |t| {
        assert t[k + 1] == s[k + 3];
      }
    }
  }

  /** Encoding is injective: distinct byte strings never share a hex form. */
  lemma EncodeInjective(a: seq<byte>, b: seq<byte>)
    requires a != b
    ensures Encode(a) != Encode(b)
  {
    DecodeEncode(a);
    DecodeEncode(b);
  }

  /** DecodeString succeeds exactly on even-length strings of hex digits (either case), and then yields half as many bytes. */
  lemma {:induction false} DecodeSucceedsIff(s: string)
    ensures Decode(s).err.None? <==> |s| % 2 == 0 && AllHexDigits(s)
    ensures Decode(s).err.None? ==> |Decode(s).data| == |s| / 2
  {
    if |s| >= 2 {
      DecodeSucceedsIff(s[2..]);
      if IsHexDigit(s[0]) && IsHexDigit(s[1]) && AllHexDigits(s[2..]) {
        assert AllHexDigits(s) by {
          forall i | 0 <= i < |s| ensures IsHexDigit(s[i]) {
            if i >= 2 { assert s[i] == s[2..][i - 2]; }
          }
        }
      }
      if AllHexDigits(s) {
        assert AllHexDigits(s[2..]) by {
          forall i | 0 <= i < |s| - 2 ensures IsHexDigit(s[2..][i]) {
            assert s[2..][i] == s[i + 2];
          }
        }
      }
    }
  }
}
