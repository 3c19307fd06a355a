/**
 Base 16 text, RFC 4648 section 8, as Go's encoding/hex prints and reads it: lower-case on
 output, either case on input.
 */
module Hex {
  import opened Ascii
  import opened Wrappers

  type byte = x: int | 0 <= x < 256
  type Bytes = seq<byte>

  function Digit(n: int): (c: char)
    requires 0 <= n < 16
    ensures Value(c) == n && LowerChar(c) == c
  {
    if n < 10 then '0' + (n as char) else 'a' + ((n - 10) as char)
  }

  /** The value of a digit of either case; -1 for every other character. */
  function Value(c: char): (n: int)
    ensures -1 <= n < 16
  {
    if '0' <= c <= '9' then (c - '0') as int
    else if 'a' <= c <= 'f' then (c - 'a') as int + 10
    else if 'A' <= c <= 'F' then (c - 'A') as int + 10
    else -1
  }

  /** hex.EncodeToString */
  function Encode(b: Bytes): string {
    if b == [] then "" else [Digit(b[0] / 16), Digit(b[0] % 16)] + Encode(b[1..])
  }

  /** hex.DecodeString; None stands for its error, an odd length or a character that is no digit. */
  function Decode(s: string): Option<Bytes> {
    if s == "" then Some([])
    else if |s| == 1 || Value(s[0]) < 0 || Value(s[1]) < 0 then None
    else
      match Decode(s[2..])
      case None => None
      case Some(rest) => Some([16 * Value(s[0]) + Value(s[1])] + rest)
  }

  lemma DigitIs(n: int)
    requires 0 <= n < 16
    ensures Digit(n) == "0123456789abcdef"[n]
  {
  }

  /** Two digits for each byte, the upper half first. */
  lemma {:induction false} EncodeAt(b: Bytes, i: nat)
    requires i < |b|
    ensures |Encode(b)| == 2 * |b|
    ensures Encode(b)[2 * i] == "0123456789abcdef"[b[i] / 16]
    ensures Encode(b)[2 * i + 1] == "0123456789abcdef"[b[i] % 16]
  {
    EncodeSize(b);
    DigitIs(b[i] / 16);
    DigitIs(b[i] % 16);
    if i > 0 {
      EncodeAt(b[1..], i - 1);
      assert Encode(b)[2..] == Encode(b[1..]);
      assert Encode(b)[2 * i] == Encode(b[1..])[2 * (i - 1)];
      assert Encode(b)[2 * i + 1] == Encode(b[1..])[2 * (i - 1) + 1];
    }
  }

  lemma {:induction false} EncodeSize(b: Bytes)
    ensures |Encode(b)| == 2 * |b|
  {
    if b == [] {
    } else {
      EncodeSize(b[1..]);
    }
  }

  /** What the reader refuses: an odd length, or a character that is no digit. */
  lemma DecodeRefuses(s: string)
    ensures Decode(s).None? <==> |s| % 2 == 1 || exists i :: 0 <= i < |s| && s[i] !in "0123456789abcdefABCDEF"
  {
    DecodeAccepts(s);
    forall i | 0 <= i < |s|
      ensures Value(s[i]) >= 0 <==> s[i] in "0123456789abcdefABCDEF"
    {
      DigitsAre(s[i]);
    }
  }

  /** The digits are the sixteen of the standard, letters in either case. */
  lemma DigitsAre(c: char)
    ensures Value(c) >= 0 <==> c in "0123456789abcdefABCDEF"
    ensures Value(c) >= 0 ==> LowerChar(c) == "0123456789abcdef"[Value(c)]
  {
  }

  /** Printing then reading gives the bytes back. */
  lemma {:induction false} DecodeEncode(b: Bytes)
    ensures Decode(Encode(b)) == Some(b)
  {
    if b == [] {
    } else {
      DecodeEncode(b[1..]);
      assert Encode(b)[2..] == Encode(b[1..]);
      assert b == [b[0]] + b[1..];
    }
  }

  /** Reading then printing gives the lower-case form back: two texts of the same bytes differ only in case. */
  lemma {:induction false} EncodeDecode(s: string)
    requires Decode(s).Some?
    ensures Encode(Decode(s).value) == Lower(s)
  {
    if s == "" {
    } else {
      EncodeDecode(s[2..]);
      LowerDigit(s[0]);
      LowerDigit(s[1]);
      var rest, first := Decode(s[2..]).value, 16 * Value(s[0]) + Value(s[1]);
      assert first / 16 == Value(s[0]) && first % 16 == Value(s[1]);
      assert Decode(s).value == [first] + rest;
      assert ([first] + rest)[1..] == rest;
      assert Encode([first] + rest) == [Digit(first / 16), Digit(first % 16)] + Encode(rest);
      assert Lower(s) == [LowerChar(s[0]), LowerChar(s[1])] + Lower(s[2..]);
    }
  }

  lemma LowerDigit(c: char)
    requires Value(c) >= 0
    ensures Digit(Value(c)) == LowerChar(c)
  {
  }

  /** Reading ignores case. */
  lemma {:induction false} DecodeLower(s: string)
    ensures Decode(Lower(s)) == Decode(s)
  {
    if |s| < 2 {
    } else {
      DecodeLower(s[2..]);
      assert Lower(s)[2..] == Lower(s[2..]);
    }
  }

  /** What the reader accepts: an even number of characters, every one a digit. */
  lemma {:induction false} DecodeAccepts(s: string)
    ensures Decode(s).Some? <==> |s| % 2 == 0 && forall i :: 0 <= i < |s| ==> Value(s[i]) >= 0
  {
    if |s| < 2 {
    } else {
      DecodeAccepts(s[2..]);
      assert s == s[..2] + s[2..];
      assert forall i :: 2 <= i < |s| ==> s[i] == s[2..][i - 2];
      assert forall i :: 0 <= i < |s| - 2 ==> s[2..][i] == s[i + 2];
    }
  }
}
