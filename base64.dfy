/** Base64 encoding as defined in section 4 of RFC 4648 (the alphabet `A-Z a-z 0-9 + /`,
    with `=` padding), which Node's `buffer.toString('base64')` produces. */
module Base64 {
  import opened Wrappers

  type byte = x: int | 0 <= x < 256

  /** The character of a 6-bit value in the base64 alphabet. */
  function CharOf(v: int): char
    requires 0 <= v < 64
  {
    if v < 26 then ('A' as int + v) as char
    else if v < 52 then ('a' as int + v - 26) as char
    else if v < 62 then ('0' as int + v - 52) as char
    else if v == 62 then '+'
    else '/'
  }

  /** The 6-bit value of an alphabet character, or -1 for any other character. */
  function ValueOf(c: char): int
  {
    if 'A' <= c <= 'Z' then c as int - 'A' as int
    else if 'a' <= c <= 'z' then c as int - 'a' as int + 26
    else if '0' <= c <= '9' then c as int - '0' as int + 52
    else if c == '+' then 62
    else if c == '/' then 63
    else -1
  }

  lemma ValueOfCharOf(v: int)
    requires 0 <= v < 64
    ensures ValueOf(CharOf(v)) == v
  {
  }

  /** The last group for one remaining byte: two characters and two `=`. */
  function Group1(x: byte): string
  {
    [CharOf(x / 4), CharOf((x % 4) * 16), '=', '=']
  }

  /** The last group for two remaining bytes: three characters and one `=`. */
  function Group2(x: byte, y: byte): string
  {
    [CharOf(x / 4), CharOf((x % 4) * 16 + y / 16), CharOf((y % 16) * 4), '=']
  }

  /** A full group: three bytes as four characters. */
  function Group3(x: byte, y: byte, z: byte): string
  {
    [CharOf(x / 4), CharOf((x % 4) * 16 + y / 16), CharOf((y % 16) * 4 + z / 64), CharOf(z % 64)]
  }

  /** Base64 text of a byte string: four characters per three bytes, the last group padded. */
  function Encode(b: seq<byte>): (r: string)
    ensures |r| == 4 * ((|b| + 2) / 3)
  {
    if |b| == 0 then []
    else if |b| == 1 then Group1(b[0])
    else if |b| == 2 then Group2(b[0], b[1])
    else Group3(b[0], b[1], b[2]) + Encode(b[3..])
  }

  /** Reads one group of four characters back into one, two or three bytes. */
  function DecodeGroup(q: string): Option<seq<byte>>
    requires |q| == 4
  {
    var a, b, c, d := ValueOf(q[0]), ValueOf(q[1]), ValueOf(q[2]), ValueOf(q[3]);
    if a < 0 || b < 0 then None
    else if q[2] == '=' && q[3] == '=' then
      (if b % 16 == 0 then Some([a * 4 + b / 16]) else None)
    else if c < 0 then None
    else if q[3] == '=' then
      (if c % 4 == 0 then Some([a * 4 + b / 16, (b % 16) * 16 + c / 4]) else None)
    else if d < 0 then None
    else Some([a * 4 + b / 16, (b % 16) * 16 + c / 4, (c % 4) * 64 + d])
  }

  /** Base64 decoding: the inverse of `Encode`; padding is allowed only in the last group. */
  function Decode(s: string): Option<seq<byte>>
  {
    if |s| == 0 then Some([])
    else if |s| < 4 then None
    else match DecodeGroup(s[..4])
      case None => None
      case Some(g) =>
        if |s| > 4 && |g| < 3 then None
        else match Decode(s[4..])
          case None => None
          case Some(rest) => Some(g + rest)
  }

  lemma DecodeOne(x: byte)
    ensures DecodeGroup(Group1(x)) == Some([x])
  {
    ValueOfCharOf(x / 4);
    ValueOfCharOf((x % 4) * 16);
  }

  lemma DecodeTwo(x: byte, y: byte)
    ensures DecodeGroup(Group2(x, y)) == Some([x, y])
  {
    var v1 := (x % 4) * 16 + y / 16;
    ValueOfCharOf(x / 4);
    ValueOfCharOf(v1);
    ValueOfCharOf((y % 16) * 4);
    assert v1 / 16 == x % 4 && v1 % 16 == y / 16;
  }

  lemma DecodeThree(x: byte, y: byte, z: byte)
    ensures DecodeGroup(Group3(x, y, z)) == Some([x, y, z])
  {
    var v1 := (x % 4) * 16 + y / 16;
    var v2 := (y % 16) * 4 + z / 64;
    ValueOfCharOf(x / 4);
    ValueOfCharOf(v1);
    ValueOfCharOf(v2);
    ValueOfCharOf(z % 64);
    assert v1 / 16 == x % 4 && v1 % 16 == y / 16;
    assert v2 / 4 == y % 16 && v2 % 4 == z / 64;
  }

  lemma DecodeLastGroup(q: string, g: seq<byte>)
    requires |q| == 4 && DecodeGroup(q) == Some(g)
    ensures Decode(q) == Some(g)
  {
    assert q[..4] == q;
    assert Decode(q[4..]) == Some([]);
    assert g + [] == g;
  }

  lemma DecodeFullGroup(q: string, g: seq<byte>, rest: string, tail: seq<byte>)
    requires |q| == 4 && DecodeGroup(q) == Some(g) && |g| == 3 && Decode(rest) == Some(tail)
    ensures Decode(q + rest) == Some(g + tail)
  {
    assert (q + rest)[..4] == q;
    assert (q + rest)[4..] == rest;
  }

  /** Decoding the encoding of a byte string gives the byte string back. */
  lemma {:induction false} DecodeEncode(b: seq<byte>)
    ensures Decode(Encode(b)) == Some(b)
  {
    if |b| == 1 {
      DecodeOne(b[0]);
      DecodeLastGroup(Group1(b[0]), [b[0]]);
      assert b == [b[0]];
    } else if |b| == 2 {
      DecodeTwo(b[0], b[1]);
      DecodeLastGroup(Group2(b[0], b[1]), [b[0], b[1]]);
      assert b == [b[0], b[1]];
    } else if |b| >= 3 {
      DecodeThree(b[0], b[1], b[2]);
      DecodeEncode(b[3..]);
      DecodeFullGroup(Group3(b[0], b[1], b[2]), [b[0], b[1], b[2]], Encode(b[3..]), b[3..]);
      assert [b[0], b[1], b[2]] + b[3..] == b;
    }
  }

  /** Every character is in the base64 alphabet or is padding. */
  predicate InAlphabet(s: string)
  {
    forall i :: 0 <= i < |s| ==> ValueOf(s[i]) >= 0 || s[i] == '='
  }

  lemma GroupsInAlphabet(x: byte, y: byte, z: byte)
    ensures InAlphabet(Group1(x)) && InAlphabet(Group2(x, y)) && InAlphabet(Group3(x, y, z))
  {
    ValueOfCharOf(x / 4);
    ValueOfCharOf((x % 4) * 16);
    ValueOfCharOf((x % 4) * 16 + y / 16);
    ValueOfCharOf((y % 16) * 4);
    ValueOfCharOf((y % 16) * 4 + z / 64);
    ValueOfCharOf(z % 64);
  }

  /** Every character of an encoding is in the base64 alphabet or is padding. */
  lemma {:induction false} EncodeAlphabet(b: seq<byte>)
    ensures InAlphabet(Encode(b))
  {
    if |b| == 1 {
      GroupsInAlphabet(b[0], 0, 0);
    } else if |b| == 2 {
      GroupsInAlphabet(b[0], b[1], 0);
    } else if |b| >= 3 {
      EncodeAlphabet(b[3..]);
      GroupsInAlphabet(b[0], b[1], b[2]);
      var g := Group3(b[0], b[1], b[2]);
      var t := Encode(b[3..]);
      assert forall i :: 0 <= i < |g + t| ==> (g + t)[i] == if i < |g| then g[i] else t[i - |g|];
    }
  }

  /** Example: the bytes of "hi" encode as "aGk=". */
  lemma EncodeExample()
    ensures Encode([104, 105]) == "aGk="
  {
  }
}
