/** String operations of JavaScript's `String.prototype` that the core relies on,
    written over `seq<char>` with their defining properties proved. */
module Strings {
  import opened Wrappers

  /** `s.startsWith(p)` */
  predicate StartsWith(s: string, p: string)
  {
    |p| <= |s| && s[..|p|] == p
  }

  /** `s.endsWith(p)` */
  predicate EndsWith(s: string, p: string)
  {
    |p| <= |s| && s[|s| - |p|..] == p
  }

  /** `sub` occurs in `s` at position `i`. */
  predicate OccursAt(s: string, sub: string, i: int)
  {
    0 <= i && i + |sub| <= |s| && s[i..i + |sub|] == sub
  }

  /** `s.indexOf(sub)`: the first position at which `sub` occurs, or -1. */
  function IndexOf(s: string, sub: string): (r: int)
    ensures -1 <= r <= |s|
    ensures r == -1 <==> forall i :: 0 <= i <= |s| ==> !OccursAt(s, sub, i)
    ensures r != -1 ==> OccursAt(s, sub, r) && forall i :: 0 <= i < r ==> !OccursAt(s, sub, i)
  {
    IndexFrom(s, sub, 0)
  }

  function IndexFrom(s: string, sub: string, from: nat): (r: int)
    requires from <= |s| + 1
    ensures -1 <= r <= |s|
    ensures r == -1 <==> forall i :: from <= i <= |s| ==> !OccursAt(s, sub, i)
    ensures r != -1 ==> from <= r && OccursAt(s, sub, r) && forall i :: from <= i < r ==> !OccursAt(s, sub, i)
    decreases |s| + 1 - from
  {
    if from + |sub| > |s| then -1
    else if s[from..from + |sub|] == sub then assert OccursAt(s, sub, from); from
    else IndexFrom(s, sub, from + 1)
  }

  /** `s.indexOf(sub) !== -1` */
  predicate Contains(s: string, sub: string)
  {
    IndexOf(s, sub) != -1
  }

  /** `s.split(c)` for a one-character separator. */
  function Split(s: string, c: char): (r: seq<string>)
    ensures |r| >= 1
    ensures forall k :: 0 <= k < |r| ==> c !in r[k]
  {
    if s == [] then [[]]
    else if s[0] == c then [[]] + Split(s[1..], c)
    else
      var t := Split(s[1..], c);
      [[s[0]] + t[0]] + t[1..]
  }

  /** `parts.join(sep)` */
  function Join(parts: seq<string>, sep: string): string
  {
    if |parts| == 0 then []
    else if |parts| == 1 then parts[0]
    else parts[0] + sep + Join(parts[1..], sep)
  }

  /** `s.split(c, limit)`: at most `limit` pieces are kept. */
  function SplitLimit(s: string, c: char, limit: nat): (r: seq<string>)
    ensures |r| <= limit
  {
    var parts := Split(s, c);
    if |parts| <= limit then parts else parts[..limit]
  }

  lemma JoinCons(a: string, x: string, rest: seq<string>, sep: string)
    ensures Join([a + x] + rest, sep) == a + Join([x] + rest, sep)
  {
    if |rest| > 0 {
      assert ([a + x] + rest)[1..] == rest;
      assert ([x] + rest)[1..] == rest;
    }
  }

  /** Splitting on a character and joining with it gives back the string. */
  lemma {:induction false} JoinSplit(s: string, c: char)
    ensures Join(Split(s, c), [c]) == s
  {
    if s == [] {
    } else if s[0] == c {
      JoinSplit(s[1..], c);
      var t := Split(s[1..], c);
      assert ([[]] + t)[1..] == t;
      assert Join([[]] + t, [c]) == [] + [c] + Join(t, [c]);
      assert s == [c] + s[1..];
    } else {
      JoinSplit(s[1..], c);
      var t := Split(s[1..], c);
      JoinCons([s[0]], t[0], t[1..], [c]);
      assert [t[0]] + t[1..] == t;
      assert s == [s[0]] + s[1..];
    }
  }

  /** The pieces of `Split(s, c)` are exactly the text between the separators:
      piece 0 is everything before the first `c`. */
  lemma {:induction false} SplitHead(s: string, c: char)
    ensures c !in s ==> Split(s, c) == [s]
    ensures c in s ==> |Split(s, c)| >= 2 &&
                       Split(s, c)[0] + [c] + Join(Split(s, c)[1..], [c]) == s
  {
    if s == [] {
    } else if s[0] == c {
      JoinSplit(s[1..], c);
      assert ([[]] + Split(s[1..], c))[1..] == Split(s[1..], c);
    } else {
      SplitHead(s[1..], c);
      var t := Split(s[1..], c);
      if c in s {
        assert c in s[1..];
        assert s == [s[0]] + s[1..];
      } else {
        assert c !in s[1..];
        assert s == [s[0]] + s[1..];
      }
    }
  }

  /** Splitting `a c b`, where `a` holds no `c`, gives `a` and then the pieces of `b`. */
  lemma {:induction false} SplitAfter(a: string, c: char, b: string)
    requires c !in a
    ensures Split(a + [c] + b, c) == [a] + Split(b, c)
  {
    if a == [] {
      assert a + [c] + b == [c] + b;
      assert ([c] + b)[1..] == b;
    } else {
      SplitAfter(a[1..], c, b);
      assert (a + [c] + b)[1..] == a[1..] + [c] + b;
      assert [a[0]] + a[1..] == a;
    }
  }

  /** Splitting the join of pieces that hold no separator gives the pieces back. */
  lemma {:induction false} SplitJoin(parts: seq<string>, c: char)
    requires |parts| >= 1 && forall i :: 0 <= i < |parts| ==> c !in parts[i]
    ensures Split(Join(parts, [c]), c) == parts
  {
    if |parts| == 1 {
      SplitHead(parts[0], c);
    } else {
      SplitJoin(parts[1..], c);
      SplitAfter(parts[0], c, Join(parts[1..], [c]));
      assert [parts[0]] + parts[1..] == parts;
    }
  }

  /** Replacing the separator of a join of pieces without it joins them with the replacement. */
  lemma ReplaceJoin(parts: seq<string>, c: char, b: string)
    requires |parts| >= 1 && forall i :: 0 <= i < |parts| ==> c !in parts[i]
    ensures ReplaceAll(Join(parts, [c]), c, b) == Join(parts, b)
  {
    SplitJoin(parts, c);
  }

  /** A character in neither the pieces nor the separator is not in their join. */
  lemma {:induction false} JoinNotIn(parts: seq<string>, sep: string, c: char)
    requires c !in sep && forall i :: 0 <= i < |parts| ==> c !in parts[i]
    ensures c !in Join(parts, sep)
  {
    if |parts| > 1 {
      JoinNotIn(parts[1..], sep, c);
    }
  }

  /** The character at the head of the first piece: if `c` is not first, the first piece starts with `s[0]`. */
  lemma SplitFirstPiece(s: string, c: char, k: nat)
    requires k <= |s| && c !in s[..k]
    ensures |Split(s, c)[0]| >= k && Split(s, c)[0][..k] == s[..k]
    decreases k
  {
    if k > 0 {
      assert s[0] != c by { assert s[0] == s[..k][0]; }
      SplitFirstPiece(s[1..], c, k - 1);
      assert s[1..][..k - 1] == s[1..k];
      assert s[..k] == [s[0]] + s[1..k];
    }
  }

  /** Every occurrence of `a` in `s` replaced by `b` (`s.split(a).join(b)`). */
  function ReplaceAll(s: string, a: char, b: string): string
  {
    Join(Split(s, a), b)
  }

  /** The same replacement, one character at a time: the reference definition. */
  function ReplaceEach(s: string, a: char, b: string): (r: string)
    ensures a !in b ==> a !in r
    ensures a !in s ==> r == s
  {
    if s == [] then []
    else (if s[0] == a then b else [s[0]]) + ReplaceEach(s[1..], a, b)
  }

  /** `s.split(a).join(b)` replaces each `a`, one by one, with `b`. */
  lemma {:induction false} ReplaceAllIsReplaceEach(s: string, a: char, b: string)
    ensures ReplaceAll(s, a, b) == ReplaceEach(s, a, b)
  {
    if s == [] {
    } else if s[0] == a {
      ReplaceAllIsReplaceEach(s[1..], a, b);
      var t := Split(s[1..], a);
      assert ([[]] + t)[1..] == t;
    } else {
      ReplaceAllIsReplaceEach(s[1..], a, b);
      var t := Split(s[1..], a);
      JoinCons([s[0]], t[0], t[1..], b);
      assert [t[0]] + t[1..] == t;
    }
  }

  /** A one-character replacement keeps length and changes exactly the `a`s. */
  lemma {:induction false} ReplaceEachPointwise(s: string, a: char, b: char)
    ensures |ReplaceEach(s, a, [b])| == |s|
    ensures forall i :: 0 <= i < |s| ==> ReplaceEach(s, a, [b])[i] == (if s[i] == a then b else s[i])
  {
    if s != [] {
      ReplaceEachPointwise(s[1..], a, b);
    }
  }

  /** Number of occurrences of `c` in `s`. */
  function Count(s: string, c: char): nat
  {
    if s == [] then 0 else (if s[0] == c then 1 else 0) + Count(s[1..], c)
  }

  /** Removing a character deletes exactly its occurrences and keeps the order of the rest. */
  lemma {:induction false} RemoveEachProperties(s: string, a: char)
    ensures |ReplaceEach(s, a, [])| == |s| - Count(s, a)
    ensures ReplaceEach(s, a, []) == Filtered(s, a)
  {
    if s != [] {
      RemoveEachProperties(s[1..], a);
    }
  }

  /** The characters of `s` other than `a`, in order. */
  function Filtered(s: string, a: char): (r: string)
    ensures a !in r
  {
    if s == [] then [] else if s[0] == a then Filtered(s[1..], a) else [s[0]] + Filtered(s[1..], a)
  }

  lemma {:induction false} FilteredAppend(s: string, t: string, a: char)
    ensures Filtered(s + t, a) == Filtered(s, a) + Filtered(t, a)
  {
    if s != [] {
      assert (s + t)[0] == s[0] && (s + t)[1..] == s[1..] + t;
      FilteredAppend(s[1..], t, a);
      if s[0] != a {
        assert Filtered(s + t, a) == [s[0]] + Filtered(s[1..] + t, a);
        assert [s[0]] + (Filtered(s[1..], a) + Filtered(t, a)) == ([s[0]] + Filtered(s[1..], a)) + Filtered(t, a);
      }
    } else {
      assert s + t == t;
    }
  }

  lemma {:induction false} FilteredNone(s: string, a: char)
    requires a !in s
    ensures Filtered(s, a) == s
  {
    if s != [] {
      assert a !in s[1..];
      FilteredNone(s[1..], a);
    }
  }

  /** The characters `String.prototype.trim` removes: white space and line terminators. */
  predicate IsJsSpace(c: char)
  {
    var n := c as int;
    (9 <= n <= 13) || n == 32 || n == 0xA0 || n == 0x1680 || (0x2000 <= n <= 0x200A) ||
    n == 0x2028 || n == 0x2029 || n == 0x202F || n == 0x205F || n == 0x3000 || n == 0xFEFF
  }

  function TrimStart(s: string): (r: string)
    ensures |r| <= |s| && r == s[|s| - |r|..]
    ensures r == [] || !IsJsSpace(r[0])
    ensures forall i :: 0 <= i < |s| - |r| ==> IsJsSpace(s[i])
  {
    if s != [] && IsJsSpace(s[0]) then TrimStart(s[1..]) else s
  }

  function TrimEnd(s: string): (r: string)
    ensures |r| <= |s| && r == s[..|r|]
    ensures r == [] || !IsJsSpace(r[|r| - 1])
    ensures forall i :: |r| <= i < |s| ==> IsJsSpace(s[i])
  {
    if s != [] && IsJsSpace(s[|s| - 1]) then TrimEnd(s[..|s| - 1]) else s
  }

  /** `s.trim()`: the text between the leading and the trailing white space, which begins
      and ends with a character that is not white space. */
  function Trim(s: string): (r: string)
    ensures |r| <= |s|
    ensures r == [] || (!IsJsSpace(r[0]) && !IsJsSpace(r[|r| - 1]))
  {
    var t := TrimStart(s);
    var r := TrimEnd(t);
    assert r != [] ==> r[0] == t[0];
    r
  }

  /** ASCII `toLowerCase` of one character. */
  function ToLowerChar(c: char): char
  {
    if 'A' <= c <= 'Z' then (c as int + 32) as char else c
  }

  /** ASCII `toUpperCase` of one character. */
  function ToUpperChar(c: char): char
  {
    if 'a' <= c <= 'z' then (c as int - 32) as char else c
  }

  /** `s.toUpperCase()` over ASCII letters. */
  function ToUpper(s: string): (r: string)
    ensures |r| == |s| && forall i :: 0 <= i < |s| ==> r[i] == ToUpperChar(s[i])
  {
    seq(|s|, i requires 0 <= i < |s| => ToUpperChar(s[i]))
  }

  /** lodash `_.lowerFirst`: the first character lower-cased, the rest unchanged. */
  function LowerFirst(s: string): (r: string)
    ensures |r| == |s|
    ensures s != [] ==> r[0] == ToLowerChar(s[0]) && r[1..] == s[1..]
  {
    if s == [] then [] else [ToLowerChar(s[0])] + s[1..]
  }

  predicate IsDigit(c: char)
  {
    '0' <= c <= '9'
  }

  function DigitChar(d: nat): char
    requires d < 10
  {
    ('0' as int + d) as char
  }

  /** Decimal text of a natural number, as `Number.prototype.toString` writes it. */
  function NatToString(n: nat): (r: string)
    ensures |r| >= 1
    ensures forall i :: 0 <= i < |r| ==> IsDigit(r[i])
    ensures |r| > 1 ==> r[0] != '0'
  {
    if n < 10 then [DigitChar(n)] else NatToString(n / 10) + [DigitChar(n % 10)]
  }

  /** Decimal text of an integer, with a leading `-` when negative. */
  function IntToString(n: int): string
  {
    if n < 0 then "-" + NatToString(-n) else NatToString(n)
  }

  /** Reads a run of decimal digits. */
  function ParseDigits(s: string): nat
    requires forall i :: 0 <= i < |s| ==> IsDigit(s[i])
  {
    if s == [] then 0
    else
      assert IsDigit(s[|s| - 1]);
      ParseDigits(s[..|s| - 1]) * 10 + (s[|s| - 1] as int - '0' as int)
  }

  /** Reads an optionally negative decimal integer. */
  function ParseInt(s: string): Option<int>
  {
    if |s| > 0 && s[0] == '-' then
      (if |s| > 1 && forall i :: 1 <= i < |s| ==> IsDigit(s[i]) then Some(0 - ParseDigits(s[1..]) as int) else None)
    else if |s| > 0 && forall i :: 0 <= i < |s| ==> IsDigit(s[i]) then Some(ParseDigits(s))
    else None
  }

  /** Decimal rendering is undone by reading the digits back. */
  lemma {:induction false} ParseNatToString(n: nat)
    ensures ParseDigits(NatToString(n)) == n
  {
    if n >= 10 {
      ParseNatToString(n / 10);
      var s := NatToString(n);
      assert s[..|s| - 1] == NatToString(n / 10);
    }
  }

  /** Decimal rendering of integers is undone by `ParseInt`, so distinct integers render differently. */
  lemma ParseIntToString(n: int)
    ensures ParseInt(IntToString(n)) == Some(n)
  {
    if n < 0 {
      ParseNatToString(-n);
      var s := IntToString(n);
      assert s[1..] == NatToString(-n);
    } else {
      ParseNatToString(n);
    }
  }

  lemma IntToStringInjective(m: int, n: int)
    requires IntToString(m) == IntToString(n)
    ensures m == n
  {
    ParseIntToString(m);
    ParseIntToString(n);
  }
}
