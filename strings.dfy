/**
 * The PHP string and integer primitives the core relies on, stated on
 * `seq<char>`: truthiness, prefix tests, trim, implode and explode, decimal
 * rendering, bin2hex and single-character str_replace.
 */
module Strings {
  import opened Wrappers

  /** PHP truthiness of a string that may be null: null, "" and "0" are falsy. */
  predicate IsFalsy(s: Option<string>)
  {
    s.None? || s.value == "" || s.value == "0"
  }

  /** `strpos(s, prefix) === 0` */
  predicate StartsWith(s: string, prefix: string)
  {
    |prefix| <= |s| && s[..|prefix|] == prefix
  }

  lemma StartsWithFramed(a: string, b: string, prefix: string, rest: string)
    requires StartsWith(b, prefix)
    ensures StartsWith(a + b + rest, a + prefix)
  {
    assert (a + b + rest)[..|a + prefix|] == a + b[..|prefix|];
  }

  /** `strpos(s, [a, b]) !== false`: the two-character needle occurs somewhere in s. */
  predicate ContainsPair(s: string, a: char, b: char)
  {
    exists i :: 0 <= i < |s| - 1 && s[i] == a && s[i + 1] == b
  }

  /** Every character of s satisfies ok. */
  predicate AllChars(s: string, ok: char -> bool)
  {
    forall i :: 0 <= i < |s| ==> ok(s[i])
  }

  /** `ltrim(s, c)`: the suffix left after removing every leading c. */
  function TrimLeft(s: string, c: char): (r: string)
    ensures |r| <= |s| && r == s[|s| - |r|..]
    ensures forall i :: 0 <= i < |s| - |r| ==> s[i] == c
    ensures r == [] || r[0] != c
  {
    if |s| > 0 && s[0] == c then TrimLeft(s[1..], c) else s
  }

  /** `rtrim(s, c)`: the prefix left after removing every trailing c. */
  function TrimRight(s: string, c: char): (r: string)
    ensures |r| <= |s| && r == s[..|r|]
    ensures forall i :: |r| <= i < |s| ==> s[i] == c
    ensures r == [] || r[|r| - 1] != c
  {
    if |s| > 0 && s[|s| - 1] == c then TrimRight(s[..|s| - 1], c) else s
  }

  /** `trim(s, c)`: a contiguous piece of s that neither starts nor ends with c. */
  function Trim(s: string, c: char): (r: string)
    ensures r == [] || (r[0] != c && r[|r| - 1] != c)
    ensures forall x :: x in r ==> x in s
  {
    var l := TrimLeft(s, c);
    var r := TrimRight(l, c);
    assert forall x :: x in r ==> x in l;
    r
  }

  lemma TrimKeepsChars(s: string, c: char, ok: char -> bool)
    requires AllChars(s, ok)
    ensures AllChars(Trim(s, c), ok)
  {
    var r := Trim(s, c);
    forall i | 0 <= i < |r| ensures ok(r[i]) {
      assert r[i] in s;
    }
  }

  /** A string that neither starts nor ends with c is its own trim. */
  lemma TrimUntouched(s: string, c: char)
    requires s == [] || (s[0] != c && s[|s| - 1] != c)
    ensures Trim(s, c) == s
  {
  }

  /** Trimming c keeps a last character that is not c. */
  lemma TrimKeepsLast(s: string, c: char)
    requires s != [] && s[|s| - 1] != c
    ensures Trim(s, c) != [] && Trim(s, c)[|Trim(s, c)| - 1] == s[|s| - 1]
  {
    var l := TrimLeft(s, c);
    assert l != [];
    assert l[|l| - 1] == s[|s| - 1];
    assert TrimRight(l, c) == l;
  }

  /** `implode('/', parts)` */
  function JoinSlash(parts: seq<string>): string
  {
    if |parts| == 0 then "" else if |parts| == 1 then parts[0] else parts[0] + "/" + JoinSlash(parts[1..])
  }

  lemma {:induction false} JoinSlashAppend(a: seq<string>, b: seq<string>)
    requires |a| > 0 && |b| > 0
    ensures JoinSlash(a + b) == JoinSlash(a) + "/" + JoinSlash(b)
  {
    if |a| == 1 {
      assert (a + b)[1..] == b;
    } else {
      assert (a + b)[1..] == a[1..] + b;
      JoinSlashAppend(a[1..], b);
    }
  }

  /** Appending parts keeps the joined path of the first parts as a prefix. */
  lemma JoinSlashPrefix(a: seq<string>, b: seq<string>)
    requires |a| > 0
    ensures StartsWith(JoinSlash(a + b), JoinSlash(a))
  {
    if |b| == 0 {
      assert a + b == a;
    } else {
      JoinSlashAppend(a, b);
    }
  }

  /** A joined path is made of the parts' characters and '/'. */
  lemma {:induction false} JoinSlashChars(parts: seq<string>, ok: char -> bool)
    requires ok('/')
    requires forall j :: 0 <= j < |parts| ==> AllChars(parts[j], ok)
    ensures AllChars(JoinSlash(parts), ok)
  {
    if |parts| > 1 {
      JoinSlashChars(parts[1..], ok);
    }
  }

  /** A joined path whose first part is non-empty and whose last part neither starts nor ends with '/' does not start or end with '/'. */
  lemma {:induction false} JoinSlashEnds(parts: seq<string>)
    requires |parts| > 0
    requires forall j :: 0 <= j < |parts| ==> parts[j] != [] && parts[j][0] != '/' && parts[j][|parts[j]| - 1] != '/'
    ensures var s := JoinSlash(parts); s != [] && s[0] != '/' && s[|s| - 1] != '/'
  {
    if |parts| > 1 {
      JoinSlashEnds(parts[1..]);
    }
  }

  predicate IsDecimalDigit(c: char)
  {
    '0' <= c <= '9'
  }

  function DecimalDigit(n: nat): (c: char)
    requires n < 10
    ensures IsDecimalDigit(c)
  {
    ('0' as int + n) as char
  }

  /** The decimal rendering PHP gives a non-negative integer. */
  function NatToString(n: nat): (r: string)
    ensures |r| >= 1 && AllChars(r, IsDecimalDigit)
    ensures n >= 10 ==> r[0] != '0'
  {
    if n < 10 then [DecimalDigit(n)] else NatToString(n / 10) + [DecimalDigit(n % 10)]
  }

  /** The decimal rendering PHP gives an integer (string conversion and concatenation). */
  function IntToString(n: int): (r: string)
    ensures |r| >= 1
    ensures n >= 0 <==> IsDecimalDigit(r[0])
  {
    if n < 0 then "-" + NatToString(-n) else NatToString(n)
  }

  /** `str_pad(n, 2, '0', STR_PAD_LEFT)` for a value below 100, as `date('m')` and `date('d')` print. */
  function TwoDigits(n: nat): (r: string)
    requires n < 100
    ensures |r| == 2 && AllChars(r, IsDecimalDigit)
  {
    [DecimalDigit(n / 10), DecimalDigit(n % 10)]
  }

  newtype byte = x: int | 0 <= x < 256

  predicate IsLowerHexDigit(c: char)
  {
    '0' <= c <= '9' || 'a' <= c <= 'f'
  }

  function HexDigit(n: nat): (c: char)
    requires n < 16
    ensures IsLowerHexDigit(c)
  {
    if n < 10 then DecimalDigit(n) else ('a' as int + (n - 10)) as char
  }

  /** `bin2hex(bytes)`: two lowercase hex digits per byte, high nibble first. */
  function Bin2Hex(bytes: seq<byte>): (r: string)
    ensures |r| == 2 * |bytes|
    ensures AllChars(r, IsLowerHexDigit)
  {
    if bytes == [] then ""
    else [HexDigit(bytes[0] as int / 16), HexDigit(bytes[0] as int % 16)] + Bin2Hex(bytes[1..])
  }

  /** `str_repeat(c, n)` */
  function Repeat(c: char, n: nat): (r: string)
    ensures |r| == n && forall i :: 0 <= i < n ==> r[i] == c
  {
    seq(n, _ => c)
  }

  /** `str_replace(a, b, s)` for single characters a and b. */
  function ReplaceChar(s: string, a: char, b: char): (r: string)
    ensures |r| == |s|
    ensures forall i :: 0 <= i < |s| ==> r[i] == if s[i] == a then b else s[i]
  {
    if s == [] then [] else [if s[0] == a then b else s[0]] + ReplaceChar(s[1..], a, b)
  }

  /** `str_replace(c, '', s)`: s with every c deleted. */
  function RemoveChar(s: string, c: char): (r: string)
    ensures |r| <= |s|
    ensures forall i :: 0 <= i < |r| ==> r[i] != c
  {
    if s == [] then [] else (if s[0] == c then [] else [s[0]]) + RemoveChar(s[1..], c)
  }

  lemma {:induction false} RemoveCharAppend(a: string, b: string, c: char)
    ensures RemoveChar(a + b, c) == RemoveChar(a, c) + RemoveChar(b, c)
  {
    if a != [] {
      assert (a + b)[1..] == a[1..] + b;
      RemoveCharAppend(a[1..], b, c);
    } else {
      assert a + b == b;
    }
  }

  lemma {:induction false} RemoveCharAbsent(s: string, c: char)
    requires forall i :: 0 <= i < |s| ==> s[i] != c
    ensures RemoveChar(s, c) == s
  {
    if s != [] {
      RemoveCharAbsent(s[1..], c);
    }
  }

  lemma {:induction false} RemoveCharOnly(s: string, c: char)
    requires forall i :: 0 <= i < |s| ==> s[i] == c
    ensures RemoveChar(s, c) == []
  {
    if s != [] {
      RemoveCharOnly(s[1..], c);
    }
  }

  /** `explode(c, s)[0]`: the text up to the first c, or all of s. */
  function UpTo(s: string, c: char): (r: string)
    ensures |r| <= |s| && r == s[..|r|]
    ensures c !in r
    ensures |r| < |s| ==> s[|r|] == c
  {
    if s == [] || s[0] == c then "" else [s[0]] + UpTo(s[1..], c)
  }

  /** The text after the first c, or "" when there is none. */
  function After(s: string, c: char): (r: string)
    ensures |r| <= |s|
  {
    if s == [] then "" else if s[0] == c then s[1..] else After(s[1..], c)
  }

  lemma {:induction false} AfterFirst(head: string, rest: string, c: char)
    requires c !in head
    ensures After(head + [c] + rest, c) == rest
  {
    if head != [] {
      assert (head + [c] + rest)[1..] == head[1..] + [c] + rest;
      AfterFirst(head[1..], rest, c);
    }
  }

  lemma {:induction false} UpToFirst(head: string, rest: string, c: char)
    requires c !in head
    ensures UpTo(head + [c] + rest, c) == head
  {
    if head != [] {
      assert (head + [c] + rest)[1..] == head[1..] + [c] + rest;
      UpToFirst(head[1..], rest, c);
    }
  }

  lemma {:induction false} UpToAbsent(s: string, c: char)
    requires c !in s
    ensures UpTo(s, c) == s
  {
    if s != [] {
      UpToAbsent(s[1..], c);
    }
  }
}
