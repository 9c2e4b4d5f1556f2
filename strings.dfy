/** String operations of JavaScript that the controllers rely on, over `seq<char>`.
    A `char` here stands for one Unicode code point, not one UTF-16 code unit. */
module Strings {

  datatype Option<T> = None | Some(value: T)

  /** The characters matched by JavaScript's `\s` and removed by `String.prototype.trim`
      (ECMAScript WhiteSpace and LineTerminator). */
  predicate IsSpace(c: char) {
    || c == ' ' || c == '\t' || c == '\n' || c == '\r' || c == '\U{B}' || c == '\U{C}'
    || c == '\U{A0}' || c == '\U{1680}' || ('\U{2000}' <= c <= '\U{200A}')
    || c == '\U{2028}' || c == '\U{2029}' || c == '\U{202F}' || c == '\U{205F}'
    || c == '\U{3000}' || c == '\U{FEFF}'
  }

  predicate StartsWith(s: string, prefix: string) {
    |prefix| <= |s| && s[..|prefix|] == prefix
  }

  /** `s.includes(sub)`: `sub` occurs in `s` at some position. */
  predicate Contains(s: string, sub: string)
    decreases |s|
  {
    StartsWith(s, sub) || (|s| > 0 && Contains(s[1..], sub))
  }

  /** Leading white space removed: the result is a suffix of `s`. */
  function TrimStart(s: string): string {
    if |s| > 0 && IsSpace(s[0]) then TrimStart(s[1..]) else s
  }

  /** Trailing white space removed: the result is a prefix of `s`. */
  function TrimEnd(s: string): string {
    if |s| > 0 && IsSpace(s[|s| - 1]) then TrimEnd(s[..|s| - 1]) else s
  }

  /** `TrimStart` keeps a suffix; what it cuts off is white space, and what it keeps does
      not start with it. */
  lemma {:induction false} TrimStartSpec(s: string)
    ensures var r := TrimStart(s);
            && |r| <= |s| && r == s[|s| - |r|..]
            && (r == [] || !IsSpace(r[0]))
            && forall i :: 0 <= i < |s| - |r| ==> IsSpace(s[i])
    decreases |s|
  {
    if |s| > 0 && IsSpace(s[0]) {
      TrimStartSpec(s[1..]);
    }
  }

  /** `TrimEnd` keeps a prefix; what it cuts off is white space, and what it keeps does not
      end with it. */
  lemma {:induction false} TrimEndSpec(s: string)
    ensures var r := TrimEnd(s);
            && |r| <= |s| && r == s[..|r|]
            && (r == [] || !IsSpace(r[|r| - 1]))
            && forall i :: |r| <= i < |s| ==> IsSpace(s[i])
    decreases |s|
  {
    if |s| > 0 && IsSpace(s[|s| - 1]) {
      TrimEndSpec(s[..|s| - 1]);
    }
  }

  /** `s.trim()`. */
  function Trim(s: string): string {
    TrimEnd(TrimStart(s))
  }

  lemma TrimEmptyIffAllSpace(s: string)
    ensures Trim(s) == [] <==> forall i :: 0 <= i < |s| ==> IsSpace(s[i])
  {
    var t := TrimStart(s);
    TrimStartSpec(s);
    TrimEndSpec(t);
    assert t != [] ==> t[0] == s[|s| - |t|];
  }

  lemma TrimIdempotent(s: string)
    ensures Trim(Trim(s)) == Trim(s)
  {
    var t := Trim(s);
    var u := TrimStart(s);
    TrimStartSpec(s);
    TrimEndSpec(u);
    assert t == [] || !IsSpace(t[0]) by {
      if t != [] {
        assert t[0] == u[0];
      }
    }
    assert TrimStart(t) == t;
    assert t == [] || !IsSpace(t[|t| - 1]);
  }

  /** ASCII case mapping as done by `toLowerCase` on the letters A to Z. */
  function LowerChar(c: char): char {
    if 'A' <= c <= 'Z' then (c as int + 32) as char else c
  }

  /** `s.toLowerCase()`, restricted to ASCII letters. */
  function ToLower(s: string): (r: string)
    ensures |r| == |s|
    ensures forall i :: 0 <= i < |s| ==> r[i] == LowerChar(s[i])
  {
    seq(|s|, i requires 0 <= i < |s| => LowerChar(s[i]))
  }

  /** Splitting on a non-empty separator: the pieces between non-overlapping
      occurrences of `sep`, found from left to right. */
  function Split(s: string, sep: string): (r: seq<string>)
    requires |sep| > 0
    ensures |r| >= 1
    decreases |s|
  {
    if |s| < |sep| then [s]
    else if s[..|sep|] == sep then [[]] + Split(s[|sep|..], sep)
    else
      var rest := Split(s[1..], sep);
      [[s[0]] + rest[0]] + rest[1..]
  }

  /** `parts.join(sep)`. */
  function Join(parts: seq<string>, sep: string): string
    decreases |parts|
  {
    if |parts| == 0 then []
    else if |parts| == 1 then parts[0]
    else parts[0] + sep + Join(parts[1..], sep)
  }

  lemma JoinConsHead(c: char, parts: seq<string>, sep: string)
    requires |parts| >= 1
    ensures Join([[c] + parts[0]] + parts[1..], sep) == [c] + Join(parts, sep)
  {
    var q := [[c] + parts[0]] + parts[1..];
    assert q[1..] == parts[1..];
  }

  lemma JoinCons(p: string, parts: seq<string>, sep: string)
    requires |parts| >= 1
    ensures Join([p] + parts, sep) == p + sep + Join(parts, sep)
  {
    assert ([p] + parts)[1..] == parts;
  }

  /** Joining the pieces with the separator gives back the string. */
  lemma {:induction false} JoinSplit(s: string, sep: string)
    requires |sep| > 0
    ensures Join(Split(s, sep), sep) == s
    decreases |s|
  {
    if |s| < |sep| {
    } else if s[..|sep|] == sep {
      JoinSplit(s[|sep|..], sep);
      JoinAtSeparator(s, sep, Split(s[|sep|..], sep));
    } else {
      JoinSplit(s[1..], sep);
      JoinAtChar(s, sep, Split(s[1..], sep));
    }
  }

  /** The step of `JoinSplit` where the string starts with the separator. */
  lemma JoinAtSeparator(s: string, sep: string, rest: seq<string>)
    requires |sep| <= |s| && s[..|sep|] == sep && |rest| >= 1 && Join(rest, sep) == s[|sep|..]
    ensures Join([[]] + rest, sep) == s
  {
    var t := s[|sep|..];
    JoinCons([], rest, sep);
    assert [] + sep + t == sep + t;
    assert s == s[..|sep|] + t;
  }

  /** The step of `JoinSplit` where the first character starts the first piece. */
  lemma JoinAtChar(s: string, sep: string, rest: seq<string>)
    requires |s| >= 1 && |rest| >= 1 && Join(rest, sep) == s[1..]
    ensures Join([[s[0]] + rest[0]] + rest[1..], sep) == s
  {
    JoinConsHead(s[0], rest, sep);
    assert s == [s[0]] + s[1..];
  }

  /** No piece of a split on one character contains that character. */
  lemma {:induction false} SplitPiecesFree(s: string, c: char)
    ensures forall p :: p in Split(s, [c]) ==> c !in p
    decreases |s|
  {
    if |s| < 1 {
    } else if s[..1] == [c] {
      SplitPiecesFree(s[1..], c);
    } else {
      SplitPiecesFree(s[1..], c);
      var rest := Split(s[1..], [c]);
      assert rest[0] in rest;
      assert s[0] != c by { assert s[..1] == [s[0]]; }
      forall p | p in rest[1..] ensures c !in p {
        assert p in rest;
      }
    }
  }

  /** A string without the separator character splits into itself. */
  lemma {:induction false} SplitWithout(s: string, c: char)
    requires c !in s
    ensures Split(s, [c]) == [s]
    decreases |s|
  {
    if |s| >= 1 {
      assert s[..1] == [s[0]];
      SplitWithout(s[1..], c);
      assert s == [s[0]] + s[1..];
    }
  }

  lemma AppendAssoc<T>(x: seq<T>, y: seq<T>, z: seq<T>)
    ensures x + (y + z) == (x + y) + z
  {
  }

  /** Extending the first piece commutes with appending further pieces. */
  lemma ConsHeadAppend<T>(h: seq<T>, ra: seq<seq<T>>, rb: seq<seq<T>>)
    requires |ra| >= 1
    ensures [h + (ra + rb)[0]] + (ra + rb)[1..] == ([h + ra[0]] + ra[1..]) + rb
  {
    assert (ra + rb)[0] == ra[0];
    assert (ra + rb)[1..] == ra[1..] + rb;
  }

  /** One step of a split on a character. */
  lemma SplitStep(s: string, c: char)
    requires |s| >= 1
    ensures s[0] == c ==> Split(s, [c]) == [[]] + Split(s[1..], [c])
    ensures s[0] != c ==> Split(s, [c]) == [[s[0]] + Split(s[1..], [c])[0]] + Split(s[1..], [c])[1..]
  {
    assert s[..1] == [s[0]];
  }

  /** Splitting on one character distributes over an occurrence of that character. */
  lemma {:induction false} SplitAround(a: string, c: char, b: string)
    ensures Split(a + [c] + b, [c]) == Split(a, [c]) + Split(b, [c])
    decreases |a|
  {
    if |a| == 0 {
      SplitAroundEmpty(c, b);
      assert a + [c] + b == [c] + b;
    } else {
      SplitAround(a[1..], c, b);
      if a[0] == c {
        SplitAroundAtSeparator(a, c, b);
      } else {
        SplitAroundAtChar(a, c, b);
      }
    }
  }

  lemma SplitAroundEmpty(c: char, b: string)
    ensures Split([c] + b, [c]) == [[]] + Split(b, [c])
  {
    var s := [c] + b;
    SplitStep(s, c);
    assert s[0] == c && s[1..] == b;
  }

  lemma SplitAroundAtSeparator(a: string, c: char, b: string)
    requires |a| >= 1 && a[0] == c
    requires Split(a[1..] + [c] + b, [c]) == Split(a[1..], [c]) + Split(b, [c])
    ensures Split(a + [c] + b, [c]) == Split(a, [c]) + Split(b, [c])
  {
    var s := a + [c] + b;
    var ra, rb := Split(a[1..], [c]), Split(b, [c]);
    assert s[0] == a[0] && s[1..] == a[1..] + [c] + b;
    SplitStep(s, c);
    SplitStep(a, c);
    AppendAssoc([[]], ra, rb);
  }

  lemma SplitAroundAtChar(a: string, c: char, b: string)
    requires |a| >= 1 && a[0] != c
    requires Split(a[1..] + [c] + b, [c]) == Split(a[1..], [c]) + Split(b, [c])
    ensures Split(a + [c] + b, [c]) == Split(a, [c]) + Split(b, [c])
  {
    var s := a + [c] + b;
    var ra, rb := Split(a[1..], [c]), Split(b, [c]);
    assert s[0] == a[0] && s[1..] == a[1..] + [c] + b;
    SplitStep(s, c);
    SplitStep(a, c);
    ConsHeadAppend([a[0]], ra, rb);
  }

  /** The last piece of a split on `c`: what follows the last occurrence of `c`. */
  function LastPiece(s: string, c: char): (r: string)
    ensures c !in r
  {
    var parts := Split(s, [c]);
    SplitPiecesFree(s, c);
    assert parts[|parts| - 1] in parts;
    parts[|parts| - 1]
  }

  /** The last piece is whatever follows the last separator; without a separator it is the whole string. */
  lemma LastPieceAfter(a: string, c: char, b: string)
    requires c !in b
    ensures LastPiece(a + [c] + b, c) == b
    ensures LastPiece(b, c) == b
  {
    SplitAround(a, c, b);
    SplitWithout(b, c);
  }

  /** The decimal digits of `n`, as `String(n)` writes a non-negative integer. */
  function NatToString(n: nat): (r: string)
    ensures |r| >= 1
    ensures forall i :: 0 <= i < |r| ==> '0' <= r[i] <= '9'
    ensures |r| > 1 ==> r[0] != '0'
    decreases n
  {
    if n < 10 then [DigitChar(n)] else NatToString(n / 10) + [DigitChar(n % 10)]
  }

  function DigitChar(d: nat): (c: char)
    requires d < 10
    ensures '0' <= c <= '9' && c as int - '0' as int == d
  {
    ('0' as int + d) as char
  }

  /** The value of a string of decimal digits. */
  function DigitsValue(s: string): nat
    requires forall i :: 0 <= i < |s| ==> '0' <= s[i] <= '9'
    decreases |s|
  {
    if s == [] then 0 else 10 * DigitsValue(s[..|s| - 1]) + (s[|s| - 1] as int - '0' as int)
  }

  /** Reading the decimal text back gives the number. */
  lemma {:induction false} NatToStringRoundTrip(n: nat)
    ensures DigitsValue(NatToString(n)) == n
    decreases n
  {
    var r := NatToString(n);
    if n >= 10 {
      NatToStringRoundTrip(n / 10);
      assert r[..|r| - 1] == NatToString(n / 10);
    }
  }
}
