/**
 * String primitives with the meaning JavaScript gives them: the white-space
 * class shared by `String.prototype.trim` and the regular-expression class
 * `\s`, prefix and suffix tests, ASCII/Latin-1 case mapping, decimal
 * rendering of numbers, `split` on one character and `join`.
 */
module Strings {
  import opened Wrappers

  /** JavaScript WhiteSpace and LineTerminator code points. */
  predicate IsWs(c: char) {
    c == ' ' || c == '\t' || c == '\n' || c == '\U{000B}' || c == '\U{000C}' || c == '\r'
    || c == '\U{00A0}' || c == '\U{FEFF}' || c == '\U{1680}'
    || ('\U{2000}' <= c <= '\U{200A}')
    || c == '\U{2028}' || c == '\U{2029}' || c == '\U{202F}' || c == '\U{205F}' || c == '\U{3000}'
  }

  /** The code points that end a line for the regular-expression `.`. */
  predicate IsLineTerminator(c: char) {
    c == '\n' || c == '\r' || c == '\U{2028}' || c == '\U{2029}'
  }

  predicate AllWs(s: string) { forall i :: 0 <= i < |s| ==> IsWs(s[i]) }

  predicate IsDigit(c: char) { '0' <= c <= '9' }

  predicate IsAsciiLetter(c: char) { 'a' <= c <= 'z' || 'A' <= c <= 'Z' }

  /** The regular-expression class `\w` (ASCII letters, digits and `_`). */
  predicate IsWordChar(c: char) { IsAsciiLetter(c) || IsDigit(c) || c == '_' }

  /** `s` with its leading white space removed. */
  function TrimStart(s: string): (r: string)
    ensures |r| <= |s|
    ensures s != [] && IsWs(s[0]) ==> |r| < |s|
    ensures r == [] || !IsWs(r[0])
  {
    if s == [] || !IsWs(s[0]) then s else TrimStart(s[1..])
  }

  /** What `TrimStart` leaves is a suffix of the text, and everything before it is white space. */
  lemma {:induction false} TrimStartSuffix(s: string)
    ensures TrimStart(s) == s[|s| - |TrimStart(s)|..]
    ensures AllWs(s[..|s| - |TrimStart(s)|])
    decreases |s|
  {
    if s != [] && IsWs(s[0]) {
      var u := s[1..];
      TrimStartSuffix(u);
      var k := |u| - |TrimStart(u)|;
      assert u[k..] == s[k + 1..];
      assert s[..k + 1] == [s[0]] + u[..k];
    }
  }

  /** The suffix fact position by position. */
  lemma {:induction false} TrimStartFacts(s: string)
    ensures forall i :: 0 <= i < |TrimStart(s)| ==> TrimStart(s)[i] == s[|s| - |TrimStart(s)| + i]
    ensures forall i :: 0 <= i < |s| - |TrimStart(s)| ==> IsWs(s[i])
  {
    TrimStartSuffix(s);
    var n := |s| - |TrimStart(s)|;
    assert forall i :: 0 <= i < n ==> s[..n][i] == s[i];
  }

  /** `s` with its trailing white space removed. */
  function TrimEnd(s: string): (r: string)
    ensures |r| <= |s| && r == s[..|r|]
    ensures AllWs(s[|r|..])
    ensures r == [] || !IsWs(r[|r| - 1])
  {
    if s == [] || !IsWs(s[|s| - 1]) then s
    else
      var t := TrimEnd(s[..|s| - 1]);
      t
  }

  /** `String.prototype.trim`. */
  function Trim(s: string): (r: string)
    ensures |r| <= |s|
    ensures r == [] || (!IsWs(r[0]) && !IsWs(r[|r| - 1]))
  {
    TrimEnd(TrimStart(s))
  }

  /** The trimmed text is a slice of the original with only white space around it. */
  lemma {:induction false} TrimSpan(s: string) returns (i: nat)
    ensures i + |Trim(s)| <= |s| && Trim(s) == s[i..i + |Trim(s)|]
    ensures AllWs(s[..i]) && AllWs(s[i + |Trim(s)|..])
  {
    var a := TrimStart(s);
    var r := TrimEnd(a);
    i := |s| - |a|;
    TrimStartSuffix(s);
    assert r == s[i..i + |r|];
    assert AllWs(s[i + |r|..]) by {
      assert s[i + |r|..] == a[|r|..];
    }
  }

  lemma {:induction false} TrimEmptyIffAllWs(s: string)
    ensures Trim(s) == [] <==> AllWs(s)
  {
    TrimStartFacts(s);
    if Trim(s) == [] {
      var i := TrimSpan(s);
      var j := i;
      forall k | 0 <= k < |s| ensures IsWs(s[k]) {
        if k < i { assert s[..i][k] == s[k]; } else { assert s[j..][k - j] == s[k]; }
      }
    }
  }

  lemma {:induction false} TrimIdempotent(s: string)
    ensures Trim(Trim(s)) == Trim(s)
  {
    var t := Trim(s);
    assert TrimStart(t) == t;
    assert TrimEnd(t) == t;
  }

  /** A string with no white space at either end is its own trim. */
  lemma {:induction false} TrimNoop(s: string)
    requires s == [] || (!IsWs(s[0]) && !IsWs(s[|s| - 1]))
    ensures Trim(s) == s
  {
    assert TrimStart(s) == s;
  }

  predicate StartsWith(s: string, p: string) { |p| <= |s| && s[..|p|] == p }

  predicate EndsWith(s: string, p: string) { |p| <= |s| && s[|s| - |p|..] == p }

  /** `s.includes(p)`. */
  predicate Contains(s: string, p: string) {
    exists i :: 0 <= i <= |s| && StartsWith(s[i..], p)
  }

  lemma {:induction false} StartsWithAppend(p: string, t: string)
    ensures StartsWith(p + t, p)
  {
    assert (p + t)[..|p|] == p;
  }

  /** `toUpperCase` on one code point: ASCII, the Latin-1 letters, and 'ÿ' and 'µ', whose capitals lie outside Latin-1. */
  function UpperChar(c: char): char {
    if 'a' <= c <= 'z' then (c as int - 32) as char
    else if '\U{00E0}' <= c <= '\U{00FE}' && c != '\U{00F7}' then (c as int - 32) as char
    else if c == '\U{00FF}' then '\U{0178}'
    else if c == '\U{00B5}' then '\U{039C}'
    else c
  }

  /** `toUpperCase` on one code point as a string: 'ß' becomes "SS". */
  function UpperOf(c: char): (r: string)
    ensures 1 <= |r| <= 2
  {
    if c == '\U{00DF}' then "SS" else [UpperChar(c)]
  }

  /** `toLowerCase` on one code point: ASCII and the Latin-1 letters. */
  function LowerChar(c: char): char {
    if 'A' <= c <= 'Z' then (c as int + 32) as char
    else if '\U{00C0}' <= c <= '\U{00DE}' && c != '\U{00D7}' then (c as int + 32) as char
    else c
  }

  /** `s.toUpperCase()`: each code point's capital, in order. */
  function ToUpper(s: string): (r: string)
    ensures |s| <= |r|
  {
    if s == [] then [] else ToUpper(s[..|s| - 1]) + UpperOf(s[|s| - 1])
  }

  function ToLower(s: string): (r: string)
    ensures |r| == |s|
  {
    seq(|s|, i requires 0 <= i < |s| => LowerChar(s[i]))
  }

  lemma {:induction false} UpperIdempotent(s: string)
    ensures ToUpper(ToUpper(s)) == ToUpper(s)
    decreases |s|
  {
    if s != [] {
      var c := s[|s| - 1];
      UpperIdempotent(s[..|s| - 1]);
      UpperAppend(ToUpper(s[..|s| - 1]), UpperOf(c));
      UpperOfFixed(c);
    }
  }

  /** A capital is its own capital. */
  lemma {:induction false} UpperOfFixed(c: char)
    ensures ToUpper(UpperOf(c)) == UpperOf(c)
  {
    var u := UpperOf(c);
    if |u| == 1 {
      assert u[..0] == [];
    } else {
      assert ToUpper("S") == "S" by { assert "S"[..0] == []; }
      assert u[..1] == "S";
    }
  }

  lemma {:induction false} UpperAppend(a: string, b: string)
    ensures ToUpper(a + b) == ToUpper(a) + ToUpper(b)
    decreases |b|
  {
    if b == [] {
      assert a + b == a;
    } else {
      var ab := a + b;
      var init := b[..|b| - 1];
      var u := UpperOf(b[|b| - 1]);
      assert ab[..|ab| - 1] == a + init;
      assert ab[|ab| - 1] == b[|b| - 1];
      assert ToUpper(ab) == ToUpper(a + init) + u;
      UpperAppend(a, init);
      assert ToUpper(b) == ToUpper(init) + u;
    }
  }

  lemma {:induction false} LowerAppend(a: string, b: string)
    ensures ToLower(a + b) == ToLower(a) + ToLower(b)
  {
    assert ToLower(a + b) == ToLower(a) + ToLower(b);
  }

  /** `s.charAt(0).toUpperCase() + s.slice(1)`. */
  function Capitalize(s: string): (r: string)
    ensures |s| <= |r| <= |s| + 1
    ensures s != [] ==> EndsWith(r, s[1..])
    ensures ToUpper(r) == ToUpper(s)
  {
    if s == [] then s
    else
      CapitalFirst(s[0], s[1..]);
      assert s == [s[0]] + s[1..];
      UpperOf(s[0]) + s[1..]
  }

  /** Capitalising the first character leaves the capitals of the text as they were. */
  lemma {:induction false} CapitalFirst(c: char, t: string)
    ensures EndsWith(UpperOf(c) + t, t)
    ensures ToUpper(UpperOf(c) + t) == ToUpper([c] + t)
  {
    var u := UpperOf(c);
    var r := u + t;
    assert r[|r| - |t|..] == t;
    UpperAppend([c], t);
    UpperAppend(u, t);
    UpperOfFixed(c);
    UpperSingle(c);
  }

  lemma {:induction false} UpperSingle(c: char)
    ensures ToUpper([c]) == UpperOf(c)
  {
    assert [c][..0] == [];
  }




  /** Case-insensitive equality of a code point with an ASCII letter or sign, as `/…/i` compares. */
  predicate EqI(c: char, p: char) { c == p || ('A' <= c <= 'Z' && LowerChar(c) == p) }

  /** `s` starts with `p` compared with `EqI`, `p` being lower-case ASCII. */
  predicate StartsWithI(s: string, p: string) {
    |p| <= |s| && forall i :: 0 <= i < |p| ==> EqI(s[i], p[i])
  }

  function DigitChar(d: nat): char
    requires d < 10
  {
    ('0' as int + d) as char
  }

  /** `String(n)` for a non-negative integer. */
  function NatToString(n: nat): (r: string)
    ensures |r| >= 1
    ensures forall i :: 0 <= i < |r| ==> IsDigit(r[i])
    ensures n >= 10 ==> r[0] != '0'
    decreases n
  {
    if n < 10 then [DigitChar(n)] else NatToString(n / 10) + [DigitChar(n % 10)]
  }

  /** The value of a run of decimal digits. */
  function DigitsValue(s: string): nat
    requires forall i :: 0 <= i < |s| ==> IsDigit(s[i])
  {
    if s == [] then 0
    else
      var d := s[|s| - 1];
      assert IsDigit(d);
      10 * DigitsValue(s[..|s| - 1]) + (d as int - '0' as int)
  }

  lemma {:induction false} DigitsValueOfNat(n: nat)
    ensures DigitsValue(NatToString(n)) == n
    decreases n
  {
    var r := NatToString(n);
    if n >= 10 {
      DigitsValueOfNat(n / 10);
      assert r[..|r| - 1] == NatToString(n / 10);
    }
  }

  lemma {:induction false} NatToStringInjective(a: nat, b: nat)
    requires NatToString(a) == NatToString(b)
    ensures a == b
  {
    DigitsValueOfNat(a);
    DigitsValueOfNat(b);
  }

  function Pow10(k: nat): nat { if k == 0 then 1 else 10 * Pow10(k - 1) }

  lemma {:induction false} NatToStringLength(n: nat, k: nat)
    requires k >= 1
    ensures |NatToString(n)| == k <==> (k == 1 || Pow10(k - 1) <= n) && n < Pow10(k)
    decreases n
  {
    if n >= 10 {
      if k >= 2 {
        NatToStringLength(n / 10, k - 1);
      } else {
        NatToStringLength(n / 10, 1);
      }
    }
  }

  /** `parts.join(sep)`. */
  function Join(parts: seq<string>, sep: string): string {
    if parts == [] then []
    else if |parts| == 1 then parts[0]
    else parts[0] + sep + Join(parts[1..], sep)
  }

  /** `s.split(c)` for a one-character separator. */
  function Split(s: string, c: char): (r: seq<string>)
    ensures |r| >= 1
    ensures forall k, i :: 0 <= k < |r| && 0 <= i < |r[k]| ==> r[k][i] != c
    decreases |s|
  {
    if s == [] then [[]]
    else
      var rest := Split(s[1..], c);
      if s[0] == c then [[]] + rest else [[s[0]] + rest[0]] + rest[1..]
  }

  /** Joining the pieces of a split with the separator gives back the string. */
  lemma {:induction false} JoinSplit(s: string, c: char)
    ensures Join(Split(s, c), [c]) == s
    decreases |s|
  {
    if s != [] {
      JoinSplit(s[1..], c);
      var rest := Split(s[1..], c);
      if s[0] == c {
        assert Split(s, c) == [[]] + rest;
      } else {
        if |rest| == 1 {
        } else {
          assert Join(rest, [c]) == rest[0] + [c] + Join(rest[1..], [c]);
        }
      }
    }
  }

  /** Splitting a joined list of separator-free pieces gives the pieces back. */
  lemma {:induction false} SplitJoin(parts: seq<string>, c: char)
    requires |parts| >= 1
    requires forall k, i :: 0 <= k < |parts| && 0 <= i < |parts[k]| ==> parts[k][i] != c
    ensures Split(Join(parts, [c]), c) == parts
    decreases |parts|, |parts[0]|
  {
    if |parts| == 1 {
      SplitNoSep(parts[0], c);
    } else {
      var p := parts[0];
      if p == [] {
        SplitJoin(parts[1..], c);
        assert Join(parts, [c]) == [c] + Join(parts[1..], [c]);
      } else {
        var tail := [p[1..]] + parts[1..];
        assert tail[1..] == parts[1..];
        SplitJoin(tail, c);
        var x := Join(tail, [c]);
        assert x == p[1..] + [c] + Join(parts[1..], [c]);
        assert Join(parts, [c]) == [p[0]] + x;
        assert ([p[0]] + x)[1..] == x;
        assert Split([p[0]] + x, c) == [[p[0]] + Split(x, c)[0]] + Split(x, c)[1..];
        assert [p[0]] + p[1..] == p;
      }
    }
  }

  lemma {:induction false} SplitNoSep(s: string, c: char)
    requires forall i :: 0 <= i < |s| ==> s[i] != c
    ensures Split(s, c) == [s]
    decreases |s|
  {
    if s != [] {
      assert forall i :: 0 <= i < |s[1..]| ==> s[1..][i] == s[i + 1];
      SplitNoSep(s[1..], c);
      assert [s[0]] + s[1..] == s;
    }
  }

  /** `lit` (lower-case) occurs at `k`, compared as `/…/i` compares. */
  predicate AtI(t: string, k: nat, lit: string) {
    k + |lit| <= |t| && forall i :: 0 <= i < |lit| ==> EqI(t[k + i], lit[i])
  }

  /** The first index at or after `from` holding `c`. */
  function FindChar(t: string, c: char, from: nat): (r: Option<nat>)
    requires from <= |t|
    ensures r.Some? ==> from <= r.value < |t| && t[r.value] == c
    ensures r.Some? ==> forall j :: from <= j < r.value ==> t[j] != c
    ensures r.None? ==> forall j :: from <= j < |t| ==> t[j] != c
    decreases |t| - from
  {
    if from == |t| then None else if t[from] == c then Some(from) else FindChar(t, c, from + 1)
  }

  /** The first index at or after `from` where `lit` occurs case-insensitively. */
  function FindLitI(t: string, lit: string, from: nat): (r: Option<nat>)
    requires from <= |t|
    ensures r.Some? ==> from <= r.value && AtI(t, r.value, lit)
    ensures r.Some? ==> forall j :: from <= j < r.value ==> !AtI(t, j, lit)
    ensures r.None? ==> forall j :: from <= j ==> !AtI(t, j, lit)
    decreases |t| - from
  {
    if from + |lit| > |t| then None
    else if AtI(t, from, lit) then Some(from)
    else FindLitI(t, lit, from + 1)
  }

  /** The index just past the run of white space starting at `from`. */
  function SkipWs(t: string, from: nat): (r: nat)
    requires from <= |t|
    ensures from <= r <= |t| && AllWs(t[from..r])
    ensures r == |t| || !IsWs(t[r])
    decreases |t| - from
  {
    if from < |t| && IsWs(t[from]) then
      var r := SkipWs(t, from + 1);
      assert t[from..r] == [t[from]] + t[from + 1..r];
      r
    else from
  }
  /** A white-space run followed by another character is exactly the run `SkipWs` stops after. */
  lemma {:induction false} SkipWsIs(t: string, from: nat, w: nat)
    requires from <= w < |t| && AllWs(t[from..w]) && !IsWs(t[w])
    ensures SkipWs(t, from) == w
    decreases w - from
  {
    if from < w {
      assert IsWs(t[from..w][0]);
      assert t[from + 1..w] == t[from..w][1..];
      SkipWsIs(t, from + 1, w);
    }
  }


  /** The index just past the run of decimal digits starting at `from`. */
  function SkipDigits(t: string, from: nat): (r: nat)
    requires from <= |t|
    ensures from <= r <= |t| && forall i :: from <= i < r ==> IsDigit(t[i])
    ensures r == |t| || !IsDigit(t[r])
    decreases |t| - from
  {
    if from < |t| && IsDigit(t[from]) then SkipDigits(t, from + 1) else from
  }

  lemma {:induction false} FindCharIs(t: string, c: char, from: nat, j: nat)
    requires from <= j < |t| && t[j] == c
    requires forall i :: from <= i < j ==> t[i] != c
    ensures FindChar(t, c, from) == Some(j)
  {
  }

  lemma {:induction false} FindLitIIs(t: string, lit: string, from: nat, j: nat)
    requires from <= j && AtI(t, j, lit)
    requires forall i :: from <= i < j ==> !AtI(t, i, lit)
    ensures FindLitI(t, lit, from) == Some(j)
  {
  }

  /** A text ends with the literal it was built with. */
  lemma {:induction false} AtIEnd(u: string, lit: string)
    ensures AtI(u + lit, |u|, lit)
  {
    forall i | 0 <= i < |lit| ensures EqI((u + lit)[|u| + i], lit[i]) {
      assert (u + lit)[|u| + i] == lit[i];
    }
  }

  /** One mismatching character refutes a case-insensitive occurrence. */
  lemma {:induction false} NotAtI(t: string, k: nat, lit: string, i: nat)
    requires i < |lit| && k + i < |t| && !EqI(t[k + i], lit[i])
    ensures !AtI(t, k, lit)
  {
  }

  /** Where the trimmed text starts inside the original. */
  lemma {:induction false} TrimPart(s: string) returns (i: nat)
    ensures i + |Trim(s)| <= |s|
    ensures forall k :: 0 <= k < |Trim(s)| ==> Trim(s)[k] == s[i + k]
  {
    i := TrimSpan(s);
    assert forall k :: 0 <= k < |Trim(s)| ==> Trim(s)[k] == s[i..i + |Trim(s)|][k];
  }

  /** A property every character of a text has, its trimmed text's characters have too. */
  lemma {:induction false} TrimKeeps(s: string, p: char -> bool)
    requires forall i :: 0 <= i < |s| ==> p(s[i])
    ensures forall i :: 0 <= i < |Trim(s)| ==> p(Trim(s)[i])
  {
    var k := TrimPart(s);
  }

  lemma {:induction false} TrimKeepsAbsent(s: string, c: char)
    requires forall i :: 0 <= i < |s| ==> s[i] != c
    ensures forall i :: 0 <= i < |Trim(s)| ==> Trim(s)[i] != c
  {
    var i := TrimPart(s);
  }

  /** `replace(/\s+/g, c)`: every run of white space becomes the one character `c`. */
  function CollapseWs(s: string, c: char): string
    decreases |s|
  {
    if s == [] then []
    else if IsWs(s[0]) then [c] + CollapseWs(TrimStart(s), c)
    else [s[0]] + CollapseWs(s[1..], c)
  }

  /** With a non-space replacement the result has no white space. */
  lemma {:induction false} CollapseWsOut(s: string, c: char)
    requires !IsWs(c)
    ensures forall i :: 0 <= i < |CollapseWs(s, c)| ==> !IsWs(CollapseWs(s, c)[i])
    decreases |s|
  {
    if s == [] {
    } else if IsWs(s[0]) {
      CollapseWsOut(TrimStart(s), c);
    } else {
      CollapseWsOut(s[1..], c);
    }
  }

  /** Text without white space is left alone. */
  lemma {:induction false} CollapseWsNoWs(s: string, c: char)
    requires forall i :: 0 <= i < |s| ==> !IsWs(s[i])
    ensures CollapseWs(s, c) == s
    decreases |s|
  {
    if s != [] {
      CollapseWsNoWs(s[1..], c);
    }
  }

  /** `TrimStart` of white space followed by text that starts with a non-space is that text. */
  lemma {:induction false} TrimStartWs(w: string, y: string)
    requires AllWs(w)
    requires y == [] || !IsWs(y[0])
    ensures TrimStart(w + y) == y
    decreases |w|
  {
    if w != [] {
      assert (w + y)[1..] == w[1..] + y;
      TrimStartWs(w[1..], y);
    }
  }

  /** Text that ends with a non-space character keeps what follows it through `TrimStart`. */
  lemma {:induction false} TrimStartAppend(x: string, z: string)
    requires x != [] && !IsWs(x[|x| - 1])
    ensures TrimStart(x + z) == TrimStart(x) + z
    decreases |x|
  {
    if IsWs(x[0]) {
      assert (x + z)[1..] == x[1..] + z;
      TrimStartAppend(x[1..], z);
    }
  }

  /**
   * A white-space run between two non-space characters becomes exactly one
   * `c`, and the text on either side is converted on its own.
   */
  lemma {:induction false} CollapseWsSplit(x: string, w: string, y: string, c: char)
    requires x == [] || !IsWs(x[|x| - 1])
    requires w != [] && AllWs(w)
    requires y == [] || !IsWs(y[0])
    ensures CollapseWs(x + w + y, c) == CollapseWs(x, c) + [c] + CollapseWs(y, c)
    decreases |x|
  {
    if x == [] {
      assert x + w + y == w + y;
      CollapseWsRun(w, y, c);
    } else if IsWs(x[0]) {
      TrimStartShorter(x);
      CollapseWsSplit(TrimStart(x), w, y, c);
      SplitAfterWs(x, w, y, c);
    } else {
      CollapseWsSplit(x[1..], w, y, c);
      SplitAfterText(x, w, y, c);
    }
  }

  /** The case of `CollapseWsSplit` where `x` starts with a non-space, from the case for the rest of `x`. */
  lemma {:induction false} SplitAfterText(x: string, w: string, y: string, c: char)
    requires x != [] && !IsWs(x[0])
    requires CollapseWs(x[1..] + w + y, c) == CollapseWs(x[1..], c) + [c] + CollapseWs(y, c)
    ensures CollapseWs(x + w + y, c) == CollapseWs(x, c) + [c] + CollapseWs(y, c)
  {
    var z := x + w + y;
    assert z[0] == x[0];
    assert z[1..] == x[1..] + w + y;
    var a, b := CollapseWs(x[1..], c), CollapseWs(y, c);
    assert CollapseWs(z, c) == [x[0]] + (a + [c] + b);
    assert CollapseWs(x, c) == [x[0]] + a;
    assert [x[0]] + (a + [c] + b) == [x[0]] + a + [c] + b;
  }

  /** Leading white space of a text ending in a non-space is removed, and the text still ends in that character. */
  lemma {:induction false} TrimStartShorter(x: string)
    requires x != [] && IsWs(x[0]) && !IsWs(x[|x| - 1])
    ensures |TrimStart(x)| < |x|
    ensures TrimStart(x) != [] && !IsWs(TrimStart(x)[|TrimStart(x)| - 1])
  {
    var t := TrimStart(x);
    TrimStartFacts(x);
    assert |x| - 1 >= |x| - |t|;
    assert t[|t| - 1] == x[|x| - 1];
  }

  /** The case of `CollapseWsSplit` where `x` starts with white space, from the case for the rest of `x`. */
  lemma {:induction false} SplitAfterWs(x: string, w: string, y: string, c: char)
    requires x != [] && IsWs(x[0]) && !IsWs(x[|x| - 1])
    requires CollapseWs(TrimStart(x) + w + y, c) == CollapseWs(TrimStart(x), c) + [c] + CollapseWs(y, c)
    ensures CollapseWs(x + w + y, c) == CollapseWs(x, c) + [c] + CollapseWs(y, c)
  {
    var t := TrimStart(x);
    CollapseLeadingWs(x, w + y, c);
    Assoc(x, w, y);
    Assoc(t, w, y);
  }

  /** A text is the concatenation of its three slices at `i` and `j`. */
  lemma {:induction false} SliceJoin3(s: string, i: nat, j: nat)
    requires i <= j <= |s|
    ensures s == s[..i] + s[i..j] + s[j..]
  {
  }

  /** The three parts of a concatenation, sliced back out. */
  lemma {:induction false} Parts3(a: string, b: string, c: string)
    ensures (a + b + c)[..|a|] == a
    ensures (a + b + c)[|a|..|a| + |b|] == b
    ensures (a + b + c)[|a| + |b|..] == c
  {
    var s := a + b + c;
    assert s[..|a|] == a by {
      forall i | 0 <= i < |a| ensures s[i] == a[i] { }
    }
    assert s[|a|..|a| + |b|] == b by {
      forall i | 0 <= i < |b| ensures s[|a| + i] == b[i] { }
    }
    assert s[|a| + |b|..] == c by {
      forall i | 0 <= i < |c| ensures s[|a| + |b| + i] == c[i] { }
    }
  }

  lemma {:induction false} Assoc(a: string, b: string, c: string)
    ensures a + (b + c) == a + b + c
  {
  }

  /** White space before text that starts with a non-space becomes one `c`. */
  lemma {:induction false} CollapseWsRun(w: string, y: string, c: char)
    requires w != [] && AllWs(w)
    requires y == [] || !IsWs(y[0])
    ensures CollapseWs(w + y, c) == [c] + CollapseWs(y, c)
  {
    TrimStartWs(w, y);
    assert (w + y)[0] == w[0];
  }

  /** Leading white space of a text that ends with a non-space becomes one `c` before the rest. */
  lemma {:induction false} CollapseLeadingWs(x: string, z: string, c: char)
    requires x != [] && IsWs(x[0]) && !IsWs(x[|x| - 1])
    ensures CollapseWs(x + z, c) == [c] + CollapseWs(TrimStart(x) + z, c)
    ensures CollapseWs(x, c) == [c] + CollapseWs(TrimStart(x), c)
  {
    TrimStartAppend(x, z);
    assert (x + z)[0] == x[0];
  }
}
