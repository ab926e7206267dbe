/**
 * Character classes, trimming, line splitting, decimal digits and small
 * string searches: the exact pieces of JavaScript string and regex
 * behaviour the markdown store relies on.
 */
module Text {
  import opened Wrappers

  /** JavaScript's `\s` and the characters `String.prototype.trim` removes. */
  predicate IsWs(c: char)
  {
    c == ' ' || c == '\t' || c == '\n' || c == '\r' || c == '\U{000B}' || c == '\U{000C}'
    || c == '\U{00A0}' || c == '\U{1680}' || ('\U{2000}' <= c <= '\U{200A}')
    || c == '\U{2028}' || c == '\U{2029}' || c == '\U{202F}' || c == '\U{205F}'
    || c == '\U{3000}' || c == '\U{FEFF}'
  }

  /** The line terminators that JavaScript's `.` does not match. */
  predicate IsLineTerminator(c: char)
  {
    c == '\n' || c == '\r' || c == '\U{2028}' || c == '\U{2029}'
  }

  predicate IsDigit(c: char) { '0' <= c <= '9' }

  /** JavaScript's `\w`. */
  predicate IsWordChar(c: char)
  {
    ('a' <= c <= 'z') || ('A' <= c <= 'Z') || IsDigit(c) || c == '_'
  }

  predicate AllDigits(s: string) { forall i :: 0 <= i < |s| ==> IsDigit(s[i]) }

  predicate AllWs(s: string) { forall i :: 0 <= i < |s| ==> IsWs(s[i]) }

  // ---------------------------------------------------------------------
  // trim
  // ---------------------------------------------------------------------

  function TrimStart(s: string): (r: string)
    ensures |r| <= |s|
    ensures r == [] || !IsWs(r[0])
  {
    if s == [] || !IsWs(s[0]) then s else TrimStart(s[1..])
  }

  function TrimEnd(s: string): (r: string)
    ensures |r| <= |s|
    ensures r == [] || !IsWs(r[|r| - 1])
  {
    if s == [] || !IsWs(s[|s| - 1]) then s else TrimEnd(s[..|s| - 1])
  }

  /** `String.prototype.trim`. */
  function Trim(s: string): (r: string)
    ensures |r| <= |s|
    ensures IsTrimmed(r)
  {
    TrimEndShape(TrimStart(s));
    TrimEnd(TrimStart(s))
  }

  /** `TrimStart` drops a blank prefix. */
  lemma {:induction false} TrimStartShape(s: string)
    ensures TrimStart(s) == s[|s| - |TrimStart(s)|..]
    ensures AllWs(s[..|s| - |TrimStart(s)|])
  {
    if s != [] && IsWs(s[0]) {
      TrimStartShape(s[1..]);
      assert s[1..][..|s| - 1 - |TrimStart(s)|] == s[1..|s| - |TrimStart(s)|];
    }
  }

  /** `TrimEnd` drops a blank suffix, and a non-blank start survives it. */
  lemma {:induction false} TrimEndShape(s: string)
    ensures TrimEnd(s) == s[..|TrimEnd(s)|]
    ensures AllWs(s[|TrimEnd(s)|..])
    ensures s != [] && !IsWs(s[0]) ==> TrimEnd(s) != [] && TrimEnd(s)[0] == s[0]
  {
    if s != [] && IsWs(s[|s| - 1]) {
      TrimEndShape(s[..|s| - 1]);
      assert s[..|s| - 1][|TrimEnd(s)|..] == s[|TrimEnd(s)|..|s| - 1];
    }
  }

  predicate IsTrimmed(s: string)
  {
    s == [] || (!IsWs(s[0]) && !IsWs(s[|s| - 1]))
  }

  lemma TrimOfTrimmed(s: string)
    requires IsTrimmed(s)
    ensures Trim(s) == s
  {
  }

  /** Trimming ignores whitespace added on either side. */
  lemma {:induction false} TrimPadded(a: string, s: string, b: string)
    requires AllWs(a) && AllWs(b)
    ensures Trim(a + s + b) == Trim(s)
  {
    TrimStartPadded(a, s + b);
    assert a + s + b == a + (s + b);
    TrimEndPadded(TrimStart(s), b);
    TrimStartAppend(s, b);
  }

  lemma {:induction false} TrimStartPadded(a: string, s: string)
    requires AllWs(a)
    ensures TrimStart(a + s) == TrimStart(s)
  {
    if a != [] {
      assert (a + s)[1..] == a[1..] + s;
      TrimStartPadded(a[1..], s);
    } else {
      assert a + s == s;
    }
  }

  lemma {:induction false} TrimEndPadded(s: string, b: string)
    requires AllWs(b)
    ensures TrimEnd(s + b) == TrimEnd(s)
  {
    if b != [] {
      var sb := s + b;
      assert sb[..|sb| - 1] == s + b[..|b| - 1];
      TrimEndPadded(s, b[..|b| - 1]);
    } else {
      assert s + b == s;
    }
  }

  /** Leading trimming of `s + b` only touches `b` once `s` is all blanks. */
  lemma {:induction false} TrimStartAppend(s: string, b: string)
    requires AllWs(b)
    ensures TrimEnd(TrimStart(s + b)) == TrimEnd(TrimStart(s))
  {
    if s == [] {
      assert s + b == b;
      TrimStartAllWs(b);
    } else if IsWs(s[0]) {
      assert (s + b)[1..] == s[1..] + b;
      TrimStartAppend(s[1..], b);
    } else {
      TrimEndPadded(s, b);
    }
  }

  /** Only an all-blank string trims to nothing. */
  lemma TrimEmptyIsBlank(s: string)
    requires Trim(s) == ""
    ensures AllWs(s)
  {
    TrimStartShape(s);
    TrimEndShape(TrimStart(s));
    assert TrimStart(s) == [];
    assert s[..|s|] == s;
  }

  lemma {:induction false} TrimStartAllWs(b: string)
    requires AllWs(b)
    ensures TrimStart(b) == []
  {
    if b != [] {
      TrimStartAllWs(b[1..]);
    }
  }

  // ---------------------------------------------------------------------
  // sequence algebra
  // ---------------------------------------------------------------------

  lemma ConcatAssoc<T>(a: seq<T>, b: seq<T>, c: seq<T>)
    ensures a + (b + c) == (a + b) + c
  {
  }

  /** A sequence is the part before `i`, the element at `i`, the part up to `j` and the rest. */
  lemma CutAround<T>(s: seq<T>, i: nat, j: nat)
    requires i < j <= |s|
    ensures s == s[..i] + [s[i]] + (s[i + 1..j] + s[j..])
  {
  }

  // ---------------------------------------------------------------------
  // split('\n') / join('\n')
  // ---------------------------------------------------------------------

  predicate NoNewline(s: string) { '\n' !in s }

  /** The pieces of a concatenation of line lists are the pieces of the parts. */
  lemma NoNewlinesConcat(a: seq<string>, b: seq<string>)
    requires forall k :: 0 <= k < |a| ==> NoNewline(a[k])
    requires forall k :: 0 <= k < |b| ==> NoNewline(b[k])
    ensures forall k :: 0 <= k < |a + b| ==> NoNewline((a + b)[k])
  {
    forall k | 0 <= k < |a + b| ensures NoNewline((a + b)[k]) {
      if k < |a| {
        assert (a + b)[k] == a[k];
      } else {
        assert (a + b)[k] == b[k - |a|];
      }
    }
  }

  /** `s.split('\n')`: never empty, and no piece holds a newline. */
  function Split(s: string): (r: seq<string>)
    ensures |r| >= 1
    ensures forall k :: 0 <= k < |r| ==> NoNewline(r[k])
  {
    if s == [] then [""]
    else if s[0] == '\n' then [""] + Split(s[1..])
    else
      var t := Split(s[1..]);
      [[s[0]] + t[0]] + t[1..]
  }

  /** `s.split(sep)` for a one-character separator. */
  function SplitOn(s: string, sep: char): (r: seq<string>)
    ensures |r| >= 1
    ensures forall k :: 0 <= k < |r| ==> sep !in r[k]
  {
    if s == [] then [""]
    else if s[0] == sep then [""] + SplitOn(s[1..], sep)
    else
      var t := SplitOn(s[1..], sep);
      [[s[0]] + t[0]] + t[1..]
  }

  /** `parts.join(sep)` for a one-character separator. */
  function JoinOn(ps: seq<string>, sep: char): string
  {
    if |ps| == 0 then ""
    else if |ps| == 1 then ps[0]
    else ps[0] + [sep] + JoinOn(ps[1..], sep)
  }

  /** Splitting a joined list gives back the parts that do not hold the separator. */
  lemma {:induction false} SplitOnJoinOn(ps: seq<string>, sep: char)
    requires |ps| >= 1
    requires forall k :: 0 <= k < |ps| ==> sep !in ps[k]
    ensures SplitOn(JoinOn(ps, sep), sep) == ps
  {
    if |ps| == 1 {
      SplitOnFree(ps[0], sep);
    } else {
      SplitOnJoinOn(ps[1..], sep);
      SplitOnAround(ps[0], JoinOn(ps[1..], sep), sep);
      SplitOnFree(ps[0], sep);
      assert ps == [ps[0]] + ps[1..];
    }
  }

  lemma {:induction false} SplitOnFree(s: string, sep: char)
    requires sep !in s
    ensures SplitOn(s, sep) == [s]
  {
    if s != [] {
      assert sep !in s[1..] by {
        forall k | 0 <= k < |s| - 1 ensures s[1..][k] != sep { assert s[1..][k] == s[k + 1]; }
      }
      SplitOnFree(s[1..], sep);
      assert s == [s[0]] + s[1..];
    }
  }

  lemma {:induction false} SplitOnAround(a: string, b: string, sep: char)
    ensures SplitOn(a + [sep] + b, sep) == SplitOn(a, sep) + SplitOn(b, sep)
  {
    if a == [] {
      assert a + [sep] + b == [sep] + b;
      assert ([sep] + b)[1..] == b;
    } else {
      var s := a + [sep] + b;
      assert s[1..] == a[1..] + [sep] + b;
      SplitOnAround(a[1..], b, sep);
      if a[0] == sep {
      } else {
        var t := SplitOn(a[1..], sep);
        assert SplitOn(s[1..], sep) == t + SplitOn(b, sep);
        assert (t + SplitOn(b, sep))[0] == t[0];
        assert (t + SplitOn(b, sep))[1..] == t[1..] + SplitOn(b, sep);
      }
    }
  }

  /** `lines.join('\n')`. */
  function Join(ls: seq<string>): string
  {
    if |ls| == 0 then ""
    else if |ls| == 1 then ls[0]
    else ls[0] + "\n" + Join(ls[1..])
  }

  lemma {:induction false} JoinSplit(s: string)
    ensures Join(Split(s)) == s
  {
    if s == [] {
    } else if s[0] == '\n' {
      JoinSplit(s[1..]);
      var t := Split(s[1..]);
      assert ([""] + t)[1..] == t;
    } else {
      JoinSplit(s[1..]);
      var t := Split(s[1..]);
      var r := [[s[0]] + t[0]] + t[1..];
      if |t| == 1 {
        assert Join(r) == [s[0]] + t[0];
      } else {
        assert r[1..] == t[1..];
        assert Join(t) == t[0] + "\n" + Join(t[1..]);
        assert Join(r) == [s[0]] + t[0] + "\n" + Join(t[1..]);
        assert s == [s[0]] + s[1..];
      }
    }
  }

  lemma {:induction false} SplitJoin(ls: seq<string>)
    requires |ls| >= 1
    requires forall k :: 0 <= k < |ls| ==> NoNewline(ls[k])
    ensures Split(Join(ls)) == ls
  {
    if |ls| == 1 {
      SplitNoNewline(ls[0]);
    } else {
      SplitJoin(ls[1..]);
      SplitAround(ls[0], Join(ls[1..]));
      SplitNoNewline(ls[0]);
      assert ls == [ls[0]] + ls[1..];
    }
  }

  lemma {:induction false} SplitNoNewline(s: string)
    requires NoNewline(s)
    ensures Split(s) == [s]
  {
    if s != [] {
      assert NoNewline(s[1..]) by {
        forall k | 0 <= k < |s| - 1 ensures s[1..][k] != '\n' { assert s[1..][k] == s[k + 1]; }
      }
      SplitNoNewline(s[1..]);
      assert s == [s[0]] + s[1..];
    }
  }

  /** Splitting at a newline splits the pieces. */
  lemma {:induction false} SplitAround(a: string, b: string)
    ensures Split(a + "\n" + b) == Split(a) + Split(b)
  {
    var s := a + "\n" + b;
    if a == [] {
      assert s == "\n" + b;
      SplitNewline(b);
    } else {
      assert s == [a[0]] + (a[1..] + "\n" + b);
      assert a == [a[0]] + a[1..];
      SplitAround(a[1..], b);
      if a[0] == '\n' {
        SplitNewline(a[1..] + "\n" + b);
        SplitNewline(a[1..]);
      } else {
        var t := Split(a[1..]);
        var u := Split(b);
        SplitChar(a[0], a[1..] + "\n" + b);
        SplitChar(a[0], a[1..]);
        assert (t + u)[0] == t[0];
        assert (t + u)[1..] == t[1..] + u;
        ConcatAssoc([[a[0]] + t[0]], t[1..], u);
      }
    }
  }

  lemma SplitNewline(r: string)
    ensures Split("\n" + r) == [""] + Split(r)
  {
    assert ("\n" + r)[1..] == r;
  }

  lemma SplitChar(c: char, r: string)
    requires c != '\n'
    ensures Split([c] + r) == [[c] + Split(r)[0]] + Split(r)[1..]
  {
    assert ([c] + r)[1..] == r;
  }

  /** Each line followed by its newline: the text of a run of whole lines. */
  function Block(ls: seq<string>): string
  {
    if ls == [] then "" else ls[0] + "\n" + Block(ls[1..])
  }

  /** Whole lines, then the rest of the document. */
  lemma {:induction false} JoinBlock(a: seq<string>, b: seq<string>)
    requires |b| >= 1
    ensures Join(a + b) == Block(a) + Join(b)
  {
    if a != [] {
      assert (a + b)[1..] == a[1..] + b;
      JoinBlock(a[1..], b);
    } else {
      assert a + b == b;
    }
  }

  lemma {:induction false} BlockAppendOne(a: seq<string>, l: string)
    ensures Block(a + [l]) == Block(a) + l + "\n"
  {
    if a != [] {
      assert (a + [l])[1..] == a[1..] + [l];
      BlockAppendOne(a[1..], l);
    } else {
      assert a + [l] == [l];
    }
  }

  lemma {:induction false} BlockConcat(a: seq<string>, b: seq<string>)
    ensures Block(a + b) == Block(a) + Block(b)
  {
    if a != [] {
      assert (a + b)[1..] == a[1..] + b;
      BlockConcat(a[1..], b);
    } else {
      assert a + b == b;
    }
  }

  lemma JoinStartsWith(ls: seq<string>)
    requires |ls| >= 1
    ensures StartsWith(Join(ls), ls[0])
  {
  }

  lemma {:induction false} BlockIsJoin(a: seq<string>)
    requires |a| >= 1
    ensures Block(a) == Join(a) + "\n"
  {
    JoinBlock(a, [""]);
    JoinAppend(a, [""]);
    assert Join([""]) == "";
    assert Block(a) + "" == Block(a);
    assert Join(a) + "\n" + "" == Join(a) + "\n";
  }

  lemma {:induction false} JoinAppend(a: seq<string>, b: seq<string>)
    requires |a| >= 1 && |b| >= 1
    ensures Join(a + b) == Join(a) + "\n" + Join(b)
  {
    if |a| == 1 {
      assert (a + b)[1..] == b;
    } else {
      assert (a + b)[1..] == a[1..] + b;
      JoinAppend(a[1..], b);
    }
  }

  /** The lines of each item in turn: `xs.flatMap(f)`. */
  function FlatMap<T>(f: T -> seq<string>, xs: seq<T>): seq<string>
  {
    if xs == [] then [] else FlatMap(f, xs[..|xs| - 1]) + f(xs[|xs| - 1])
  }

  /** The items' lines follow one another in the order given. */
  lemma {:induction false} FlatMapAppend<T>(f: T -> seq<string>, xs: seq<T>, ys: seq<T>)
    decreases |ys|
    ensures FlatMap(f, xs + ys) == FlatMap(f, xs) + FlatMap(f, ys)
  {
    if ys == [] {
      assert xs + ys == xs;
    } else {
      var m := |ys| - 1;
      var zs := xs + ys;
      assert zs[..|zs| - 1] == xs + ys[..m];
      assert zs[|zs| - 1] == ys[m];
      var a, b, c := FlatMap(f, xs), FlatMap(f, ys[..m]), f(ys[m]);
      calc {
        FlatMap(f, zs);
        FlatMap(f, xs + ys[..m]) + c;
        { FlatMapAppend(f, xs, ys[..m]); }
        a + b + c;
        a + (b + c);
        a + FlatMap(f, ys);
      }
    }
  }

  // ---------------------------------------------------------------------
  // decimal numbers
  // ---------------------------------------------------------------------

  /** `parseInt(s, 10)` of a run of digits. */
  function DigitsValue(s: string): nat
    requires AllDigits(s)
  {
    if s == [] then 0 else DigitsValue(s[..|s| - 1]) * 10 + (s[|s| - 1] as int - '0' as int)
  }

  /** `String(n)` for a non-negative integer. */
  function NatToString(n: nat): (r: string)
    ensures |r| >= 1 && AllDigits(r)
  {
    if n < 10 then [('0' as int + n) as char]
    else NatToString(n / 10) + [('0' as int + n % 10) as char]
  }

  lemma {:induction false} DigitsValueOfNatToString(n: nat)
    ensures DigitsValue(NatToString(n)) == n
  {
    var r := NatToString(n);
    if n >= 10 {
      DigitsValueOfNatToString(n / 10);
      assert r[..|r| - 1] == NatToString(n / 10);
    }
  }

  /** `String(n).padStart(2, '0')`. */
  function Pad2(n: nat): (r: string)
    ensures AllDigits(r)
    ensures |r| == if n < 10 then 2 else |NatToString(n)|
  {
    var s := NatToString(n);
    if |s| < 2 then "0" + s else s
  }

  lemma {:induction false} Pad2Value(n: nat)
    ensures |Pad2(n)| >= 2 && DigitsValue(Pad2(n)) == n
  {
    DigitsValueOfNatToString(n);
    var s := NatToString(n);
    if |s| < 2 {
      assert |s| == 1;
      var p := "0" + s;
      assert p[..|p| - 1] == "0";
      assert DigitsValue("0") == 0 by { assert "0"[..0] == ""; }
      assert s[..0] == "";
    }
    NatToStringLength(n);
  }

  lemma {:induction false} NatToStringLength(n: nat)
    ensures n >= 10 ==> |NatToString(n)| >= 2
  {
  }

  // ---------------------------------------------------------------------
  // searches
  // ---------------------------------------------------------------------

  predicate StartsWith(s: string, p: string) { |p| <= |s| && s[..|p|] == p }

  predicate EndsWith(s: string, p: string) { |p| <= |s| && s[|s| - |p|..] == p }

  predicate OccursAt(s: string, t: string, i: nat) { i + |t| <= |s| && s[i..i + |t|] == t }

  /** `t` in place at `k` in `s`, character by character. */
  predicate CharsAt(s: string, t: string, k: nat)
  {
    k + |t| <= |s| && forall i :: 0 <= i < |t| ==> s[k + i] == t[i]
  }

  /** One character of a text in place. */
  lemma CharOf(s: string, t: string, k: nat, i: nat)
    requires CharsAt(s, t, k) && i < |t|
    ensures s[k + i] == t[i]
  {
  }

  /** A text in place occurs there. */
  lemma CharsOccur(s: string, t: string, k: nat)
    requires CharsAt(s, t, k)
    ensures OccursAt(s, t, k)
  {
    assert s[k..k + |t|] == t;
  }

  /** Two texts in place side by side are their concatenation in place. */
  lemma CharsJoin(s: string, t: string, u: string, k: nat)
    requires CharsAt(s, t, k) && CharsAt(s, u, k + |t|)
    ensures CharsAt(s, t + u, k)
  {
    forall i | 0 <= i < |t + u| ensures s[k + i] == (t + u)[i] {
      if i >= |t| {
        assert s[k + |t| + (i - |t|)] == u[i - |t|];
      }
    }
  }

  /** No `c` in `s[lo..hi]`. */
  predicate NoneIn(s: string, lo: nat, hi: nat, c: char)
  {
    hi <= |s| && forall i :: lo <= i < hi ==> s[i] != c
  }

  /** A stretch of a text in place that holds no `c`. */
  lemma NoneInPart(s: string, t: string, k: nat, c: char, j: nat, l: nat)
    requires CharsAt(s, t, k) && j <= l <= |t| && c !in t[j..l]
    ensures NoneIn(s, k + j, k + l, c)
  {
    forall i | k + j <= i < k + l ensures s[i] != c {
      assert t[j..l][i - k - j] == t[i - k];
    }
  }

  /** A text in place that holds no `c`. */
  lemma NoneInChars(s: string, t: string, k: nat, c: char)
    requires CharsAt(s, t, k) && c !in t
    ensures NoneIn(s, k, k + |t|, c)
  {
    forall i | k <= i < k + |t| ensures s[i] != c {
      CharOf(s, t, k, i - k);
    }
  }

  /** Two adjacent stretches without `c`. */
  lemma NoneInJoin(s: string, lo: nat, mid: nat, hi: nat, c: char)
    requires lo <= mid <= hi && NoneIn(s, lo, mid, c) && NoneIn(s, mid, hi, c)
    ensures NoneIn(s, lo, hi, c)
  {
  }

  /** No occurrence of `t` starts where its first character is missing. */
  lemma AbsentWhereNone(s: string, t: string, lo: nat, hi: nat)
    requires t != "" && NoneIn(s, lo, hi, t[0])
    ensures forall i :: lo <= i < hi ==> !OccursAt(s, t, i)
  {
    forall i | lo <= i < hi ensures !OccursAt(s, t, i) {
      Mismatch(s, t, i, 0);
    }
  }

  /** A text that differs from `t` at its `j`-th character holds no `t` there. */
  lemma Mismatch(s: string, t: string, i: nat, j: nat)
    requires i + j < |s| && j < |t| && s[i + j] != t[j]
    ensures !OccursAt(s, t, i)
  {
    if i + |t| <= |s| {
      assert s[i..i + |t|][j] == s[i + j];
    }
  }

  /** `s.includes(t)`. */
  predicate Contains(s: string, t: string) { exists i :: 0 <= i <= |s| && OccursAt(s, t, i) }

  /** A text ends with what was appended to it. */
  lemma EndsWithAppended(s: string, t: string)
    ensures EndsWith(s + t, t)
  {
    assert (s + t)[|s + t| - |t|..] == t;
  }

  /** A text built of five pieces opens with the first, holds the middle one and closes with the last. */
  lemma Framed(a: string, b: string, c: string, d: string, e: string)
    ensures StartsWith(a + b + c + d + e, a)
    ensures Contains(a + b + c + d + e, c)
    ensures EndsWith(a + b + c + d + e, e)
  {
    var s := a + b + c + d + e;
    assert s[..|a|] == a;
    assert s[|a| + |b|..|a| + |b| + |c|] == c;
    assert OccursAt(s, c, |a| + |b|);
    assert s[|s| - |e|..] == e;
  }

  lemma ContainsAfter(x: string, y: string, t: string)
    requires Contains(y, t)
    ensures Contains(x + y, t)
  {
    var i :| 0 <= i <= |y| && OccursAt(y, t, i);
    assert (x + y)[|x| + i..|x| + i + |t|] == y[i..i + |t|];
    assert OccursAt(x + y, t, |x| + i);
  }

  lemma ContainsBefore(x: string, y: string, t: string)
    requires Contains(x, t)
    ensures Contains(x + y, t)
  {
    var i :| 0 <= i <= |x| && OccursAt(x, t, i);
    assert (x + y)[i..i + |t|] == x[i..i + |t|];
    assert OccursAt(x + y, t, i);
  }

  lemma ContainsSelf(t: string)
    ensures Contains(t, t)
  {
    assert t[0..|t|] == t;
    assert OccursAt(t, t, 0);
  }

  lemma ContainsTrans(s: string, t: string, u: string)
    requires Contains(s, t) && Contains(t, u)
    ensures Contains(s, u)
  {
    var i :| 0 <= i <= |s| && OccursAt(s, t, i);
    var j :| 0 <= j <= |t| && OccursAt(t, u, j);
    var w := s[i..i + |t|];
    assert w == t;
    forall k | 0 <= k < |u| ensures s[i + j..i + j + |u|][k] == u[k] {
      assert s[i + j..i + j + |u|][k] == w[j + k] == t[j..j + |u|][k];
    }
    assert s[i + j..i + j + |u|] == u;
    assert OccursAt(s, u, i + j);
  }

  /** The pieces of a template literal, one after another. */
  function Concat(parts: seq<string>): string
  {
    if parts == [] then "" else parts[0] + Concat(parts[1..])
  }

  /** A template literal contains each of its pieces. */
  lemma {:induction false} ConcatContains(parts: seq<string>, j: nat)
    requires j < |parts|
    decreases j
    ensures Contains(Concat(parts), parts[j])
  {
    if j == 0 {
      ContainsSelf(parts[0]);
      ContainsBefore(parts[0], Concat(parts[1..]), parts[0]);
    } else {
      ConcatContains(parts[1..], j - 1);
      ContainsAfter(parts[0], Concat(parts[1..]), parts[j]);
    }
  }

  /** Lines joined with newlines contain each line. */
  lemma {:induction false} JoinContains(ls: seq<string>, j: nat)
    requires j < |ls|
    decreases j
    ensures Contains(Join(ls), ls[j])
  {
    ContainsSelf(ls[j]);
    if |ls| > 1 {
      var rest := Join(ls[1..]);
      assert Join(ls) == ls[0] + ("\n" + rest);
      if j == 0 {
        ContainsBefore(ls[0], "\n" + rest, ls[0]);
      } else {
        JoinContains(ls[1..], j - 1);
        ContainsAfter("\n", rest, ls[j]);
        ContainsAfter(ls[0], "\n" + rest, ls[j]);
      }
    }
  }

  /** `path.join(dir, name)` for a normalised directory and a plain name. */
  function PathJoin(dir: string, name: string): string
  {
    if dir == "" then name else dir + "/" + name
  }

  /** Under one directory, different names give different paths. */
  lemma PathJoinInjective(dir: string, a: string, b: string)
    requires PathJoin(dir, a) == PathJoin(dir, b)
    ensures a == b
  {
    if dir != "" {
      var n := |dir| + 1;
      assert a == PathJoin(dir, a)[n..];
      assert b == PathJoin(dir, b)[n..];
    }
  }

  /** `s.repeat(n)` for a one-character `s`. */
  function Repeat(c: char, n: nat): (r: string)
    ensures |r| == n && forall i :: 0 <= i < n ==> r[i] == c
  {
    if n == 0 then "" else [c] + Repeat(c, n - 1)
  }

  /** Position of the end of the run of whitespace starting at `p`. */
  function WsEnd(s: string, p: nat): (q: nat)
    requires p <= |s|
    ensures p <= q <= |s|
    ensures q == |s| || !IsWs(s[q])
    decreases |s| - p
  {
    if p < |s| && IsWs(s[p]) then WsEnd(s, p + 1) else p
  }

  /**
   * The least index in `[p, n]` where `P` holds: the position at which a
   * regular expression search from `p` succeeds first.
   */
  function FirstIndex(P: nat -> bool, p: nat, n: nat): (r: Option<nat>)
    requires p <= n
    decreases n - p
    ensures r.Some? ==> p <= r.value <= n && P(r.value)
  {
    if P(p) then Some(p)
    else if p == n then None
    else FirstIndex(P, p + 1, n)
  }

  /** `FirstIndex` finds the leftmost index, and `None` means there is none. */
  lemma {:induction false} FirstIndexLeftmost(P: nat -> bool, p: nat, n: nat)
    requires p <= n
    decreases n - p
    ensures FirstIndex(P, p, n).Some? ==> forall i :: p <= i < FirstIndex(P, p, n).value ==> !P(i)
    ensures FirstIndex(P, p, n).None? ==> forall i :: p <= i <= n ==> !P(i)
  {
    if !P(p) && p < n {
      FirstIndexLeftmost(P, p + 1, n);
    }
  }

  /** `FirstIndex` is the index where `P` first holds. */
  lemma {:induction false} FirstIndexAt(P: nat -> bool, p: nat, n: nat, k: nat)
    requires p <= k <= n && P(k)
    requires forall i :: p <= i < k ==> !P(i)
    decreases k - p
    ensures FirstIndex(P, p, n) == Some(k)
  {
    if p < k {
      FirstIndexAt(P, p + 1, n, k);
    }
  }

  /** Two tests that agree on `[p, n]` are first met at the same index. */
  lemma {:induction false} FirstIndexSame(P: nat -> bool, Q: nat -> bool, p: nat, n: nat)
    requires p <= n
    requires forall i :: p <= i <= n ==> P(i) == Q(i)
    decreases n - p
    ensures FirstIndex(P, p, n) == FirstIndex(Q, p, n)
  {
    if !P(p) && p < n {
      FirstIndexSame(P, Q, p + 1, n);
    }
  }

  /** Position of the end of the run of digits starting at `p`. */
  function DigitsEnd(s: string, p: nat): (q: nat)
    requires p <= |s|
    ensures p <= q <= |s|
    ensures AllDigits(s[p..q])
    ensures q == |s| || !IsDigit(s[q])
    decreases |s| - p
  {
    if p < |s| && IsDigit(s[p]) then DigitsEnd(s, p + 1) else p
  }

  /** A run of digits followed by a non-digit, or by the end, ends there. */
  lemma {:induction false} DigitsEndAt(s: string, p: nat, q: nat)
    requires p <= q <= |s|
    requires forall i :: p <= i < q ==> IsDigit(s[i])
    requires q == |s| || !IsDigit(s[q])
    decreases q - p
    ensures DigitsEnd(s, p) == q
  {
    if p < q {
      DigitsEndAt(s, p + 1, q);
    }
  }

  /** The characters `WsEnd` skips are whitespace. */
  lemma {:induction false} WsRun(s: string, q: nat)
    requires q <= |s|
    decreases |s| - q
    ensures AllWs(s[q..WsEnd(s, q)])
  {
    if q < |s| && IsWs(s[q]) {
      WsRun(s, q + 1);
      assert s[q..WsEnd(s, q)] == [s[q]] + s[q + 1..WsEnd(s, q)];
    }
  }

  /** `WsEnd` stops at or before the first non-blank from `p`. */
  lemma {:induction false} WsEndStops(s: string, p: nat, k: nat)
    requires p <= k < |s| && !IsWs(s[k])
    decreases k - p
    ensures WsEnd(s, p) <= k
  {
    if p < k {
      WsEndStops(s, p + 1, k);
    }
  }

  /** A run of blanks followed by a non-blank, or by the end, ends there. */
  lemma {:induction false} WsEndAt(s: string, p: nat, q: nat)
    requires p <= q <= |s|
    requires forall i :: p <= i < q ==> IsWs(s[i])
    requires q == |s| || !IsWs(s[q])
    decreases q - p
    ensures WsEnd(s, p) == q
  {
    if p < q {
      WsEndAt(s, p + 1, q);
    }
  }

  /** The multiline `^`: the start, or just after a line terminator. */
  predicate LineStart(s: string, p: nat)
  {
    p == 0 || (0 < p <= |s| && IsLineTerminator(s[p - 1]))
  }

  /** Position of the first line terminator at or after `p` (or the end). */
  function LineEnd(s: string, p: nat): (q: nat)
    requires p <= |s|
    ensures p <= q <= |s|
    ensures q == |s| || IsLineTerminator(s[q])
    decreases |s| - p
  {
    if p < |s| && !IsLineTerminator(s[p]) then LineEnd(s, p + 1) else p
  }

  /** No line terminator stands between `p` and its line end. */
  lemma {:induction false} LineEndRun(s: string, p: nat)
    requires p <= |s|
    ensures forall i :: p <= i < LineEnd(s, p) ==> !IsLineTerminator(s[i])
    decreases |s| - p
  {
    if p < |s| && !IsLineTerminator(s[p]) {
      LineEndRun(s, p + 1);
    }
  }

  /** `LineEnd` stops at the first line terminator. */
  lemma {:induction false} LineEndAt(s: string, p: nat, e: nat)
    requires p <= e < |s| && IsLineTerminator(s[e])
    requires forall i :: p <= i < e ==> !IsLineTerminator(s[i])
    decreases e - p
    ensures LineEnd(s, p) == e
  {
    if p < e {
      LineEndAt(s, p + 1, e);
    }
  }

  /** The JavaScript `.replace(/^["']|["']$/g, '')` of one surrounding quote each side. */
  function StripQuotes(s: string, quotes: set<char>): (r: string)
    ensures |r| <= |s|
  {
    var a := if |s| > 0 && s[0] in quotes then s[1..] else s;
    if |a| > 0 && a[|a| - 1] in quotes then a[..|a| - 1] else a
  }
}
