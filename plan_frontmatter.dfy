/**
 * The PLAN.md frontmatter reader `parsePlanFrontmatter` (src/state-read.js):
 * the leading `---` block, the typed scalar fields, and the list fields in
 * their inline, multi-line and single-value forms.
 */
module PlanFrontmatter {
  import opened Wrappers
  import opened Text
  import StateRead

  // =====================================================================
  // the leading block `^---\r?\n([\s\S]*?)\r?\n---`
  // =====================================================================

  /** Where the block's text starts: after `---\n` or `---\r\n`. */
  function BlockStart(c: string): (r: Option<nat>)
    ensures r.Some? ==> r.value <= |c| && StartsWith(c, "---")
  {
    if StartsWith(c, "---\r\n") then Some(5)
    else if StartsWith(c, "---\n") then Some(4)
    else None
  }

  /** A closing delimiter `\r?\n---` starts at `k`. */
  predicate ClosesAt(c: string, k: nat)
  {
    OccursAt(c, "\r\n---", k) || OccursAt(c, "\n---", k)
  }

  function CloseTest(c: string): nat -> bool
  {
    (k: nat) => ClosesAt(c, k)
  }

  /** The lazy capture: the text up to the first closing delimiter. */
  function FrontText(c: string): (r: Option<string>)
    ensures r.Some? ==> BlockStart(c).Some?
    ensures r.Some? ==> var b := BlockStart(c).value;
      b + |r.value| <= |c| && c[b..b + |r.value|] == r.value && ClosesAt(c, b + |r.value|)
  {
    match BlockStart(c)
    case None => None
    case Some(b) =>
      match FirstIndex(CloseTest(c), b, |c|)
      case Some(k) => Some(c[b..k])
      case None => None
  }

  /** The block ends at the first closing delimiter, and there is no block when there is none. */
  lemma FrontTextLeftmost(c: string)
    ensures FrontText(c).Some? ==> forall k :: BlockStart(c).value <= k < BlockStart(c).value + |FrontText(c).value| ==> !ClosesAt(c, k)
    ensures FrontText(c).None? <==> (BlockStart(c).None? || forall k :: BlockStart(c).value <= k <= |c| ==> !ClosesAt(c, k))
  {
    if BlockStart(c).Some? {
      var b := BlockStart(c).value;
      FirstIndexLeftmost(CloseTest(c), b, |c|);
      forall k | b <= k <= |c| ensures CloseTest(c)(k) == ClosesAt(c, k) { }
    }
  }

  /**
   * A document that opens with `---\n`, then a text with no closing
   * delimiter of its own, then `\n---`, has exactly that text as its block.
   */
  lemma {:induction false} FrontTextOf(t: string, rest: string)
    requires forall i :: 0 <= i < |t| ==> !ClosesAt(t + "\n---", i)
    ensures FrontText("---\n" + t + "\n---" + rest) == Some(t)
  {
    var c := "---\n" + t + "\n---" + rest;
    assert c[..5] != "---\r\n" by { assert c[3] == '\n'; }
    assert c[..4] == "---\n";
    assert BlockStart(c) == Some(4);
    assert c[4..4 + |t|] == t;
    assert ClosesAt(c, 4 + |t|) by { assert c[4 + |t|..4 + |t| + 4] == "\n---"; }
    forall i | 4 <= i < 4 + |t| ensures !CloseTest(c)(i) {
      var u := t + "\n---";
      assert u == c[4..4 + |t| + 4];
      assert c[i..i + 4] == u[i - 4..i];
      assert c[i..i + 5] == u[i - 4..i + 1];
      assert !ClosesAt(u, i - 4);
    }
    FirstIndexAt(CloseTest(c), 4, |c|, 4 + |t|);
  }

  // =====================================================================
  // scalar fields `^field:\s*(.+)$` (multiline)
  // =====================================================================

  /** A scalar value: `true`/`false` are booleans, all-digit values integers. */
  datatype Scalar = Bool(b: bool) | Int(n: nat) | Str(s: string)

  /** The typing of a trimmed raw value. */
  function Typed(raw: string): Scalar
  {
    if raw == "true" then Bool(true)
    else if raw == "false" then Bool(false)
    else if raw != [] && AllDigits(raw) then Int(DigitsValue(raw))
    else Str(raw)
  }

  /** How a scalar is written in a plan file. */
  function Render(v: Scalar): string
  {
    match v
    case Bool(b) => if b then "true" else "false"
    case Int(n) => NatToString(n)
    case Str(s) => s
  }

  /** Reading back a written scalar gives the scalar, unless a string looks like a boolean or a number. */
  lemma TypedRender(v: Scalar)
    requires v.Str? ==> Typed(v.s).Str?
    ensures Typed(Render(v)) == v
  {
    if v.Int? {
      DigitsValueOfNatToString(v.n);
      assert NatToString(v.n)[0] != 't' && NatToString(v.n)[0] != 'f';
    }
  }

  /** `^field:` at `p`. */
  predicate KeyAt(s: string, key: string, p: nat)
  {
    LineStart(s, p) && OccursAt(s, key + ":", p)
  }

  predicate ScalarAt(s: string, key: string, p: nat)
  {
    KeyAt(s, key, p) && StateRead.LineValueAt(s, p + |key| + 1).Some?
  }

  function ScalarTest(s: string, key: string): nat -> bool
  {
    (p: nat) => ScalarAt(s, key, p)
  }

  /** The typed value at the first line that holds the field, if any. */
  function ScalarField(s: string, key: string): (r: Option<Scalar>)
  {
    match FirstIndex(ScalarTest(s, key), 0, |s|)
    case Some(p) =>
      var v := StateRead.LineValueAt(s, p + |key| + 1).value;
      Some(Typed(Trim(s[v.0..v.1])))
    case None => None
  }

  /** A first line `key: value` gives the value, typed. */
  lemma {:induction false} ScalarLineReads(key: string, v: string, rest: string)
    requires v != [] && IsTrimmed(v)
    requires forall i :: 0 <= i < |v| ==> !IsLineTerminator(v[i])
    ensures ScalarField(key + ": " + v + "\n" + rest, key) == Some(Typed(v))
  {
    var s := key + ": " + v + "\n" + rest;
    var q := |key| + 1;
    ScalarLineValue(key, v, rest);
    assert s[..q] == key + ":";
    ScalarFieldAtStart(s, key, q + 1, q + 1 + |v|, v);
  }

  lemma {:induction false} ScalarLineValue(key: string, v: string, rest: string)
    requires v != [] && IsTrimmed(v)
    requires forall i :: 0 <= i < |v| ==> !IsLineTerminator(v[i])
    ensures var s := key + ": " + v + "\n" + rest; var q := |key| + 1;
      StateRead.LineValueAt(s, q) == Some((q + 1, q + 1 + |v|)) && s[q + 1..q + 1 + |v|] == v
  {
    var s := key + ": " + v + "\n" + rest;
    var q := |key| + 1;
    assert s[q] == ' ' && s[q + 1] == v[0];
    assert WsEnd(s, q + 1) == q + 1;
    assert WsEnd(s, q) == q + 1;
    LineEndAt(s, q + 1, q + 1 + |v|);
    assert s[q + 1..q + 1 + |v|] == v;
  }

  /** A field on the first line is the one the search finds. */
  lemma ScalarFieldAtStart(s: string, key: string, b: nat, e: nat, v: string)
    requires OccursAt(s, key + ":", 0)
    requires StateRead.LineValueAt(s, |key| + 1) == Some((b, e))
    requires s[b..e] == v && IsTrimmed(v)
    ensures ScalarField(s, key) == Some(Typed(v))
  {
    assert ScalarAt(s, key, 0);
    assert FirstIndex(ScalarTest(s, key), 0, |s|) == Some(0);
    TrimOfTrimmed(v);
  }

  /** A list field on the first line is the one the search finds. */
  lemma ListRawAtStart(g: Gap, s: string, key: string, w: nat, raw: string)
    requires OccursAt(s, key + ":", 0)
    requires |key| + 1 <= w <= |s| && GapEnd(g, s, |key| + 1) == w
    requires w + |raw| <= |s| && LineEnd(s, w) == w + |raw| && s[w..w + |raw|] == raw && IsTrimmed(raw)
    ensures ListRaw(g, s, key) == Some(raw)
  {
    assert KeyTest(s, key)(0);
    TrimOfTrimmed(raw);
  }

  // =====================================================================
  // list fields `^field:\s*(.*)$` (multiline)
  // =====================================================================

  /**
   * The blank run between `field:` and its value: any whitespace as
   * written (`\s*`, which crosses line ends), or only spaces and tabs.
   */
  datatype Gap = AnyWs | SameLine

  predicate IsBlank(c: char) { c == ' ' || c == '\t' }

  function GapEnd(g: Gap, s: string, p: nat): (q: nat)
    requires p <= |s|
    ensures p <= q <= |s|
    decreases |s| - p
  {
    if p < |s| && (if g.AnyWs? then IsWs(s[p]) else IsBlank(s[p])) then GapEnd(g, s, p + 1) else p
  }

  /** The raw value: the trimmed rest of the line the gap ends on. */
  function ListRaw(g: Gap, s: string, key: string): (r: Option<string>)
  {
    match FirstIndex(KeyTest(s, key), 0, |s|)
    case Some(p) =>
      var w := GapEnd(g, s, p + |key| + 1);
      Some(Trim(s[w..LineEnd(s, w)]))
    case None => None
  }

  function KeyTest(s: string, key: string): nat -> bool
  {
    (p: nat) => p + |key| + 1 <= |s| && KeyAt(s, key, p)
  }

  const Quotes: set<char> := {'"', '\''}

  /** `s.trim().replace(/^["']|["']$/g, '')`. */
  function Clean(x: string): string
  {
    StripQuotes(Trim(x), Quotes)
  }

  /** `[a, "b"]`: the text between the brackets, split on commas. */
  function InlineItems(raw: string): (r: seq<string>)
  {
    var inner := Trim(if |raw| >= 2 then raw[1..|raw| - 1] else "");
    if inner == "" then []
    else
      CleanAll(SplitOn(inner, ','))
  }

  /** `lines.findIndex((l) => l.match(/^field:/))`. */
  function FindKeyLine(lines: seq<string>, key: string, k: nat): (r: Option<nat>)
    requires k <= |lines|
    decreases |lines| - k
    ensures r.Some? ==> k <= r.value < |lines| && StartsWith(lines[r.value], key + ":")
  {
    if k == |lines| then None
    else if StartsWith(lines[k], key + ":") then Some(k)
    else FindKeyLine(lines, key, k + 1)
  }

  /** The capture of `^\s+-\s+(.+)` on one line. */
  function ItemText(l: string): (r: Option<string>)
  {
    if l != [] && IsWs(l[0]) then
      var w := WsEnd(l, 1);
      if w + 1 < |l| && l[w] == '-' && IsWs(l[w + 1]) then
        match StateRead.LineValueAt(l, w + 2)
        case Some(v) => Some(l[v.0..v.1])
        case None => None
      else None
    else None
  }

  /** `/^\S/`: a line that ends the item run. */
  predicate Unindented(l: string) { l != [] && !IsWs(l[0]) }

  /** What one line is to the item loop. */
  datatype LineKind = Item(text: string) | Skip | Stop

  function Kind(l: string): LineKind
  {
    match ItemText(l)
    case Some(x) => Item(Clean(x))
    case None => if Unindented(l) then Stop else Skip
  }

  function Kinds(lines: seq<string>): (r: seq<LineKind>)
    ensures |r| == |lines|
  {
    if lines == [] then [] else [Kind(lines[0])] + Kinds(lines[1..])
  }

  lemma {:induction false} KindsAt(lines: seq<string>, j: nat)
    requires j < |lines|
    ensures Kinds(lines)[j] == Kind(lines[j])
  {
    if j > 0 {
      KindsAt(lines[1..], j - 1);
    }
  }

  /** The item loop from line `i`: items are kept, other indented lines skipped, an unindented line stops it. */
  function CollectFrom(ks: seq<LineKind>, i: nat, items: seq<string>): seq<string>
    decreases |ks| - i
  {
    if i >= |ks| then items
    else match ks[i]
      case Item(x) => CollectFrom(ks, i + 1, items + [x])
      case Skip => CollectFrom(ks, i + 1, items)
      case Stop => items
  }

  /** The multi-line form: items after the first line that opens with `field:`. */
  function MultiLine(lines: seq<string>, key: string): seq<string>
  {
    match FindKeyLine(lines, key, 0)
    case Some(i) => CollectFrom(Kinds(lines), i + 1, [])
    case None => []
  }

  /** The list a raw value stands for. */
  function ListValue(raw: string, s: string, key: string): seq<string>
  {
    if StartsWith(raw, "[") then InlineItems(raw)
    else if raw == "" then MultiLine(Split(s), key)
    else [StripQuotes(raw, Quotes)]
  }

  function ListField(g: Gap, s: string, key: string): Option<seq<string>>
  {
    match ListRaw(g, s, key)
    case Some(raw) => Some(ListValue(raw, s, key))
    case None => None
  }

  /** The multi-line item loop, with its early exit. */
  method CollectItems(lines: seq<string>, key: string) returns (items: seq<string>)
    ensures items == MultiLine(lines, key)
  {
    items := [];
    var found := FindKeyLine(lines, key, 0);
    if found.Some? {
      ghost var ks := Kinds(lines);
      var i := found.value + 1;
      while i < |lines|
        invariant i <= |lines|
        invariant CollectFrom(ks, i, items) == CollectFrom(ks, found.value + 1, [])
        decreases |lines| - i
      {
        var k := Kind(lines[i]);
        KindsAt(lines, i);
        if k.Item? {
          items := items + [k.text];
        } else if k.Stop? {
          break;
        }
        i := i + 1;
      }
    }
  }

  // =====================================================================
  // properties of the list forms
  // =====================================================================

  /** An item a list can carry through every form: no commas, quotes at the ends or line breaks. */
  predicate PlainItem(x: string)
  {
    x != [] && IsTrimmed(x) && ',' !in x && x[0] !in Quotes && x[|x| - 1] !in Quotes
    && forall i :: 0 <= i < |x| ==> !IsLineTerminator(x[i])
  }

  /** `[a, b, c]`. */
  function RenderInline(items: seq<string>): string
  {
    "[" + JoinOn(Spaced(items), ',') + "]"
  }

  function Spaced(items: seq<string>): (r: seq<string>)
    ensures |r| == |items|
  {
    seq(|items|, i requires 0 <= i < |items| => if i == 0 then items[0] else " " + items[i])
  }

  lemma PlainClean(x: string)
    requires PlainItem(x)
    ensures Clean(x) == x && Clean(" " + x) == x
  {
    TrimOfTrimmed(x);
    TrimPadded(" ", x, "");
    assert " " + x + "" == " " + x;
  }

  /** Each piece of a split, cleaned. */
  function CleanAll(ps: seq<string>): (r: seq<string>)
    ensures |r| == |ps|
  {
    seq(|ps|, i requires 0 <= i < |ps| => Clean(ps[i]))
  }

  /** The inline form reads back the items it was written from. */
  lemma {:induction false} InlineRoundTrip(items: seq<string>)
    requires |items| >= 1
    requires forall k :: 0 <= k < |items| ==> PlainItem(items[k])
    ensures InlineItems(RenderInline(items)) == items
  {
    var ps := Spaced(items);
    var j := JoinOn(ps, ',');
    var raw := RenderInline(items);
    assert raw[1..|raw| - 1] == j;
    forall k | 0 <= k < |ps| ensures ',' !in ps[k] {
      if k > 0 { assert ps[k] == " " + items[k]; }
    }
    JoinOnEnds(ps, ',');
    assert IsTrimmed(j);
    TrimOfTrimmed(j);
    SplitOnJoinOn(ps, ',');
    CleanSpaced(items);
  }

  lemma CleanSpaced(items: seq<string>)
    requires forall k :: 0 <= k < |items| ==> PlainItem(items[k])
    ensures CleanAll(Spaced(items)) == items
  {
    forall k | 0 <= k < |items| ensures CleanAll(Spaced(items))[k] == items[k] {
      PlainClean(items[k]);
    }
  }

  /** A join starts with the first part's first character and ends with the last part's last. */
  lemma JoinOnEnds(ps: seq<string>, sep: char)
    requires |ps| >= 1 && ps[0] != [] && ps[|ps| - 1] != []
    ensures var j := JoinOn(ps, sep); j != [] && j[0] == ps[0][0] && j[|j| - 1] == ps[|ps| - 1][|ps[|ps| - 1]| - 1]
  {
    JoinOnLast(ps, sep);
  }

  lemma {:induction false} JoinOnLast(ps: seq<string>, sep: char)
    requires |ps| >= 1 && ps[|ps| - 1] != []
    ensures var j := JoinOn(ps, sep); j != [] && j[|j| - 1] == ps[|ps| - 1][|ps[|ps| - 1]| - 1]
  {
    if |ps| > 1 {
      JoinOnLast(ps[1..], sep);
    }
  }

  /** A first line `key: [a, b]` gives the items, with either gap. */
  lemma {:induction false} InlineLineReads(g: Gap, key: string, items: seq<string>, rest: string)
    requires |items| >= 1
    requires forall k :: 0 <= k < |items| ==> PlainItem(items[k])
    ensures ListField(g, key + ": " + RenderInline(items) + "\n" + rest, key) == Some(items)
  {
    var raw := RenderInline(items);
    var s := key + ": " + raw + "\n" + rest;
    InlineNoTerminator(items);
    assert IsTrimmed(raw);
    ValueLineRaw(g, key, raw, rest);
    InlineRoundTrip(items);
    ListValueInline(raw, s, key);
  }

  /** A first line `key: raw` with a trimmed one-line `raw` has `raw` as its raw value, with either gap. */
  lemma {:induction false} ValueLineRaw(g: Gap, key: string, raw: string, rest: string)
    requires raw != [] && IsTrimmed(raw)
    requires forall i :: 0 <= i < |raw| ==> !IsLineTerminator(raw[i])
    ensures ListRaw(g, key + ": " + raw + "\n" + rest, key) == Some(raw)
  {
    var s := key + ": " + raw + "\n" + rest;
    var q := |key| + 1;
    assert s[..q] == key + ":";
    assert s[q] == ' ' && s[q + 1] == raw[0];
    assert GapEnd(g, s, q + 1) == q + 1;
    assert GapEnd(g, s, q) == q + 1;
    forall i | q + 1 <= i < q + 1 + |raw| ensures !IsLineTerminator(s[i]) {
      assert s[i] == raw[i - q - 1];
    }
    LineEndAt(s, q + 1, q + 1 + |raw|);
    assert s[q + 1..q + 1 + |raw|] == raw;
    ListRawAtStart(g, s, key, q + 1, raw);
  }

  lemma ListValueInline(raw: string, s: string, key: string)
    requires StartsWith(raw, "[")
    ensures ListValue(raw, s, key) == InlineItems(raw)
  {
  }

  lemma {:induction false} InlineNoTerminator(items: seq<string>)
    requires forall k :: 0 <= k < |items| ==> PlainItem(items[k])
    ensures forall i :: 0 <= i < |RenderInline(items)| ==> !IsLineTerminator(RenderInline(items)[i])
  {
    var ps := Spaced(items);
    forall k | 0 <= k < |ps| ensures forall i :: 0 <= i < |ps[k]| ==> !IsLineTerminator(ps[k][i]) {
      if k > 0 {
        forall i | 0 <= i < |ps[k]| ensures !IsLineTerminator(ps[k][i]) {
          if i > 0 { assert ps[k][i] == items[k][i - 1]; }
        }
      }
    }
    JoinOnNoTerminator(ps, ',');
  }

  lemma {:induction false} JoinOnNoTerminator(ps: seq<string>, sep: char)
    requires !IsLineTerminator(sep)
    requires forall k :: 0 <= k < |ps| ==> forall i :: 0 <= i < |ps[k]| ==> !IsLineTerminator(ps[k][i])
    ensures forall i :: 0 <= i < |JoinOn(ps, sep)| ==> !IsLineTerminator(JoinOn(ps, sep)[i])
  {
    if |ps| > 1 {
      JoinOnNoTerminator(ps[1..], sep);
      var j := JoinOn(ps, sep);
      var t := JoinOn(ps[1..], sep);
      assert j == ps[0] + [sep] + t;
      forall i | 0 <= i < |j| ensures !IsLineTerminator(j[i]) {
        if i < |ps[0]| {
          assert j[i] == ps[0][i];
        } else if i > |ps[0]| {
          assert j[i] == t[i - |ps[0]| - 1];
        }
      }
    }
  }

  /** `  - x`: one line of the multi-line form. */
  function ItemLine(x: string): string { "  - " + x }

  function ItemLines(xs: seq<string>): (r: seq<string>)
    ensures |r| == |xs|
  {
    seq(|xs|, i requires 0 <= i < |xs| => ItemLine(xs[i]))
  }

  lemma ItemTextOfLine(x: string)
    requires PlainItem(x)
    ensures ItemText(ItemLine(x)) == Some(x)
  {
    var l := ItemLine(x);
    assert l[1] == ' ' && l[2] == '-';
    assert WsEnd(l, 2) == 2;
    assert WsEnd(l, 1) == 2;
    assert l[4] == x[0];
    assert WsEnd(l, 4) == 4;
    forall i | 4 <= i < |l| ensures !IsLineTerminator(l[i]) {
      assert l[i] == x[i - 4];
    }
    assert LineEnd(l, 4) == |l| by { LineEndRest(l, 4); }
    assert l[4..|l|] == x;
  }

  /** `LineEnd` runs to the end when no line terminator follows. */
  lemma {:induction false} LineEndRest(s: string, p: nat)
    requires p <= |s|
    requires forall i :: p <= i < |s| ==> !IsLineTerminator(s[i])
    decreases |s| - p
    ensures LineEnd(s, p) == |s|
  {
    if p < |s| {
      LineEndRest(s, p + 1);
    }
  }

  /** The item loop collects a run of items and stops at the line after it. */
  lemma {:induction false} CollectRun(ks: seq<LineKind>, i: nat, items: seq<string>, xs: seq<string>)
    requires i + |xs| <= |ks|
    requires forall k :: 0 <= k < |xs| ==> ks[i + k] == Item(xs[k])
    requires i + |xs| == |ks| || ks[i + |xs|] == Stop
    decreases |xs|
    ensures CollectFrom(ks, i, items) == items + xs
  {
    if xs == [] {
      assert items + xs == items;
    } else {
      assert ks[i] == Item(xs[0]);
      CollectRun(ks, i + 1, items + [xs[0]], xs[1..]);
      assert items + [xs[0]] + xs[1..] == items + xs;
    }
  }

  /**
   * With the gap kept to one line, a field written as `key:` followed by
   * indented `- item` lines gives those items, whatever follows them.
   */
  lemma {:induction false} MultiLineReads(key: string, xs: seq<string>, post: seq<string>)
    requires NoNewline(key)
    requires forall k :: 0 <= k < |xs| ==> PlainItem(xs[k])
    requires forall k :: 0 <= k < |post| ==> NoNewline(post[k])
    requires |xs| + |post| >= 1
    requires post == [] || Unindented(post[0])
    ensures ListField(SameLine, key + ":\n" + Join(ItemLines(xs) + post), key) == Some(xs)
  {
    var s := key + ":\n" + Join(ItemLines(xs) + post);
    EmptyValueRaw(key, Join(ItemLines(xs) + post));
    ItemLinesNoNewline(xs, post);
    var lines := HeaderSplit(key, ItemLines(xs) + post);
    MultiLineItems(key, lines, xs, post);
    ListValueEmpty(s, key);
  }

  lemma ListValueEmpty(s: string, key: string)
    ensures ListValue("", s, key) == MultiLine(Split(s), key)
  {
  }

  /** The item loop over `key:` and item lines collects the items. */
  lemma {:induction false} MultiLineItems(key: string, lines: seq<string>, xs: seq<string>, post: seq<string>)
    requires forall k :: 0 <= k < |xs| ==> PlainItem(xs[k])
    requires post == [] || Unindented(post[0])
    requires lines == [key + ":"] + ItemLines(xs) + post
    ensures MultiLine(lines, key) == xs
  {
    assert lines[0] == key + ":";
    assert FindKeyLine(lines, key, 0) == Some(0);
    assert lines[1..] == ItemLines(xs) + post;
    ItemKinds(lines, xs, post);
    CollectRun(Kinds(lines), 1, [], xs);
    assert [] + xs == xs;
  }

  lemma {:induction false} ItemKinds(lines: seq<string>, xs: seq<string>, post: seq<string>)
    requires forall k :: 0 <= k < |xs| ==> PlainItem(xs[k])
    requires post == [] || Unindented(post[0])
    requires |lines| >= 1 && lines[1..] == ItemLines(xs) + post
    ensures forall k :: 0 <= k < |xs| ==> Kinds(lines)[1 + k] == Item(xs[k])
    ensures 1 + |xs| == |lines| || Kinds(lines)[1 + |xs|] == Stop
  {
    forall k | 0 <= k < |xs| ensures Kinds(lines)[1 + k] == Item(xs[k]) {
      assert lines[1 + k] == lines[1..][k] == ItemLine(xs[k]);
      KindOfItemLine(xs[k]);
      KindsAt(lines, 1 + k);
    }
    if post != [] {
      assert lines[1 + |xs|] == lines[1..][|xs|] == post[0];
      assert ItemText(post[0]) == None;
      KindsAt(lines, 1 + |xs|);
    }
  }

  lemma KindOfItemLine(x: string)
    requires PlainItem(x)
    ensures Kind(ItemLine(x)) == Item(x)
  {
    ItemTextOfLine(x);
    PlainClean(x);
  }

  /** `key:` with nothing after it on its line has an empty raw value when the gap stays on the line. */
  lemma EmptyValueRaw(key: string, body: string)
    ensures ListRaw(SameLine, key + ":\n" + body, key) == Some("")
  {
    var s := key + ":\n" + body;
    var q := |key| + 1;
    assert s[..q] == key + ":";
    assert KeyTest(s, key)(0);
    assert s[q] == '\n';
    assert GapEnd(SameLine, s, q) == q;
    assert LineEnd(s, q) == q;
    assert Trim(s[q..q]) == "";
  }

  lemma ItemLinesNoNewline(xs: seq<string>, post: seq<string>)
    requires forall k :: 0 <= k < |xs| ==> PlainItem(xs[k])
    requires forall k :: 0 <= k < |post| ==> NoNewline(post[k])
    ensures forall k :: 0 <= k < |ItemLines(xs) + post| ==> NoNewline((ItemLines(xs) + post)[k])
  {
    var ls := ItemLines(xs) + post;
    forall k | 0 <= k < |ls| ensures NoNewline(ls[k]) {
      if k < |xs| {
        assert ls[k] == ItemLine(xs[k]);
        forall i | 0 <= i < |ls[k]| ensures ls[k][i] != '\n' {
          if i >= 4 { assert ls[k][i] == xs[k][i - 4]; }
        }
      } else {
        assert ls[k] == post[k - |xs|];
      }
    }
  }

  /** The lines of `key:` followed by a newline and newline-free lines. */
  lemma HeaderSplit(key: string, ls: seq<string>) returns (lines: seq<string>)
    requires NoNewline(key) && |ls| >= 1
    requires forall k :: 0 <= k < |ls| ==> NoNewline(ls[k])
    ensures lines == Split(key + ":\n" + Join(ls)) == [key + ":"] + ls
  {
    SplitJoin(ls);
    SplitNoNewline(key + ":");
    assert key + ":\n" + Join(ls) == key + ":" + "\n" + Join(ls);
    SplitAround(key + ":", Join(ls));
    lines := Split(key + ":\n" + Join(ls));
  }

  // =====================================================================
  // the whole frontmatter
  // =====================================================================

  const ScalarKeys := ["phase", "plan", "type", "wave", "autonomous"]

  const ListKeys := ["depends_on", "files_modified"]

  /** The fields found, by name: absent keys were not in the block. */
  datatype Frontmatter = Frontmatter(scalars: map<string, Scalar>, lists: map<string, seq<string>>)

  /** Each scalar field's pattern, applied to the block's text. */
  function ScalarOf(s: string): string -> Option<Scalar>
  {
    (key: string) => ScalarField(s, key)
  }

  /** The scalar map after the first `n` scalar fields. */
  function ScalarsUpTo(field: string -> Option<Scalar>, keys: seq<string>, n: nat): map<string, Scalar>
    requires n <= |keys|
  {
    if n == 0 then map[]
    else
      var m := ScalarsUpTo(field, keys, n - 1);
      match field(keys[n - 1])
      case Some(v) => m[keys[n - 1] := v]
      case None => m
  }

  /** Each list field's pattern, applied to the block's text. */
  function ListOf(g: Gap, s: string): string -> Option<seq<string>>
  {
    (key: string) => ListField(g, s, key)
  }

  /** The list map after the first `n` list fields. */
  function ListsUpTo(field: string -> Option<seq<string>>, keys: seq<string>, n: nat): map<string, seq<string>>
    requires n <= |keys|
  {
    if n == 0 then map[]
    else
      var m := ListsUpTo(field, keys, n - 1);
      match field(keys[n - 1])
      case Some(v) => m[keys[n - 1] := v]
      case None => m
  }

  function PlanFrontmatterOf(g: Gap, content: string): Option<Frontmatter>
  {
    match FrontText(content)
    case Some(s) => Some(Frontmatter(ScalarsUpTo(ScalarOf(s), ScalarKeys, |ScalarKeys|), ListsUpTo(ListOf(g, s), ListKeys, |ListKeys|)))
    case None => None
  }

  /** `parsePlanFrontmatter`: the field loops over the block's text. */
  method ParsePlanFrontmatter(g: Gap, content: string) returns (r: Option<Frontmatter>)
    ensures r == PlanFrontmatterOf(g, content)
  {
    var front := FrontText(content);
    if front.None? {
      return None;
    }
    var scalars := ReadScalars(ScalarOf(front.value), ScalarKeys);
    var lists := ReadLists(g, front.value, ListKeys);
    r := Some(Frontmatter(scalars, lists));
  }

  /** The scalar field loop. */
  method ReadScalars(field: string -> Option<Scalar>, keys: seq<string>) returns (scalars: map<string, Scalar>)
    ensures scalars == ScalarsUpTo(field, keys, |keys|)
  {
    scalars := map[];
    for n := 0 to |keys|
      invariant scalars == ScalarsUpTo(field, keys, n)
    {
      var v := field(keys[n]);
      if v.Some? {
        scalars := scalars[keys[n] := v.value];
      }
    }
  }

  /** The list field loop. */
  method ReadLists(g: Gap, s: string, keys: seq<string>) returns (lists: map<string, seq<string>>)
    ensures lists == ListsUpTo(ListOf(g, s), keys, |keys|)
  {
    lists := map[];
    for n := 0 to |keys|
      invariant lists == ListsUpTo(ListOf(g, s), keys, n)
    {
      var items := ReadList(g, s, keys[n]);
      ListsStep(ListOf(g, s), keys, n, lists, items);
      if items.Some? {
        lists := lists[keys[n] := items.value];
      }
    }
  }

  lemma ListsStep(field: string -> Option<seq<string>>, keys: seq<string>, n: nat, lists: map<string, seq<string>>, items: Option<seq<string>>)
    requires n < |keys| && lists == ListsUpTo(field, keys, n) && items == field(keys[n])
    ensures ListsUpTo(field, keys, n + 1) == if items.Some? then lists[keys[n] := items.value] else lists
  {
  }

  /** One list field: the inline, multi-line or single-value form of its raw value. */
  method ReadList(g: Gap, s: string, key: string) returns (r: Option<seq<string>>)
    ensures r == ListOf(g, s)(key)
  {
    var raw := ListRaw(g, s, key);
    if raw.None? {
      return None;
    }
    var items;
    if StartsWith(raw.value, "[") {
      items := InlineItems(raw.value);
    } else if raw.value == "" {
      items := CollectItems(Split(s), key);
    } else {
      items := [StripQuotes(raw.value, Quotes)];
    }
    r := Some(items);
  }

  lemma {:induction false} ScalarsUpToFields(field: string -> Option<Scalar>, keys: seq<string>, n: nat)
    requires n <= |keys|
    ensures forall k :: k in ScalarsUpTo(field, keys, n) <==> k in keys[..n] && field(k).Some?
    ensures forall k :: k in ScalarsUpTo(field, keys, n) ==> ScalarsUpTo(field, keys, n)[k] == field(k).value
  {
    if n > 0 {
      ScalarsUpToFields(field, keys, n - 1);
      assert keys[..n] == keys[..n - 1] + [keys[n - 1]];
    }
  }

  lemma {:induction false} ListsUpToFields(field: string -> Option<seq<string>>, keys: seq<string>, n: nat)
    requires n <= |keys|
    ensures forall k :: k in ListsUpTo(field, keys, n) <==> k in keys[..n] && field(k).Some?
    ensures forall k :: k in ListsUpTo(field, keys, n) ==> ListsUpTo(field, keys, n)[k] == field(k).value
  {
    if n > 0 {
      ListsUpToFields(field, keys, n - 1);
      assert keys[..n] == keys[..n - 1] + [keys[n - 1]];
    }
  }

  /**
   * No frontmatter without a leading block; otherwise exactly the known
   * fields that occur in it, each with the value its own pattern reads.
   */
  lemma PlanFrontmatterFields(g: Gap, content: string)
    ensures PlanFrontmatterOf(g, content).None? <==> FrontText(content).None?
    ensures PlanFrontmatterOf(g, content).Some? ==> var f := PlanFrontmatterOf(g, content).value; var s := FrontText(content).value;
      (forall k :: k in f.scalars <==> k in ScalarKeys && ScalarField(s, k).Some?) &&
      (forall k :: k in f.scalars ==> f.scalars[k] == ScalarField(s, k).value) &&
      (forall k :: k in f.lists <==> k in ListKeys && ListField(g, s, k).Some?) &&
      (forall k :: k in f.lists ==> f.lists[k] == ListField(g, s, k).value)
  {
    if FrontText(content).Some? {
      var s := FrontText(content).value;
      ScalarsUpToFields(ScalarOf(s), ScalarKeys, |ScalarKeys|);
      ListsUpToFields(ListOf(g, s), ListKeys, |ListKeys|);
      assert ScalarKeys[..|ScalarKeys|] == ScalarKeys;
      assert ListKeys[..|ListKeys|] == ListKeys;
    }
  }

  // =====================================================================
  // the line-crossing gap
  // =====================================================================

  /**
   * As written, `\s*` runs on from `key:` into the first item line, so
   * the list is that line's text, dash included, and never the items:
   * `depends_on:\n  - a` reads as `["- a"]`.
   */
  lemma {:induction false} MultiLineAsWritten(key: string, xs: seq<string>, post: seq<string>)
    requires |xs| >= 1
    requires forall k :: 0 <= k < |xs| ==> PlainItem(xs[k])
    ensures ListField(AnyWs, key + ":\n" + Join(ItemLines(xs) + post), key) == Some(["- " + xs[0]])
  {
    var t := FirstLineSplit(key, xs, post);
    var s := key + ":\n  - " + xs[0] + t;
    FirstItemRaw(key, xs[0], t);
    DashedValue(xs[0]);
    SingleField(AnyWs, s, key, "- " + xs[0]);
  }

  lemma DashedValue(x: string)
    requires PlainItem(x)
    ensures StripQuotes("- " + x, Quotes) == "- " + x && "- " + x != "" && !StartsWith("- " + x, "[")
  {
    var v := "- " + x;
    assert v[..1] == "-";
  }

  lemma SingleField(g: Gap, s: string, key: string, raw: string)
    requires ListRaw(g, s, key) == Some(raw)
    requires raw != "" && !StartsWith(raw, "[")
    ensures ListField(g, s, key) == Some([StripQuotes(raw, Quotes)])
  {
    ListValueSingle(raw, s, key);
  }

  /** The field text is `key:`, the first item line, then the rest. */
  lemma FirstLineSplit(key: string, xs: seq<string>, post: seq<string>) returns (t: string)
    requires |xs| >= 1
    ensures key + ":\n" + Join(ItemLines(xs) + post) == key + ":\n  - " + xs[0] + t
    ensures t == "" || t[0] == '\n'
  {
    var ls := ItemLines(xs) + post;
    t := JoinHead(ls);
    assert ls[0] == "  - " + xs[0];
  }

  /** As written, the raw value of `key:` followed by an item line is that line's text from the dash. */
  lemma {:induction false} FirstItemRaw(key: string, x: string, t: string)
    requires PlainItem(x)
    requires t == "" || t[0] == '\n'
    ensures ListRaw(AnyWs, key + ":\n  - " + x + t, key) == Some("- " + x)
  {
    var v := "- " + x;
    var a := key + ":\n  " + v;
    var s := a + t;
    var q := |key| + 1;
    assert s == key + ":\n  - " + x + t;
    assert s[..q] == key + ":";
    assert s[q] == '\n' && s[q + 1] == ' ' && s[q + 2] == ' ' && s[q + 3] == '-';
    assert GapEnd(AnyWs, s, q + 3) == q + 3;
    assert GapEnd(AnyWs, s, q + 2) == q + 3;
    assert GapEnd(AnyWs, s, q + 1) == q + 3;
    assert GapEnd(AnyWs, s, q) == q + 3;
    forall i | q + 3 <= i < |a| ensures !IsLineTerminator(a[i]) {
      assert a[i] == v[i - q - 3];
      if i >= q + 5 { assert v[i - q - 3] == x[i - q - 5]; }
    }
    LineEndBefore(a, t, q + 3);
    assert s[q + 3..|a|] == v;
    assert IsTrimmed(v);
    ListRawAtStart(AnyWs, s, key, q + 3, v);
  }

  /** A line that runs to the end of `a` ends there when `b` starts a new line or is empty. */
  lemma LineEndBefore(a: string, b: string, p: nat)
    requires p <= |a|
    requires forall i :: p <= i < |a| ==> !IsLineTerminator(a[i])
    requires b == "" || IsLineTerminator(b[0])
    ensures LineEnd(a + b, p) == |a|
  {
    var s := a + b;
    forall i | p <= i < |a| ensures !IsLineTerminator(s[i]) { assert s[i] == a[i]; }
    if b == "" {
      assert s == a;
      LineEndRest(s, p);
    } else {
      assert s[|a|] == b[0];
      LineEndAt(s, p, |a|);
    }
  }

  lemma ListFieldOfRaw(g: Gap, s: string, key: string, raw: string)
    requires ListRaw(g, s, key) == Some(raw)
    ensures ListField(g, s, key) == Some(ListValue(raw, s, key))
  {
  }

  /** The text after a list's first line. */
  lemma JoinHead(ls: seq<string>) returns (t: string)
    requires |ls| >= 1
    ensures Join(ls) == ls[0] + t && (t == "" || t[0] == '\n')
  {
    t := if |ls| == 1 then "" else "\n" + Join(ls[1..]);
  }

  lemma ListValueSingle(raw: string, s: string, key: string)
    requires raw != "" && !StartsWith(raw, "[")
    ensures ListValue(raw, s, key) == [StripQuotes(raw, Quotes)]
  {
  }
}
