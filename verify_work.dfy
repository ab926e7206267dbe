/**
 * The must-haves reader of `src/verify-work.js` (`parseMustHaves`): the
 * `must_haves` block of PLAN.md frontmatter read line by line into truths,
 * artifacts and key links, and the round trip from a written block.
 */
module VerifyWork {
  import opened Wrappers
  import opened Text
  import PlanFrontmatter

  // =====================================================================
  // runs of characters
  // =====================================================================

  /** Position of the first `"` at or after `p` (or the end). */
  function QuoteEnd(s: string, p: nat): (q: nat)
    requires p <= |s|
    ensures p <= q <= |s|
    ensures q == |s| || s[q] == '"'
    decreases |s| - p
  {
    if p < |s| && s[p] != '"' then QuoteEnd(s, p + 1) else p
  }

  /** Position of the end of the run of `\w` characters starting at `p`. */
  function WordEnd(s: string, p: nat): (q: nat)
    requires p <= |s|
    ensures p <= q <= |s|
    ensures q == |s| || !IsWordChar(s[q])
    decreases |s| - p
  {
    if p < |s| && IsWordChar(s[p]) then WordEnd(s, p + 1) else p
  }

  lemma {:induction false} QuoteEndAt(s: string, p: nat, q: nat)
    requires p <= q <= |s|
    requires forall i :: p <= i < q ==> s[i] != '"'
    requires q == |s| || s[q] == '"'
    decreases q - p
    ensures QuoteEnd(s, p) == q
  {
    if p < q {
      QuoteEndAt(s, p + 1, q);
    }
  }

  lemma {:induction false} WordEndAt(s: string, p: nat, q: nat)
    requires p <= q <= |s|
    requires forall i :: p <= i < q ==> IsWordChar(s[i])
    requires q == |s| || !IsWordChar(s[q])
    decreases q - p
    ensures WordEnd(s, p) == q
  {
    if p < q {
      WordEndAt(s, p + 1, q);
    }
  }

  lemma {:induction false} LineEndAll(s: string, p: nat)
    requires p <= |s|
    requires forall i :: p <= i < |s| ==> !IsLineTerminator(s[i])
    decreases |s| - p
    ensures LineEnd(s, p) == |s|
  {
    if p < |s| {
      LineEndAll(s, p + 1);
    }
  }

  // =====================================================================
  // the line shapes of the must_haves block
  // =====================================================================

  /** `/^\S/.test(line) && !line.startsWith('#')`: an unindented line ends the block. */
  predicate EndsBlock(line: string)
  {
    |line| > 0 && !IsWs(line[0]) && line[0] != '#'
  }

  /** `/^must_haves:\s*$/`. */
  predicate IsMustHavesLine(line: string)
  {
    StartsWith(line, "must_haves:") && WsEnd(line, 11) == |line|
  }

  /**
   * `\s*(.*)$` from `p` without the multiline flag: after the blanks, no
   * line terminator up to the end of the line.
   */
  predicate RestToEnd(s: string, p: nat)
    requires p <= |s|
  {
    LineEnd(s, WsEnd(s, p)) == |s|
  }

  /**
   * `\s*(.+)$` from `p`: where the capture starts. When only blanks are
   * left the greedy `\s*` gives its last character back to `.+`.
   */
  function PlusStart(s: string, p: nat): (r: Option<nat>)
    requires p <= |s|
    ensures r.Some? ==> p <= r.value < |s|
  {
    var w := WsEnd(s, p);
    if w < |s| then (if LineEnd(s, w) == |s| then Some(w) else None)
    else if p < |s| && !IsLineTerminator(s[|s| - 1]) then Some(|s| - 1)
    else None
  }

  /**
   * `\s{min,}"?([^"]+)"?\s*$` matched from `p` to the end, and the
   * capture trimmed. Only blanks, or a lone quote after the blanks,
   * capture one blank that the `\s` run gives back (trimmed to `""`).
   */
  function QuotedValue(s: string, p: nat, min: nat): (r: Option<string>)
    requires p <= |s|
  {
    var w := WsEnd(s, p);
    if w - p < min then None
    else if w == |s| then (if |s| - p > min then Some("") else None)
    else if s[w] != '"' then
      var q := QuoteEnd(s, w);
      if q == |s| then Some(Trim(s[w..]))
      else if WsEnd(s, q + 1) == |s| then Some(Trim(s[w..q]))
      else None
    else
      var q := QuoteEnd(s, w + 1);
      if q == |s| then
        (if w + 1 < |s| then Some(Trim(s[w + 1..])) else if w - p > min then Some("") else None)
      else if q > w + 1 && WsEnd(s, q + 1) == |s| then Some(Trim(s[w + 1..q]))
      else None
  }

  /** `^  (\w[\w_]*):\s*(.*)$`: a two-space section header, and its name. */
  function SectionName(line: string): (r: Option<string>)
  {
    if |line| < 3 || line[0] != ' ' || line[1] != ' ' || !IsWordChar(line[2]) then None
    else
      var e := WordEnd(line, 2);
      if e == |line| || line[e] != ':' || !RestToEnd(line, e + 1) then None
      else Some(line[2..e])
  }

  /** `^\s+-\s+"([^"]+)"`: a truth item, and its text as written. */
  function TruthItem(line: string): (r: Option<string>)
  {
    var w := WsEnd(line, 0);
    if w == 0 || w == |line| || line[w] != '-' then None
    else
      var v := WsEnd(line, w + 1);
      if v == w + 1 || v == |line| || line[v] != '"' then None
      else
        var q := QuoteEnd(line, v + 1);
        if q == |line| || q == v + 1 then None else Some(line[v + 1..q])
  }

  /** `^\s+-\s+key:\s*"?([^"]+)"?\s*$`: a new list item, and its trimmed value. */
  function ItemValue(line: string, key: string): (r: Option<string>)
  {
    var w := WsEnd(line, 0);
    if w == 0 || w == |line| || line[w] != '-' then None
    else
      var v := WsEnd(line, w + 1);
      if v == w + 1 || !OccursAt(line, key + ":", v) then None
      else QuotedValue(line, v + |key| + 1, 0)
  }

  /** `^\s{6,}(\w[\w_]*):\s*(.+)$`: a continuation field, its key and its trimmed value. */
  function FieldLine(line: string): (r: Option<(string, string)>)
  {
    var w := WsEnd(line, 0);
    if w < 6 || w == |line| || !IsWordChar(line[w]) then None
    else
      var e := WordEnd(line, w);
      if e == |line| || line[e] != ':' then None
      else
        match PlusStart(line, e + 1)
        case None => None
        case Some(k) => Some((line[w..e], Trim(line[k..])))
  }

  /** `^\s{8,}-\s+"?([^"]+)"?\s*$`: one item of a multi-line exports list. */
  function ExportItem(line: string): (r: Option<string>)
  {
    var w := WsEnd(line, 0);
    if w < 8 || w == |line| || line[w] != '-' then None
    else QuotedValue(line, w + 1, 1)
  }

  // =====================================================================
  // field values
  // =====================================================================

  /** `.replace(/^"|"$/g, '')`. */
  function Unquote(s: string): string
  {
    StripQuotes(s, {'"'})
  }

  /** The result of `parseInt(s, 10)`: a number, or `NaN`. */
  datatype Number = NaN | Num(value: int)

  /** `parseInt(s, 10)`: leading blanks, an optional sign, then the leading digits. */
  function ParseInt(s: string): Number
  {
    var w := WsEnd(s, 0);
    var a := if w < |s| && (s[w] == '-' || s[w] == '+') then w + 1 else w;
    var e := DigitsEnd(s, a);
    if e == a then NaN
    else if w < |s| && s[w] == '-' then Num(0 - DigitsValue(s[a..e]))
    else Num(DigitsValue(s[a..e]))
  }

  /** The items of `inner.split(',')`, each trimmed and unquoted. */
  function ExportParts(ps: seq<string>): (r: seq<string>)
    ensures |r| == |ps|
  {
    if ps == [] then [] else [Unquote(Trim(ps[0]))] + ExportParts(ps[1..])
  }

  /** An `exports:` value: `[]`, an inline `[a, "b"]` list, or one bare item. */
  function ExportsOf(val: string): seq<string>
  {
    if StartsWith(val, "[") then
      var inner := Trim(val[1..if |val| >= 2 then |val| - 1 else 1]);
      if inner == "" then [] else ExportParts(SplitOn(inner, ','))
    else [Unquote(val)]
  }

  // =====================================================================
  // the must_haves record and the scan
  // =====================================================================

  datatype Artifact = Artifact(
    path: string,
    provided: Option<string>,
    exports: Option<seq<string>>,
    minLines: Option<Number>,
    contains: Option<string>)

  datatype KeyLink = KeyLink(from: string, target: Option<string>, via: Option<string>, pattern: Option<string>)

  datatype MustHaves = MustHaves(truths: seq<string>, artifacts: seq<Artifact>, keyLinks: seq<KeyLink>)

  /** The section being read and, in the object lists, the object not yet committed. */
  datatype Cursor = Outside | InTruths | InArtifacts(current: Option<Artifact>) | InKeyLinks(link: Option<KeyLink>)

  datatype Scan = Scan(cursor: Cursor, found: MustHaves)

  const Empty := MustHaves([], [], [])

  function NewArtifact(path: string): Artifact
  {
    Artifact(path, None, None, None, None)
  }

  function NewLink(from: string): KeyLink
  {
    KeyLink(from, None, None, None)
  }

  /** A recognised continuation field of an artifact; other keys are ignored. */
  function SetArtifactField(a: Artifact, key: string, val: string): Artifact
  {
    if key == "provides" then a.(provided := Some(Unquote(val)))
    else if key == "exports" then a.(exports := Some(ExportsOf(val)))
    else if key == "min_lines" then a.(minLines := Some(ParseInt(val)))
    else if key == "contains" then a.(contains := Some(Unquote(val)))
    else a
  }

  /** A recognised continuation field of a key link; the value is already unquoted. */
  function SetLinkField(l: KeyLink, key: string, val: string): KeyLink
  {
    if key == "to" then l.(target := Some(val))
    else if key == "via" then l.(via := Some(val))
    else if key == "pattern" then l.(pattern := Some(val))
    else l
  }

  /**
   * A section header commits the pending object: an artifact when its
   * path is non-empty, a key link always (its `from` is defined).
   */
  function CommitOnHeader(c: Cursor, m: MustHaves): MustHaves
  {
    match c
    case InArtifacts(Some(a)) => if a.path != "" then m.(artifacts := m.artifacts + [a]) else m
    case InKeyLinks(Some(l)) => m.(keyLinks := m.keyLinks + [l])
    case _ => m
  }

  /** The end of the block commits an artifact with a path or a key link with a `from`. */
  function CommitAtEnd(c: Cursor, m: MustHaves): MustHaves
  {
    match c
    case InArtifacts(Some(a)) => if a.path != "" then m.(artifacts := m.artifacts + [a]) else m
    case InKeyLinks(Some(l)) => if l.from != "" then m.(keyLinks := m.keyLinks + [l]) else m
    case _ => m
  }

  /** The cursor after a header named `name`: a known section, or the same section with nothing pending. */
  function HeaderCursor(c: Cursor, name: string): Cursor
  {
    if name == "truths" then InTruths
    else if name == "artifacts" then InArtifacts(None)
    else if name == "key_links" then InKeyLinks(None)
    else match c
      case InArtifacts(_) => InArtifacts(None)
      case InKeyLinks(_) => InKeyLinks(None)
      case _ => c
  }

  /** A line of the current section that is not a header. */
  function SectionLine(st: Scan, line: string): Scan
  {
    var m := st.found;
    match st.cursor
    case Outside => st
    case InTruths =>
      (match TruthItem(line)
       case Some(t) => Scan(InTruths, m.(truths := m.truths + [t]))
       case None => st)
    case InArtifacts(cur) =>
      (match ItemValue(line, "path")
       case Some(p) =>
         Scan(InArtifacts(Some(NewArtifact(p))), if cur.Some? then m.(artifacts := m.artifacts + [cur.value]) else m)
       case None =>
         if cur.None? then st
         else match FieldLine(line)
           case Some((key, val)) => Scan(InArtifacts(Some(SetArtifactField(cur.value, key, val))), m)
           case None =>
             match ExportItem(line)
             case Some(x) =>
               var a := cur.value;
               Scan(InArtifacts(Some(a.(exports := Some((if a.exports.Some? then a.exports.value else []) + [x])))), m)
             case None => st)
    case InKeyLinks(cur) =>
      match ItemValue(line, "from")
      case Some(f) =>
        Scan(InKeyLinks(Some(NewLink(f))), if cur.Some? && cur.value.from != "" then m.(keyLinks := m.keyLinks + [cur.value]) else m)
      case None =>
        if cur.None? then st
        else match FieldLine(line)
          case Some((key, val)) => Scan(InKeyLinks(Some(SetLinkField(cur.value, key, Unquote(val)))), m)
          case None => st
  }

  /**
   * One line inside the block. A known header switches section; an
   * unknown one only drops the pending object (after committing it) and
   * is then read as a line of the current section.
   */
  function Step(st: Scan, line: string): Scan
  {
    match SectionName(line)
    case Some(name) =>
      var m := CommitOnHeader(st.cursor, st.found);
      var c := HeaderCursor(st.cursor, name);
      if name == "truths" || name == "artifacts" || name == "key_links" then Scan(c, m)
      else SectionLine(Scan(c, m), line)
    case None => SectionLine(st, line)
  }

  /** The lines read up to the first unindented one. */
  function Run(st: Scan, ls: seq<string>): Scan
    decreases |ls|
  {
    if ls == [] || EndsBlock(ls[0]) then st else Run(Step(st, ls[0]), ls[1..])
  }

  function StartTest(ls: seq<string>): nat -> bool
  {
    (i: nat) => i < |ls| && IsMustHavesLine(ls[i])
  }

  /** `must_haves` of a frontmatter text: `None` without the key or without its own line. */
  function MustHavesOfBlock(fm: string): Option<MustHaves>
  {
    if !Contains(fm, "must_haves:") then None
    else
      var ls := Split(fm);
      match FirstIndex(StartTest(ls), 0, |ls|)
      case None => None
      case Some(i) =>
        var st := Run(Scan(Outside, Empty), ls[i + 1..]);
        Some(CommitAtEnd(st.cursor, st.found))
  }

  /** `parseMustHaves`: `None` without a leading frontmatter block. */
  function MustHavesOf(content: string): Option<MustHaves>
  {
    match PlanFrontmatter.FrontText(content)
    case None => None
    case Some(fm) => MustHavesOfBlock(fm)
  }

  /** `parseMustHaves` as the source runs it: a search for the key line, then the line loop. */
  method ParseMustHaves(content: string) returns (r: Option<MustHaves>)
    ensures r == MustHavesOf(content)
  {
    var front := PlanFrontmatter.FrontText(content);
    if front.None? {
      return None;
    }
    var fm := front.value;
    assert MustHavesOf(content) == MustHavesOfBlock(fm);
    if !Contains(fm, "must_haves:") {
      return None;
    }
    var ls := Split(fm);
    var start := -1;
    var i := 0;
    while i < |ls|
      invariant 0 <= i <= |ls|
      invariant FirstIndex(StartTest(ls), 0, |ls|) == FirstIndex(StartTest(ls), i, |ls|)
    {
      if IsMustHavesLine(ls[i]) {
        start := i;
        break;
      }
      i := i + 1;
    }
    if start == -1 {
      assert FirstIndex(StartTest(ls), i, |ls|) == None;
      return None;
    }
    assert FirstIndex(StartTest(ls), 0, |ls|) == Some(start);
    var st := ScanBlock(ls[start + 1..]);
    r := Some(CommitAtEnd(st.cursor, st.found));
  }

  /** The line loop: each line steps the scan until an unindented line. */
  method ScanBlock(ls: seq<string>) returns (st: Scan)
    ensures st == Run(Scan(Outside, Empty), ls)
  {
    var cursor := Outside;
    var found := Empty;
    var k := 0;
    while k < |ls|
      invariant k <= |ls|
      invariant Run(Scan(cursor, found), ls[k..]) == Run(Scan(Outside, Empty), ls)
    {
      if EndsBlock(ls[k]) {
        break;
      }
      assert ls[k..][1..] == ls[k + 1..];
      var next := Step(Scan(cursor, found), ls[k]);
      cursor, found := next.cursor, next.found;
      k := k + 1;
    }
    st := Scan(cursor, found);
  }

  // =====================================================================
  // reading the block: composition and the stop rule
  // =====================================================================

  /** Reading stops at the first unindented line: nothing after it is read. */
  lemma {:induction false} RunStops(st: Scan, a: seq<string>, stop: string, b: seq<string>)
    requires forall k :: 0 <= k < |a| ==> !EndsBlock(a[k])
    requires EndsBlock(stop)
    decreases |a|
    ensures Run(st, a + [stop] + b) == Run(st, a)
  {
    if a == [] {
      assert a + [stop] + b == [stop] + b;
    } else {
      assert (a + [stop] + b)[1..] == a[1..] + [stop] + b;
      RunStops(Step(st, a[0]), a[1..], stop, b);
    }
  }

  // =====================================================================
  // the block as a plan writes it, read back
  // =====================================================================

  /** A value that reads back unchanged: non-empty, trimmed, on one line, without quotes. */
  predicate Plain(t: string)
  {
    t != [] && IsTrimmed(t) && forall i :: 0 <= i < |t| ==> t[i] != '"' && !IsLineTerminator(t[i])
  }

  predicate OneLine(t: string)
  {
    forall i :: 0 <= i < |t| ==> !IsLineTerminator(t[i])
  }

  predicate IsWord(t: string)
  {
    t != [] && forall i :: 0 <= i < |t| ==> IsWordChar(t[i])
  }

  function Quote(t: string): string { "\"" + t + "\"" }

  function HeaderLine(name: string): string { "  " + name + ":" }

  function TruthLine(t: string): string { "    - " + Quote(t) }

  function ItemLine(key: string, v: string): string { "    - " + key + ": " + Quote(v) }

  function FieldText(key: string, v: string): string { "      " + key + ": " + v }

  lemma WordNotWs(c: char)
    requires IsWordChar(c)
    ensures !IsWs(c) && !IsLineTerminator(c) && c != '"'
  {
  }

  lemma {:induction false} HeaderReads(name: string)
    requires IsWord(name)
    ensures SectionName(HeaderLine(name)) == Some(name) && !EndsBlock(HeaderLine(name))
  {
    var l := HeaderLine(name);
    var n := |name|;
    forall i | 2 <= i < 2 + n ensures IsWordChar(l[i]) { assert l[i] == name[i - 2]; }
    WordEndAt(l, 2, 2 + n);
    assert l[2..2 + n] == name;
  }

  lemma {:induction false} TruthLineReads(t: string)
    requires t != [] && forall i :: 0 <= i < |t| ==> t[i] != '"'
    ensures !EndsBlock(TruthLine(t)) && SectionName(TruthLine(t)) == None
    ensures TruthItem(TruthLine(t)) == Some(t)
  {
    var l := TruthLine(t);
    WsEndAt(l, 0, 4);
    WsEndAt(l, 5, 6);
    forall i | 7 <= i < 7 + |t| ensures l[i] != '"' { assert l[i] == t[i - 7]; }
    QuoteEndAt(l, 7, 7 + |t|);
    assert l[7..7 + |t|] == t;
  }

  lemma ItemLineReads(key: string, v: string)
    requires IsWord(key) && Plain(v)
    ensures !EndsBlock(ItemLine(key, v)) && SectionName(ItemLine(key, v)) == None
    ensures ItemValue(ItemLine(key, v), key) == Some(v)
  {
    ItemLinePlain(key, v);
    ItemLineValue(key, v);
  }

  /** An item line neither ends the block nor names a section. */
  lemma {:induction false} ItemLinePlain(key: string, v: string)
    requires IsWord(key)
    ensures !EndsBlock(ItemLine(key, v)) && SectionName(ItemLine(key, v)) == None
  {
    var l := ItemLine(key, v);
    WsEndAt(l, 0, 4);
  }

  /** An item line gives its value under its key. */
  lemma ItemLineValue(key: string, v: string)
    requires IsWord(key) && Plain(v)
    ensures ItemValue(ItemLine(key, v), key) == Some(v)
  {
    var l := ItemLine(key, v);
    ItemLineHead(key, v);
    ItemLineTail(key, v);
    QuotedAt(l, 7 + |key|, v);
  }

  /** A written item line opens with four blanks, the dash, one blank and the key with its colon. */
  lemma ItemLineHead(key: string, v: string)
    requires IsWord(key)
    ensures var l := ItemLine(key, v);
      |l| > 6 && WsEnd(l, 0) == 4 && l[4] == '-' && WsEnd(l, 5) == 6 && OccursAt(l, key + ":", 6)
  {
    var l := ItemLine(key, v);
    WsEndAt(l, 0, 4);
    WordNotWs(key[0]);
    WsEndAt(l, 5, 6);
    assert l[6..6 + |key| + 1] == key + ":";
  }

  /** After the key and its colon, a written item line holds a blank and the quoted value. */
  lemma ItemLineTail(key: string, v: string)
    ensures var l := ItemLine(key, v); 7 + |key| <= |l| && l[7 + |key|..] == " " + Quote(v)
  {
  }

  /** A blank and a quoted plain value, to the end of the line, give the value. */
  lemma {:induction false} QuotedAt(s: string, p: nat, v: string)
    requires p <= |s| && s[p..] == " " + Quote(v) && Plain(v)
    ensures QuotedValue(s, p, 0) == Some(v)
  {
    var t := s[p..];
    assert |s| == p + |v| + 3;
    assert s[p] == ' ' && s[p + 1] == '"' && s[|s| - 1] == '"';
    WsEndAt(s, p, p + 1);
    forall i | p + 2 <= i < p + 2 + |v| ensures s[i] != '"' { assert s[i] == t[i - p] == v[i - p - 2]; }
    QuoteEndAt(s, p + 2, p + 2 + |v|);
    assert s[p + 2..p + 2 + |v|] == v;
    TrimOfTrimmed(v);
  }

  lemma FieldTextReads(key: string, v: string, item: string)
    requires IsWord(key) && v != [] && IsTrimmed(v) && OneLine(v)
    ensures !EndsBlock(FieldText(key, v)) && SectionName(FieldText(key, v)) == None
    ensures ItemValue(FieldText(key, v), item) == None
    ensures FieldLine(FieldText(key, v)) == Some((key, v))
  {
    FieldTextPlain(key, v, item);
    FieldTextValue(key, v);
  }

  /** A field line neither ends the block, names a section nor is an item. */
  lemma {:induction false} FieldTextPlain(key: string, v: string, item: string)
    requires IsWord(key)
    ensures !EndsBlock(FieldText(key, v)) && SectionName(FieldText(key, v)) == None
    ensures ItemValue(FieldText(key, v), item) == None
  {
    var l := FieldText(key, v);
    WordNotWs(key[0]);
    WsEndAt(l, 0, 6);
  }

  /** A field line gives its key and value. */
  lemma FieldTextValue(key: string, v: string)
    requires IsWord(key) && v != [] && IsTrimmed(v) && OneLine(v)
    ensures FieldLine(FieldText(key, v)) == Some((key, v))
  {
    FieldTextKey(key, v);
    FieldTextRest(key, v);
    TrimOfTrimmed(v);
  }

  /** The key of a written field line: six blanks, the word, then the colon. */
  lemma FieldTextKey(key: string, v: string)
    requires IsWord(key)
    ensures var l := FieldText(key, v);
      WsEnd(l, 0) == 6 && 6 + |key| < |l| && WordEnd(l, 6) == 6 + |key| && l[6 + |key|] == ':' &&
      l[6..6 + |key|] == key
  {
    var l := FieldText(key, v);
    var n := |key|;
    WordNotWs(key[0]);
    WsEndAt(l, 0, 6);
    forall i | 6 <= i < 6 + n ensures IsWordChar(l[i]) { assert l[i] == key[i - 6]; }
    WordEndAt(l, 6, 6 + n);
    assert l[6..6 + n] == key;
  }

  /** The value of a written field line: after the colon and its blank, the rest of the line. */
  lemma FieldTextRest(key: string, v: string)
    requires v != [] && IsTrimmed(v) && OneLine(v)
    ensures var l := FieldText(key, v);
      7 + |key| <= |l| && PlusStart(l, 7 + |key|) == Some(8 + |key|) && l[8 + |key|..] == v
  {
    var l := FieldText(key, v);
    var n := |key|;
    WsEndAt(l, 7 + n, 8 + n);
    forall i | 8 + n <= i < |l| ensures !IsLineTerminator(l[i]) { assert l[i] == v[i - 8 - n]; }
    LineEndAll(l, 8 + n);
    assert l[8 + n..] == v;
  }

  // ---------------------------------------------------------------------
  // field values written and read back
  // ---------------------------------------------------------------------

  lemma UnquoteQuote(t: string)
    ensures Unquote(Quote(t)) == t
  {
    var q := Quote(t);
    assert q[1..] == t + "\"";
    assert (t + "\"")[..|t|] == t;
  }

  /** How a number is written: `NaN`, or its decimal digits with a sign when negative. */
  function NumberText(x: Number): string
  {
    match x
    case NaN => "NaN"
    case Num(n) => if n >= 0 then NatToString(n) else "-" + NatToString(-n)
  }

  lemma {:induction false} DigitsEndAll(s: string, p: nat)
    requires p <= |s| && forall i :: p <= i < |s| ==> IsDigit(s[i])
    decreases |s| - p
    ensures DigitsEnd(s, p) == |s|
  {
    if p < |s| {
      DigitsEndAll(s, p + 1);
    }
  }

  /** `parseInt` reads back every number as written. */
  lemma ParseIntText(x: Number)
    ensures ParseInt(NumberText(x)) == x
  {
    if x.Num? {
      if x.value >= 0 {
        ParseIntDigits(x.value);
      } else {
        ParseIntNegative(-x.value);
      }
    } else {
      var s := NumberText(x);
      assert WsEnd(s, 0) == 0;
      assert DigitsEnd(s, 0) == 0;
    }
  }

  lemma ParseIntDigits(n: nat)
    ensures ParseInt(NatToString(n)) == Num(n)
  {
    var s := NatToString(n);
    DigitsValueOfNatToString(n);
    assert WsEnd(s, 0) == 0;
    DigitsEndAll(s, 0);
    assert s[0..|s|] == s;
  }

  lemma ParseIntNegative(n: nat)
    requires n > 0
    ensures ParseInt("-" + NatToString(n)) == Num(-(n as int))
  {
    var d := NatToString(n);
    var s := "-" + d;
    DigitsValueOfNatToString(n);
    assert WsEnd(s, 0) == 0;
    forall i | 1 <= i < |s| ensures IsDigit(s[i]) { assert s[i] == d[i - 1]; }
    DigitsEndAll(s, 1);
    assert s[1..|s|] == d;
  }

  /** Items that read back from an inline list: plain and without commas. */
  predicate PlainItems(xs: seq<string>)
  {
    forall k :: 0 <= k < |xs| ==> Plain(xs[k]) && ',' !in xs[k]
  }

  /** How an exports list is written inline. */
  function ExportsText(xs: seq<string>): string
  {
    "[" + JoinOn(xs, ',') + "]"
  }

  lemma {:induction false} JoinOnShape(xs: seq<string>)
    requires PlainItems(xs)
    decreases |xs|
    ensures OneLine(JoinOn(xs, ','))
    ensures xs != [] ==> JoinOn(xs, ',') != [] && JoinOn(xs, ',')[0] == xs[0][0]
    ensures xs != [] ==> JoinOn(xs, ',')[|JoinOn(xs, ',')| - 1] == xs[|xs| - 1][|xs[|xs| - 1]| - 1]
  {
    if |xs| > 1 {
      assert PlainItems(xs[1..]) by {
        forall k | 0 <= k < |xs[1..]| ensures Plain(xs[1..][k]) && ',' !in xs[1..][k] { assert xs[1..][k] == xs[k + 1]; }
      }
      JoinOnShape(xs[1..]);
      var j := JoinOn(xs[1..], ',');
      var r := xs[0] + [','] + j;
      assert JoinOn(xs, ',') == r;
      forall i | 0 <= i < |r| ensures !IsLineTerminator(r[i]) {
        if i < |xs[0]| {
          assert r[i] == xs[0][i];
        } else if i > |xs[0]| {
          assert r[i] == j[i - |xs[0]| - 1];
        }
      }
      assert xs[1..][|xs[1..]| - 1] == xs[|xs| - 1];
    }
  }

  lemma {:induction false} ExportPartsPlain(xs: seq<string>)
    requires PlainItems(xs)
    decreases |xs|
    ensures ExportParts(xs) == xs
  {
    if xs != [] {
      TrimOfTrimmed(xs[0]);
      assert PlainItems(xs[1..]) by {
        forall k | 0 <= k < |xs[1..]| ensures Plain(xs[1..][k]) && ',' !in xs[1..][k] { assert xs[1..][k] == xs[k + 1]; }
      }
      ExportPartsPlain(xs[1..]);
      assert xs == [xs[0]] + xs[1..];
    }
  }

  /** An inline exports list reads back as written. */
  lemma {:induction false} ExportsOfText(xs: seq<string>)
    requires PlainItems(xs)
    ensures ExportsOf(ExportsText(xs)) == xs
  {
    var j := JoinOn(xs, ',');
    var val := ExportsText(xs);
    assert val[1..|val| - 1] == j;
    JoinOnShape(xs);
    TrimOfTrimmed(j);
    if xs != [] {
      SplitOnJoinOn(xs, ',');
      ExportPartsPlain(xs);
    }
  }

  // ---------------------------------------------------------------------
  // continuation fields
  // ---------------------------------------------------------------------

  /** A field that reads back: a `\w` key and a trimmed one-line value. */
  predicate GoodField(f: (string, string))
  {
    IsWord(f.0) && f.1 != [] && IsTrimmed(f.1) && OneLine(f.1)
  }

  predicate GoodFields(fs: seq<(string, string)>)
  {
    forall k :: 0 <= k < |fs| ==> GoodField(fs[k])
  }

  lemma GoodFieldsAppend(f: seq<(string, string)>, g: seq<(string, string)>)
    requires GoodFields(f) && GoodFields(g)
    ensures GoodFields(f + g)
  {
    forall k | 0 <= k < |f + g| ensures GoodField((f + g)[k]) {
      if k < |f| {
        assert (f + g)[k] == f[k];
      } else {
        assert (f + g)[k] == g[k - |f|];
      }
    }
  }

  function FieldLines(fs: seq<(string, string)>): (r: seq<string>)
    ensures |r| == |fs|
  {
    if fs == [] then [] else [FieldText(fs[0].0, fs[0].1)] + FieldLines(fs[1..])
  }

  function SetFields(a: Artifact, fs: seq<(string, string)>): Artifact
    decreases |fs|
  {
    if fs == [] then a else SetFields(SetArtifactField(a, fs[0].0, fs[0].1), fs[1..])
  }

  function SetLinkFields(l: KeyLink, fs: seq<(string, string)>): KeyLink
    decreases |fs|
  {
    if fs == [] then l else SetLinkFields(SetLinkField(l, fs[0].0, Unquote(fs[0].1)), fs[1..])
  }

  lemma {:induction false} SetFieldsAppend(a: Artifact, f: seq<(string, string)>, g: seq<(string, string)>)
    decreases |f|
    ensures SetFields(a, f + g) == SetFields(SetFields(a, f), g)
  {
    if f == [] {
      assert f + g == g;
    } else {
      assert (f + g)[1..] == f[1..] + g;
      SetFieldsAppend(SetArtifactField(a, f[0].0, f[0].1), f[1..], g);
    }
  }

  lemma {:induction false} SetLinkFieldsAppend(l: KeyLink, f: seq<(string, string)>, g: seq<(string, string)>)
    decreases |f|
    ensures SetLinkFields(l, f + g) == SetLinkFields(SetLinkFields(l, f), g)
  {
    if f == [] {
      assert f + g == g;
    } else {
      assert (f + g)[1..] == f[1..] + g;
      SetLinkFieldsAppend(SetLinkField(l, f[0].0, Unquote(f[0].1)), f[1..], g);
    }
  }

  lemma FieldStep(a: Artifact, m: MustHaves, key: string, v: string)
    requires GoodField((key, v))
    ensures !EndsBlock(FieldText(key, v))
    ensures Step(Scan(InArtifacts(Some(a)), m), FieldText(key, v)) == Scan(InArtifacts(Some(SetArtifactField(a, key, v))), m)
  {
    FieldTextReads(key, v, "path");
  }

  lemma LinkFieldStep(l: KeyLink, m: MustHaves, key: string, v: string)
    requires GoodField((key, v))
    ensures !EndsBlock(FieldText(key, v))
    ensures Step(Scan(InKeyLinks(Some(l)), m), FieldText(key, v)) == Scan(InKeyLinks(Some(SetLinkField(l, key, Unquote(v)))), m)
  {
    FieldTextReads(key, v, "from");
  }

  /** Continuation lines of an artifact set its fields, one after another. */
  lemma {:induction false} FieldsRun(a: Artifact, m: MustHaves, fs: seq<(string, string)>, rest: seq<string>)
    requires GoodFields(fs)
    decreases |fs|
    ensures Run(Scan(InArtifacts(Some(a)), m), FieldLines(fs) + rest)
         == Run(Scan(InArtifacts(Some(SetFields(a, fs))), m), rest)
  {
    if fs == [] {
      assert FieldLines(fs) + rest == rest;
    } else {
      var l := FieldText(fs[0].0, fs[0].1);
      var ls := FieldLines(fs) + rest;
      assert ls[0] == l && ls[1..] == FieldLines(fs[1..]) + rest;
      var b := SetArtifactField(a, fs[0].0, fs[0].1);
      FieldStep(a, m, fs[0].0, fs[0].1);
      assert ls == [l] + (FieldLines(fs[1..]) + rest);
      RunCons(Scan(InArtifacts(Some(a)), m), l, FieldLines(fs[1..]) + rest);
      GoodFieldsTail(fs);
      FieldsRun(b, m, fs[1..], rest);
    }
  }

  lemma GoodFieldsTail(fs: seq<(string, string)>)
    requires fs != [] && GoodFields(fs)
    ensures GoodFields(fs[1..])
  {
    forall k | 0 <= k < |fs[1..]| ensures GoodField(fs[1..][k]) { assert fs[1..][k] == fs[k + 1]; }
  }

  /** Continuation lines of a key link set its fields, unquoted, one after another. */
  lemma {:induction false} LinkFieldsRun(l: KeyLink, m: MustHaves, fs: seq<(string, string)>, rest: seq<string>)
    requires GoodFields(fs)
    decreases |fs|
    ensures Run(Scan(InKeyLinks(Some(l)), m), FieldLines(fs) + rest)
         == Run(Scan(InKeyLinks(Some(SetLinkFields(l, fs))), m), rest)
  {
    if fs == [] {
      assert FieldLines(fs) + rest == rest;
    } else {
      var t := FieldText(fs[0].0, fs[0].1);
      var ls := FieldLines(fs) + rest;
      assert ls[0] == t && ls[1..] == FieldLines(fs[1..]) + rest;
      var b := SetLinkField(l, fs[0].0, Unquote(fs[0].1));
      LinkFieldStep(l, m, fs[0].0, fs[0].1);
      assert ls == [t] + (FieldLines(fs[1..]) + rest);
      RunCons(Scan(InKeyLinks(Some(l)), m), t, FieldLines(fs[1..]) + rest);
      GoodFieldsTail(fs);
      LinkFieldsRun(b, m, fs[1..], rest);
    }
  }

  lemma QuoteShape(t: string)
    requires OneLine(t)
    ensures Quote(t) != [] && IsTrimmed(Quote(t)) && OneLine(Quote(t))
  {
    var q := Quote(t);
    forall i | 0 <= i < |q| ensures !IsLineTerminator(q[i]) {
      if 0 < i < |q| - 1 {
        assert q[i] == t[i - 1];
      }
    }
  }

  lemma NumberTextShape(x: Number)
    ensures GoodField(("min_lines", NumberText(x)))
  {
    var s := NumberText(x);
    if x.Num? {
      var d := NatToString(if x.value >= 0 then x.value else -x.value);
      assert AllDigits(d);
      if x.value < 0 {
        assert s == "-" + d;
        forall i | 0 <= i < |s| ensures !IsLineTerminator(s[i]) {
          if i > 0 {
            assert s[i] == d[i - 1];
          }
        }
      }
    }
  }

  lemma ExportsTextShape(xs: seq<string>)
    requires PlainItems(xs)
    ensures GoodField(("exports", ExportsText(xs)))
  {
    var j := JoinOn(xs, ',');
    var s := ExportsText(xs);
    JoinOnShape(xs);
    forall i | 0 <= i < |s| ensures !IsLineTerminator(s[i]) {
      if 0 < i < |s| - 1 {
        assert s[i] == j[i - 1];
      }
    }
  }

  // ---------------------------------------------------------------------
  // artifacts and key links as a plan writes them
  // ---------------------------------------------------------------------

  /** An artifact a plan can write so that it reads back. */
  predicate WritableArtifact(a: Artifact)
  {
    Plain(a.path)
    && (a.provided.Some? ==> OneLine(a.provided.value))
    && (a.exports.Some? ==> PlainItems(a.exports.value))
    && (a.contains.Some? ==> OneLine(a.contains.value))
  }

  predicate WritableLink(l: KeyLink)
  {
    Plain(l.from)
    && (l.target.Some? ==> OneLine(l.target.value))
    && (l.via.Some? ==> OneLine(l.via.value))
    && (l.pattern.Some? ==> OneLine(l.pattern.value))
  }

  function ArtifactFields(a: Artifact): seq<(string, string)>
  {
    (if a.provided.Some? then [("provides", Quote(a.provided.value))] else [])
    + (if a.exports.Some? then [("exports", ExportsText(a.exports.value))] else [])
    + (if a.minLines.Some? then [("min_lines", NumberText(a.minLines.value))] else [])
    + (if a.contains.Some? then [("contains", Quote(a.contains.value))] else [])
  }

  function LinkFields(l: KeyLink): seq<(string, string)>
  {
    (if l.target.Some? then [("to", Quote(l.target.value))] else [])
    + (if l.via.Some? then [("via", Quote(l.via.value))] else [])
    + (if l.pattern.Some? then [("pattern", Quote(l.pattern.value))] else [])
  }

  /** An artifact item: its `- path:` line, then one line per field it has. */
  function ArtifactLines(a: Artifact): seq<string>
  {
    [ItemLine("path", a.path)] + FieldLines(ArtifactFields(a))
  }

  function LinkLines(l: KeyLink): seq<string>
  {
    [ItemLine("from", l.from)] + FieldLines(LinkFields(l))
  }

  lemma FieldKeysAreWords()
    ensures IsWord("provides") && IsWord("exports") && IsWord("min_lines") && IsWord("contains")
    ensures IsWord("to") && IsWord("via") && IsWord("pattern")
  {
  }

  lemma ArtifactFieldsGood(a: Artifact)
    requires WritableArtifact(a)
    ensures GoodFields(ArtifactFields(a))
  {
    FieldKeysAreWords();
    var P := if a.provided.Some? then [("provides", Quote(a.provided.value))] else [];
    var E := if a.exports.Some? then [("exports", ExportsText(a.exports.value))] else [];
    var M := if a.minLines.Some? then [("min_lines", NumberText(a.minLines.value))] else [];
    var C := if a.contains.Some? then [("contains", Quote(a.contains.value))] else [];
    if a.provided.Some? { QuoteShape(a.provided.value); }
    if a.exports.Some? { ExportsTextShape(a.exports.value); }
    if a.minLines.Some? { NumberTextShape(a.minLines.value); }
    if a.contains.Some? { QuoteShape(a.contains.value); }
    GoodFieldsAppend(P, E);
    GoodFieldsAppend(P + E, M);
    GoodFieldsAppend(P + E + M, C);
  }

  lemma LinkFieldsGood(l: KeyLink)
    requires WritableLink(l)
    ensures GoodFields(LinkFields(l))
  {
    FieldKeysAreWords();
    var T := if l.target.Some? then [("to", Quote(l.target.value))] else [];
    var V := if l.via.Some? then [("via", Quote(l.via.value))] else [];
    var P := if l.pattern.Some? then [("pattern", Quote(l.pattern.value))] else [];
    if l.target.Some? { QuoteShape(l.target.value); }
    if l.via.Some? { QuoteShape(l.via.value); }
    if l.pattern.Some? { QuoteShape(l.pattern.value); }
    GoodFieldsAppend(T, V);
    GoodFieldsAppend(T + V, P);
  }

  /** The fields an artifact writes set exactly that artifact again. */
  lemma ArtifactFieldsSet(a: Artifact)
    requires WritableArtifact(a)
    ensures SetFields(NewArtifact(a.path), ArtifactFields(a)) == a
  {
    var P := if a.provided.Some? then [("provides", Quote(a.provided.value))] else [];
    var E := if a.exports.Some? then [("exports", ExportsText(a.exports.value))] else [];
    var M := if a.minLines.Some? then [("min_lines", NumberText(a.minLines.value))] else [];
    var C := if a.contains.Some? then [("contains", Quote(a.contains.value))] else [];
    var x0 := NewArtifact(a.path);
    SetFieldsAppend(x0, P + E + M, C);
    SetFieldsAppend(x0, P + E, M);
    SetFieldsAppend(x0, P, E);
    var x1 := SetFields(x0, P);
    assert x1 == x0.(provided := a.provided) by {
      if a.provided.Some? { UnquoteQuote(a.provided.value); }
    }
    var x2 := SetFields(x1, E);
    assert x2 == x1.(exports := a.exports) by {
      if a.exports.Some? { ExportsOfText(a.exports.value); }
    }
    var x3 := SetFields(x2, M);
    assert x3 == x2.(minLines := a.minLines) by {
      if a.minLines.Some? { ParseIntText(a.minLines.value); }
    }
    var x4 := SetFields(x3, C);
    assert x4 == x3.(contains := a.contains) by {
      if a.contains.Some? { UnquoteQuote(a.contains.value); }
    }
  }

  /** The fields a key link writes set exactly that link again. */
  lemma LinkFieldsSet(l: KeyLink)
    requires WritableLink(l)
    ensures SetLinkFields(NewLink(l.from), LinkFields(l)) == l
  {
    var T := if l.target.Some? then [("to", Quote(l.target.value))] else [];
    var V := if l.via.Some? then [("via", Quote(l.via.value))] else [];
    var P := if l.pattern.Some? then [("pattern", Quote(l.pattern.value))] else [];
    var x0 := NewLink(l.from);
    SetLinkFieldsAppend(x0, T + V, P);
    SetLinkFieldsAppend(x0, T, V);
    var x1 := SetLinkFields(x0, T);
    assert x1 == x0.(target := l.target) by {
      if l.target.Some? { UnquoteQuote(l.target.value); }
    }
    var x2 := SetLinkFields(x1, V);
    assert x2 == x1.(via := l.via) by {
      if l.via.Some? { UnquoteQuote(l.via.value); }
    }
    var x3 := SetLinkFields(x2, P);
    assert x3 == x2.(pattern := l.pattern) by {
      if l.pattern.Some? { UnquoteQuote(l.pattern.value); }
    }
  }

  /** A `- path:` item commits the artifact before it, whatever its path. */
  function PushArtifact(cur: Option<Artifact>, m: MustHaves): MustHaves
  {
    if cur.Some? then m.(artifacts := m.artifacts + [cur.value]) else m
  }

  /** A `- from:` item commits the key link before it when that link has a `from`. */
  function PushLink(cur: Option<KeyLink>, m: MustHaves): MustHaves
  {
    if cur.Some? && cur.value.from != "" then m.(keyLinks := m.keyLinks + [cur.value]) else m
  }

  lemma PathStep(cur: Option<Artifact>, m: MustHaves, a: Artifact)
    requires Plain(a.path)
    ensures !EndsBlock(ItemLine("path", a.path))
    ensures Step(Scan(InArtifacts(cur), m), ItemLine("path", a.path))
         == Scan(InArtifacts(Some(NewArtifact(a.path))), PushArtifact(cur, m))
  {
    ItemLineReads("path", a.path);
  }

  lemma FromStep(cur: Option<KeyLink>, m: MustHaves, l: KeyLink)
    requires Plain(l.from)
    ensures !EndsBlock(ItemLine("from", l.from))
    ensures Step(Scan(InKeyLinks(cur), m), ItemLine("from", l.from))
         == Scan(InKeyLinks(Some(NewLink(l.from))), PushLink(cur, m))
  {
    ItemLineReads("from", l.from);
  }

  /** The lines of one artifact leave it pending, after committing the one before. */
  lemma ArtifactRun(cur: Option<Artifact>, m: MustHaves, a: Artifact, rest: seq<string>)
    requires WritableArtifact(a)
    ensures Run(Scan(InArtifacts(cur), m), ArtifactLines(a) + rest)
         == Run(Scan(InArtifacts(Some(a)), PushArtifact(cur, m)), rest)
  {
    var ls := ArtifactLines(a) + rest;
    assert ls[0] == ItemLine("path", a.path) && ls[1..] == FieldLines(ArtifactFields(a)) + rest;
    PathStep(cur, m, a);
    ArtifactFieldsGood(a);
    FieldsRun(NewArtifact(a.path), PushArtifact(cur, m), ArtifactFields(a), rest);
    ArtifactFieldsSet(a);
  }

  lemma LinkRun(cur: Option<KeyLink>, m: MustHaves, l: KeyLink, rest: seq<string>)
    requires WritableLink(l)
    ensures Run(Scan(InKeyLinks(cur), m), LinkLines(l) + rest)
         == Run(Scan(InKeyLinks(Some(l)), PushLink(cur, m)), rest)
  {
    var ls := LinkLines(l) + rest;
    assert ls[0] == ItemLine("from", l.from) && ls[1..] == FieldLines(LinkFields(l)) + rest;
    FromStep(cur, m, l);
    LinkFieldsGood(l);
    LinkFieldsRun(NewLink(l.from), PushLink(cur, m), LinkFields(l), rest);
    LinkFieldsSet(l);
  }

  function ArtifactsLines(arts: seq<Artifact>): seq<string>
  {
    if arts == [] then [] else ArtifactLines(arts[0]) + ArtifactsLines(arts[1..])
  }

  function LinksLines(ls: seq<KeyLink>): seq<string>
  {
    if ls == [] then [] else LinkLines(ls[0]) + LinksLines(ls[1..])
  }

  function Opt<T>(o: Option<T>): seq<T>
  {
    if o.Some? then [o.value] else []
  }

  /** After a list of artifacts the last one is pending and all before it are committed. */
  function AfterArtifacts(cur: Option<Artifact>, m: MustHaves, arts: seq<Artifact>): Scan
  {
    if arts == [] then Scan(InArtifacts(cur), m)
    else Scan(InArtifacts(Some(arts[|arts| - 1])), m.(artifacts := m.artifacts + Opt(cur) + arts[..|arts| - 1]))
  }

  function AfterLinks(cur: Option<KeyLink>, m: MustHaves, ls: seq<KeyLink>): Scan
  {
    if ls == [] then Scan(InKeyLinks(cur), m)
    else Scan(InKeyLinks(Some(ls[|ls| - 1])), m.(keyLinks := m.keyLinks + Opt(cur) + ls[..|ls| - 1]))
  }

  lemma {:induction false} ArtifactsRun(cur: Option<Artifact>, m: MustHaves, arts: seq<Artifact>, rest: seq<string>)
    requires forall k :: 0 <= k < |arts| ==> WritableArtifact(arts[k])
    decreases |arts|
    ensures Run(Scan(InArtifacts(cur), m), ArtifactsLines(arts) + rest) == Run(AfterArtifacts(cur, m, arts), rest)
  {
    if arts == [] {
      assert ArtifactsLines(arts) + rest == rest;
    } else {
      assert ArtifactsLines(arts) + rest == ArtifactLines(arts[0]) + (ArtifactsLines(arts[1..]) + rest);
      ArtifactRun(cur, m, arts[0], ArtifactsLines(arts[1..]) + rest);
      ArtifactsRun(Some(arts[0]), PushArtifact(cur, m), arts[1..], rest);
      AfterArtifactsCons(cur, m, arts);
    }
  }

  lemma AfterArtifactsCons(cur: Option<Artifact>, m: MustHaves, arts: seq<Artifact>)
    requires arts != []
    ensures AfterArtifacts(Some(arts[0]), PushArtifact(cur, m), arts[1..]) == AfterArtifacts(cur, m, arts)
  {
    var m1 := PushArtifact(cur, m);
    assert m1.artifacts == m.artifacts + Opt(cur);
    if |arts| > 1 {
      assert arts[1..][|arts| - 2] == arts[|arts| - 1];
      assert [arts[0]] + arts[1..][..|arts| - 2] == arts[..|arts| - 1];
      assert m1.artifacts + [arts[0]] + arts[1..][..|arts| - 2] == m.artifacts + Opt(cur) + arts[..|arts| - 1];
    } else {
      assert arts[..0] == [];
    }
  }

  lemma {:induction false} LinksRun(cur: Option<KeyLink>, m: MustHaves, ls: seq<KeyLink>, rest: seq<string>)
    requires forall k :: 0 <= k < |ls| ==> WritableLink(ls[k])
    requires cur.Some? ==> cur.value.from != ""
    decreases |ls|
    ensures Run(Scan(InKeyLinks(cur), m), LinksLines(ls) + rest) == Run(AfterLinks(cur, m, ls), rest)
  {
    if ls == [] {
      assert LinksLines(ls) + rest == rest;
    } else {
      assert LinksLines(ls) + rest == LinkLines(ls[0]) + (LinksLines(ls[1..]) + rest);
      LinkRun(cur, m, ls[0], LinksLines(ls[1..]) + rest);
      LinksRun(Some(ls[0]), PushLink(cur, m), ls[1..], rest);
      AfterLinksCons(cur, m, ls);
    }
  }

  lemma AfterLinksCons(cur: Option<KeyLink>, m: MustHaves, ls: seq<KeyLink>)
    requires ls != [] && (cur.Some? ==> cur.value.from != "")
    ensures AfterLinks(Some(ls[0]), PushLink(cur, m), ls[1..]) == AfterLinks(cur, m, ls)
  {
    var m1 := PushLink(cur, m);
    assert m1.keyLinks == m.keyLinks + Opt(cur);
    if |ls| > 1 {
      assert ls[1..][|ls| - 2] == ls[|ls| - 1];
      assert [ls[0]] + ls[1..][..|ls| - 2] == ls[..|ls| - 1];
      assert m1.keyLinks + [ls[0]] + ls[1..][..|ls| - 2] == m.keyLinks + Opt(cur) + ls[..|ls| - 1];
    } else {
      assert ls[..0] == [];
    }
  }

  lemma RunCons(st: Scan, l: string, rest: seq<string>)
    requires !EndsBlock(l)
    ensures Run(st, [l] + rest) == Run(Step(st, l), rest)
  {
    assert ([l] + rest)[1..] == rest;
  }

  /** A known section header commits the pending object and opens its section. */
  lemma HeaderStep(c: Cursor, m: MustHaves, name: string)
    requires name == "truths" || name == "artifacts" || name == "key_links"
    ensures !EndsBlock(HeaderLine(name))
    ensures Step(Scan(c, m), HeaderLine(name)) == Scan(HeaderCursor(c, name), CommitOnHeader(c, m))
  {
    HeaderReads(name);
  }

  // ---------------------------------------------------------------------
  // truths
  // ---------------------------------------------------------------------

  /** A truth that reads back: non-empty, one line, without quotes. */
  predicate TruthText(t: string)
  {
    t != [] && forall i :: 0 <= i < |t| ==> t[i] != '"' && !IsLineTerminator(t[i])
  }

  function TruthLines(ts: seq<string>): seq<string>
  {
    if ts == [] then [] else [TruthLine(ts[0])] + TruthLines(ts[1..])
  }

  lemma TruthStep(m: MustHaves, t: string)
    requires TruthText(t)
    ensures !EndsBlock(TruthLine(t))
    ensures Step(Scan(InTruths, m), TruthLine(t)) == Scan(InTruths, m.(truths := m.truths + [t]))
  {
    TruthLineReads(t);
  }

  lemma TruthRun(m: MustHaves, t: string, rest: seq<string>)
    requires TruthText(t)
    ensures Run(Scan(InTruths, m), [TruthLine(t)] + rest) == Run(Scan(InTruths, m.(truths := m.truths + [t])), rest)
  {
    TruthStep(m, t);
    RunCons(Scan(InTruths, m), TruthLine(t), rest);
  }

  lemma TruthsAppend(m: MustHaves, ts: seq<string>)
    requires ts != []
    ensures m.(truths := m.truths + [ts[0]]).(truths := m.truths + [ts[0]] + ts[1..]) == m.(truths := m.truths + ts)
  {
    assert m.truths + [ts[0]] + ts[1..] == m.truths + ts;
  }

  /** Truth items are collected in document order. */
  lemma {:induction false} TruthsRun(m: MustHaves, ts: seq<string>, rest: seq<string>)
    requires forall k :: 0 <= k < |ts| ==> TruthText(ts[k])
    decreases |ts|
    ensures Run(Scan(InTruths, m), TruthLines(ts) + rest) == Run(Scan(InTruths, m.(truths := m.truths + ts)), rest)
  {
    if ts == [] {
      assert TruthLines(ts) + rest == rest;
      assert m.truths + ts == m.truths;
    } else {
      assert TruthLines(ts) + rest == [TruthLine(ts[0])] + (TruthLines(ts[1..]) + rest);
      TruthRun(m, ts[0], TruthLines(ts[1..]) + rest);
      TruthsRun(m.(truths := m.truths + [ts[0]]), ts[1..], rest);
      TruthsAppend(m, ts);
    }
  }

  // ---------------------------------------------------------------------
  // the whole block
  // ---------------------------------------------------------------------

  /** A record a plan can write so that it reads back. */
  predicate Writable(m: MustHaves)
  {
    (forall k :: 0 <= k < |m.truths| ==> TruthText(m.truths[k]))
    && (forall k :: 0 <= k < |m.artifacts| ==> WritableArtifact(m.artifacts[k]))
    && (forall k :: 0 <= k < |m.keyLinks| ==> WritableLink(m.keyLinks[k]))
  }

  /** The lines under `must_haves:`: the three sections, each with its items. */
  function BlockLines(m: MustHaves): seq<string>
  {
    [HeaderLine("truths")] + (TruthLines(m.truths)
    + ([HeaderLine("artifacts")] + (ArtifactsLines(m.artifacts)
    + ([HeaderLine("key_links")] + LinksLines(m.keyLinks)))))
  }

  /** The header after the artifacts commits the last one: every artifact is kept. */
  lemma ArtifactsClosed(m1: MustHaves, arts: seq<Artifact>)
    requires forall k :: 0 <= k < |arts| ==> WritableArtifact(arts[k])
    ensures var st := AfterArtifacts(None, m1, arts);
      CommitOnHeader(st.cursor, st.found) == m1.(artifacts := m1.artifacts + arts)
  {
    if arts != [] {
      assert Opt<Artifact>(None) == [];
      assert arts[..|arts| - 1] + [arts[|arts| - 1]] == arts;
    }
  }

  lemma LinksClosed(m2: MustHaves, ls: seq<KeyLink>)
    requires forall k :: 0 <= k < |ls| ==> WritableLink(ls[k])
    ensures var st := AfterLinks(None, m2, ls);
      CommitAtEnd(st.cursor, st.found) == m2.(keyLinks := m2.keyLinks + ls)
  {
    if ls != [] {
      assert Opt<KeyLink>(None) == [];
      assert ls[..|ls| - 1] + [ls[|ls| - 1]] == ls;
    }
  }

  lemma TruthsSection(ts: seq<string>, rest: seq<string>)
    requires forall k :: 0 <= k < |ts| ==> TruthText(ts[k])
    ensures Run(Scan(Outside, Empty), [HeaderLine("truths")] + (TruthLines(ts) + rest))
         == Run(Scan(InTruths, Empty.(truths := ts)), rest)
  {
    HeaderStep(Outside, Empty, "truths");
    RunCons(Scan(Outside, Empty), HeaderLine("truths"), TruthLines(ts) + rest);
    TruthsRun(Empty, ts, rest);
    assert Empty.truths + ts == ts;
  }

  lemma ArtifactsSection(m1: MustHaves, arts: seq<Artifact>, rest: seq<string>)
    requires forall k :: 0 <= k < |arts| ==> WritableArtifact(arts[k])
    ensures Run(Scan(InTruths, m1), [HeaderLine("artifacts")] + (ArtifactsLines(arts) + ([HeaderLine("key_links")] + rest)))
         == Run(Scan(InKeyLinks(None), m1.(artifacts := m1.artifacts + arts)), rest)
  {
    var hk := HeaderLine("key_links");
    HeaderStep(InTruths, m1, "artifacts");
    RunCons(Scan(InTruths, m1), HeaderLine("artifacts"), ArtifactsLines(arts) + ([hk] + rest));
    ArtifactsRun(None, m1, arts, [hk] + rest);
    var st := AfterArtifacts(None, m1, arts);
    HeaderStep(st.cursor, st.found, "key_links");
    RunCons(st, hk, rest);
    ArtifactsClosed(m1, arts);
  }

  lemma LinksSection(m2: MustHaves, ls: seq<KeyLink>)
    requires forall k :: 0 <= k < |ls| ==> WritableLink(ls[k])
    ensures var st := Run(Scan(InKeyLinks(None), m2), LinksLines(ls));
      CommitAtEnd(st.cursor, st.found) == m2.(keyLinks := m2.keyLinks + ls)
  {
    assert LinksLines(ls) + [] == LinksLines(ls);
    LinksRun(None, m2, ls, []);
    LinksClosed(m2, ls);
  }

  /** The block as written reads back as the record. */
  lemma BlockRun(m: MustHaves)
    requires Writable(m)
    ensures var st := Run(Scan(Outside, Empty), BlockLines(m)); CommitAtEnd(st.cursor, st.found) == m
  {
    var rest := LinksLines(m.keyLinks);
    TruthsSection(m.truths, [HeaderLine("artifacts")] + (ArtifactsLines(m.artifacts) + ([HeaderLine("key_links")] + rest)));
    var m1 := Empty.(truths := m.truths);
    ArtifactsSection(m1, m.artifacts, rest);
    var m2 := m1.(artifacts := m1.artifacts + m.artifacts);
    LinksSection(m2, m.keyLinks);
    assert m1.artifacts + m.artifacts == m.artifacts;
    assert m2.keyLinks + m.keyLinks == m.keyLinks;
  }

  // ---------------------------------------------------------------------
  // the block as text
  // ---------------------------------------------------------------------

  /** A line under `must_haves:`: it opens with a space and stays on one line. */
  predicate Indented(l: string) { l != [] && l[0] == ' ' && OneLine(l) }

  predicate AllIndented(ls: seq<string>) { forall k :: 0 <= k < |ls| ==> Indented(ls[k]) }

  lemma AllIndentedConcat(a: seq<string>, b: seq<string>)
    requires AllIndented(a) && AllIndented(b)
    ensures AllIndented(a + b)
  {
    forall k | 0 <= k < |a + b| ensures Indented((a + b)[k]) {
      if k < |a| { assert (a + b)[k] == a[k]; } else { assert (a + b)[k] == b[k - |a|]; }
    }
  }

  lemma OneLineConcat(a: string, b: string)
    requires OneLine(a) && OneLine(b)
    ensures OneLine(a + b)
  {
    forall i | 0 <= i < |a + b| ensures !IsLineTerminator((a + b)[i]) {
      if i < |a| { assert (a + b)[i] == a[i]; } else { assert (a + b)[i] == b[i - |a|]; }
    }
  }

  lemma QuoteOneLine(t: string)
    requires OneLine(t)
    ensures OneLine(Quote(t))
  {
    OneLineConcat("\"", t);
    OneLineConcat("\"" + t, "\"");
  }

  lemma TruthLineIndented(t: string)
    requires TruthText(t)
    ensures Indented(TruthLine(t))
  {
    QuoteOneLine(t);
    OneLineConcat("    - ", Quote(t));
  }

  lemma ItemLineIndented(key: string, v: string)
    requires IsWord(key) && OneLine(v)
    ensures Indented(ItemLine(key, v))
  {
    QuoteOneLine(v);
    assert OneLine(key);
    OneLineConcat("    - ", key);
    OneLineConcat("    - " + key, ": ");
    OneLineConcat("    - " + key + ": ", Quote(v));
  }

  lemma FieldTextIndented(f: (string, string))
    requires GoodField(f)
    ensures Indented(FieldText(f.0, f.1))
  {
    assert OneLine(f.0);
    OneLineConcat("      ", f.0);
    OneLineConcat("      " + f.0, ": ");
    OneLineConcat("      " + f.0 + ": ", f.1);
  }

  lemma {:induction false} TruthLinesIndented(ts: seq<string>)
    requires forall k :: 0 <= k < |ts| ==> TruthText(ts[k])
    decreases |ts|
    ensures AllIndented(TruthLines(ts))
  {
    if ts != [] {
      TruthLineIndented(ts[0]);
      TruthLinesIndented(ts[1..]);
      AllIndentedConcat([TruthLine(ts[0])], TruthLines(ts[1..]));
    }
  }

  lemma {:induction false} FieldLinesIndented(fs: seq<(string, string)>)
    requires GoodFields(fs)
    decreases |fs|
    ensures AllIndented(FieldLines(fs))
  {
    if fs != [] {
      FieldTextIndented(fs[0]);
      FieldLinesIndented(fs[1..]);
      AllIndentedConcat([FieldText(fs[0].0, fs[0].1)], FieldLines(fs[1..]));
    }
  }

  lemma ArtifactLinesIndented(a: Artifact)
    requires WritableArtifact(a)
    ensures AllIndented(ArtifactLines(a))
  {
    FieldKeysAreWords();
    assert IsWord("path");
    ItemLineIndented("path", a.path);
    ArtifactFieldsGood(a);
    FieldLinesIndented(ArtifactFields(a));
    AllIndentedConcat([ItemLine("path", a.path)], FieldLines(ArtifactFields(a)));
  }

  lemma LinkLinesIndented(l: KeyLink)
    requires WritableLink(l)
    ensures AllIndented(LinkLines(l))
  {
    assert IsWord("from");
    ItemLineIndented("from", l.from);
    LinkFieldsGood(l);
    FieldLinesIndented(LinkFields(l));
    AllIndentedConcat([ItemLine("from", l.from)], FieldLines(LinkFields(l)));
  }

  lemma {:induction false} ArtifactsLinesIndented(arts: seq<Artifact>)
    requires forall k :: 0 <= k < |arts| ==> WritableArtifact(arts[k])
    decreases |arts|
    ensures AllIndented(ArtifactsLines(arts))
  {
    if arts != [] {
      ArtifactLinesIndented(arts[0]);
      ArtifactsLinesIndented(arts[1..]);
      AllIndentedConcat(ArtifactLines(arts[0]), ArtifactsLines(arts[1..]));
    }
  }

  lemma {:induction false} LinksLinesIndented(ls: seq<KeyLink>)
    requires forall k :: 0 <= k < |ls| ==> WritableLink(ls[k])
    decreases |ls|
    ensures AllIndented(LinksLines(ls))
  {
    if ls != [] {
      LinkLinesIndented(ls[0]);
      LinksLinesIndented(ls[1..]);
      AllIndentedConcat(LinkLines(ls[0]), LinksLines(ls[1..]));
    }
  }

  lemma HeaderIndented(name: string)
    requires name == "truths" || name == "artifacts" || name == "key_links"
    ensures Indented(HeaderLine(name))
  {
  }

  lemma BlockLinesIndented(m: MustHaves)
    requires Writable(m)
    ensures AllIndented(BlockLines(m))
  {
    TruthLinesIndented(m.truths);
    ArtifactsLinesIndented(m.artifacts);
    LinksLinesIndented(m.keyLinks);
    HeaderIndented("truths");
    HeaderIndented("artifacts");
    HeaderIndented("key_links");
    var k := [HeaderLine("key_links")] + LinksLines(m.keyLinks);
    AllIndentedConcat([HeaderLine("key_links")], LinksLines(m.keyLinks));
    AllIndentedConcat(ArtifactsLines(m.artifacts), k);
    var a := [HeaderLine("artifacts")] + (ArtifactsLines(m.artifacts) + k);
    AllIndentedConcat([HeaderLine("artifacts")], ArtifactsLines(m.artifacts) + k);
    AllIndentedConcat(TruthLines(m.truths), a);
    AllIndentedConcat([HeaderLine("truths")], TruthLines(m.truths) + a);
  }

  /** The frontmatter lines a plan carries for the record. */
  function MustHavesLines(m: MustHaves): seq<string>
  {
    ["must_haves:"] + BlockLines(m)
  }

  /** Every line break in the text is followed by a space: no line of it starts with `---`. */
  predicate BreaksIndent(t: string)
  {
    forall i :: 0 <= i < |t| && IsLineTerminator(t[i]) ==> t[i] == '\n' && i + 1 < |t| && t[i + 1] == ' '
  }

  lemma {:induction false} JoinBreaksIndent(ls: seq<string>)
    requires |ls| >= 1 && OneLine(ls[0])
    requires forall k :: 1 <= k < |ls| ==> Indented(ls[k])
    decreases |ls|
    ensures BreaksIndent(Join(ls))
  {
    if |ls| > 1 {
      var t' := Join(ls[1..]);
      JoinBreaksIndent(ls[1..]);
      JoinStartsWith(ls[1..]);
      assert t'[0] == ls[1][0];
      var t := Join(ls);
      assert t == ls[0] + "\n" + t';
      var n := |ls[0]|;
      forall i | 0 <= i < |t| ensures IsLineTerminator(t[i]) ==> t[i] == '\n' && i + 1 < |t| && t[i + 1] == ' ' {
        if i < n {
          assert t[i] == ls[0][i];
        } else if i > n {
          assert t[i] == t'[i - n - 1];
          assert i + 1 < |t| ==> t[i + 1] == t'[i - n];
        } else {
          assert t[i + 1] == t'[0];
        }
      }
    }
  }

  /** A text whose breaks are indented holds no closing delimiter of its own. */
  lemma NoCloseInside(t: string)
    requires BreaksIndent(t)
    ensures forall i :: 0 <= i < |t| ==> !PlanFrontmatter.ClosesAt(t + "\n---", i)
  {
    var u := t + "\n---";
    forall i | 0 <= i < |t| ensures !PlanFrontmatter.ClosesAt(u, i) {
      assert u[i] == t[i];
      if i + 1 < |t| { assert u[i + 1] == t[i + 1]; }
      assert i + 5 <= |u| ==> u[i..i + 5][0] == u[i];
      assert i + 4 <= |u| ==> u[i..i + 4][0] == u[i] && u[i..i + 4][1] == u[i + 1];
    }
  }

  /** The lines of a writable record split back apart, and the text holds the key. */
  lemma MustHavesLinesSplit(m: MustHaves)
    requires Writable(m)
    ensures Split(Join(MustHavesLines(m))) == MustHavesLines(m)
    ensures Contains(Join(MustHavesLines(m)), "must_haves:")
  {
    var ls := MustHavesLines(m);
    BlockLinesIndented(m);
    forall k | 0 <= k < |ls| ensures NoNewline(ls[k]) {
      if k > 0 { assert ls[k] == BlockLines(m)[k - 1]; }
    }
    SplitJoin(ls);
    JoinStartsWith(ls);
    assert OccursAt(Join(ls), "must_haves:", 0);
  }

  /** The block text of a writable record reads back as the record. */
  lemma MustHavesBlockRoundTrip(m: MustHaves)
    requires Writable(m)
    ensures MustHavesOfBlock(Join(MustHavesLines(m))) == Some(m)
  {
    var ls := MustHavesLines(m);
    MustHavesLinesSplit(m);
    MustHavesLineFirst(m);
    assert ls[1..] == BlockLines(m);
    BlockRun(m);
  }

  /** The key line opens the lines of the record. */
  lemma MustHavesLineFirst(m: MustHaves)
    ensures FirstIndex(StartTest(MustHavesLines(m)), 0, |MustHavesLines(m)|) == Some(0)
  {
    var ls := MustHavesLines(m);
    assert IsMustHavesLine(ls[0]);
    assert StartTest(ls)(0);
  }

  /** `parseMustHaves` reads back the record from a plan that opens with it. */
  lemma MustHavesRoundTrip(m: MustHaves, rest: string)
    requires Writable(m)
    ensures MustHavesOf("---\n" + Join(MustHavesLines(m)) + "\n---" + rest) == Some(m)
  {
    var ls := MustHavesLines(m);
    BlockLinesIndented(m);
    forall k | 1 <= k < |ls| ensures Indented(ls[k]) { assert ls[k] == BlockLines(m)[k - 1]; }
    JoinBreaksIndent(ls);
    NoCloseInside(Join(ls));
    PlanFrontmatter.FrontTextOf(Join(ls), rest);
    MustHavesBlockRoundTrip(m);
  }
}
