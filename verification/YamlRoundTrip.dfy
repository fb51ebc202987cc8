/**
 What the writer puts down, the parser reads back: exactly for clean documents,
 and never as a different value for any string at all.
 */
module YamlRoundTrip {
  import opened Results
  import opened Text
  import opened Yaml

  // ---------------- documents as the writer builds them ----------------

  /** One `key: value` line, with the value written bare or quoted. */
  datatype Leaf = Bare(key: string, value: string) | Text(key: string, value: string)

  datatype Entry = Single(leaf: Leaf) | Group(key: string, leaves: seq<Leaf>)

  function Content(l: Leaf): string {
    l.key + ": " + if l.Bare? then l.value else Quoted(l.value)
  }

  function LeafLine(l: Leaf): string {
    if l.Bare? then ScalarLine(l.key, l.value) else StringLine(l.key, l.value)
  }

  function LeafLines(ls: seq<Leaf>): string {
    if ls == [] then "" else Nested(LeafLine(ls[0])) + LeafLines(ls[1..])
  }

  function EntryText(e: Entry): string {
    match e
    case Single(l) => LeafLine(l)
    case Group(k, ls) => OpenLine(k) + LeafLines(ls)
  }

  function DocText(es: seq<Entry>): string {
    if es == [] then "" else EntryText(es[0]) + DocText(es[1..])
  }

  function EntryKey(e: Entry): string {
    if e.Single? then e.leaf.key else e.key
  }

  function LeafMap(ls: seq<Leaf>): Mapping {
    if ls == [] then map[] else map[ls[0].key := Scalar(ls[0].value)] + LeafMap(ls[1..])
  }

  function EntryValue(e: Entry): Value {
    match e
    case Single(l) => Scalar(l.value)
    case Group(_, ls) => Map(LeafMap(ls))
  }

  /** The mapping a document stands for. */
  function Meaning(es: seq<Entry>): Mapping {
    if es == [] then map[] else map[EntryKey(es[0]) := EntryValue(es[0])] + Meaning(es[1..])
  }

  // ---------------- side conditions ------------------------------------

  predicate Plain(s: string) {
    forall i | 0 <= i < |s| :: s[i] != '#' && s[i] != '"' && s[i] != '\n'
  }

  predicate CleanKey(k: string) {
    k != "" && Trimmed(k) && Plain(k) && forall i | 0 <= i < |k| :: k[i] != ':'
  }

  predicate CleanScalar(v: string) {
    v != "" && Trimmed(v) && Plain(v)
  }

  /** Keys and bare scalars free of syntax; quoted text may be anything. */
  predicate CleanLeaf(l: Leaf) {
    CleanKey(l.key) && (l.Bare? ==> CleanScalar(l.value))
  }

  predicate CleanEntry(e: Entry) {
    match e
    case Single(l) => CleanLeaf(l)
    case Group(k, ls) => CleanKey(k) && forall l | l in ls :: CleanLeaf(l)
  }

  /** Every quoted text fits on its line. */
  predicate OneLine(e: Entry) {
    match e
    case Single(l) => NoNewline(l.value)
    case Group(_, ls) => forall l | l in ls :: NoNewline(l.value)
  }

  predicate DistinctLeaves(ls: seq<Leaf>) {
    forall i, j | 0 <= i < j < |ls| :: ls[i].key != ls[j].key
  }

  predicate DistinctEntries(es: seq<Entry>) {
    && (forall i, j | 0 <= i < j < |es| :: EntryKey(es[i]) != EntryKey(es[j]))
    && forall e | e in es :: e.Group? ==> DistinctLeaves(e.leaves)
  }

  predicate CleanDoc(es: seq<Entry>) {
    forall e | e in es :: CleanEntry(e)
  }

  // ---------------- characters and quotes ------------------------------

  lemma Uncons(s: string)
    requires s != ""
    ensures s == [s[0]] + s[1..]
  {
  }

  lemma Unsnoc(s: string)
    requires s != ""
    ensures s == s[..|s| - 1] + [s[|s| - 1]]
  {
  }

  lemma CommentCons(c: char, s: string, q: Quoting)
    ensures CommentStart([c] + s, q) ==
            if c == '#' && q == Outside then 0 else 1 + CommentStart(s, Next(q, c))
  {
    assert ([c] + s)[1..] == s;
  }

  lemma {:induction false} CommentSkipsPlain(a: string, b: string)
    requires Plain(a)
    ensures CommentStart(a + b, Outside) == |a| + CommentStart(b, Outside)
  {
    if a == "" {
      assert a + b == b;
    } else {
      var c, t := a[0], a[1..];
      assert Plain(t) && c != '#' && Next(Outside, c) == Outside;
      hide *;
      CommentSkipsPlain(t, b);
      CommentCons(c, t + b, Outside);
      Uncons(a);
      Regroup([c], t, b);
    }
  }

  lemma CommentSkipsChar(c: char, s: string)
    ensures CommentStart(EscapeChar(c) + s, Inside) == |EscapeChar(c)| + CommentStart(s, Inside)
  {
    hide CommentStart;
    CommentCons(c, s, Inside);
    CommentCons(c, s, Escaped);
    CommentCons('\\', [c] + s, Inside);
    assert ['\\', c] + s == ['\\'] + ([c] + s);
  }

  lemma {:induction false} CommentSkipsEscaped(v: string, b: string)
    ensures CommentStart(Escape(v) + b, Inside) == |Escape(v)| + CommentStart(b, Inside)
  {
    if v == "" {
      assert Escape(v) + b == b;
    } else {
      var e, t := EscapeChar(v[0]), Escape(v[1..]);
      assert Escape(v) == e + t;
      hide *;
      CommentSkipsEscaped(v[1..], b);
      CommentSkipsChar(v[0], t + b);
      Regroup(e, t, b);
    }
  }

  lemma PrependTwice(a: string, b: string, r: Result<string, Complaint>)
    ensures Prepend(a, Prepend(b, r)) == Prepend(a + b, r)
    ensures Prepend("", r) == r
  {
    if r.Success? {
      Regroup(a, b, r.value);
      assert "" + r.value == r.value;
    }
  }

  lemma UnescapedChar(c: char, s: string)
    ensures Unescaped(EscapeChar(c) + s) == Prepend([c], Unescaped(s))
  {
    hide Prepend;
    var t := EscapeChar(c) + s;
    if c == '"' || c == '\\' {
      assert t[0] == '\\' && t[1] == c && t[2..] == s;
    } else {
      assert t[0] == c && t[1..] == s;
    }
  }

  lemma {:induction false} UnescapedEscape(v: string, rest: string)
    ensures Unescaped(Escape(v) + rest) == Prepend(v, Unescaped(rest))
  {
    if v == "" {
      assert Escape(v) + rest == rest;
      PrependTwice("", "", Unescaped(rest));
    } else {
      var e, t := EscapeChar(v[0]), Escape(v[1..]);
      assert Escape(v) == e + t;
      hide *;
      UnescapedEscape(v[1..], rest);
      UnescapedChar(v[0], t + rest);
      Regroup(e, t, rest);
      PrependTwice([v[0]], v[1..], Unescaped(rest));
      Uncons(v);
    }
  }

  lemma EscapeCons(c: char, s: string)
    ensures Escape([c] + s) == EscapeChar(c) + Escape(s)
  {
    assert ([c] + s)[1..] == s;
  }

  lemma {:induction false} EscapeAppend(a: string, b: string)
    ensures Escape(a + b) == Escape(a) + Escape(b)
  {
    if a == "" {
      assert a + b == b;
    } else {
      var e, t := EscapeChar(a[0]), Escape(a[1..]);
      assert Escape(a) == e + t;
      hide *;
      EscapeAppend(a[1..], b);
      EscapeCons(a[0], a[1..] + b);
      Uncons(a);
      Regroup([a[0]], a[1..], b);
      Regroup(e, t, Escape(b));
    }
  }

  lemma EscapeSnoc(u: string, c: char)
    ensures Escape(u + [c]) == Escape(u) + EscapeChar(c)
  {
    EscapeAppend(u, [c]);
    EscapeCons(c, "");
    assert [c] + "" == [c] && EscapeChar(c) + "" == EscapeChar(c);
  }

  lemma {:induction false} EscapeKeepsLine(v: string)
    requires NoNewline(v)
    ensures NoNewline(Escape(v))
  {
    if v != "" {
      EscapeKeepsLine(v[1..]);
    }
  }

  /** Quoting and unquoting are inverse on every string. */
  lemma UnquotedQuoted(v: string)
    ensures Unquoted(Quoted(v)) == Success(v)
  {
    UnescapedEscape(v, "");
    assert Escape(v) + "" == Escape(v);
    assert v + "" == v;
    assert Quoted(v)[1..|Quoted(v)| - 1] == Escape(v);
  }

  lemma TrimEndSnoc(s: string, c: char)
    ensures TrimEnd(s + [c]) == if IsSpace(c) then TrimEnd(s) else s + [c]
  {
    hide IsSpace;
    assert (s + [c])[..|s|] == s;
  }

  /** An escaped character ends in itself, and white space is not escaped. */
  lemma EscapeCharEnds(c: char) returns (f: string)
    ensures EscapeChar(c) == f + [c] && (IsSpace(c) ==> f == "")
  {
    f := if c == '"' || c == '\\' then "\\" else "";
    assert EscapeChar(c) == f + [c];
  }

  lemma TrimEndQuoteAlone()
    ensures TrimEnd("\"" + Escape("")) == "\"" + Escape(TrimEnd(""))
  {
    assert "\"" + Escape("") == "\"";
  }

  lemma TrimEndOpenStep(w: string, f: string, c: char)
    ensures TrimEnd("\"" + (w + (f + [c]))) ==
            if IsSpace(c) then TrimEnd("\"" + (w + f)) else "\"" + (w + (f + [c]))
  {
    hide *;
    TrimEndSnoc("\"" + (w + f), c);
    Regroup("\"", w + f, [c]);
    Regroup(w, f, [c]);
  }

  /** Trimming an opened, unclosed quote trims the text inside it. */
  lemma {:induction false} TrimEndOpenQuote(p: string)
    ensures TrimEnd("\"" + Escape(p)) == "\"" + Escape(TrimEnd(p))
    decreases |p|
  {
    hide *;
    if p == "" {
      TrimEndQuoteAlone();
    } else {
      var u, c := p[..|p| - 1], p[|p| - 1];
      Unsnoc(p);
      EscapeSnoc(u, c);
      TrimEndSnoc(u, c);
      var f := EscapeCharEnds(c);
      TrimEndOpenStep(Escape(u), f, c);
      if IsSpace(c) {
        assert Escape(u) + f == Escape(u);
        TrimEndOpenQuote(u);
      }
    }
  }

  /**
   A quote that is opened and never closed does not unquote: if its text ends
   in a quote character, that one is escaped and leaves its backslash dangling.
   */
  lemma OpenQuoteNeverUnquotes(p: string)
    ensures Unquoted("\"" + Escape(p)).Failure?
  {
    var s := "\"" + Escape(p);
    if p != "" {
      hide Escape;
      var u, c := p[..|p| - 1], p[|p| - 1];
      Unsnoc(p);
      EscapeSnoc(u, c);
      var w := Escape(u);
      assert s == "\"" + (w + EscapeChar(c));
      assert s[|s| - 1] == c;
      if c == '"' {
        assert s[1..|s| - 1] == w + "\\";
        UnescapedEscape(u, "\\");
      }
    }
  }

  // ---------------- one line -------------------------------------------

  lemma TrimStartSpace(x: string)
    requires x != "" && !IsSpace(x[0])
    ensures TrimStart(" " + x) == x && TrimStart("  " + x) == x
  {
    assert (" " + x)[1..] == x;
    assert ("  " + x)[1..] == " " + x;
  }

  lemma TrimAfterSpace(x: string)
    requires x != "" && !IsSpace(x[0])
    ensures Trim(" " + x) == TrimEnd(x)
  {
    TrimStartSpace(x);
    hide TrimStart, TrimEnd;
  }

  lemma SplitAt(k: string, rest: string)
    requires CleanKey(k)
    ensures SplitKv(k + ":" + rest) == Success(Pair(k, Trim(rest)))
  {
    hide Trim;
    var s := k + ":" + rest;
    assert IndexOf(s, ':') == |k| by {
      assert forall i | 0 <= i < |k| :: s[i] == k[i];
      IndexOfIs(s, ':', |k|);
    }
    assert s[..|k|] == k && s[|k| + 1..] == rest;
    assert Trim(k) == k;
  }

  lemma SplitAtColon(k: string, x: string)
    requires CleanKey(k) && x != "" && !IsSpace(x[0])
    ensures SplitKv(k + ": " + x) == Success(Pair(k, TrimEnd(x)))
  {
    hide *;
    TrimAfterSpace(x);
    var y := " " + x;
    SplitAt(k, y);
    Regroup(":", " ", x);
    assert ":" + " " == ": ";
    Regroup(k, ":", y);
    Regroup(k, ": ", x);
  }

  /** A line the stripper leaves alone and that starts at its first byte. */
  predicate Solid(c: string) {
    && c != "" && !IsSpace(c[0])
    && CommentStart(c, Outside) == |c|
    && NoNewline(c)
  }

  lemma TrimSolid(c: string)
    requires c != "" && !IsSpace(c[0])
    ensures TrimStart(c) == c && Trim(c) != "" && Trim("  " + c) != ""
  {
    TrimStartSpace(c);
    TrimEndFirst(c);
    hide TrimStart, TrimEnd;
  }

  lemma {:induction false} TrimEndFirst(c: string)
    requires c != "" && !IsSpace(c[0])
    ensures TrimEnd(c) != ""
    decreases |c|
  {
    if IsSpace(c[|c| - 1]) {
      TrimEndFirst(c[..|c| - 1]);
    }
  }

  lemma SolidTopLine(d: Doc, c: string, n: nat)
    requires Solid(c)
    ensures AfterLine(d, c, n) == AfterTopLine(d, c, n)
  {
    TrimSolid(c);
    assert c[..|c|] == c;
    hide AfterTopLine, AfterNestedLine, Trim, TrimStart, CommentStart, ByteLen;
  }

  lemma ByteLenIndent(c: string)
    ensures ByteLen("  " + c) == 2 + ByteLen(c)
  {
    assert ("  " + c)[1..] == " " + c && (" " + c)[1..] == c;
  }

  lemma SolidNestedLine(d: Doc, c: string, n: nat)
    requires Solid(c)
    ensures AfterLine(d, "  " + c, n) == AfterNestedLine(d, c, n)
  {
    var s := "  " + c;
    TrimSolid(c);
    TrimStartSpace(c);
    ByteLenIndent(c);
    CommentSkipsPlain("  ", c);
    assert s[..|s|] == s;
    hide AfterTopLine, AfterNestedLine, Trim, TrimStart, CommentStart, ByteLen;
  }

  lemma PlainAppend(a: string, b: string)
    requires Plain(a) && Plain(b)
    ensures Plain(a + b)
  {
  }

  lemma ClosedQuoteScans(k: string, v: string)
    requires CleanKey(k)
    ensures var c := k + ": " + Quoted(v); CommentStart(c, Outside) == |c|
  {
    PlainAppend(k, ": ");
    var e := Escape(v) + "\"";
    assert Quoted(v) == ['"'] + e;
    assert CommentStart("\"", Inside) == 1 by {
      CommentCons('"', "", Inside);
      assert ['"'] + "" == "\"";
    }
    assert Next(Outside, '"') == Inside;
    assert |Quoted(v)| == 1 + |e|;
    hide *;
    CommentSkipsPlain(k + ": ", Quoted(v));
    CommentCons('"', e, Outside);
    CommentSkipsEscaped(v, "\"");
  }

  lemma OpenQuoteScans(k: string, p: string)
    requires CleanKey(k)
    ensures var c := k + ": " + ("\"" + Escape(p)); CommentStart(c, Outside) == |c|
  {
    PlainAppend(k, ": ");
    assert Next(Outside, '"') == Inside && CommentStart("", Inside) == 0;
    var e := Escape(p);
    assert e + "" == e;
    hide *;
    CommentSkipsPlain(k + ": ", "\"" + e);
    CommentCons('"', e, Outside);
    CommentSkipsEscaped(p, "");
  }

  lemma PlainScans(c: string)
    requires Plain(c)
    ensures CommentStart(c, Outside) == |c|
  {
    CommentSkipsPlain(c, "");
    assert c + "" == c;
  }

  lemma NoNewlineAppend(a: string, b: string)
    requires NoNewline(a) && NoNewline(b)
    ensures NoNewline(a + b)
  {
  }

  /** The reading of one clean line: its key, and a value that unquotes. */
  predicate Reads(c: string, key: string, value: string) {
    && Solid(c) && c[|c| - 1] != '\r'
    && SplitKv(c).Success? && SplitKv(c).value.key == key && SplitKv(c).value.value != ""
    && Unquoted(SplitKv(c).value.value) == Success(value)
  }

  lemma BareReads(k: string, v: string)
    requires CleanKey(k) && CleanScalar(v)
    ensures Reads(k + ": " + v, k, v)
  {
    var c := k + ": " + v;
    PlainAppend(k, ": ");
    PlainAppend(k + ": ", v);
    PlainScans(c);
    SplitAtColon(k, v);
    assert c[0] == k[0] && c[|c| - 1] == v[|v| - 1];
    hide SplitKv, CommentStart;
  }

  lemma TextReads(k: string, v: string)
    requires CleanKey(k) && NoNewline(v)
    ensures Reads(k + ": " + Quoted(v), k, v)
  {
    var q := Quoted(v);
    var c := k + ": " + q;
    ClosedQuoteScans(k, v);
    EscapeKeepsLine(v);
    NoNewlineAppend(k + ": ", q);
    UnquotedQuoted(v);
    assert q != "" && q[0] == '"' && q[|q| - 1] == '"' && c[|c| - 1] == '"' && c[0] == k[0];
    hide SplitKv, CommentStart, Quoted, Unquoted;
    SplitAtColon(k, q);
  }

  /** A clean line splits into its key and something that unquotes to its value. */
  lemma LeafReads(l: Leaf)
    requires CleanLeaf(l) && NoNewline(l.value)
    ensures Reads(Content(l), l.key, l.value)
  {
    hide Reads;
    if l.Bare? {
      BareReads(l.key, l.value);
    } else {
      TextReads(l.key, l.value);
    }
  }

  /** A line that opens a quote it does not close: it splits, but unquotes to nothing. */
  predicate Stuck(c: string) {
    && Solid(c)
    && SplitKv(c).Success? && SplitKv(c).value.value != ""
    && Unquoted(SplitKv(c).value.value).Failure?
  }

  lemma OpenTextSticks(k: string, p: string)
    requires CleanKey(k) && NoNewline(p)
    ensures Stuck(k + ": " + ("\"" + Escape(p)))
  {
    hide SplitKv, CommentStart, Escape, Unquoted, TrimEnd;
    var e := Escape(p);
    var q := "\"" + e;
    var c := k + ": " + q;
    assert NoNewline(c) by {
      EscapeKeepsLine(p);
      NoNewlineAppend("\"", e);
      NoNewlineAppend(k + ": ", q);
    }
    hide NoNewline;
    assert q[0] == '"' && c[0] == k[0];
    OpenQuoteScans(k, p);
    TrimEndOpenQuote(p);
    OpenQuoteNeverUnquotes(TrimEnd(p));
    SplitAtColon(k, q);
  }

  /** `lines` takes a carriage return off the text before escaping or after: the same. */
  lemma DropCrOpenText(a: string, p: string)
    requires a != "" && a[|a| - 1] != '\r'
    ensures DropCr(a + ("\"" + Escape(p))) == a + ("\"" + Escape(DropCr(p)))
  {
    var q := "\"" + Escape(p);
    var c := a + q;
    if p != "" {
      var u, z := p[..|p| - 1], p[|p| - 1];
      Unsnoc(p);
      EscapeSnoc(u, z);
      var e := EscapeChar(z);
      assert q[|q| - 1] == e[|e| - 1] == z && c[|c| - 1] == z;
      if z == '\r' {
        assert DropCr(p) == u;
        assert c[..|c| - 1] == a + ("\"" + Escape(u));
      }
    } else {
      assert c[|c| - 1] == '"';
    }
  }

  // ---------------- runs of lines --------------------------------------

  lemma {:induction false} AfterLinesAppend(d: Doc, a: seq<string>, b: seq<string>, n: nat)
    ensures AfterLines(d, a + b, n) ==
            if AfterLines(d, a, n).Success? then AfterLines(AfterLines(d, a, n).value, b, n + |a|)
            else AfterLines(d, a, n)
    decreases |a|
  {
    hide AfterLine;
    if a == [] {
      assert a + b == b;
    } else {
      assert (a + b)[0] == a[0] && (a + b)[1..] == a[1..] + b;
      var r := AfterLine(d, a[0], n);
      if r.Success? {
        AfterLinesAppend(r.value, a[1..], b, n + 1);
      }
    }
  }

  /** The parser's state at the end of a text entered in state `d` at line `n`. */
  function Through(d: Doc, text: string, n: nat): Result<Doc, Error> {
    AfterLines(d, Lines(text), n)
  }

  lemma ThroughAppend(d: Doc, a: string, b: string, n: nat)
    requires Terminated(a)
    ensures Through(d, a + b, n) ==
            if Through(d, a, n).Success? then Through(Through(d, a, n).value, b, n + |Lines(a)|)
            else Through(d, a, n)
  {
    hide Lines, AfterLines, Terminated;
    LinesAppend(a, b);
    var la, lb := Lines(a), Lines(b);
    AfterLinesAppend(d, la, lb, n);
    assert Through(d, a + b, n) == AfterLines(d, la + lb, n);
    assert Through(d, a, n) == AfterLines(d, la, n);
  }

  lemma ThroughOne(d: Doc, line: string, n: nat)
    requires NoNewline(line)
    ensures Through(d, line + "\n", n) == AfterLine(d, DropCr(line), n)
  {
    LinesOfOne(line);
    hide Lines, AfterLine, DropCr;
    var l := DropCr(line);
    var r := AfterLine(d, l, n);
    assert [l][1..] == [];
    if r.Success? {
      assert AfterLines(r.value, [], n + 1) == Success(r.value);
    }
  }

  lemma LeafLineIs(l: Leaf)
    ensures LeafLine(l) == Content(l) + "\n"
    ensures Nested(LeafLine(l)) == ("  " + Content(l)) + "\n"
  {
    hide Quoted;
  }

  lemma ThroughSolid(d: Doc, c: string, n: nat)
    requires Solid(c) && c[|c| - 1] != '\r'
    ensures Through(d, c + "\n", n) == AfterTopLine(d, c, n)
    ensures Through(d, ("  " + c) + "\n", n) == AfterNestedLine(d, c, n)
  {
    var i := "  " + c;
    NoNewlineAppend("  ", c);
    assert i[|i| - 1] == c[|c| - 1];
    ThroughOne(d, c, n);
    ThroughOne(d, i, n);
    SolidTopLine(d, c, n);
    SolidNestedLine(d, c, n);
    hide Through, AfterLine, AfterTopLine, AfterNestedLine;
  }

  lemma TopEffect(d: Doc, c: string, k: string, v: string, n: nat)
    requires Reads(c, k, v)
    ensures AfterTopLine(d, c, n) ==
            if Closed(d, n).Failure? then Failure(Closed(d, n).error)
            else if k in Closed(d, n).value then Failure(Error(n, DuplicateKey(k)))
            else Success(Doc(Closed(d, n).value[k := Scalar(v)], None))
  {
    hide SplitKv, Unquoted, Solid, Closed;
  }

  lemma NestedEffect(d: Doc, c: string, k: string, v: string, n: nat)
    requires Reads(c, k, v)
    ensures AfterNestedLine(d, c, n) ==
            if d.open.None? then Failure(Error(n, OrphanEntry))
            else if k in d.open.value.entries then Failure(Error(n, DuplicateKey(k)))
            else Success(Doc(d.top, Some(Block(d.open.value.key, d.open.value.entries[k := Scalar(v)]))))
  {
    hide SplitKv, Unquoted, Solid;
  }

  lemma ThroughLeaf(d: Doc, l: Leaf, n: nat)
    requires CleanLeaf(l) && NoNewline(l.value)
    ensures Through(d, LeafLine(l), n) == AfterTopLine(d, Content(l), n)
    ensures Through(d, Nested(LeafLine(l)), n) == AfterNestedLine(d, Content(l), n)
  {
    LeafReads(l);
    LeafLineIs(l);
    ThroughSolid(d, Content(l), n);
    hide Through, AfterTopLine, AfterNestedLine, Content;
  }

  lemma ThroughOpenLine(d: Doc, k: string, n: nat)
    requires CleanKey(k) && Closed(d, n).Success?
    ensures Through(d, OpenLine(k), n) ==
            Success(Doc(Closed(d, n).value, Some(Block(k, map[]))))
  {
    var c := k + ":";
    PlainAppend(k, ":");
    PlainScans(c);
    assert c[0] == k[0] && c[|c| - 1] == ':';
    ThroughSolid(d, c, n);
    assert SplitKv(c) == Success(Pair(k, "")) by {
      SplitAt(k, "");
      assert c + "" == c;
    }
    assert OpenLine(k) == c + "\n";
    hide Through, SplitKv, Closed;
  }

  lemma TerminatedAppend(a: string, b: string)
    requires Terminated(a) && Terminated(b)
    ensures Terminated(a + b)
  {
  }

  lemma OpenTerminated(k: string)
    ensures Terminated(OpenLine(k))
  {
  }

  lemma LeafTerminated(l: Leaf)
    ensures Terminated(LeafLine(l)) && Terminated(Nested(LeafLine(l)))
  {
    LeafLineIs(l);
  }

  lemma {:induction false} LeavesTerminated(ls: seq<Leaf>)
    ensures Terminated(LeafLines(ls))
  {
    if ls != [] {
      LeafTerminated(ls[0]);
      LeavesTerminated(ls[1..]);
      TerminatedAppend(Nested(LeafLine(ls[0])), LeafLines(ls[1..]));
    }
  }

  lemma EntryTerminated(e: Entry)
    ensures Terminated(EntryText(e))
  {
    match e
    case Single(l) => LeafTerminated(l);
    case Group(k, ls) =>
      LeavesTerminated(ls);
      TerminatedAppend(OpenLine(k), LeafLines(ls));
  }

  // ---------------- the round trip -------------------------------------

  /** What a half-read document would close to. */
  function Flat(d: Doc): Mapping {
    match d.open
    case None => d.top
    case Some(b) => d.top[b.key := Map(b.entries)]
  }

  predicate Closable(d: Doc) {
    d.open.Some? ==> d.open.value.key !in d.top
  }

  lemma MapCons<K, V>(m: map<K, V>, k: K, v: V, rest: map<K, V>)
    ensures m[k := v] + rest == m + (map[k := v] + rest)
    ensures m + map[] == m
  {
  }

  lemma NoLinesRead(d: Doc, n: nat)
    ensures Through(d, "", n) == Success(d)
  {
    assert Lines("") == [];
  }

  /** One nested leaf, and then the rest of the text. */
  lemma FirstLeafReads(d: Doc, l: Leaf, rest: string, n: nat)
    requires d.open.Some? && CleanLeaf(l) && NoNewline(l.value) && l.key !in d.open.value.entries
    ensures var b := d.open.value;
            Through(d, Nested(LeafLine(l)) + rest, n) ==
            Through(Doc(d.top, Some(Block(b.key, b.entries[l.key := Scalar(l.value)]))), rest,
                    n + |Lines(Nested(LeafLine(l)))|)
  {
    hide CleanLeaf, NoNewline, Through, AfterNestedLine, Nested, LeafLine, Content, Reads, Terminated, Lines;
    LeafTerminated(l);
    ThroughAppend(d, Nested(LeafLine(l)), rest, n);
    LeafReads(l);
    ThroughLeaf(d, l, n);
    NestedEffect(d, Content(l), l.key, l.value, n);
  }

  /** Leaves that may go into a block. */
  predicate Fresh(ls: seq<Leaf>, entries: Mapping) {
    DistinctLeaves(ls) && forall l | l in ls :: CleanLeaf(l) && NoNewline(l.value) && l.key !in entries
  }

  lemma FreshRest(ls: seq<Leaf>, entries: Mapping)
    requires Fresh(ls, entries) && ls != []
    ensures CleanLeaf(ls[0]) && NoNewline(ls[0].value) && ls[0].key !in entries
    ensures Fresh(ls[1..], entries[ls[0].key := Scalar(ls[0].value)])
  {
    hide CleanLeaf, NoNewline;
    assert ls[0] in ls && forall x | x in ls[1..] :: x in ls;
    LaterLeavesDiffer(ls);
  }

  lemma LaterLeavesDiffer(ls: seq<Leaf>)
    requires DistinctLeaves(ls) && ls != []
    ensures DistinctLeaves(ls[1..]) && forall x | x in ls[1..] :: x.key != ls[0].key
  {
    forall x | x in ls[1..] ensures x.key != ls[0].key {
      var i :| 0 <= i < |ls| - 1 && ls[1..][i] == x;
      assert ls[i + 1].key != ls[0].key;
    }
  }

  lemma {:induction false} LeavesRead(d: Doc, ls: seq<Leaf>, n: nat)
    requires d.open.Some? && Fresh(ls, d.open.value.entries)
    ensures var b := d.open.value;
            Through(d, LeafLines(ls), n) ==
            Success(Doc(d.top, Some(Block(b.key, b.entries + LeafMap(ls)))))
    decreases |ls|
  {
    hide CleanLeaf, NoNewline, Through, Nested, LeafLine, Lines, Fresh;
    var b := d.open.value;
    if ls == [] {
      NoLinesRead(d, n);
      MapCons(b.entries, "", Scalar(""), map[]);
    } else {
      var l, rest := ls[0], ls[1..];
      FreshRest(ls, b.entries);
      FirstLeafReads(d, l, LeafLines(rest), n);
      var d' := Doc(d.top, Some(Block(b.key, b.entries[l.key := Scalar(l.value)])));
      LeavesRead(d', rest, n + |Lines(Nested(LeafLine(l)))|);
      MapCons(b.entries, l.key, Scalar(l.value), LeafMap(rest));
    }
  }

  lemma GroupReads(d: Doc, k: string, ls: seq<Leaf>, n: nat)
    requires CleanKey(k) && DistinctLeaves(ls) && Closed(d, n).Success?
    requires forall l | l in ls :: CleanLeaf(l) && NoNewline(l.value)
    ensures Through(d, OpenLine(k) + LeafLines(ls), n) ==
            Success(Doc(Closed(d, n).value, Some(Block(k, LeafMap(ls)))))
  {
    hide CleanKey, CleanLeaf, NoNewline, Through, OpenLine, LeafLines, LeafMap, DistinctLeaves, Closed,
         Terminated, Lines;
    ThroughOpenLine(d, k, n);
    OpenTerminated(k);
    ThroughAppend(d, OpenLine(k), LeafLines(ls), n);
    LeavesRead(Doc(Closed(d, n).value, Some(Block(k, map[]))), ls, n + |Lines(OpenLine(k))|);
    assert map[] + LeafMap(ls) == LeafMap(ls);
  }

  lemma SingleReads(d: Doc, l: Leaf, n: nat)
    requires CleanLeaf(l) && NoNewline(l.value) && Closed(d, n).Success? && l.key !in Closed(d, n).value
    ensures Through(d, LeafLine(l), n) ==
            Success(Doc(Closed(d, n).value[l.key := Scalar(l.value)], None))
  {
    hide CleanLeaf, NoNewline, Through, AfterTopLine, LeafLine, Content, Closed, Reads;
    LeafReads(l);
    ThroughLeaf(d, l, n);
    TopEffect(d, Content(l), l.key, l.value, n);
  }

  lemma EntryReads(d: Doc, e: Entry, n: nat) returns (d': Doc)
    requires CleanEntry(e) && OneLine(e) && Closable(d) && EntryKey(e) !in Flat(d)
    requires e.Group? ==> DistinctLeaves(e.leaves)
    ensures Through(d, EntryText(e), n) == Success(d')
    ensures Closable(d') && Flat(d') == Flat(d)[EntryKey(e) := EntryValue(e)]
  {
    hide CleanLeaf, CleanKey, NoNewline, Through, LeafLine, OpenLine, LeafLines, LeafMap, DistinctLeaves, Lines;
    assert Closed(d, n) == Success(Flat(d));
    match e
    case Single(l) =>
      SingleReads(d, l, n);
      d' := Doc(Flat(d)[l.key := Scalar(l.value)], None);
    case Group(k, ls) =>
      GroupReads(d, k, ls, n);
      d' := Doc(Flat(d), Some(Block(k, LeafMap(ls))));
  }

  lemma FirstEntryReads(d: Doc, es: seq<Entry>, n: nat) returns (mid: Doc)
    requires CleanDoc(es) && DistinctEntries(es) && Closable(d) && es != []
    requires forall e | e in es :: OneLine(e) && EntryKey(e) !in Flat(d)
    ensures Through(d, DocText(es), n) ==
            Through(mid, DocText(es[1..]), n + |Lines(EntryText(es[0]))|)
    ensures Closable(mid) && Flat(mid) == Flat(d)[EntryKey(es[0]) := EntryValue(es[0])]
    ensures CleanDoc(es[1..]) && DistinctEntries(es[1..])
    ensures forall e | e in es[1..] :: OneLine(e) && EntryKey(e) !in Flat(mid)
  {
    hide CleanEntry, OneLine, Through, EntryText, EntryKey, EntryValue, Flat, Closable, Terminated, Lines,
         LeafMap, NoNewline, DistinctLeaves;
    var e, rest := es[0], es[1..];
    assert e in es && forall x | x in rest :: x in es;
    EntryTerminated(e);
    ThroughAppend(d, EntryText(e), DocText(rest), n);
    mid := EntryReads(d, e, n);
    forall x | x in rest ensures EntryKey(x) !in Flat(mid) {
      var i :| 0 <= i < |rest| && rest[i] == x;
      assert EntryKey(es[i + 1]) != EntryKey(es[0]);
    }
  }

  lemma {:induction false} EntriesRead(d: Doc, es: seq<Entry>, n: nat) returns (d': Doc)
    requires CleanDoc(es) && DistinctEntries(es) && Closable(d)
    requires forall e | e in es :: OneLine(e) && EntryKey(e) !in Flat(d)
    ensures Through(d, DocText(es), n) == Success(d')
    ensures Closable(d') && Flat(d') == Flat(d) + Meaning(es)
    decreases |es|
  {
    hide CleanEntry, OneLine, Through, EntryText, EntryKey, EntryValue, Flat, Closable, Terminated, Lines,
         LeafMap, NoNewline, DistinctEntries, CleanDoc;
    if es == [] {
      d' := d;
      NoLinesRead(d, n);
      MapCons(Flat(d), "", Scalar(""), map[]);
    } else {
      var e, rest := es[0], es[1..];
      var mid := FirstEntryReads(d, es, n);
      d' := EntriesRead(mid, rest, n + |Lines(EntryText(e))|);
      MapCons(Flat(d), EntryKey(e), EntryValue(e), Meaning(rest));
    }
  }

  /** A clean document parses back to exactly the mapping it was written from. */
  lemma DocumentRoundTrip(es: seq<Entry>)
    requires CleanDoc(es) && DistinctEntries(es)
    requires forall e | e in es :: OneLine(e)
    ensures Parsed(DocText(es)) == Success(Meaning(es))
  {
    hide AfterLines, Meaning, DocText, Lines, CleanDoc, DistinctEntries, OneLine;
    var d := EntriesRead(EMPTY, es, 1);
    assert map[] + Meaning(es) == Meaning(es);
  }

  // ---------------- fail-safe quoting ----------------------------------

  predicate Extends(small: Mapping, big: Mapping) {
    forall k | k in small :: k in big && big[k] == small[k]
  }

  /** Block `b`, possibly grown, is the open block or a finished key. */
  predicate Holds(d: Doc, b: Block) {
    || (d.open.Some? && d.open.value.key == b.key && Extends(b.entries, d.open.value.entries))
    || (b.key in d.top && d.top[b.key].Map? && Extends(b.entries, d.top[b.key].entries))
  }

  /** Finished keys keep their values; the open block only ever becomes one. */
  lemma AfterLineKeeps(d: Doc, l: string, n: nat, b: Block)
    requires AfterLine(d, l, n).Success?
    ensures var d' := AfterLine(d, l, n).value;
            Extends(d.top, d'.top) && (Holds(d, b) ==> Holds(d', b))
  {
    hide SplitKv, Unquoted, Trim, TrimStart, CommentStart, ByteLen;
  }

  lemma {:induction false} AfterLinesKeep(d: Doc, ls: seq<string>, n: nat, b: Block)
    requires AfterLines(d, ls, n).Success?
    ensures var d' := AfterLines(d, ls, n).value;
            Extends(d.top, d'.top) && (Holds(d, b) ==> Holds(d', b))
    decreases |ls|
  {
    hide AfterLine, Holds;
    if ls != [] {
      AfterLineKeeps(d, ls[0], n, b);
      AfterLinesKeep(AfterLine(d, ls[0], n).value, ls[1..], n + 1, b);
    }
  }

  /** Splits a text at its first newline. */
  lemma FirstNewline(v: string) returns (p: string, tail: string)
    requires !NoNewline(v)
    ensures v == p + ("\n" + tail) && NoNewline(p)
  {
    var i := IndexOf(v, '\n');
    assert i < |v|;
    p, tail := v[..i], v[i + 1..];
  }

  predicate Indent(s: string) {
    s == "" || s == "  "
  }

  lemma StuckStops(d: Doc, indent: string, c: string, n: nat)
    requires Stuck(c) && Indent(indent)
    ensures AfterLine(d, indent + c, n).Failure?
  {
    SolidTopLine(d, c, n);
    SolidNestedLine(d, c, n);
    assert "" + c == c;
    hide AfterLine, SplitKv, Unquoted;
  }

  lemma QuotedLine(indent: string, k: string, a: string, b: string)
    ensures indent + (k + ("\"" + (a + ("\n" + b)) + "\"") + "\n") ==
            (indent + k + ("\"" + a)) + "\n" + (b + "\"\n")
  {
  }

  /** How the line of a broken text starts: one whole line, then the rest. */
  lemma BrokenText(indent: string, k: string, p: string, tail: string)
    ensures indent + StringLine(k, p + ("\n" + tail)) ==
            (indent + (k + ": ") + ("\"" + Escape(p))) + "\n" + (Escape(tail) + "\"\n")
  {
    var v := p + ("\n" + tail);
    var a, b := Escape(p), Escape(tail);
    assert EscapeChar('\n') == "\n";
    assert StringLine(k, v) == k + ": " + ("\"" + Escape(v) + "\"") + "\n" by {
      hide Escape;
    }
    hide *;
    EscapeAppend(p, "\n" + tail);
    EscapeCons('\n', tail);
    QuotedLine(indent, k + ": ", a, b);
  }

  /** A quoted text with a newline in it stops the parser on its first line. */
  lemma BrokenLineStops(d: Doc, indent: string, k: string, v: string, post: string, n: nat)
    requires CleanKey(k) && !NoNewline(v) && Indent(indent)
    ensures Through(d, (indent + StringLine(k, v)) + post, n).Failure?
  {
    var p, tail := FirstNewline(v);
    var head := indent + (k + ": ");
    assert head[|head| - 1] == ' ' && head != "";
    BrokenText(indent, k, p, tail);
    var first := head + ("\"" + Escape(p));
    var p' := DropCr(p);
    assert NoNewline(p') && NoNewline(first) by {
      EscapeKeepsLine(p);
      NoNewlineAppend(indent, k + ": ");
      NoNewlineAppend(head, "\"" + Escape(p));
    }
    DropCrOpenText(head, p);
    OpenTextSticks(k, p');
    var c := k + ": " + ("\"" + Escape(p'));
    Regroup(indent, k + ": ", "\"" + Escape(p'));
    StuckStops(d, indent, c, n);
    ThroughOne(d, first, n);
    assert Terminated(first + "\n");
    ThroughAppend(d, first + "\n", (Escape(tail) + "\"\n") + post, n);
    Regroup(first + "\n", Escape(tail) + "\"\n", post);
    hide *;
  }

  /** Where a text leaves the parser, if it gets that far. */
  function ReadTo(pre: string): Result<Doc, Error> {
    Through(EMPTY, pre, 1)
  }

  lemma BrokenLineFails(pre: string, indent: string, k: string, v: string, post: string)
    requires Terminated(pre) && CleanKey(k) && !NoNewline(v) && Indent(indent)
    ensures Parsed(pre + (indent + StringLine(k, v)) + post).Failure?
  {
    hide AfterLines, Lines, StringLine, Terminated, CleanKey, NoNewline;
    var line := indent + StringLine(k, v);
    Regroup(pre, line, post);
    ThroughAppend(EMPTY, pre, line + post, 1);
    if ReadTo(pre).Success? {
      BrokenLineStops(ReadTo(pre).value, indent, k, v, post, 1 + |Lines(pre)|);
    }
  }

  lemma ParsedInParts(pre: string, mid: string, post: string) returns (n: nat, line: nat)
    requires Terminated(pre) && Terminated(mid)
    requires Parsed(pre + mid + post).Success?
    ensures ReadTo(pre).Success?
    ensures Through(ReadTo(pre).value, mid, n).Success?
    ensures var d := Through(ReadTo(pre).value, mid, n).value;
            && Through(d, post, line).Success?
            && Extends(Through(d, post, line).value.top, Parsed(pre + mid + post).value)
            && var open := Through(d, post, line).value.open;
               open.Some? ==> open.value.key in Parsed(pre + mid + post).value
                              && Parsed(pre + mid + post).value[open.value.key] == Map(open.value.entries)
  {
    hide AfterLines, Lines, Terminated;
    n := 1 + |Lines(pre)|;
    line := n + |Lines(mid)|;
    Regroup(pre, mid, post);
    ThroughAppend(EMPTY, pre, mid + post, 1);
    ThroughAppend(ReadTo(pre).value, mid, post, n);
  }

  /**
   Whatever string is written and whatever surrounds its line, the parser
   either reads exactly that string under the key or refuses the document. A
   newline in the string always makes it refuse.
   */
  lemma QuotedTextIsFailSafe(pre: string, k: string, v: string, post: string)
    requires Terminated(pre) && CleanKey(k)
    ensures var r := Parsed(pre + StringLine(k, v) + post);
            r.Success? ==> NoNewline(v) && k in r.value && r.value[k] == Scalar(v)
  {
    var l := Leaf.Text(k, v);
    assert "" + StringLine(k, v) == StringLine(k, v);
    if !NoNewline(v) {
      BrokenLineFails(pre, "", k, v, post);
    } else if Parsed(pre + StringLine(k, v) + post).Success? {
      LeafTerminated(l);
      var n, line := ParsedInParts(pre, StringLine(k, v), post);
      var d := ReadTo(pre).value;
      LeafReads(l);
      ThroughLeaf(d, l, n);
      TopEffect(d, Content(l), k, v, n);
      var d' := Through(d, StringLine(k, v), n).value;
      AfterLinesKeep(d', Lines(post), line, Block("", map[]));
      hide Parsed, ReadTo, AfterLines, AfterTopLine, StringLine, Content, Closed, Lines;
      assert d'.top[k] == Scalar(v);
    }
  }

  /** The same inside a block: the value lands in the block the line stands in. */
  lemma NestedTextIsFailSafe(pre: string, k: string, v: string, post: string)
    requires Terminated(pre) && CleanKey(k)
    ensures var r := Parsed(pre + Nested(StringLine(k, v)) + post);
            r.Success? ==>
              && NoNewline(v) && ReadTo(pre).Success? && ReadTo(pre).value.open.Some?
              && var block := ReadTo(pre).value.open.value.key;
                 && block in r.value && r.value[block].Map?
                 && k in r.value[block].entries && r.value[block].entries[k] == Scalar(v)
  {
    var l := Leaf.Text(k, v);
    if !NoNewline(v) {
      BrokenLineFails(pre, "  ", k, v, post);
    } else if Parsed(pre + Nested(StringLine(k, v)) + post).Success? {
      LeafTerminated(l);
      var n, line := ParsedInParts(pre, Nested(StringLine(k, v)), post);
      var d := ReadTo(pre).value;
      LeafReads(l);
      ThroughLeaf(d, l, n);
      NestedEffect(d, Content(l), k, v, n);
      var d' := Through(d, Nested(StringLine(k, v)), n).value;
      var b := d'.open.value;
      AfterLinesKeep(d', Lines(post), line, b);
      hide Parsed, ReadTo, AfterLines, AfterNestedLine, StringLine, Nested, Content, Lines;
      assert Holds(d', b) && b.entries[k] == Scalar(v);
    }
  }

  // ---------------- whole documents that cannot be read ----------------

  lemma {:induction false} DocTextSplit(es: seq<Entry>, i: nat)
    requires i < |es|
    ensures DocText(es) == DocText(es[..i]) + EntryText(es[i]) + DocText(es[i + 1..])
    ensures Terminated(DocText(es[..i]))
  {
    var head := EntryText(es[0]);
    if i == 0 {
      assert es[..0] == [];
      assert "" + head == head;
    } else {
      DocTextSplit(es[1..], i - 1);
      var mid := DocText(es[1..][..i - 1]);
      assert es[1..][..i - 1] == es[..i][1..] && es[1..][i..] == es[i + 1..];
      assert DocText(es[..i]) == head + mid;
      assert DocText(es) == head + DocText(es[1..]);
      EntryTerminated(es[0]);
      TerminatedAppend(head, mid);
      hide *;
      Regroup(head, mid, EntryText(es[i]));
      Regroup(head, mid + EntryText(es[i]), DocText(es[i + 1..]));
    }
  }

  lemma {:induction false} LeafLinesSplit(ls: seq<Leaf>, i: nat)
    requires i < |ls|
    ensures LeafLines(ls) == LeafLines(ls[..i]) + Nested(LeafLine(ls[i])) + LeafLines(ls[i + 1..])
  {
    hide LeafLine, Nested;
    var head := Nested(LeafLine(ls[0]));
    if i == 0 {
      assert ls[..0] == [];
      assert "" + head == head;
    } else {
      var tail, pre := ls[1..], ls[..i];
      assert tail[..i - 1] == pre[1..] && tail[i - 1] == ls[i] && tail[i..] == ls[i + 1..];
      var mid, one := LeafLines(tail[..i - 1]), Nested(LeafLine(ls[i]));
      assert LeafLines(pre) == head + mid;
      assert LeafLines(ls) == head + LeafLines(tail);
      hide *;
      LeafLinesSplit(tail, i - 1);
      Regroup(head, mid, one);
      Regroup(head, mid + one, LeafLines(ls[i + 1..]));
    }
  }

  lemma BareFitsLine(l: Leaf)
    requires CleanLeaf(l) && !NoNewline(l.value)
    ensures l.Text? && LeafLine(l) == StringLine(l.key, l.value)
  {
  }

  lemma BrokenGroup(pre: string, k: string, ls: seq<Leaf>, j: nat, post: string)
    requires Terminated(pre) && j < |ls| && CleanLeaf(ls[j]) && !NoNewline(ls[j].value)
    ensures Parsed(pre + (OpenLine(k) + LeafLines(ls)) + post).Failure?
  {
    BareFitsLine(ls[j]);
    LeafLinesSplit(ls, j);
    LeavesTerminated(ls[..j]);
    TerminatedAppend(OpenLine(k), LeafLines(ls[..j]));
    var before := OpenLine(k) + LeafLines(ls[..j]);
    TerminatedAppend(pre, before);
    var line := Nested(LeafLine(ls[j]));
    var after := LeafLines(ls[j + 1..]);
    BrokenLineFails(pre + before, "  ", ls[j].key, ls[j].value, after + post);
    assert line == "  " + StringLine(ls[j].key, ls[j].value);
    hide *;
    Regroup(OpenLine(k), LeafLines(ls[..j]), line);
    Regroup(OpenLine(k), LeafLines(ls[..j]) + line, after);
    Regroup(pre, before + line, after);
    Regroup(pre, before, line);
    Regroup(pre + before + line, after, post);
  }

  /** A quoted text with a newline anywhere makes the whole document unreadable, whatever came before. */
  lemma BrokenEndingFails(start: string, es: seq<Entry>)
    requires Terminated(start) && CleanDoc(es) && exists e | e in es :: !OneLine(e)
    ensures Parsed(start + DocText(es)).Failure?
  {
    hide Parsed, DocText, NoNewline, LeafLines, OpenLine, StringLine, CleanKey, CleanScalar, Terminated;
    var i :| 0 <= i < |es| && !OneLine(es[i]);
    assert CleanEntry(es[i]);
    DocTextSplit(es, i);
    var pre, post := start + DocText(es[..i]), DocText(es[i + 1..]);
    TerminatedAppend(start, DocText(es[..i]));
    Regroup(start, DocText(es[..i]), EntryText(es[i]));
    Regroup(start, DocText(es[..i]) + EntryText(es[i]), post);
    match es[i]
    case Single(l) =>
      BareFitsLine(l);
      BrokenLineFails(pre, "", l.key, l.value, post);
      assert "" + StringLine(l.key, l.value) == EntryText(es[i]);
    case Group(k, ls) =>
      var j :| 0 <= j < |ls| && !NoNewline(ls[j].value);
      BrokenGroup(pre, k, ls, j, post);
  }

  lemma BrokenDocumentFails(es: seq<Entry>)
    requires CleanDoc(es) && exists e | e in es :: !OneLine(e)
    ensures Parsed(DocText(es)).Failure?
  {
    hide Parsed, DocText, CleanDoc, OneLine;
    BrokenEndingFails("", es);
    assert "" + DocText(es) == DocText(es);
  }

  // ---------------- a written ending ------------------------------------

  lemma OpenLineCloses(d: Doc, k: string, n: nat)
    requires CleanKey(k) && Through(d, OpenLine(k), n).Success?
    ensures Closed(d, n).Success?
  {
    var c := k + ":";
    PlainAppend(k, ":");
    PlainScans(c);
    assert c[0] == k[0] && c[|c| - 1] == ':';
    ThroughSolid(d, c, n);
    assert OpenLine(k) == c + "\n";
    hide Through, SplitKv, Closed;
  }

  /** An entry the parser gets through, whatever it had read before: its key is new and gets its value. */
  lemma EntryTaken(d: Doc, e: Entry, n: nat)
    requires CleanEntry(e) && OneLine(e) && (e.Group? ==> DistinctLeaves(e.leaves))
    requires Through(d, EntryText(e), n).Success?
    ensures var d' := Through(d, EntryText(e), n).value;
            Closable(d) && Flat(d') == Flat(d)[EntryKey(e) := EntryValue(e)]
            && (Closable(d') ==> EntryKey(e) !in Flat(d))
  {
    hide CleanLeaf, CleanKey, NoNewline, Through, AfterTopLine, LeafLine, OpenLine, LeafLines, LeafMap,
         DistinctLeaves, Lines, Content, Reads, Terminated;
    match e
    case Single(l) =>
      LeafReads(l);
      ThroughLeaf(d, l, n);
      TopEffect(d, Content(l), l.key, l.value, n);
    case Group(k, ls) =>
      OpenTerminated(k);
      ThroughAppend(d, OpenLine(k), LeafLines(ls), n);
      OpenLineCloses(d, k, n);
      GroupReads(d, k, ls, n);
  }

  lemma {:induction false} EntriesTaken(d: Doc, es: seq<Entry>, n: nat)
    requires CleanDoc(es) && DistinctEntries(es) && forall e | e in es :: OneLine(e)
    requires Through(d, DocText(es), n).Success? && Closable(Through(d, DocText(es), n).value)
    ensures Closable(d) && Flat(Through(d, DocText(es), n).value) == Flat(d) + Meaning(es)
    ensures forall k | k in Meaning(es) :: k !in Flat(d)
    decreases |es|
  {
    hide CleanEntry, OneLine, Through, EntryText, EntryKey, EntryValue, Flat, Closable, Terminated, Lines,
         LeafMap, NoNewline, DistinctLeaves;
    if es == [] {
      NoLinesRead(d, n);
      MapCons(Flat(d), "", Scalar(""), map[]);
    } else {
      var e, rest := es[0], es[1..];
      assert e in es && forall x | x in rest :: x in es;
      EntryTerminated(e);
      ThroughAppend(d, EntryText(e), DocText(rest), n);
      EntryTaken(d, e, n);
      var mid := Through(d, EntryText(e), n).value;
      EntriesTaken(mid, rest, n + |Lines(EntryText(e))|);
      MapCons(Flat(d), EntryKey(e), EntryValue(e), Meaning(rest));
      forall k | k in Meaning(es) ensures k !in Flat(d) {
        assert k == EntryKey(e) || k in Meaning(rest);
      }
    }
  }

  /**
   Whatever comes before them, the entries a document ends in are read exactly
   as written or the document is refused: nothing before them can change them,
   give one of their keys another value, or leave one out.
   */
  lemma EndingIsRead(pre: string, es: seq<Entry>)
    requires Terminated(pre) && CleanDoc(es) && DistinctEntries(es)
    requires forall e | e in es :: OneLine(e)
    requires Parsed(pre + DocText(es)).Success?
    ensures ReadTo(pre).Success? && Closable(ReadTo(pre).value)
    ensures Parsed(pre + DocText(es)).value == Flat(ReadTo(pre).value) + Meaning(es)
    ensures forall k | k in Meaning(es) :: k !in Flat(ReadTo(pre).value)
  {
    hide *;
    ParsedThrough(pre, DocText(es));
    var d, n := ReadTo(pre).value, 1 + |Lines(pre)|;
    EntriesTaken(d, es, n);
  }

  /** A document that parses: its beginning is read, its ending from there, and what that leaves closes. */
  lemma ParsedThrough(pre: string, post: string)
    requires Terminated(pre) && Parsed(pre + post).Success?
    ensures ReadTo(pre).Success? && Through(ReadTo(pre).value, post, 1 + |Lines(pre)|).Success?
    ensures var d := Through(ReadTo(pre).value, post, 1 + |Lines(pre)|).value;
            Closable(d) && Parsed(pre + post).value == Flat(d)
  {
    hide Lines, Terminated, AfterLines;
    ThroughAppend(EMPTY, pre, post, 1);
  }

  // ---------------- what is read holds no newline ----------------------

  predicate OneLineValue(v: Value) {
    match v
    case Scalar(s) => NoNewline(s)
    case Map(m) => forall k | k in m :: m[k].Scalar? && NoNewline(m[k].text)
  }

  predicate OneLineMapping(m: Mapping) {
    forall k | k in m :: OneLineValue(m[k])
  }

  predicate OneLineDoc(d: Doc) {
    OneLineMapping(d.top) && (d.open.Some? ==> OneLineValue(Map(d.open.value.entries)))
  }

  lemma {:induction false} UnescapedFits(s: string)
    requires NoNewline(s) && Unescaped(s).Success?
    ensures NoNewline(Unescaped(s).value)
    decreases |s|
  {
    if s != "" {
      if s[0] != '\\' {
        UnescapedFits(s[1..]);
      } else {
        UnescapedFits(s[2..]);
      }
    }
  }

  lemma UnquotedFits(s: string)
    requires NoNewline(s) && Unquoted(s).Success?
    ensures NoNewline(Unquoted(s).value)
  {
    if s != "" && s[0] == '"' {
      UnescapedFits(s[1..|s| - 1]);
    }
  }

  lemma SplitFits(s: string)
    requires NoNewline(s) && SplitKv(s).Success?
    ensures NoNewline(SplitKv(s).value.value)
  {
    hide Trim;
    TrimIsInside(s[IndexOf(s, ':') + 1..]);
  }

  lemma AfterLineFits(d: Doc, l: string, n: nat)
    requires OneLineDoc(d) && NoNewline(l) && AfterLine(d, l, n).Success?
    ensures OneLineDoc(AfterLine(d, l, n).value)
  {
    hide SplitKv, Unquoted, Trim, TrimStart, CommentStart, ByteLen;
    var stripped := Uncommented(l);
    var content := TrimStart(stripped);
    TrimStartKeeps(stripped);
    assert NoNewline(content);
    hide NoNewline, Uncommented;
    if SplitKv(content).Success? {
      SplitFits(content);
      var v := SplitKv(content).value.value;
      if Unquoted(v).Success? {
        UnquotedFits(v);
      }
    }
  }

  lemma {:induction false} AfterLinesFit(d: Doc, ls: seq<string>, n: nat)
    requires OneLineDoc(d) && (forall l | l in ls :: NoNewline(l)) && AfterLines(d, ls, n).Success?
    ensures OneLineDoc(AfterLines(d, ls, n).value)
    decreases |ls|
  {
    hide AfterLine, OneLineDoc, NoNewline;
    if ls != [] {
      AfterLineFits(d, ls[0], n);
      AfterLinesFit(AfterLine(d, ls[0], n).value, ls[1..], n + 1);
    }
  }

  lemma {:induction false} LinesFit(text: string)
    ensures forall l | l in Lines(text) :: NoNewline(l)
    decreases |text|
  {
    if text != "" {
      var n := IndexOf(text, '\n');
      if n < |text| {
        LinesFit(text[n + 1..]);
      }
    }
  }

  /** No value the parser ever yields holds a newline. */
  lemma ParsedFits(text: string)
    requires Parsed(text).Success?
    ensures OneLineMapping(Parsed(text).value)
  {
    LinesFit(text);
    AfterLinesFit(EMPTY, Lines(text), 1);
  }
}
