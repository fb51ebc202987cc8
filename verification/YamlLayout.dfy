/**
 How a line is laid out: comments, white space and indents, which lines are
 refused, and which line an error names. Every line is taken apart into its
 indent, key and value, and what it does is said of those alone.
 */
module YamlLayout {
  import opened Results
  import opened Text
  import opened Yaml
  import opened YamlRoundTrip

  // ---------------- where a comment starts ------------------------------

  /** `n` is where the comment of a line starts, if it has one. */
  predicate CommentsAt(line: string, n: nat) {
    && n <= |line|
    && (forall k | 0 <= k < n :: !Opens(line, k))
    && (n < |line| ==> Opens(line, n))
  }

  /** A hash sign outside quotes. */
  predicate Opens(line: string, k: nat)
    requires k < |line|
  {
    line[k] == '#' && QuotingAfter(line[..k], Outside) == Outside
  }

  lemma QuotingSnoc(s: string, c: char, q: Quoting)
    ensures QuotingAfter(s + [c], q) == Next(QuotingAfter(s, q), c)
    decreases |s|
  {
    if s == "" {
      assert [c][1..] == "" && s + [c] == [c];
    } else {
      assert (s + [c])[1..] == s[1..] + [c];
      QuotingSnoc(s[1..], c, Next(q, s[0]));
    }
  }

  /** From position `i` of a line on, the scan finds the next opening hash sign. */
  lemma {:induction false} ScanFinds(line: string, i: nat, n: nat)
    requires i <= n && CommentsAt(line, n)
    ensures CommentStart(line[i..], QuotingAfter(line[..i], Outside)) == n - i
    decreases n - i
  {
    var q := QuotingAfter(line[..i], Outside);
    if i < n {
      assert !Opens(line, i);
      assert line[i..][1..] == line[i + 1..] && line[..i + 1] == line[..i] + [line[i]];
      QuotingSnoc(line[..i], line[i], Outside);
      ScanFinds(line, i + 1, n);
    }
  }

  /** What the stripper leaves is the line up to the first hash sign outside quotes. */
  lemma UncommentedExactly(line: string, n: nat)
    requires n <= |line|
    ensures Uncommented(line) == line[..n] <==> CommentsAt(line, n)
  {
    var m := FirstOpening(line);
    ScanFinds(line, 0, m);
    assert line[0..] == line && QuotingAfter(line[..0], Outside) == Outside;
    assert |line[..m]| == m && |line[..n]| == n;
    if CommentsAt(line, n) { OneComment(line, n, m); }
  }

  lemma OneComment(line: string, n: nat, m: nat)
    requires CommentsAt(line, n) && CommentsAt(line, m)
    ensures n == m
  {
    hide Opens;
  }

  lemma {:induction false} FirstOpening(line: string) returns (n: nat)
    ensures CommentsAt(line, n)
  {
    n := 0;
    while n < |line| && !Opens(line, n)
      invariant n <= |line| && forall k | 0 <= k < n :: !Opens(line, k)
    {
      n := n + 1;
    }
  }

  // ---------------- white space -----------------------------------------

  predicate AllSpace(s: string) {
    forall i | 0 <= i < |s| :: IsSpace(s[i])
  }

  /** Of the 128 ASCII characters these six are white space, of one byte each. */
  lemma AsciiSpaces(c: char)
    requires c as int < 128
    ensures IsSpace(c) <==> c in {' ', '\t', '\n', '\r', 11 as char, 12 as char}
    ensures ByteLen([c]) == 1
  {
    assert [c][1..] == "";
  }

  lemma {:induction false} TrimStartSplit(a: string, b: string)
    requires AllSpace(a) && (b == "" || !IsSpace(b[0]))
    ensures TrimStart(a + b) == b
  {
    hide IsSpace;
    if a == "" {
      assert a + b == b;
    } else {
      assert (a + b)[0] == a[0] && (a + b)[1..] == a[1..] + b;
      TrimStartSplit(a[1..], b);
    }
  }

  lemma {:induction false} TrimEndSplit(a: string, b: string)
    requires AllSpace(b) && (a == "" || !IsSpace(a[|a| - 1]))
    ensures TrimEnd(a + b) == a
    decreases |b|
  {
    hide IsSpace;
    if b == "" {
      assert a + b == a;
    } else {
      var n := |b| - 1;
      assert a + b == (a + b[..n]) + [b[n]];
      TrimEndSnoc(a + b[..n], b[n]);
      TrimEndSplit(a, b[..n]);
    }
  }

  lemma TrimSplit(a: string, b: string, c: string)
    requires AllSpace(a) && Trimmed(b) && AllSpace(c)
    ensures Trim(a + b + c) == b
  {
    hide IsSpace, TrimStart, TrimEnd;
    if b == "" {
      assert a + b + c == (a + c) + "";
      TrimStartSplit(a + c, "");
      assert TrimEnd("") == "" by { TrimEndSplit("", ""); }
    } else {
      Regroup(a, b, c);
      TrimStartSplit(a, b + c);
      TrimEndSplit(b, c);
    }
  }

  lemma TrimBlank(s: string)
    ensures Trim(s) == "" <==> AllSpace(s)
  {
    hide IsSpace, TrimEnd;
    TrimStartKeeps(s);
    var r := TrimStart(s);
    if r == "" {
      assert TrimEnd("") == "" by { TrimEndSplit("", ""); }
    } else {
      assert s[|s| - |r|] == r[0];
      TrimEndFirst(r);
    }
  }

  lemma {:induction false} ByteLenAppend(a: string, b: string)
    ensures ByteLen(a + b) == ByteLen(a) + ByteLen(b)
  {
    if a == "" {
      assert a + b == b;
    } else {
      assert (a + b)[1..] == a[1..] + b;
      ByteLenAppend(a[1..], b);
    }
  }

  // ---------------- the shape of a line ---------------------------------

  /** A line with a colon: `indent key gap : lead value trail`. */
  datatype Shape = Shape(indent: string, key: string, gap: string, lead: string, value: string, trail: string)

  function Spelled(s: Shape): string {
    s.indent + (s.key + s.gap + ":" + (s.lead + s.value + s.trail))
  }

  predicate IsShape(s: Shape) {
    && AllSpace(s.indent) && AllSpace(s.gap) && AllSpace(s.lead) && AllSpace(s.trail)
    && Trimmed(s.key) && Trimmed(s.value) && (s.key == "" ==> s.gap == "") && ':' !in s.key
  }

  /** Every line that says anything and has a colon has a shape. */
  lemma ShapeOf(u: string) returns (s: Shape)
    requires !AllSpace(u) && ':' in u
    ensures IsShape(s) && Spelled(s) == u
  {
    var indent, rest := Indented(u);
    SpaceIsNoColon(indent);
    var a, b := AtColon(rest);
    var key, gap := KeyAndGap(a);
    var lead, value, trail := TakenApart(b);
    s := Shape(indent, key, gap, lead, value, trail);
    hide AllSpace, Trimmed;
  }

  lemma Indented(u: string) returns (indent: string, rest: string)
    requires !AllSpace(u)
    ensures u == indent + rest && AllSpace(indent) && rest != "" && !IsSpace(rest[0])
  {
    hide IsSpace;
    TrimStartKeeps(u);
    rest := TrimStart(u);
    indent := u[..|u| - |rest|];
  }

  lemma AtColon(rest: string) returns (a: string, b: string)
    requires ':' in rest
    ensures rest == a + ":" + b && ':' !in a
  {
    var n := IndexOf(rest, ':');
    var i :| 0 <= i < |rest| && rest[i] == ':';
    assert n < |rest|;
    a, b := rest[..n], rest[n + 1..];
  }

  lemma KeyAndGap(a: string) returns (key: string, gap: string)
    requires a == "" || !IsSpace(a[0])
    ensures a == key + gap && AllSpace(gap) && Trimmed(key) && (key == "" ==> gap == "")
  {
    hide IsSpace;
    TrimEndKeeps(a);
    key := TrimEnd(a);
    gap := a[|key|..];
    if a != "" { TrimEndFirst(a); }
  }

  lemma SpaceIsNoColon(s: string)
    requires AllSpace(s)
    ensures ':' !in s
  {
  }

  lemma TakenApart(b: string) returns (lead: string, value: string, trail: string)
    ensures b == lead + value + trail && AllSpace(lead) && AllSpace(trail) && Trimmed(value)
  {
    hide *;
    var rest;
    lead, rest := LeadTaken(b);
    value, trail := TrailTaken(rest);
    Regroup(lead, value, trail);
  }

  lemma LeadTaken(b: string) returns (lead: string, rest: string)
    ensures b == lead + rest && AllSpace(lead) && (rest == "" || !IsSpace(rest[0]))
  {
    hide IsSpace;
    TrimStartKeeps(b);
    rest := TrimStart(b);
    lead := b[..|b| - |rest|];
  }

  lemma TrailTaken(rest: string) returns (value: string, trail: string)
    requires rest == "" || !IsSpace(rest[0])
    ensures rest == value + trail && AllSpace(trail) && Trimmed(value)
  {
    hide IsSpace;
    TrimEndKeeps(rest);
    value := TrimEnd(rest);
    trail := rest[|value|..];
  }

  lemma SplitExactly(s: Shape)
    requires IsShape(s)
    ensures SplitKv(s.key + s.gap + ":" + (s.lead + s.value + s.trail)) ==
            if s.key == "" then Failure(EmptyKey) else Success(Pair(s.key, s.value))
  {
    hide IsSpace, Trim;
    var a, b := s.key + s.gap, s.lead + s.value + s.trail;
    var t := a + ":" + b;
    SpaceIsNoColon(s.gap);
    assert IndexOf(t, ':') == |a| by {
      assert t[|a|] == ':' && forall i | 0 <= i < |a| :: t[i] == a[i];
      IndexOfIs(t, ':', |a|);
    }
    assert t[..|a|] == a && t[|a| + 1..] == b;
    TrimSplit("", s.key, s.gap);
    assert "" + s.key + s.gap == a;
    TrimSplit(s.lead, s.value, s.trail);
  }

  /** A line with nothing but white space before its comment changes nothing. */
  lemma SilentLine(d: Doc, line: string, n: nat)
    requires AllSpace(Uncommented(line))
    ensures AfterLine(d, line, n) == Success(d)
  {
    TrimBlank(Uncommented(line));
    hide Uncommented, AllSpace, Trim;
  }

  /** The indent of a line that says something decides what it may be. */
  lemma IndentDecides(d: Doc, line: string, indent: string, rest: string, n: nat)
    requires Uncommented(line) == indent + rest && AllSpace(indent) && rest != "" && !IsSpace(rest[0])
    ensures AfterLine(d, line, n) ==
            if indent == "" then AfterTopLine(d, rest, n)
            else if ByteLen(indent) == 2 then AfterNestedLine(d, rest, n)
            else Failure(Error(n, BadIndent(ByteLen(indent))))
  {
    var u := Uncommented(line);
    TrimBlank(u);
    SpeaksUp(indent, rest);
    TrimStartSplit(indent, rest);
    ByteLenAppend(indent, rest);
    hide Uncommented, AllSpace, Trim, TrimStart, IsSpace, AfterTopLine, AfterNestedLine;
  }

  lemma SpeaksUp(indent: string, rest: string)
    requires rest != "" && !IsSpace(rest[0])
    ensures !AllSpace(indent + rest)
  {
    assert (indent + rest)[|indent|] == rest[0];
  }

  lemma ShapeSpeaks(s: Shape)
    requires IsShape(s)
    ensures var rest := s.key + s.gap + ":" + (s.lead + s.value + s.trail);
            Spelled(s) == s.indent + rest && rest != "" && !IsSpace(rest[0])
  {
    var rest := s.key + s.gap + ":" + (s.lead + s.value + s.trail);
    assert rest[0] == if s.key == "" then ':' else s.key[0];
  }

  /**
   Exactly when a line at the left edge is taken, and what it does: it closes
   the open block, whose key must be new, and adds a value under a key that is
   new as well, or opens a block.
   */
  lemma TopLineExactly(d: Doc, line: string, s: Shape, n: nat)
    requires IsShape(s) && Uncommented(line) == Spelled(s) && s.indent == ""
    ensures var r := AfterLine(d, line, n);
            && (r.Success? <==>
                  && Closable(d) && s.key != ""
                  && (s.value == "" || (Unquoted(s.value).Success? && s.key !in Flat(d))))
            && (r.Success? ==>
                  r.value == if s.value == "" then Doc(Flat(d), Some(Block(s.key, map[])))
                             else Doc(Flat(d)[s.key := Scalar(Unquoted(s.value).value)], None))
  {
    ShapeSpeaks(s);
    SplitExactly(s);
    IndentDecides(d, line, "", s.key + s.gap + ":" + (s.lead + s.value + s.trail), n);
    hide IsShape, Spelled, Uncommented, SplitKv, Unquoted, AfterLine, IsSpace;
  }

  /**
   Exactly when a line indented by two bytes is taken: it stands under an open
   block, has a key that is new to the block, and a value.
   */
  lemma NestedLineExactly(d: Doc, line: string, s: Shape, n: nat)
    requires IsShape(s) && Uncommented(line) == Spelled(s) && ByteLen(s.indent) == 2
    ensures var r := AfterLine(d, line, n);
            && (r.Success? <==>
                  && d.open.Some? && s.key != "" && s.value != "" && Unquoted(s.value).Success?
                  && s.key !in d.open.value.entries)
            && (r.Success? ==>
                  var b := d.open.value;
                  r.value == Doc(d.top, Some(Block(b.key, b.entries[s.key := Scalar(Unquoted(s.value).value)]))))
  {
    ShapeSpeaks(s);
    SplitExactly(s);
    IndentDecides(d, line, s.indent, s.key + s.gap + ":" + (s.lead + s.value + s.trail), n);
    hide IsShape, Spelled, Uncommented, SplitKv, Unquoted, AfterLine, IsSpace;
  }

  /** A line that says something and has no colon, or is indented by anything but zero or two bytes, is refused. */
  lemma OtherLinesFail(d: Doc, line: string, n: nat)
    requires var u := Uncommented(line);
             !AllSpace(u) && (':' !in u || ByteLen(u) - ByteLen(TrimStart(u)) !in {0, 2})
    ensures AfterLine(d, line, n).Failure?
  {
    var u := Uncommented(line);
    var indent, rest := Indented(u);
    TrimStartSplit(indent, rest);
    IndentDecides(d, line, indent, rest, n);
    ByteLenAppend(indent, rest);
    if ':' !in u {
      assert ':' !in rest;
      assert SplitKv(rest).Failure? by { ColonlessFails(rest); }
      hide SplitKv, Uncommented, AllSpace, IsSpace, AfterLine, Unquoted;
    }
  }

  lemma ColonlessFails(rest: string)
    requires ':' !in rest
    ensures SplitKv(rest) == Failure(NoColon)
  {
    hide Trim;
  }

  // ---------------- quoted values ---------------------------------------

  /** Behind any escaped text: what may stand there next, and what it stands for. */
  lemma NextInQuotes(v: string, c: char, rest: string)
    ensures c != '\\' ==> Unescaped(Escape(v) + ([c] + rest)) == Prepend(v + [c], Unescaped(rest))
    ensures c == '"' || c == '\\' ==> Unescaped(Escape(v) + (['\\', c] + rest)) == Prepend(v + [c], Unescaped(rest))
    ensures c != '"' && c != '\\' ==> Unescaped(Escape(v) + (['\\', c] + rest)) == Failure(BadEscape(c))
    ensures Unescaped(Escape(v) + "\\") == Failure(TrailingBackslash)
  {
    UnescapedEscape(v, [c] + rest);
    UnescapedEscape(v, ['\\', c] + rest);
    UnescapedEscape(v, "\\");
    assert ([c] + rest)[1..] == rest && (['\\', c] + rest)[2..] == rest;
    PrependTwice(v, [c], Unescaped(rest));
  }

  // ---------------- one line in a text ----------------------------------

  lemma ParsedLine(pre: string, line: string, post: string)
    requires Terminated(pre) && NoNewline(line)
    ensures var n := 1 + |Lines(pre)|;
            && |Lines(pre + (line + "\n") + post)| == |Lines(pre)| + 1 + |Lines(post)|
            && (ReadTo(pre).Failure? ==> Through(EMPTY, pre + (line + "\n") + post, 1) == ReadTo(pre))
            && (ReadTo(pre).Success? ==>
                  var r := AfterLine(ReadTo(pre).value, DropCr(line), n);
                  Through(EMPTY, pre + (line + "\n") + post, 1) ==
                  if r.Success? then Through(r.value, post, n + 1) else r)
  {
    hide Lines, AfterLines, Terminated, AfterLine;
    var n, l := 1 + |Lines(pre)|, line + "\n";
    Regroup(pre, l, post);
    ThroughAppend(EMPTY, pre, l + post, 1);
    assert Terminated(l) by { EndsTerminated(line); }
    LinesAppend(pre, l + post);
    LinesAppend(l, post);
    LinesOfOne(line);
    assert |Lines(l)| == 1;
    if ReadTo(pre).Success? {
      ThroughAppend(ReadTo(pre).value, l, post, n);
      ThroughOne(ReadTo(pre).value, line, n);
    }
  }

  lemma EndsTerminated(line: string)
    ensures Terminated(line + "\n")
  {
  }

  /** A line may be exchanged for another that does the same wherever it stands. */
  lemma ExchangedLine(pre: string, a: string, b: string, post: string)
    requires Terminated(pre) && NoNewline(a) && NoNewline(b)
    requires forall d, n | n > 0 :: AfterLine(d, DropCr(a), n) == AfterLine(d, DropCr(b), n)
    ensures Parsed(pre + (a + "\n") + post) == Parsed(pre + (b + "\n") + post)
  {
    hide Lines, AfterLines, AfterLine, Terminated, DropCr, ReadTo, Closed, NoNewline;
    ParsedLine(pre, a, post);
    ParsedLine(pre, b, post);
    var t, u := pre + (a + "\n") + post, pre + (b + "\n") + post;
    assert Through(EMPTY, t, 1) == Through(EMPTY, u, 1);
  }

  // ---------------- comment lines and blank lines -----------------------

  /** White space, and then nothing or a comment. */
  predicate IsSilent(line: string) {
    exists k | 0 <= k <= |line| :: AllSpace(line[..k]) && (k < |line| ==> line[k] == '#')
  }

  lemma SilentIsSpace(line: string)
    requires IsSilent(line)
    ensures AllSpace(Uncommented(line))
  {
    hide QuotingAfter, IsSpace;
    var k :| 0 <= k <= |line| && AllSpace(line[..k]) && (k < |line| ==> line[k] == '#');
    forall j | 0 <= j <= k ensures QuotingAfter(line[..j], Outside) == Outside {
      SpaceIsOutside(line[..k], j);
      assert line[..k][..j] == line[..j];
    }
    assert CommentsAt(line, k) by {
      forall j | 0 <= j < k ensures !Opens(line, j) {
        assert line[j] == line[..k][j];
        SpaceIsNoHash(line[..k], j);
      }
    }
    UncommentedExactly(line, k);
  }

  lemma SpaceIsNoHash(s: string, j: nat)
    requires AllSpace(s) && j < |s|
    ensures s[j] != '#'
  {
  }

  lemma {:induction false} SpaceIsOutside(s: string, j: nat)
    requires AllSpace(s) && j <= |s|
    ensures QuotingAfter(s[..j], Outside) == Outside
  {
    if j > 0 {
      SpaceIsOutside(s, j - 1);
      assert s[..j] == s[..j - 1] + [s[j - 1]];
      QuotingSnoc(s[..j - 1], s[j - 1], Outside);
      assert IsSpace(s[j - 1]);
    }
  }

  lemma SilentWithoutCr(line: string)
    requires IsSilent(line)
    ensures IsSilent(DropCr(line))
  {
    hide IsSpace;
    var k :| 0 <= k <= |line| && AllSpace(line[..k]) && (k < |line| ==> line[k] == '#');
    var r := DropCr(line);
    var j := if k <= |r| then k else |r|;
    assert r[..j] == line[..k][..j];
    assert AllSpace(r[..j]) && (j < |r| ==> r[j] == '#');
  }

  /** What does not depend on line numbers: whether a reading succeeds, and with what. */
  predicate Alike<T(==)>(a: Result<T, Error>, b: Result<T, Error>) {
    (a.Success? <==> b.Success?) && (a.Success? ==> a.value == b.value)
  }

  lemma LineNumberIsNoMatter(d: Doc, line: string, n: nat, m: nat)
    ensures Alike(AfterLine(d, line, n), AfterLine(d, line, m))
  {
    hide Uncommented, Trim, TrimStart, ByteLen, SplitKv, Unquoted;
  }

  lemma {:induction false} LineNumbersAreNoMatter(d: Doc, ls: seq<string>, n: nat, m: nat)
    ensures Alike(AfterLines(d, ls, n), AfterLines(d, ls, m))
    decreases |ls|
  {
    hide AfterLine;
    if ls != [] {
      LineNumberIsNoMatter(d, ls[0], n, m);
      if AfterLine(d, ls[0], n).Success? {
        LineNumbersAreNoMatter(AfterLine(d, ls[0], n).value, ls[1..], n + 1, m + 1);
      }
    }
  }

  /**
   A blank line, or a line with only a comment on it, may stand anywhere, also
   inside a block, and under any indent: the text is read as it is without it.
   */
  lemma SilentLinesAreSkipped(pre: string, line: string, post: string)
    requires Terminated(pre) && NoNewline(line) && IsSilent(line)
    ensures Alike(Parsed(pre + (line + "\n") + post), Parsed(pre + post))
  {
    hide Lines, AfterLines, AfterLine, Terminated, DropCr, IsSilent, NoNewline, Uncommented;
    ParsedLine(pre, line, post);
    ThroughAppend(EMPTY, pre, post, 1);
    SilentWithoutCr(line);
    SilentIsSpace(DropCr(line));
    if ReadTo(pre).Success? {
      var d, n := ReadTo(pre).value, 1 + |Lines(pre)|;
      SilentLine(d, DropCr(line), n);
      LineNumbersAreNoMatter(d, Lines(post), n, n + 1);
    }
    hide ReadTo;
  }

  /** In particular a comment line reads exactly as a blank one does, line numbers and all. */
  lemma CommentLinesAreBlank(pre: string, indent: string, note: string, post: string)
    requires Terminated(pre) && AllSpace(indent) && NoNewline(indent) && NoNewline(note)
    ensures Parsed(pre + (indent + "#" + note + "\n") + post) == Parsed(pre + ("" + "\n") + post)
    ensures Alike(Parsed(pre + (indent + "#" + note + "\n") + post), Parsed(pre + post))
  {
    hide Lines, AfterLines, AfterLine, Terminated, DropCr, Uncommented, IsSpace, Parsed;
    var line := indent + "#" + note;
    assert line[..|indent|] == indent && line[|indent|] == '#';
    assert IsSilent(line);
    assert IsSilent("") by { assert AllSpace(""[..0]); }
    SilentLinesAreSkipped(pre, line, post);
    SilentWithoutCr(line);
    SilentWithoutCr("");
    SilentIsSpace(DropCr(line));
    SilentIsSpace(DropCr(""));
    forall d, n | n > 0 ensures AfterLine(d, DropCr(line), n) == AfterLine(d, DropCr(""), n) {
      SilentLine(d, DropCr(line), n);
      SilentLine(d, DropCr(""), n);
    }
    ExchangedLine(pre, line, "", post);
  }

  // ---------------- layout of an entry ----------------------------------

  /** The same key and value under the same kind of indent. */
  predicate SaysTheSame(s: Shape, t: Shape) {
    && s.key == t.key && s.value == t.value
    && (s.indent == "" <==> t.indent == "") && (ByteLen(s.indent) == 2 <==> ByteLen(t.indent) == 2)
  }

  /** A line with the given shape, with or without a comment behind it. */
  predicate Writes(line: string, s: Shape) {
    NoNewline(line) && IsShape(s) && Uncommented(DropCr(line)) == Spelled(s)
  }

  lemma SameShapeSameEffect(d: Doc, a: string, s: Shape, b: string, t: Shape, n: nat)
    requires Writes(a, s) && Writes(b, t) && SaysTheSame(s, t) && ByteLen(s.indent) in {0, 2}
    ensures AfterLine(d, DropCr(a), n) == AfterLine(d, DropCr(b), n)
  {
    hide IsShape, Spelled, Uncommented, SplitKv, Unquoted, AfterLine, IsSpace, DropCr, ByteLen, Closed, NoNewline;
    EmptyIndent(s.indent);
    EmptyIndent(t.indent);
    ShapeDecides(d, DropCr(a), s, n);
    ShapeDecides(d, DropCr(b), t, n);
  }

  /** What a line does is a matter of its key, its value and the kind of its indent. */
  lemma ShapeDecides(d: Doc, line: string, s: Shape, n: nat)
    requires IsShape(s) && Uncommented(line) == Spelled(s) && ByteLen(s.indent) in {0, 2}
    ensures AfterLine(d, line, n) ==
            if s.indent == "" then AfterTopLine(d, Plainly(s), n) else AfterNestedLine(d, Plainly(s), n)
  {
    hide Uncommented, IsSpace, AfterLine, Closed, AfterTopLine, AfterNestedLine;
    var rest := s.key + s.gap + ":" + (s.lead + s.value + s.trail);
    ShapeSpeaks(s);
    IndentDecides(d, line, s.indent, rest, n);
    EmptyIndent(s.indent);
    SameSplit(d, s, n);
  }

  /** The same key and value with no white space about them. */
  function Plainly(s: Shape): string {
    s.key + "" + ":" + ("" + s.value + "")
  }

  lemma SameSplit(d: Doc, s: Shape, n: nat)
    requires IsShape(s)
    ensures var rest := s.key + s.gap + ":" + (s.lead + s.value + s.trail);
            && AfterTopLine(d, rest, n) == AfterTopLine(d, Plainly(s), n)
            && AfterNestedLine(d, rest, n) == AfterNestedLine(d, Plainly(s), n)
  {
    hide *;
    SplitPlainly(s);
    SplitExactly(s);
    SplitDecides(d, s.key + s.gap + ":" + (s.lead + s.value + s.trail), Plainly(s), n);
  }

  lemma SplitPlainly(s: Shape)
    requires IsShape(s)
    ensures SplitKv(Plainly(s)) == if s.key == "" then Failure(EmptyKey) else Success(Pair(s.key, s.value))
  {
    hide SplitKv;
    SplitExactly(Shape("", s.key, "", "", s.value, ""));
  }

  lemma SplitDecides(d: Doc, a: string, b: string, n: nat)
    requires SplitKv(a) == SplitKv(b)
    ensures AfterTopLine(d, a, n) == AfterTopLine(d, b, n) && AfterNestedLine(d, a, n) == AfterNestedLine(d, b, n)
  {
    hide SplitKv, Unquoted, Closed;
  }

  lemma EmptyIndent(s: string)
    ensures ByteLen(s) == 0 <==> s == ""
  {
  }

  /**
   White space around the key and the value, and a comment behind them, change
   nothing: two lines that say the same may stand for each other in any text.
   */
  lemma LayoutIsNoMatter(pre: string, a: string, s: Shape, b: string, t: Shape, post: string)
    requires Terminated(pre) && Writes(a, s) && Writes(b, t) && SaysTheSame(s, t) && ByteLen(s.indent) in {0, 2}
    ensures Parsed(pre + (a + "\n") + post) == Parsed(pre + (b + "\n") + post)
  {
    hide Lines, AfterLines, AfterLine, Terminated, DropCr, Uncommented, IsSpace, Parsed, IsShape, Spelled;
    forall d, n | n > 0 ensures AfterLine(d, DropCr(a), n) == AfterLine(d, DropCr(b), n) {
      SameShapeSameEffect(d, a, s, b, t, n);
    }
    ExchangedLine(pre, a, b, post);
  }

  // ---------------- which line an error names ---------------------------

  lemma LineErrorIsItsOwn(d: Doc, line: string, n: nat)
    requires AfterLine(d, line, n).Failure?
    ensures AfterLine(d, line, n).error.line == n
  {
    hide Uncommented, Trim, TrimStart, ByteLen, SplitKv, Unquoted;
  }

  lemma {:induction false} FirstErrorStops(d: Doc, ls: seq<string>, first: nat)
    requires AfterLines(d, ls, first).Failure?
    ensures var e := AfterLines(d, ls, first).error;
            && first <= e.line < first + |ls|
            && var before := AfterLines(d, ls[..e.line - first], first);
               before.Success? && AfterLine(before.value, ls[e.line - first], e.line) == Failure(e)
    decreases |ls|
  {
    hide AfterLine;
    var r := AfterLine(d, ls[0], first);
    if r.Failure? {
      LineErrorIsItsOwn(d, ls[0], first);
      assert ls[..0] == [];
    } else {
      FirstErrorStops(r.value, ls[1..], first + 1);
      var k := AfterLines(d, ls, first).error.line - first;
      assert ls[..k][0] == ls[0] && ls[..k][1..] == ls[1..][..k - 1];
    }
  }

  /**
   An error names the first line that cannot be read: all lines before it can,
   and it cannot after them. Only a block that repeats a key at the end of the
   text is noticed behind the last line.
   */
  lemma ErrorNamesItsLine(text: string)
    requires Parsed(text).Failure?
    ensures var e, ls := Parsed(text).error, Lines(text);
            && 1 <= e.line <= |ls| + 1
            && var before := AfterLines(EMPTY, ls[..e.line - 1], 1);
               && before.Success?
               && (e.line <= |ls| ==> AfterLine(before.value, ls[e.line - 1], e.line) == Failure(e))
               && (e.line == |ls| + 1 ==>
                     before.value.open.Some? && before.value.open.value.key in before.value.top
                     && e.complaint == DuplicateKey(before.value.open.value.key))
  {
    hide AfterLine, Lines;
    var ls := Lines(text);
    assert ls[..|ls|] == ls;
    if AfterLines(EMPTY, ls, 1).Failure? {
      FirstErrorStops(EMPTY, ls, 1);
    }
  }
}
