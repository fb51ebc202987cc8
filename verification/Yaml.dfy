/**
 The line parser and the writer for `config.yaml`: scalars, one level of
 nesting by a two-byte indent, `#` comments and double-quoted strings.
 */
module Yaml {
  import opened Results
  import opened Text

  datatype Value = Scalar(text: string) | Map(entries: map<string, Value>)

  type Mapping = map<string, Value>

  /** Why a line was refused. */
  datatype Complaint =
    | OrphanEntry
    | TooDeep
    | BadIndent(bytes: nat)
    | NoColon
    | EmptyKey
    | Unterminated
    | BadEscape(escape: char)
    | TrailingBackslash
    | DuplicateKey(key: string)

  datatype Error = Error(line: nat, complaint: Complaint)

  // ---------------- what each line means ------------------------------

  /** Where the comment stripper stands relative to double quotes. */
  datatype Quoting = Outside | Inside | Escaped

  function Next(q: Quoting, c: char): Quoting {
    match q
    case Escaped => Inside
    case Inside => if c == '\\' then Escaped else if c == '"' then Outside else Inside
    case Outside => if c == '"' then Inside else Outside
  }

  function QuotingAfter(s: string, q: Quoting): Quoting {
    if s == "" then q else QuotingAfter(s[1..], Next(q, s[0]))
  }

  /** Where the comment starts: the first `#` outside quotes. */
  function CommentStart(s: string, q: Quoting): (n: nat)
    ensures n <= |s|
    ensures n < |s| ==> s[n] == '#' && QuotingAfter(s[..n], q) == Outside
  {
    if s == "" || (s[0] == '#' && q == Outside) then 0
    else
      var n := 1 + CommentStart(s[1..], Next(q, s[0]));
      assert s[..n][1..] == s[1..][..n - 1];
      n
  }

  function Uncommented(line: string): string {
    line[..CommentStart(line, Outside)]
  }

  datatype Pair = Pair(key: string, value: string)

  function SplitKv(s: string): Result<Pair, Complaint> {
    var colon := IndexOf(s, ':');
    if colon == |s| then Failure(NoColon)
    else
      var key := Trim(s[..colon]);
      if key == "" then Failure(EmptyKey) else Success(Pair(key, Trim(s[colon + 1..])))
  }

  function Prepend(head: string, r: Result<string, Complaint>): Result<string, Complaint> {
    if r.Success? then Success(head + r.value) else r
  }

  /** The inside of a quoted string, escapes resolved. */
  function Unescaped(s: string): Result<string, Complaint> {
    if s == "" then Success("")
    else if s[0] != '\\' then Prepend([s[0]], Unescaped(s[1..]))
    else if |s| == 1 then Failure(TrailingBackslash)
    else if s[1] == '"' || s[1] == '\\' then Prepend([s[1]], Unescaped(s[2..]))
    else Failure(BadEscape(s[1]))
  }

  function Unquoted(s: string): Result<string, Complaint> {
    if s == "" || s[0] != '"' then Success(s)
    else if |s| < 2 || s[|s| - 1] != '"' then Failure(Unterminated)
    else Unescaped(s[1..|s| - 1])
  }

  function At<T>(line: nat, r: Result<T, Complaint>): Result<T, Error> {
    if r.Success? then Success(r.value) else Failure(Error(line, r.error))
  }

  function WithUnique(m: Mapping, key: string, value: Value, line: nat): (r: Result<Mapping, Error>)
    ensures r.Success? <==> key !in m
    ensures r.Success? ==> r.value == m[key := value]
  {
    if key in m then Failure(Error(line, DuplicateKey(key))) else Success(m[key := value])
  }

  datatype Block = Block(key: string, entries: Mapping)

  /** A document read so far: the finished keys and the block still open. */
  datatype Doc = Doc(top: Mapping, open: Option<Block>)

  const EMPTY := Doc(map[], None)

  function Closed(d: Doc, line: nat): Result<Mapping, Error> {
    match d.open
    case None => Success(d.top)
    case Some(b) => WithUnique(d.top, b.key, Map(b.entries), line)
  }

  function AfterTopLine(d: Doc, content: string, line: nat): Result<Doc, Error> {
    var top :- Closed(d, line);
    var kv :- At(line, SplitKv(content));
    if kv.value == "" then Success(Doc(top, Some(Block(kv.key, map[]))))
    else
      var text :- At(line, Unquoted(kv.value));
      var top' :- WithUnique(top, kv.key, Scalar(text), line);
      Success(Doc(top', None))
  }

  function AfterNestedLine(d: Doc, content: string, line: nat): Result<Doc, Error> {
    if d.open.None? then Failure(Error(line, OrphanEntry))
    else
      var kv :- At(line, SplitKv(content));
      if kv.value == "" then Failure(Error(line, TooDeep))
      else
        var text :- At(line, Unquoted(kv.value));
        var entries :- WithUnique(d.open.value.entries, kv.key, Scalar(text), line);
        Success(d.(open := Some(Block(d.open.value.key, entries))))
  }

  function AfterLine(d: Doc, raw: string, line: nat): Result<Doc, Error> {
    var stripped := Uncommented(raw);
    if Trim(stripped) == "" then Success(d)
    else
      var content := TrimStart(stripped);
      var indent := ByteLen(stripped) - ByteLen(content);
      if indent == 0 then AfterTopLine(d, content, line)
      else if indent == 2 then AfterNestedLine(d, content, line)
      else Failure(Error(line, BadIndent(if indent < 0 then 0 else indent)))
  }

  function AfterLines(d: Doc, lines: seq<string>, first: nat): Result<Doc, Error>
    decreases |lines|
  {
    if lines == [] then Success(d)
    else
      var d' :- AfterLine(d, lines[0], first);
      AfterLines(d', lines[1..], first + 1)
  }

  /** The mapping a text denotes, or why it denotes none. */
  function Parsed(text: string): Result<Mapping, Error> {
    var d :- AfterLines(EMPTY, Lines(text), 1);
    Closed(d, |Lines(text)| + 1)
  }

  // ---------------- the parser -----------------------------------------

  method StripComment(line: string) returns (r: string)
    ensures r == Uncommented(line)
  {
    var inQuotes, escaped := false, false;
    var i := 0;
    ghost var q := Outside;
    while i < |line|
      invariant 0 <= i <= |line|
      invariant q == (if escaped then Escaped else if inQuotes then Inside else Outside)
      invariant escaped ==> inQuotes
      invariant CommentStart(line, Outside) == i + CommentStart(line[i..], q)
    {
      var c := line[i];
      assert line[i..][0] == c && line[i..][1..] == line[i + 1..];
      q := Next(q, c);
      if escaped {
        escaped := false;
      } else if c == '\\' && inQuotes {
        escaped := true;
      } else if c == '"' {
        inQuotes := !inQuotes;
      } else if c == '#' && !inQuotes {
        return line[..i];
      }
      i := i + 1;
    }
    assert line[..i] == line;
    return line;
  }

  method Unquote(s: string) returns (r: Result<string, Complaint>)
    ensures r == Unquoted(s)
  {
    if s == "" || s[0] != '"' {
      return Success(s);
    }
    if |s| < 2 || s[|s| - 1] != '"' {
      return Failure(Unterminated);
    }
    var out := "";
    var chars := s[1..|s| - 1];
    ghost var whole := Unescaped(chars);
    while chars != ""
      invariant whole.Success? <==> Unescaped(chars).Success?
      invariant whole.Success? ==> whole.value == out + Unescaped(chars).value
      invariant whole.Failure? ==> whole == Unescaped(chars)
      decreases |chars|
    {
      var ch := chars[0];
      if ch != '\\' {
        out, chars := out + [ch], chars[1..];
      } else if |chars| == 1 {
        return Failure(TrailingBackslash);
      } else if chars[1] == '"' || chars[1] == '\\' {
        out, chars := out + [chars[1]], chars[2..];
      } else {
        return Failure(BadEscape(chars[1]));
      }
    }
    assert out + "" == out;
    return Success(out);
  }

  /** Indent 0: closes the open block, then adds a scalar or opens a block. */
  method TakeTopLine(top: Mapping, openChild: Option<Block>, content: string, lineNo: nat)
    returns (r: Result<Doc, Error>)
    ensures r == AfterTopLine(Doc(top, openChild), content, lineNo)
  {
    var top := top;
    if openChild.Some? {
      top :- WithUnique(top, openChild.value.key, Map(openChild.value.entries), lineNo);
    }
    var kv :- At(lineNo, SplitKv(content));
    if kv.value == "" {
      return Success(Doc(top, Some(Block(kv.key, map[]))));
    }
    var unquoted := Unquote(kv.value);
    var scalar :- At(lineNo, unquoted);
    top :- WithUnique(top, kv.key, Scalar(scalar), lineNo);
    return Success(Doc(top, None));
  }

  /** Indent 2: adds a scalar to the open block. */
  method TakeNestedLine(top: Mapping, openChild: Option<Block>, content: string, lineNo: nat)
    returns (r: Result<Doc, Error>)
    ensures r == AfterNestedLine(Doc(top, openChild), content, lineNo)
  {
    if openChild.None? {
      return Failure(Error(lineNo, OrphanEntry));
    }
    var kv :- At(lineNo, SplitKv(content));
    if kv.value == "" {
      return Failure(Error(lineNo, TooDeep));
    }
    var unquoted := Unquote(kv.value);
    var scalar :- At(lineNo, unquoted);
    var entries :- WithUnique(openChild.value.entries, kv.key, Scalar(scalar), lineNo);
    return Success(Doc(top, Some(Block(openChild.value.key, entries))));
  }

  method TakeLine(d: Doc, raw: string, lineNo: nat) returns (r: Result<Doc, Error>)
    ensures r == AfterLine(d, raw, lineNo)
  {
    var stripped := StripComment(raw);
    if Trim(stripped) == "" {
      return Success(d);
    }
    var content := TrimStart(stripped);
    var indent := ByteLen(stripped) - ByteLen(content);
    if indent == 0 {
      r := TakeTopLine(d.top, d.open, content, lineNo);
    } else if indent == 2 {
      r := TakeNestedLine(d.top, d.open, content, lineNo);
    } else {
      r := Failure(Error(lineNo, BadIndent(if indent < 0 then 0 else indent)));
    }
  }

  /** The loop of the parser, one line at a time. */
  method ReadLines(lines: seq<string>) returns (r: Result<Doc, Error>)
    ensures r == AfterLines(EMPTY, lines, 1)
  {
    var d := EMPTY;
    var i := 0;
    assert lines[i..] == lines;
    while i < |lines|
      invariant 0 <= i <= |lines|
      invariant AfterLines(EMPTY, lines, 1) == AfterLines(d, lines[i..], i + 1)
    {
      ghost var rest := lines[i..];
      assert rest[0] == lines[i] && rest[1..] == lines[i + 1..];
      var after := TakeLine(d, lines[i], i + 1);
      if after.Failure? {
        return after;
      }
      d := after.value;
      i := i + 1;
    }
    return Success(d);
  }

  method Parse(text: string) returns (r: Result<Mapping, Error>)
    ensures r == Parsed(text)
  {
    var lines := Lines(text);
    var read := ReadLines(lines);
    var d :- read;
    var top := d.top;
    if d.open.Some? {
      top :- WithUnique(top, d.open.value.key, Map(d.open.value.entries), |lines| + 1);
    }
    return Success(top);
  }

  // ---------------- the writer -----------------------------------------

  function EscapeChar(c: char): string {
    if c == '"' || c == '\\' then ['\\', c] else [c]
  }

  function Escape(v: string): string {
    if v == "" then "" else EscapeChar(v[0]) + Escape(v[1..])
  }

  lemma EscapeFrom(v: string, i: nat)
    requires i < |v|
    ensures Escape(v[i..]) == EscapeChar(v[i]) + Escape(v[i + 1..])
  {
    assert v[i..][0] == v[i] && v[i..][1..] == v[i + 1..];
  }

  function Quoted(v: string): string {
    "\"" + Escape(v) + "\""
  }

  function ScalarLine(key: string, value: string): string {
    key + ": " + value + "\n"
  }

  function StringLine(key: string, value: string): string {
    ScalarLine(key, Quoted(value))
  }

  function OpenLine(key: string): string {
    key + ":\n"
  }

  function Nested(line: string): string {
    "  " + line
  }

  /** Builds a document one line at a time. */
  class YamlWriter {
    var out: string

    constructor ()
      ensures out == ""
    {
      out := "";
    }

    method Scalar(key: string, value: string)
      modifies this
      ensures out == old(out) + ScalarLine(key, value)
    {
      out := out + key;
      out := out + ": ";
      out := out + value;
      out := out + "\n";
    }

    method String(key: string, value: string)
      modifies this
      ensures out == old(out) + StringLine(key, value)
    {
      out := out + key;
      out := out + ": ";
      WriteQuoted(value);
      out := out + "\n";
    }

    method NestedOpen(key: string)
      modifies this
      ensures out == old(out) + OpenLine(key)
    {
      out := out + key;
      out := out + ":\n";
    }

    method NestedScalar(key: string, value: string)
      modifies this
      ensures out == old(out) + Nested(ScalarLine(key, value))
    {
      out := out + "  ";
      out := out + key;
      out := out + ": ";
      out := out + value;
      out := out + "\n";
    }

    method NestedString(key: string, value: string)
      modifies this
      ensures out == old(out) + Nested(StringLine(key, value))
    {
      out := out + "  ";
      out := out + key;
      out := out + ": ";
      WriteQuoted(value);
      out := out + "\n";
    }

    method WriteQuoted(value: string)
      modifies this
      ensures out == old(out) + Quoted(value)
    {
      out := out + "\"";
      ghost var start := out;
      var i := 0;
      assert value[0..] == value;
      while i < |value|
        invariant 0 <= i <= |value|
        invariant out + Escape(value[i..]) == start + Escape(value)
      {
        var ch := value[i];
        EscapeFrom(value, i);
        Regroup(out, EscapeChar(ch), Escape(value[i + 1..]));
        if ch == '"' {
          out := out + "\\\"";
        } else if ch == '\\' {
          out := out + "\\\\";
        } else {
          out := out + [ch];
        }
        i := i + 1;
      }
      assert value[i..] == "" && out + "" == out;
      out := out + "\"";
    }
  }
}
