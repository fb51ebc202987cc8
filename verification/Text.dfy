/**
 The slice of Rust's `str` API the config codec leans on: Unicode white space,
 UTF-8 lengths, trimming, and `str::lines`.
 */
module Text {

  /** `char::is_whitespace`: the Unicode White_Space property. */
  predicate IsSpace(c: char) {
    var u := c as int;
    || 9 <= u <= 13 || u == 0x20 || u == 0x85 || u == 0xA0 || u == 0x1680
    || 0x2000 <= u <= 0x200A || u == 0x2028 || u == 0x2029 || u == 0x202F
    || u == 0x205F || u == 0x3000
  }

  /** Bytes `c` takes in UTF-8; `str::len` counts these, not characters. */
  function Utf8Width(c: char): nat {
    var u := c as int;
    if u < 0x80 then 1 else if u < 0x800 then 2 else if u < 0x1_0000 then 3 else 4
  }

  function ByteLen(s: string): nat {
    if s == "" then 0 else Utf8Width(s[0]) + ByteLen(s[1..])
  }

  predicate NoNewline(s: string) {
    forall i | 0 <= i < |s| :: s[i] != '\n'
  }

  /** No character at either edge that `trim` would remove. */
  predicate Trimmed(s: string) {
    s != "" ==> !IsSpace(s[0]) && !IsSpace(s[|s| - 1])
  }

  function TrimStart(s: string): (r: string)
    ensures |r| <= |s|
    ensures r == "" || !IsSpace(r[0])
  {
    if s != "" && IsSpace(s[0]) then TrimStart(s[1..]) else s
  }

  function TrimEnd(s: string): (r: string)
    ensures |r| <= |s|
    ensures r == "" || (r[0] == s[0] && !IsSpace(r[|r| - 1]))
  {
    if s != "" && IsSpace(s[|s| - 1]) then TrimEnd(s[..|s| - 1]) else s
  }

  function Trim(s: string): (r: string)
    ensures Trimmed(r)
    ensures Trimmed(s) ==> r == s
  {
    TrimEnd(TrimStart(s))
  }

  /** Only white space is trimmed away, and only at the edges. */
  lemma {:induction false} TrimStartKeeps(s: string)
    ensures var r := TrimStart(s);
            r == s[|s| - |r|..] && forall k | 0 <= k < |s| - |r| :: IsSpace(s[k])
  {
    if s != "" && IsSpace(s[0]) {
      TrimStartKeeps(s[1..]);
      var r := TrimStart(s);
      assert r == s[1..][|s| - 1 - |r|..] == s[|s| - |r|..];
      assert forall k | 0 < k < |s| - |r| :: s[k] == s[1..][k - 1];
    }
  }

  lemma {:induction false} TrimEndKeeps(s: string)
    ensures var r := TrimEnd(s);
            r == s[..|r|] && forall k | |r| <= k < |s| :: IsSpace(s[k])
    decreases |s|
  {
    if s != "" && IsSpace(s[|s| - 1]) {
      TrimEndKeeps(s[..|s| - 1]);
      var r := TrimEnd(s);
      assert r == s[..|s| - 1][..|r|] == s[..|r|];
      assert forall k | |r| <= k < |s| - 1 :: s[k] == s[..|s| - 1][k];
    }
  }

  lemma TrimIsInside(s: string)
    ensures NoNewline(s) ==> NoNewline(Trim(s))
  {
    TrimStartKeeps(s);
    TrimEndKeeps(TrimStart(s));
  }

  /** Position of the first `c`, or the length when there is none. */
  function IndexOf(s: string, c: char): (n: nat)
    ensures n <= |s|
    ensures forall k | 0 <= k < n :: s[k] != c
    ensures n < |s| ==> s[n] == c
  {
    if s == "" || s[0] == c then 0 else 1 + IndexOf(s[1..], c)
  }

  function DropCr(line: string): (r: string)
    ensures r == line || line == r + "\r"
    ensures r == line <==> line == "" || line[|line| - 1] != '\r'
  {
    if line != "" && line[|line| - 1] == '\r' then line[..|line| - 1] else line
  }

  /**
   `str::lines`: cut after every newline, drop it and one carriage return
   before it. An unterminated last line keeps its carriage return, and there is
   no empty line after a final newline.
   */
  function Lines(text: string): (ls: seq<string>)
    decreases |text|
  {
    if text == "" then []
    else
      var n := IndexOf(text, '\n');
      if n == |text| then [text]
      else [DropCr(text[..n])] + Lines(text[n + 1..])
  }

  /** Whole lines only: nothing is left over behind the last newline. */
  predicate Terminated(text: string) {
    text == "" || text[|text| - 1] == '\n'
  }

  lemma {:induction false} IndexOfIs(s: string, c: char, n: nat)
    requires n < |s| && s[n] == c && forall k | 0 <= k < n :: s[k] != c
    ensures IndexOf(s, c) == n
  {
  }

  lemma Regroup<T>(a: seq<T>, b: seq<T>, c: seq<T>)
    ensures a + b + c == a + (b + c)
  {
  }

  lemma LinesCons(line: string, rest: string)
    requires NoNewline(line)
    ensures Lines(line + "\n" + rest) == [DropCr(line)] + Lines(rest)
  {
    hide DropCr;
    var t := line + "\n" + rest;
    var n := |line|;
    assert IndexOf(t, '\n') == n by {
      assert t[n] == '\n' && forall k | 0 <= k < n :: t[k] == line[k];
      IndexOfIs(t, '\n', n);
    }
    assert t[..n] == line && t[n + 1..] == rest;
  }

  lemma FirstLine(a: string) returns (line: string, rest: string)
    requires Terminated(a) && a != ""
    ensures a == line + "\n" + rest && NoNewline(line) && Terminated(rest)
  {
    var n := IndexOf(a, '\n');
    assert a[|a| - 1] == '\n' && n < |a|;
    line, rest := a[..n], a[n + 1..];
    assert a == line + "\n" + rest;
    assert rest != "" ==> rest[|rest| - 1] == a[|a| - 1];
  }

  /** A terminated text contributes its own lines, whatever follows it. */
  lemma {:induction false} LinesAppend(a: string, b: string)
    requires Terminated(a)
    ensures Lines(a + b) == Lines(a) + Lines(b)
    decreases |a|
  {
    if a == "" {
      assert a + b == b;
    } else {
      hide *;
      var line, rest := FirstLine(a);
      assert |rest| < |a|;
      LinesAppend(rest, b);
      LinesCons(line, rest);
      LinesCons(line, rest + b);
      Regroup(line + "\n", rest, b);
      Regroup([DropCr(line)], Lines(rest), Lines(b));
    }
  }

  lemma LinesOfOne(line: string)
    requires NoNewline(line)
    ensures Lines(line + "\n") == [DropCr(line)]
  {
    LinesCons(line, "");
    assert line + "\n" + "" == line + "\n";
  }

  /** `to_ascii_lowercase`: only the 26 letters change. */
  function LowerChar(c: char): char {
    if 'A' <= c <= 'Z' then c - 'A' + 'a' else c
  }

  function LowerCase(s: string): string {
    seq(|s|, i requires 0 <= i < |s| => LowerChar(s[i]))
  }
}
