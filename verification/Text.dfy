/** JavaScript string operations on character sequences: trim, split, join. */
module Text {

  /** The characters `.` does not match and `$` may stop at. */
  predicate IsLineTerminator(c: char) {
    c == '\n' || c == '\r' || c == '\U{2028}' || c == '\U{2029}'
  }

  /** The characters of `\s`, which `trim` removes. */
  predicate IsSpace(c: char) {
    || c == ' ' || '\t' <= c <= '\r'
    || c == '\U{00A0}' || c == '\U{1680}' || '\U{2000}' <= c <= '\U{200A}'
    || c == '\U{2028}' || c == '\U{2029}' || c == '\U{202F}' || c == '\U{205F}' || c == '\U{3000}' || c == '\U{FEFF}'
  }

  predicate OneLine(s: string) {
    forall k :: 0 <= k < |s| ==> !IsLineTerminator(s[k])
  }

  predicate Lacks(s: string, c: char) {
    forall k :: 0 <= k < |s| ==> s[k] != c
  }

  /** Every character of `part` occurs in `whole`. */
  ghost predicate Within(part: string, whole: string) {
    forall k :: 0 <= k < |part| ==> part[k] in whole
  }

  lemma WithinKeeps(part: string, whole: string, c: char)
    requires Within(part, whole)
    ensures OneLine(whole) ==> OneLine(part)
    ensures Lacks(whole, c) ==> Lacks(part, c)
  {
  }

  function TrimStart(s: string): string {
    if s == "" || !IsSpace(s[0]) then s else TrimStart(s[1..])
  }

  function TrimEnd(s: string): string {
    if s == "" || !IsSpace(s[|s| - 1]) then s else TrimEnd(s[..|s| - 1])
  }

  function Trim(s: string): string {
    TrimEnd(TrimStart(s))
  }

  lemma {:induction false} TrimStartWithin(s: string)
    ensures Within(TrimStart(s), s)
  {
    if s != "" && IsSpace(s[0]) {
      TrimStartWithin(s[1..]);
      assert forall d :: d in s[1..] ==> d in s;
    }
  }

  lemma {:induction false} TrimEndWithin(s: string)
    ensures Within(TrimEnd(s), s)
  {
    if s != "" && IsSpace(s[|s| - 1]) {
      TrimEndWithin(s[..|s| - 1]);
      assert forall d :: d in s[..|s| - 1] ==> d in s;
    }
  }

  lemma TrimWithin(s: string)
    ensures Within(Trim(s), s)
  {
    TrimStartWithin(s);
    TrimEndWithin(TrimStart(s));
  }

  /** Text that trimming leaves alone. */
  predicate Solid(s: string) {
    s != "" && !IsSpace(s[0]) && !IsSpace(s[|s| - 1])
  }

  lemma TrimStartSpaced(s: string)
    requires s != "" && !IsSpace(s[0])
    ensures TrimStart(" " + s) == s && TrimStart(s) == s
  {
    assert (" " + s)[1..] == s;
  }

  lemma TrimSolid(s: string)
    requires Solid(s)
    ensures Trim(s) == s && Trim(" " + s) == s && Trim(" " + s + " ") == s
  {
    assert (" " + s)[1..] == s;
    assert (" " + s + " ")[1..] == s + " ";
    assert TrimStart(" " + s) == s;
    assert TrimStart(s + " ") == s + " ";
    assert (s + " ")[..|s|] == s;
    assert TrimEnd(s + " ") == TrimEnd(s);
  }

  function Split(s: string, c: char): (parts: seq<string>)
    ensures |parts| >= 1
  {
    if s == "" then [""]
    else
      var rest := Split(s[1..], c);
      if s[0] == c then [""] + rest else [[s[0]] + rest[0]] + rest[1..]
  }

  lemma {:induction false} SplitParts(s: string, c: char, i: nat)
    requires i < |Split(s, c)|
    ensures Lacks(Split(s, c)[i], c) && Within(Split(s, c)[i], s)
  {
    if s != "" {
      var rest := Split(s[1..], c);
      var j := if s[0] == c then i - 1 else i;
      if j >= 0 {
        SplitParts(s[1..], c, j);
        assert forall d :: d in s[1..] ==> d in s;
      }
    }
  }

  lemma {:induction false} SplitLacking(s: string, c: char)
    requires Lacks(s, c)
    ensures Split(s, c) == [s]
  {
    if s != "" {
      SplitLacking(s[1..], c);
      assert [s[0]] + s[1..] == s;
    }
  }

  lemma {:induction false} SplitAt(first: string, c: char, rest: string)
    requires Lacks(first, c)
    ensures Split(first + [c] + rest, c) == [first] + Split(rest, c)
  {
    var s := first + [c] + rest;
    if first == "" {
      assert s[1..] == rest;
    } else {
      SplitAt(first[1..], c, rest);
      assert s[1..] == first[1..] + [c] + rest;
      assert [first[0]] + first[1..] == first;
    }
  }

  function Join(lines: seq<string>, separator: string): string {
    if lines == [] then ""
    else if |lines| == 1 then lines[0]
    else lines[0] + separator + Join(lines[1..], separator)
  }

  lemma {:induction false} SplitJoin(lines: seq<string>, c: char)
    requires lines != [] && forall i :: 0 <= i < |lines| ==> Lacks(lines[i], c)
    ensures Split(Join(lines, [c]), c) == lines
  {
    if |lines| == 1 {
      SplitLacking(lines[0], c);
    } else {
      var rest := Join(lines[1..], [c]);
      assert Split(rest, c) == lines[1..] by {
        SplitJoin(lines[1..], c);
      }
      SplitAt(lines[0], c, rest);
      assert Join(lines, [c]) == lines[0] + [c] + rest;
    }
  }

  predicate Enclosed(s: string, open: char, close: char) {
    s != "" && s[0] == open && s[|s| - 1] == close
  }

  /** `s.slice(1, -1)` */
  function Inner(s: string): string {
    if |s| <= 2 then "" else s[1..|s| - 1]
  }

  function Quote(s: string): string {
    "\"" + s + "\""
  }

  lemma InnerWithin(s: string)
    ensures Within(Inner(s), s)
  {
  }

  lemma InnerQuote(s: string)
    ensures Inner(Quote(s)) == s && Enclosed(Quote(s), '"', '"') && Solid(Quote(s))
  {
  }

  /** `s.replace(/^"|"$/g, '')` */
  function Unquote(s: string): string {
    var t := if s != "" && s[0] == '"' then s[1..] else s;
    if t != "" && t[|t| - 1] == '"' then t[..|t| - 1] else t
  }

  lemma UnquoteWithin(s: string)
    ensures Within(Unquote(s), s)
  {
    var t := if s != "" && s[0] == '"' then s[1..] else s;
    assert forall k :: 0 <= k < |t| ==> t[k] in s;
    assert forall k :: 0 <= k < |Unquote(s)| ==> Unquote(s)[k] == t[k];
  }

  lemma UnquoteQuote(s: string)
    ensures Unquote(Quote(s)) == s
  {
    assert Quote(s)[1..] == s + "\"";
    assert (s + "\"")[..|s|] == s;
  }

  function LowerChar(c: char): char {
    if 'A' <= c <= 'Z' then (c as int + 32) as char else c
  }

  /** `toLowerCase()` on ASCII letters, the only ones a hexadecimal address has */
  function Lower(s: string): string {
    if s == "" then "" else [LowerChar(s[0])] + Lower(s[1..])
  }

  predicate IsHex(c: char) {
    '0' <= c <= '9' || 'a' <= c <= 'f' || 'A' <= c <= 'F'
  }
}
