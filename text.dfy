/**
 * String primitives the store relies on: `String.prototype.trim`, the regular
 * expression `\s`, `toLowerCase`/`toUpperCase` on single characters, and
 * `split('\n')` / `join('\n')`.
 */
module Text {

  /** The characters `trim` removes and `\s` matches: ECMAScript white space and line terminators. */
  predicate IsSpace(c: char) {
    || c == ' ' || '\t' <= c <= '\r' || c == '\U{A0}' || c == '\U{1680}'
    || '\U{2000}' <= c <= '\U{200A}' || c == '\U{2028}' || c == '\U{2029}'
    || c == '\U{202F}' || c == '\U{205F}' || c == '\U{3000}' || c == '\U{FEFF}'
  }

  /** Every character of `s` is white space (the empty string included). */
  predicate Blank(s: string) {
    forall i :: 0 <= i < |s| ==> IsSpace(s[i])
  }

  /** `s` neither starts nor ends with white space. */
  predicate IsTrimmed(s: string) {
    s == [] || (!IsSpace(s[0]) && !IsSpace(s[|s| - 1]))
  }

  /** `s` with its leading white space removed. */
  function TrimStart(s: string): (r: string)
    ensures |r| <= |s| && r == s[|s| - |r|..]
    ensures r == [] || !IsSpace(r[0])
    ensures forall i :: 0 <= i < |s| - |r| ==> IsSpace(s[i])
  {
    if |s| > 0 && IsSpace(s[0]) then TrimStart(s[1..]) else s
  }

  /** `s.trim()`: leading and trailing white space removed. */
  function Trim(s: string): (r: string)
    ensures IsTrimmed(r)
    ensures r == [] <==> Blank(s)
    ensures |r| <= |s|
    ensures '\n' !in s ==> '\n' !in r
    decreases |s|
  {
    if s == [] then s
    else if IsSpace(s[0]) then
      assert Blank(s) <==> Blank(s[1..]) by {
        assert forall i :: 0 <= i < |s[1..]| ==> s[1..][i] == s[i + 1];
      }
      Trim(s[1..])
    else if IsSpace(s[|s| - 1]) then
      assert !Blank(s) && !Blank(s[..|s| - 1]) by {
        assert s[..|s| - 1][0] == s[0];
      }
      Trim(s[..|s| - 1])
    else s
  }

  /** `r` sits at offset `a` of `s`, with only white space around it. */
  predicate MiddleAt(s: string, r: string, a: nat) {
    a + |r| <= |s| && r == s[a..a + |r|] && Blank(s[..a]) && Blank(s[a + |r|..])
  }

  /** `trim` keeps the middle of the string: only white space at either end is dropped. */
  lemma {:induction false} TrimKeepsMiddle(s: string)
    ensures exists a: nat :: MiddleAt(s, Trim(s), a)
    decreases |s|
  {
    var r := Trim(s);
    if s == [] {
      assert MiddleAt(s, r, 0);
    } else if IsSpace(s[0]) {
      TrimKeepsMiddle(s[1..]);
      var a: nat :| MiddleAt(s[1..], r, a);
      MiddleFront(s, r, a);
    } else if IsSpace(s[|s| - 1]) {
      TrimKeepsMiddle(s[..|s| - 1]);
      var a: nat :| MiddleAt(s[..|s| - 1], r, a);
      MiddleBack(s, r, a);
    } else {
      assert s[0..|s|] == s && s[..0] == [] && s[|s|..] == [];
      assert MiddleAt(s, r, 0);
    }
  }

  /** A middle of `s[1..]` is one place further into `s` when `s` starts with white space. */
  lemma MiddleFront(s: string, r: string, a: nat)
    requires s != [] && IsSpace(s[0]) && MiddleAt(s[1..], r, a)
    ensures MiddleAt(s, r, a + 1)
  {
    var t := s[1..];
    assert s[a + 1..a + 1 + |r|] == t[a..a + |r|];
    assert s[a + 1 + |r|..] == t[a + |r|..];
    assert s[..a + 1] == [s[0]] + t[..a];
    BlankAppend([s[0]], t[..a]);
  }

  /** A middle of `s` without its last character is a middle of `s` when that character is white space. */
  lemma MiddleBack(s: string, r: string, a: nat)
    requires s != [] && IsSpace(s[|s| - 1]) && MiddleAt(s[..|s| - 1], r, a)
    ensures MiddleAt(s, r, a)
  {
    var p := s[..|s| - 1];
    assert s[a..a + |r|] == p[a..a + |r|];
    assert s[..a] == p[..a];
    assert s[a + |r|..] == p[a + |r|..] + [s[|s| - 1]];
    BlankAppend(p[a + |r|..], [s[|s| - 1]]);
  }

  lemma BlankAppend(x: string, y: string)
    requires Blank(x) && Blank(y)
    ensures Blank(x + y)
  {
    forall i | 0 <= i < |x + y| ensures IsSpace((x + y)[i]) {
      if i >= |x| {
        assert (x + y)[i] == y[i - |x|];
      }
    }
  }

  /** A string that is already trimmed is its own trim. */
  lemma TrimOfTrimmed(s: string)
    requires IsTrimmed(s)
    ensures Trim(s) == s
  {
  }

  /** `trim` is idempotent. */
  lemma TrimIdempotent(s: string)
    ensures Trim(Trim(s)) == Trim(s)
  {
    TrimOfTrimmed(Trim(s));
  }

  /** `toLowerCase` of one character, for ASCII and Latin-1 letters. */
  function LowerChar(c: char): char {
    if 'A' <= c <= 'Z' || ('\U{C0}' <= c <= '\U{DE}' && c != '\U{D7}') then (c as int + 32) as char else c
  }

  /** `toUpperCase` of one character, for ASCII and Latin-1 letters. */
  function UpperChar(c: char): (r: char)
    ensures LowerChar(r) == LowerChar(c)
  {
    if 'a' <= c <= 'z' || ('\U{E0}' <= c <= '\U{FE}' && c != '\U{F7}') then (c as int - 32) as char else c
  }

  /** `s.toLowerCase()`: character by character, so the length is kept. */
  function Lower(s: string): (r: string)
    ensures |r| == |s|
    ensures forall i :: 0 <= i < |s| ==> r[i] == LowerChar(s[i])
  {
    if s == [] then [] else [LowerChar(s[0])] + Lower(s[1..])
  }

  /** Lower-casing leaves white space where it was. */
  lemma LowerKeepsSpace(c: char)
    ensures IsSpace(LowerChar(c)) <==> IsSpace(c)
  {
  }

  /** Lower-casing twice is lower-casing once. */
  lemma LowerIdempotent(s: string)
    ensures Lower(Lower(s)) == Lower(s)
  {
    var once := Lower(s);
    forall i | 0 <= i < |s| ensures Lower(once)[i] == once[i] {
      assert LowerChar(LowerChar(s[i])) == LowerChar(s[i]);
    }
  }

  /** Trimming and lower-casing can be done in either order. */
  lemma {:induction false} TrimLower(s: string)
    ensures Trim(Lower(s)) == Lower(Trim(s))
    decreases |s|
  {
    var l := Lower(s);
    if s != [] {
      LowerKeepsSpace(s[0]);
      LowerKeepsSpace(s[|s| - 1]);
      if IsSpace(s[0]) {
        assert l[1..] == Lower(s[1..]);
        TrimLower(s[1..]);
      } else if IsSpace(s[|s| - 1]) {
        assert l[..|s| - 1] == Lower(s[..|s| - 1]);
        TrimLower(s[..|s| - 1]);
      }
    }
  }

  /** The de-duplication key of a name: `String(name).trim().toLowerCase()`. */
  function Key(name: string): (r: string)
    ensures |r| <= |name|
    ensures r == [] <==> Blank(name)
  {
    Lower(Trim(name))
  }

  /** Names that differ only in letter case have the same key. */
  lemma KeyIgnoresCase(a: string, b: string)
    requires Lower(a) == Lower(b)
    ensures Key(a) == Key(b)
  {
    TrimLower(a);
    TrimLower(b);
  }

  /** A name and its trimmed form have the same key. */
  lemma KeyOfTrimmed(name: string)
    ensures Key(Trim(name)) == Key(name)
  {
    TrimIdempotent(name);
  }

  /** No entry of `xs` holds a line feed. */
  predicate LineFree(xs: seq<string>) {
    forall k :: 0 <= k < |xs| ==> '\n' !in xs[k]
  }

  /** Every entry of `xs` is non-empty and trimmed. */
  predicate TrimmedEntries(xs: seq<string>) {
    forall k :: 0 <= k < |xs| ==> xs[k] != "" && IsTrimmed(xs[k])
  }

  /** `s.split('\n')`: the pieces between line feeds; there is always at least one. */
  function SplitLines(s: string): (r: seq<string>)
    ensures |r| >= 1
    ensures LineFree(r)
    decreases |s|
  {
    if s == [] then [""]
    else
      var rest := SplitLines(s[1..]);
      if s[0] == '\n' then [""] + rest
      else [[s[0]] + rest[0]] + rest[1..]
  }

  /** `xs.join('\n')`. */
  function JoinLines(xs: seq<string>): string {
    if |xs| == 0 then ""
    else if |xs| == 1 then xs[0]
    else xs[0] + "\n" + JoinLines(xs[1..])
  }

  lemma {:induction false} SplitWithoutNewline(a: string)
    requires '\n' !in a
    ensures SplitLines(a) == [a]
  {
    if a != [] {
      SplitWithoutNewline(a[1..]);
      assert [a[0]] + a[1..] == a;
    }
  }

  lemma {:induction false} SplitAtFirstNewline(a: string, b: string)
    requires '\n' !in a
    ensures SplitLines(a + "\n" + b) == [a] + SplitLines(b)
  {
    var s := a + "\n" + b;
    if a == [] {
      assert s[1..] == b;
    } else {
      assert s[1..] == a[1..] + "\n" + b;
      SplitAtFirstNewline(a[1..], b);
      assert [a[0]] + a[1..] == a;
    }
  }

  /** Splitting a joined list of line-free pieces gives the pieces back. */
  lemma {:induction false} SplitJoinLines(xs: seq<string>)
    requires |xs| >= 1
    requires LineFree(xs)
    ensures SplitLines(JoinLines(xs)) == xs
  {
    if |xs| == 1 {
      SplitWithoutNewline(xs[0]);
    } else {
      SplitAtFirstNewline(xs[0], JoinLines(xs[1..]));
      SplitJoinLines(xs[1..]);
    }
  }

  /** Joining the pieces of a split gives the original text back. */
  lemma {:induction false} JoinSplitLines(s: string)
    ensures JoinLines(SplitLines(s)) == s
  {
    if s != [] {
      var rest := SplitLines(s[1..]);
      JoinSplitLines(s[1..]);
      if s[0] == '\n' {
        assert JoinLines([""] + rest) == "" + "\n" + JoinLines(rest);
      } else {
        JoinOntoFirst(s[0], rest);
      }
      assert [s[0]] + s[1..] == s;
    }
  }

  /** Prefixing the first piece with a character prefixes the joined text with it. */
  lemma {:induction false} JoinOntoFirst(c: char, rest: seq<string>)
    requires |rest| >= 1
    ensures JoinLines([[c] + rest[0]] + rest[1..]) == [c] + JoinLines(rest)
  {
    var r := [[c] + rest[0]] + rest[1..];
    assert |r| == |rest| && r[0] == [c] + rest[0];
    if |rest| > 1 {
      var tail := JoinLines(rest[1..]);
      assert r[1..] == rest[1..];
      assert JoinLines(r) == ([c] + rest[0]) + "\n" + tail;
      assert JoinLines(rest) == rest[0] + "\n" + tail;
      assert ([c] + rest[0]) + "\n" + tail == [c] + (rest[0] + "\n" + tail);
    }
  }

  /** `lines.map(s => s.trim()).filter(Boolean)`. */
  function TrimAndDropBlank(lines: seq<string>): (r: seq<string>)
    ensures |r| <= |lines|
    ensures TrimmedEntries(r)
  {
    if lines == [] then []
    else
      var t := Trim(lines[0]);
      var rest := TrimAndDropBlank(lines[1..]);
      if t == "" then rest
      else
        TrimmedCons(t, rest);
        [t] + rest
  }

  lemma TrimmedCons(t: string, rest: seq<string>)
    requires t != "" && IsTrimmed(t) && TrimmedEntries(rest)
    ensures TrimmedEntries([t] + rest)
  {
    forall k | 0 <= k < |[t] + rest| ensures ([t] + rest)[k] != "" && IsTrimmed(([t] + rest)[k]) {
      if k > 0 {
        assert ([t] + rest)[k] == rest[k - 1];
      }
    }
  }

  lemma LineFreeCons(t: string, rest: seq<string>)
    requires '\n' !in t && LineFree(rest)
    ensures LineFree([t] + rest)
  {
    forall k | 0 <= k < |[t] + rest| ensures '\n' !in ([t] + rest)[k] {
      if k > 0 {
        assert ([t] + rest)[k] == rest[k - 1];
      }
    }
  }

  /** Trimming and dropping blanks brings no line feed in. */
  lemma {:induction false} TrimAndDropBlankLineFree(lines: seq<string>)
    requires LineFree(lines)
    ensures LineFree(TrimAndDropBlank(lines))
  {
    if lines != [] {
      assert '\n' !in lines[0];
      assert LineFree(lines[1..]) by {
        forall k | 0 <= k < |lines[1..]| ensures '\n' !in lines[1..][k] {
          assert lines[1..][k] == lines[k + 1];
        }
      }
      TrimAndDropBlankLineFree(lines[1..]);
      var t := Trim(lines[0]);
      if t != "" {
        LineFreeCons(t, TrimAndDropBlank(lines[1..]));
      }
    }
  }

  /** Trimming and dropping blanks keeps a list that is already trimmed and blank-free. */
  lemma {:induction false} TrimAndDropBlankKeepsClean(xs: seq<string>)
    requires TrimmedEntries(xs)
    ensures TrimAndDropBlank(xs) == xs
  {
    if xs != [] {
      TrimOfTrimmed(xs[0]);
      assert TrimmedEntries(xs[1..]) by {
        forall k | 0 <= k < |xs[1..]| ensures xs[1..][k] != "" && IsTrimmed(xs[1..][k]) {
          assert xs[1..][k] == xs[k + 1];
        }
      }
      TrimAndDropBlankKeepsClean(xs[1..]);
    }
  }

  /** Some line of `lines` trims to `x`. */
  predicate TrimsTo(lines: seq<string>, x: string) {
    exists j :: 0 <= j < |lines| && Trim(lines[j]) == x
  }

  /** The kept entries are exactly the non-blank trimmed lines. */
  lemma {:induction false} TrimAndDropBlankMembers(lines: seq<string>, x: string)
    ensures x in TrimAndDropBlank(lines) <==> x != "" && TrimsTo(lines, x)
  {
    if lines != [] {
      var tail := lines[1..];
      TrimAndDropBlankMembers(tail, x);
      assert TrimsTo(lines, x) <==> Trim(lines[0]) == x || TrimsTo(tail, x) by {
        if TrimsTo(lines, x) {
          var j :| 0 <= j < |lines| && Trim(lines[j]) == x;
          if j > 0 {
            assert tail[j - 1] == lines[j];
          }
        }
        if TrimsTo(tail, x) {
          var j :| 0 <= j < |tail| && Trim(tail[j]) == x;
          assert lines[j + 1] == tail[j];
        }
      }
    }
  }

  /** The entries of a multi-line text field: its lines, trimmed, blank lines dropped. */
  function ParseLines(text: string): (r: seq<string>)
    ensures TrimmedEntries(r) && LineFree(r)
  {
    TrimAndDropBlankLineFree(SplitLines(text));
    TrimAndDropBlank(SplitLines(text))
  }

  /** Parsing the text an editor pre-fills with `entries.join('\n')` gives the entries back. */
  lemma {:induction false} ParseJoinLines(xs: seq<string>)
    requires TrimmedEntries(xs) && LineFree(xs)
    ensures ParseLines(JoinLines(xs)) == xs
  {
    if xs == [] {
      assert SplitLines("") == [""];
      assert [""][1..] == [];
      assert TrimAndDropBlank([""]) == TrimAndDropBlank([]);
    } else {
      SplitJoinLines(xs);
      TrimAndDropBlankKeepsClean(xs);
    }
  }

  /** `word` holds no white space. */
  predicate IsWord(word: string) {
    forall i :: 0 <= i < |word| ==> !IsSpace(word[i])
  }

  /** Length of the leading run of non-space characters. */
  function WordEnd(s: string): (n: nat)
    ensures n <= |s|
    ensures IsWord(s[..n])
    ensures n < |s| ==> IsSpace(s[n])
  {
    if s == [] || IsSpace(s[0]) then 0
    else
      var m := WordEnd(s[1..]);
      assert s[..m + 1] == [s[0]] + s[1..][..m];
      1 + m
  }

  /** Every entry of `xs` is a word. */
  predicate AllWords(xs: seq<string>) {
    forall k :: 0 <= k < |xs| ==> IsWord(xs[k])
  }

  /**
   * `s.split(/\s+/)` for a string that does not start with white space: the
   * first piece is the leading word; there is a second piece exactly when
   * white space follows it, and that piece is the leading word of what comes
   * after the white space.
   */
  function Words(s: string): (r: seq<string>)
    requires s == [] || !IsSpace(s[0])
    ensures |r| >= 1 && r[0] == s[..WordEnd(s)]
    ensures |r| >= 2 <==> WordEnd(s) < |s|
    ensures |r| >= 2 ==>
      var after := TrimStart(s[WordEnd(s)..]);
      r[1] == after[..WordEnd(after)]
    ensures AllWords(r)
    decreases |s|
  {
    var n := WordEnd(s);
    if n == |s| then
      assert s[..n] == s;
      [s]
    else
      var tail := Words(TrimStart(s[n..]));
      ConsWord(s[..n], tail);
      [s[..n]] + tail
  }

  lemma ConsWord(w: string, tail: seq<string>)
    requires IsWord(w) && AllWords(tail)
    ensures AllWords([w] + tail)
  {
    forall k | 0 <= k < |[w] + tail| ensures IsWord(([w] + tail)[k]) {
      if k > 0 {
        assert ([w] + tail)[k] == tail[k - 1];
      }
    }
  }
}
