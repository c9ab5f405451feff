/**
 * The pure helpers the views use around the store: the logo placeholder
 * initials, HTML escaping, view titles and the newest-first notes list.
 */
module Markup {
  import opened Text

  /** The default placeholder when the business has no name. */
  const DEFAULT_INITIALS: string := "LC"

  /** `p[0]?.toUpperCase()` as `join('')` renders it: an empty part contributes nothing. */
  function Initial(part: string): string {
    if part == [] then "" else [UpperChar(part[0])]
  }

  /**
   * `abbreviate(name)`: "LC" for an empty name, otherwise the upper-cased
   * first characters of (at most) the first two white-space separated words.
   */
  function Abbreviate(name: string): (r: string)
    ensures |r| <= 2
    ensures name == "" ==> r == DEFAULT_INITIALS
  {
    if name == "" then DEFAULT_INITIALS
    else
      var parts := Words(Trim(name));
      Initial(parts[0]) + (if |parts| >= 2 then Initial(parts[1]) else "")
  }

  /** Every character of `s` is its own upper case. */
  predicate IsUpper(s: string) {
    forall i :: 0 <= i < |s| ==> UpperChar(s[i]) == s[i]
  }

  lemma UpperCharIdempotent(c: char)
    ensures UpperChar(UpperChar(c)) == UpperChar(c)
  {
  }

  /** The placeholder is always in capitals. */
  lemma {:induction false} AbbreviateIsUpper(name: string)
    ensures IsUpper(Abbreviate(name))
  {
    if name != "" {
      var parts := Words(Trim(name));
      var second := if |parts| >= 2 then Initial(parts[1]) else "";
      InitialIsUpper(parts[0]);
      if |parts| >= 2 {
        InitialIsUpper(parts[1]);
      }
      UpperConcat(Initial(parts[0]), second);
    }
  }

  lemma InitialIsUpper(part: string)
    ensures IsUpper(Initial(part))
  {
    if part != [] {
      UpperCharIdempotent(part[0]);
    }
  }

  lemma UpperConcat(a: string, b: string)
    requires IsUpper(a) && IsUpper(b)
    ensures IsUpper(a + b)
  {
    forall i | 0 <= i < |a + b| ensures UpperChar((a + b)[i]) == (a + b)[i] {
      if i >= |a| {
        assert (a + b)[i] == b[i - |a|];
      }
    }
  }

  /** A name made only of white space (but not empty) has no initials at all. */
  lemma {:induction false} AbbreviateBlank(name: string)
    requires name != "" && Blank(name)
    ensures Abbreviate(name) == ""
  {
    assert Trim(name) == [];
    assert WordEnd([]) == 0;
    assert Words([]) == [[]];
  }

  /** A name with a visible character starts its placeholder with the upper-cased first visible character. */
  lemma {:induction false} AbbreviateStartsWithInitial(name: string)
    requires !Blank(name)
    ensures 1 <= |Abbreviate(name)| && Abbreviate(name)[0] == UpperChar(Trim(name)[0])
  {
    var t := Trim(name);
    assert t != [] && !IsSpace(t[0]);
    assert WordEnd(t) >= 1;
    assert Words(t)[0][0] == t[0];
  }

  /** A single word abbreviates to its upper-cased first character. */
  lemma AbbreviateOneWord(word: string)
    requires word != [] && IsWord(word)
    ensures Abbreviate(word) == [UpperChar(word[0])]
  {
    TrimOfTrimmed(word);
    WordEndOfWord(word);
  }

  /**
   * A name whose trimmed form starts with two words separated by white space
   * abbreviates to their two upper-cased initials, whatever words follow.
   */
  lemma AbbreviateFirstTwoWords(name: string, first: string, gap: string, second: string, rest: string)
    requires Trim(name) == first + gap + second + rest
    requires first != [] && IsWord(first)
    requires gap != [] && Blank(gap)
    requires second != [] && IsWord(second)
    requires rest == [] || IsSpace(rest[0])
    ensures Abbreviate(name) == [UpperChar(first[0]), UpperChar(second[0])]
  {
    LeadingTwoWords(Trim(name), first, gap, second, rest);
    AbbreviateOfLeading(name, first, second);
  }

  /** The first two pieces `Words` cuts from a string that starts with two words. */
  lemma LeadingTwoWords(t: string, first: string, gap: string, second: string, rest: string)
    requires t == first + gap + second + rest
    requires first != [] && IsWord(first)
    requires gap != [] && Blank(gap)
    requires second != [] && IsWord(second)
    requires rest == [] || IsSpace(rest[0])
    ensures t != [] && !IsSpace(t[0])
    ensures |Words(t)| >= 2 && Words(t)[0] == first && Words(t)[1] == second
  {
    var tail := gap + (second + rest);
    assert t == first + tail;
    assert t[0] == first[0];
    FirstWordOf(t, first, tail);
    assert (second + rest)[0] == second[0];
    TrimStartPast(gap, second + rest);
    SecondWordOf(second + rest, second, rest);
  }

  lemma FirstWordOf(t: string, first: string, tail: string)
    requires t == first + tail
    requires IsWord(first)
    requires tail != [] && IsSpace(tail[0])
    ensures WordEnd(t) == |first| && t[..|first|] == first && t[|first|..] == tail
  {
    WordEndOfPrefix(first, tail);
  }

  lemma SecondWordOf(after: string, second: string, rest: string)
    requires after == second + rest
    requires IsWord(second)
    requires rest == [] || IsSpace(rest[0])
    ensures after[..WordEnd(after)] == second
  {
    if rest == [] {
      assert after == second;
      WordEndOfWord(second);
    } else {
      WordEndOfPrefix(second, rest);
    }
    assert after[..|second|] == second;
  }

  lemma AbbreviateOfLeading(name: string, first: string, second: string)
    requires name != "" && first != [] && second != []
    requires Trim(name) == [] || !IsSpace(Trim(name)[0])
    requires |Words(Trim(name))| >= 2 && Words(Trim(name))[0] == first && Words(Trim(name))[1] == second
    ensures Abbreviate(name) == [UpperChar(first[0]), UpperChar(second[0])]
  {
  }

  lemma {:induction false} WordEndOfWord(word: string)
    requires IsWord(word)
    ensures WordEnd(word) == |word|
  {
    if word != [] {
      assert IsWord(word[1..]) by {
        forall i | 0 <= i < |word[1..]| ensures !IsSpace(word[1..][i]) {
          assert word[1..][i] == word[i + 1];
        }
      }
      WordEndOfWord(word[1..]);
    }
  }

  lemma {:induction false} WordEndOfPrefix(word: string, rest: string)
    requires IsWord(word)
    requires rest != [] && IsSpace(rest[0])
    ensures WordEnd(word + rest) == |word|
  {
    if word != [] {
      assert (word + rest)[1..] == word[1..] + rest;
      WordEndOfPrefix(word[1..], rest);
    } else {
      assert word + rest == rest;
    }
  }

  lemma {:induction false} TrimStartPast(gap: string, rest: string)
    requires Blank(gap)
    requires rest == [] || !IsSpace(rest[0])
    ensures TrimStart(gap + rest) == rest
  {
    if gap != [] {
      assert (gap + rest)[1..] == gap[1..] + rest;
      TrimStartPast(gap[1..], rest);
    } else {
      assert gap + rest == rest;
    }
  }

  /** The entity `escapeHtml` writes for one character. */
  function EscapeChar(c: char): string {
    if c == '&' then "&amp;"
    else if c == '<' then "&lt;"
    else if c == '>' then "&gt;"
    else if c == '"' then "&quot;"
    else [c]
  }

  /** `escapeHtml(s)` on a string: `&`, `<`, `>` and `"` replaced by their entities. */
  function EscapeHtml(s: string): (r: string)
    ensures '<' !in r && '>' !in r && '"' !in r
    ensures |r| >= |s|
  {
    if s == [] then "" else EscapeChar(s[0]) + EscapeHtml(s[1..])
  }

  /** What an HTML parser reads back from escaped text: the four entities decoded. */
  function UnescapeHtml(s: string): string
    decreases |s|
  {
    if s == [] then ""
    else if |s| >= 5 && s[..5] == "&amp;" then "&" + UnescapeHtml(s[5..])
    else if |s| >= 4 && s[..4] == "&lt;" then "<" + UnescapeHtml(s[4..])
    else if |s| >= 4 && s[..4] == "&gt;" then ">" + UnescapeHtml(s[4..])
    else if |s| >= 6 && s[..6] == "&quot;" then "\"" + UnescapeHtml(s[6..])
    else [s[0]] + UnescapeHtml(s[1..])
  }

  /** Decoding an escaped character and then some text decodes the character first. */
  lemma UnescapeEscapedChar(c: char, t: string)
    ensures UnescapeHtml(EscapeChar(c) + t) == [c] + UnescapeHtml(t)
  {
    if c == '&' {
      UnescapeAmp(t);
    } else if c == '<' || c == '>' {
      UnescapeAngle(c, t);
    } else if c == '"' {
      UnescapeQuot(t);
    } else {
      UnescapePlain(c, t);
    }
  }

  lemma {:induction false} UnescapeAmp(t: string)
    ensures UnescapeHtml("&amp;" + t) == "&" + UnescapeHtml(t)
  {
    var e := "&amp;" + t;
    assert e[..5] == "&amp;" && e[5..] == t;
  }

  lemma {:induction false} UnescapeQuot(t: string)
    ensures UnescapeHtml("&quot;" + t) == "\"" + UnescapeHtml(t)
  {
    var e := "&quot;" + t;
    assert e[1] == 'q';
    assert e[..6] == "&quot;" && e[6..] == t;
  }

  lemma {:induction false} UnescapePlain(c: char, t: string)
    requires c != '&'
    ensures UnescapeHtml([c] + t) == [c] + UnescapeHtml(t)
  {
    var e := [c] + t;
    assert e[0] == c && e[1..] == t;
  }

  /** The two four-character entities, `&lt;` and `&gt;`. */
  lemma {:induction false} UnescapeAngle(c: char, t: string)
    requires c == '<' || c == '>'
    ensures UnescapeHtml(EscapeChar(c) + t) == [c] + UnescapeHtml(t)
  {
    var e := EscapeChar(c) + t;
    assert e[..4] == EscapeChar(c) && e[4..] == t;
    assert e[1] == (if c == '<' then 'l' else 'g');
  }

  /** Escaping loses nothing: the page shows exactly the stored text. */
  lemma {:induction false} UnescapeEscape(s: string)
    ensures UnescapeHtml(EscapeHtml(s)) == s
  {
    if s != [] {
      UnescapeEscape(s[1..]);
      UnescapeEscapedChar(s[0], EscapeHtml(s[1..]));
      assert [s[0]] + s[1..] == s;
    }
  }

  /** The headings of the views; other views show their own key. */
  const VIEW_TITLES: map<string, string> := map[
    "dashboard" := "Inicio", "needs" := "Cosas necesarias", "notes" := "Anotaciones",
    "tasks" := "Tareas", "recipes" := "Recetas", "reminders" := "Recordatorios",
    "settings" := "Ajustes"]

  /** `titleFor(v)`: the view's heading, falling back to the view key itself. */
  function TitleFor(view: string): (r: string)
    ensures view in VIEW_TITLES ==> r == VIEW_TITLES[view] && r != ""
    ensures view !in VIEW_TITLES ==> r == view
  {
    if view in VIEW_TITLES && VIEW_TITLES[view] != "" then VIEW_TITLES[view] else view
  }

  /** The product, inventory and order views have no heading entry and show their key. */
  lemma UntitledViews()
    ensures TitleFor("products") == "products"
    ensures TitleFor("inventory") == "inventory"
    ensures TitleFor("orders") == "orders"
  {
  }

  /** `notes.slice().reverse()`: the notes newest-first, without touching storage. */
  function NotesView<T>(notes: seq<T>): (r: seq<T>)
    ensures |r| == |notes|
  {
    if notes == [] then [] else [notes[|notes| - 1]] + NotesView(notes[..|notes| - 1])
  }

  /** The storage index a button at display position `i` carries: `notes.length - 1 - i`. */
  function StorageIndex(count: nat, i: nat): (k: nat)
    requires i < count
    ensures k < count
  {
    count - 1 - i
  }

  /** The note displayed at position `i` is the stored note its buttons address. */
  lemma {:induction false} DisplayedNoteIsAddressed<T>(notes: seq<T>, i: nat)
    requires i < |notes|
    ensures NotesView(notes)[i] == notes[StorageIndex(|notes|, i)]
  {
    if i > 0 {
      var init := notes[..|notes| - 1];
      DisplayedNoteIsAddressed(init, i - 1);
    }
  }
}
