/** TEXT escaping and content-line folding of iCalendar (RFC 5545, sections
    3.3.11 and 3.1), as string replacements applied one after the other. */
module ICalText {
  import opened Sequences

  const CRLF := "\r\n"

  const MAX_LINE := 75

  // ----- Escaping -----

  /** Replace every occurrence of one character. */
  function ReplaceChar(s: string, c: char, with: string): string {
    if s == "" then "" else (if s[0] == c then with else [s[0]]) + ReplaceChar(s[1..], c, with)
  }

  /** `escapeText`: four global replacements in this order. */
  function EscapeText(t: string): string {
    ReplaceChar(ReplaceChar(ReplaceChar(ReplaceChar(t, '\\', "\\\\"), ';', "\\;"), ',', "\\,"), '\n', "\\n")
  }

  /** Replace every backslash followed by one of `codes`, left to right. */
  function ReplaceEscape(s: string, codes: set<char>, plain: char): string {
    if s == "" then ""
    else if |s| >= 2 && s[0] == '\\' && s[1] in codes then [plain] + ReplaceEscape(s[2..], codes, plain)
    else [s[0]] + ReplaceEscape(s[1..], codes, plain)
  }

  /** `unescapeText`: four global replacements in this order. */
  function UnescapeText(s: string): string {
    ReplaceEscape(ReplaceEscape(ReplaceEscape(ReplaceEscape(s, {'n', 'N'}, '\n'), {','}, ','), {';'}, ';'), {'\\'}, '\\')
  }

  function Code(c: char): char { if c == '\n' then 'n' else c }

  function EscapeChar(c: char, active: set<char>): string {
    if c in active then ['\\', Code(c)] else [c]
  }

  /** The same escaping character by character, for a set of characters. */
  function Escaped(t: string, active: set<char>): string {
    if t == "" then "" else EscapeChar(t[0], active) + Escaped(t[1..], active)
  }

  const ALL: set<char> := {'\\', ';', ',', '\n'}

  lemma {:induction false} ReplaceConcat(a: string, b: string, c: char, with: string)
    ensures ReplaceChar(a + b, c, with) == ReplaceChar(a, c, with) + ReplaceChar(b, c, with)
  {
    if a == "" {
      assert a + b == b;
    } else {
      ReplaceConcat(a[1..], b, c, with);
      assert a + b == [a[0]] + (a[1..] + b);
      Assoc(if a[0] == c then with else [a[0]], ReplaceChar(a[1..], c, with), ReplaceChar(b, c, with));
    }
  }

  lemma {:induction false} ReplaceSingle(x: char, c: char, with: string)
    ensures ReplaceChar([x], c, with) == if x == c then with else [x]
  {
    assert [x][1..] == "";
    assert ReplaceChar("", c, with) == "";
  }

  lemma {:induction false} ReplaceInChar(x: char, active: set<char>, c: char)
    requires c !in active && (c != '\\' ==> '\\' in active) && (forall y :: y in active ==> Code(y) != c)
    requires c == '\\' ==> active == {}
    ensures ReplaceChar(EscapeChar(x, active), c, ['\\', Code(c)]) == EscapeChar(x, active + {c})
  {
    var with := ['\\', Code(c)];
    ReplaceSingle(x, c, with);
    if x in active {
      assert ['\\', Code(x)] == ['\\'] + [Code(x)];
      ReplaceConcat(['\\'], [Code(x)], c, with);
      ReplaceSingle('\\', c, with);
      ReplaceSingle(Code(x), c, with);
    }
  }

  /** One more replacement escapes one more character. */
  lemma {:induction false} EscapeOneMore(t: string, active: set<char>, c: char)
    requires c !in active && (c != '\\' ==> '\\' in active) && (forall x :: x in active ==> Code(x) != c)
    requires c == '\\' ==> active == {}
    ensures ReplaceChar(Escaped(t, active), c, ['\\', Code(c)]) == Escaped(t, active + {c})
  {
    if t != "" {
      EscapeOneMore(t[1..], active, c);
      ReplaceConcat(EscapeChar(t[0], active), Escaped(t[1..], active), c, ['\\', Code(c)]);
      ReplaceInChar(t[0], active, c);
    }
  }

  lemma {:induction false} EscapedNone(t: string)
    ensures Escaped(t, {}) == t
  {
    if t != "" {
      EscapedNone(t[1..]);
    }
  }

  lemma {:induction false} EscapeIsByCharacter(t: string)
    ensures EscapeText(t) == Escaped(t, ALL)
  {
    EscapedNone(t);
    EscapeOneMore(t, {}, '\\');
    EscapeOneMore(t, {'\\'}, ';');
    EscapeOneMore(t, {'\\', ';'}, ',');
    EscapeOneMore(t, {'\\', ';', ','}, '\n');
    assert {} + {'\\'} == {'\\'} && {'\\'} + {';'} == {'\\', ';'} && {'\\', ';'} + {','} == {'\\', ';', ','};
    assert {'\\', ';', ','} + {'\n'} == ALL;
  }

  /** Some backslash is immediately followed by n or N. */
  predicate HasBackslashN(t: string) {
    exists i :: 0 <= i < |t| - 1 && t[i] == '\\' && t[i + 1] in {'n', 'N'}
  }

  lemma {:induction false} UnescapePair(code: char, rest: string, codes: set<char>, plain: char)
    requires code in codes
    ensures ReplaceEscape(['\\', code] + rest, codes, plain) == [plain] + ReplaceEscape(rest, codes, plain)
  {
    assert (['\\', code] + rest)[2..] == rest;
  }

  lemma {:induction false} UnescapeSkip(c: char, rest: string, codes: set<char>, plain: char)
    requires !(c == '\\' && rest != "" && rest[0] in codes)
    ensures ReplaceEscape([c] + rest, codes, plain) == [c] + ReplaceEscape(rest, codes, plain)
  {
    assert ([c] + rest)[1..] == rest;
  }

  /** A backslash is followed by a code only where that code is itself escaped. */
  predicate NoClash(t: string, codes: set<char>, active: set<char>) {
    forall i :: 0 <= i < |t| - 1 && t[i] == '\\' && t[i + 1] in codes ==> t[i + 1] in active
  }

  lemma {:induction false} NoClashTail(t: string, codes: set<char>, active: set<char>)
    requires t != "" && NoClash(t, codes, active)
    ensures NoClash(t[1..], codes, active)
    ensures |t| >= 2 && t[0] == '\\' && t[1] in codes ==> t[1] in active
  {
    forall i | 0 <= i < |t[1..]| - 1 && t[1..][i] == '\\' && t[1..][i + 1] in codes ensures t[1..][i + 1] in active {
      assert t[i + 1] == '\\' && t[(i + 1) + 1] in codes;
    }
    assert |t| >= 2 ==> t[0 + 1] == t[1];
  }

  /** An escaped text starts with a backslash or with a character left raw. */
  lemma {:induction false} EscapedHead(t: string, active: set<char>)
    ensures Escaped(t, active) != "" ==> t != "" && Escaped(t, active)[0] == (if t[0] in active then '\\' else t[0])
  {
  }

  /** Undoing one escape passes over the escape of another character. */
  lemma {:induction false} UnescapeOther(t: string, active: set<char>, codes: set<char>, plain: char)
    requires t != "" && t[0] in active && Code(t[0]) !in codes
    requires '\\' in active && ('\\' in codes ==> t[0] != '\\')
    requires NoClash(t, codes, active)
    ensures ReplaceEscape(Escaped(t, active), codes, plain)
            == ['\\', Code(t[0])] + ReplaceEscape(Escaped(t[1..], active), codes, plain)
  {
    var c, rest := t[0], Escaped(t[1..], active);
    NoClashTail(t, codes, active);
    EscapedHead(t[1..], active);
    assert ['\\', Code(c)] + rest == ['\\'] + ([Code(c)] + rest);
    UnescapeSkip('\\', [Code(c)] + rest, codes, plain);
    UnescapeSkip(Code(c), rest, codes, plain);
  }

  /** Undoing one escape, when no raw backslash runs into one of its codes. */
  lemma {:induction false} UnescapeOne(t: string, active: set<char>, codes: set<char>, plain: char)
    requires '\\' in active && plain in active && Code(plain) in codes
    requires forall x :: x in active && x != plain ==> Code(x) !in codes
    requires plain == '\\' ==> active == {'\\'}
    requires NoClash(t, codes, active)
    ensures ReplaceEscape(Escaped(t, active), codes, plain) == Escaped(t, active - {plain})
  {
    if t != "" {
      var c, rest := t[0], Escaped(t[1..], active);
      NoClashTail(t, codes, active);
      UnescapeOne(t[1..], active, codes, plain);
      if c == plain {
        UnescapePair(Code(c), rest, codes, plain);
      } else if c in active {
        UnescapeOther(t, active, codes, plain);
      } else {
        UnescapeSkip(c, rest, codes, plain);
      }
    }
  }

  function Newlines(s: string): nat {
    if s == "" then 0 else (if s[0] == '\n' then 1 else 0) + Newlines(s[1..])
  }

  function BackslashNs(t: string): nat {
    if |t| < 2 then 0 else (if t[0] == '\\' && t[1] in {'n', 'N'} then 1 else 0) + BackslashNs(t[1..])
  }

  lemma {:induction false} ReplaceEscapeKeepsNewlines(s: string, code: char)
    requires code != '\n'
    ensures Newlines(ReplaceEscape(s, {code}, code)) == Newlines(s)
  {
    if s != "" {
      if |s| >= 2 && s[0] == '\\' && s[1] == code {
        ReplaceEscapeKeepsNewlines(s[2..], code);
        assert s[1..][1..] == s[2..];
      } else {
        ReplaceEscapeKeepsNewlines(s[1..], code);
      }
    }
  }

  /** The first replacement turns every raw backslash-n into an extra newline. */
  lemma {:induction false} ExtraNewlines(t: string)
    ensures Newlines(ReplaceEscape(Escaped(t, ALL), {'n', 'N'}, '\n')) == Newlines(t) + BackslashNs(t)
  {
    if t != "" {
      var c, rest := t[0], Escaped(t[1..], ALL);
      ExtraNewlines(t[1..]);
      EscapedHead(t[1..], ALL);
      if c == '\n' {
        UnescapePair('n', rest, {'n', 'N'}, '\n');
      } else if c in ALL {
        assert ['\\', Code(c)] + rest == ['\\'] + ([Code(c)] + rest);
        UnescapeSkip('\\', [Code(c)] + rest, {'n', 'N'}, '\n');
        if c == '\\' && rest != "" && rest[0] in {'n', 'N'} {
          var more := Escaped(t[2..], ALL);
          assert t[1..][1..] == t[2..] && rest == [t[1]] + more;
          UnescapeSkip(t[1], more, {'n', 'N'}, '\n');
          assert ['\\'] + rest == ['\\', t[1]] + more;
          UnescapePair(t[1], more, {'n', 'N'}, '\n');
        } else {
          UnescapeSkip(Code(c), rest, {'n', 'N'}, '\n');
        }
      } else {
        UnescapeSkip(c, rest, {'n', 'N'}, '\n');
      }
    }
  }

  lemma {:induction false} CountsBackslashN(t: string)
    ensures BackslashNs(t) > 0 <==> HasBackslashN(t)
  {
    if |t| >= 2 {
      CountsBackslashN(t[1..]);
      if HasBackslashN(t[1..]) {
        var i :| 0 <= i < |t[1..]| - 1 && t[1..][i] == '\\' && t[1..][i + 1] in {'n', 'N'};
        assert t[i + 1] == '\\' && t[i + 2] in {'n', 'N'};
      }
      if i :| 0 <= i < |t| - 1 && t[i] == '\\' && t[i + 1] in {'n', 'N'} {
        if i > 0 {
          assert t[1..][i - 1] == '\\' && t[1..][i] in {'n', 'N'};
        }
      }
    }
  }

  /** Unescaping undoes escaping exactly on texts in which no backslash is
      immediately followed by n or N. */
  lemma {:induction false} UnescapeEscape(t: string)
    ensures UnescapeText(EscapeText(t)) == t <==> !HasBackslashN(t)
  {
    EscapeIsByCharacter(t);
    CountsBackslashN(t);
    if !HasBackslashN(t) {
      assert NoClash(t, {'n', 'N'}, ALL);
      UnescapeOne(t, ALL, {'n', 'N'}, '\n');
      assert ALL - {'\n'} == {'\\', ';', ','};
      UnescapeOne(t, {'\\', ';', ','}, {','}, ',');
      assert {'\\', ';', ','} - {','} == {'\\', ';'};
      UnescapeOne(t, {'\\', ';'}, {';'}, ';');
      assert {'\\', ';'} - {';'} == {'\\'};
      UnescapeOne(t, {'\\'}, {'\\'}, '\\');
      assert {'\\'} - {'\\'} == {};
      EscapedNone(t);
    } else {
      ExtraNewlines(t);
      var s := ReplaceEscape(Escaped(t, ALL), {'n', 'N'}, '\n');
      ReplaceEscapeKeepsNewlines(s, ',');
      ReplaceEscapeKeepsNewlines(ReplaceEscape(s, {','}, ','), ';');
      ReplaceEscapeKeepsNewlines(ReplaceEscape(ReplaceEscape(s, {','}, ','), {';'}, ';'), '\\');
    }
  }
}
