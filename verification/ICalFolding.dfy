/** Folding content lines at 75 and unfolding a whole document. */
module ICalFolding {
  import opened ICalText
  import opened Sequences
  import opened Strings

  // ----- Folding -----
  /** The continuation pieces: a space and up to 74 characters each. */
  function Continuations(s: string): seq<string>
    decreases |s|
  {
    if s == "" then []
    else if |s| <= MAX_LINE - 1 then [" " + s]
    else [" " + s[..MAX_LINE - 1]] + Continuations(s[MAX_LINE - 1..])
  }

  function Pieces(line: string): seq<string> {
    if |line| <= MAX_LINE then [line] else [line[..MAX_LINE]] + Continuations(line[MAX_LINE..])
  }

  /** Array join. */
  function Join(parts: seq<string>, sep: string): string {
    if parts == [] then "" else if |parts| == 1 then parts[0] else parts[0] + sep + Join(parts[1..], sep)
  }

  function Fold(line: string): string {
    Join(Pieces(line), CRLF)
  }

  /** `foldLine`; every physical piece has at most 75 characters. */
  method FoldLine(line: string) returns (folded: string, parts: seq<string>)
    ensures folded == Fold(line) && folded == Join(parts, CRLF)
    ensures forall p :: p in parts ==> |p| <= MAX_LINE
  {
    if |line| <= MAX_LINE {
      return line, [line];
    }
    parts := [line[..MAX_LINE]];
    var pos := MAX_LINE;
    while pos < |line|
      invariant MAX_LINE <= pos
      invariant parts + Continuations(line[if pos <= |line| then pos else |line|..]) == Pieces(line)
      invariant forall p :: p in parts ==> |p| <= MAX_LINE
    {
      var end := if pos + (MAX_LINE - 1) <= |line| then pos + (MAX_LINE - 1) else |line|;
      var piece := " " + line[pos..end];
      ghost var rest := line[pos..];
      assert line[pos..end] == rest[..end - pos] && rest[end - pos..] == line[end..];
      if |rest| <= MAX_LINE - 1 {
        assert rest[..end - pos] == rest && line[end..] == "";
      }
      assert Continuations(rest) == [piece] + Continuations(line[end..]);
      parts := parts + [piece];
      pos := pos + (MAX_LINE - 1);
    }
    assert line[|line|..] == "" && parts + [] == parts;
    folded := Join(parts, CRLF);
  }

  // ----- Unfolding -----

  /** /\r\n/ -> "\n". */
  function CrlfToLf(s: string): string {
    if s == "" then ""
    else if |s| >= 2 && s[0] == '\r' && s[1] == '\n' then "\n" + CrlfToLf(s[2..])
    else [s[0]] + CrlfToLf(s[1..])
  }

  /** /\n[ \t]/ -> "". */
  function DropFolds(s: string): string {
    if s == "" then ""
    else if |s| >= 2 && s[0] == '\n' && s[1] in {' ', '\t'} then DropFolds(s[2..])
    else [s[0]] + DropFolds(s[1..])
  }

  /** `unfoldLines`. */
  function Unfold(text: string): string {
    DropFolds(ReplaceChar(CrlfToLf(text), '\r', "\n"))
  }

  predicate NoBreaks(s: string) {
    forall c :: c in s ==> c != '\r' && c != '\n'
  }

  /** Line breaks normalised to LF. */
  function Normal(text: string): string {
    ReplaceChar(CrlfToLf(text), '\r', "\n")
  }

  lemma {:induction false} ReplaceHead(c: char, s: string)
    requires c != '\r'
    ensures ReplaceChar([c] + s, '\r', "\n") == [c] + ReplaceChar(s, '\r', "\n")
  {
    assert ([c] + s)[1..] == s;
  }

  lemma {:induction false} NormalAppend(a: string, b: string)
    requires NoBreaks(a)
    ensures Normal(a + b) == a + Normal(b)
  {
    if a == "" {
      assert a + b == b;
    } else {
      assert a[0] in a && forall c :: c in a[1..] ==> c in a;
      NormalAppend(a[1..], b);
      assert a + b == [a[0]] + (a[1..] + b) && ([a[0]] + (a[1..] + b))[1..] == a[1..] + b;
      ReplaceHead(a[0], CrlfToLf(a[1..] + b));
    }
  }

  lemma {:induction false} DropFoldsAppend(a: string, b: string)
    requires NoBreaks(a)
    ensures DropFolds(a + b) == a + DropFolds(b)
  {
    if a == "" {
      assert a + b == b;
    } else {
      assert a[0] in a && forall c :: c in a[1..] ==> c in a;
      DropFoldsAppend(a[1..], b);
      assert a + b == [a[0]] + (a[1..] + b) && a == [a[0]] + a[1..];
      Assoc([a[0]], a[1..], DropFolds(b));
    }
  }

  /** Unfolding passes over text without line breaks. */
  lemma {:induction false} UnfoldAppend(a: string, b: string)
    requires NoBreaks(a)
    ensures Unfold(a + b) == a + Unfold(b)
  {
    NormalAppend(a, b);
    DropFoldsAppend(a, Normal(b));
  }

  /** A fold disappears. */
  lemma {:induction false} UnfoldFold(b: string)
    ensures Unfold(CRLF + " " + b) == Unfold(b)
  {
    assert CRLF + " " + b == CRLF + (" " + b);
    NormalAppend(" ", b);
    assert ("\n" + (" " + Normal(b)))[2..] == Normal(b);
  }

  predicate StartsBlank(s: string) {
    s != "" && s[0] in {' ', '\t'}
  }

  lemma {:induction false} NormalHead(b: string)
    ensures Normal(b) == "" <==> b == ""
    ensures b != "" ==> (StartsBlank(Normal(b)) <==> StartsBlank(b))
  {
  }

  /** A folded line is its first piece, a fold, and the rest folded. */
  lemma {:induction false} JoinFold(first: string, head: string, rest: seq<string>)
    ensures Join([first] + ([" " + head] + rest), CRLF) == first + (CRLF + " " + Join([head] + rest, CRLF))
  {
    assert ([first] + ([" " + head] + rest))[1..] == [" " + head] + rest;
    assert ([" " + head] + rest)[1..] == rest && ([head] + rest)[1..] == rest;
    assert Join([" " + head] + rest, CRLF) == " " + Join([head] + rest, CRLF);
  }

  lemma {:induction false} ContinuationsCut(s: string) returns (head: string, rest: string)
    requires s != "" && NoBreaks(s)
    ensures s == head + rest && |rest| < |s| && NoBreaks(head) && NoBreaks(rest)
    ensures Continuations(s) == [" " + head] + Continuations(rest)
  {
    head := if |s| <= MAX_LINE - 1 then s else s[..MAX_LINE - 1];
    rest := s[|head|..];
    assert (forall c :: c in head ==> c in s) && (forall c :: c in rest ==> c in s);
    assert Continuations("") == [];
  }

  lemma {:induction false} Reassociate(first: string, tail: string, b: string)
    ensures first + (CRLF + " " + tail) + b == first + (CRLF + " " + (tail + b))
  {
  }

  lemma {:induction false} UnfoldContinuations(first: string, s: string, b: string)
    requires NoBreaks(first) && NoBreaks(s)
    ensures Unfold(Join([first] + Continuations(s), CRLF) + b) == first + (s + Unfold(b))
    decreases |s|
  {
    if s == "" {
      assert [first] + Continuations(s) == [first];
      UnfoldAppend(first, b);
      assert s + Unfold(b) == Unfold(b);
    } else {
      var head, rest := ContinuationsCut(s);
      var tail := Join([head] + Continuations(rest), CRLF);
      JoinFold(first, head, Continuations(rest));
      Reassociate(first, tail, b);
      UnfoldAppend(first, CRLF + " " + (tail + b));
      UnfoldFold(tail + b);
      UnfoldContinuations(head, rest, b);
      assert head + (rest + Unfold(b)) == s + Unfold(b);
    }
  }

  /** Whatever follows, a folded line unfolds to itself. */
  lemma {:induction false} UnfoldLine(line: string, b: string)
    requires NoBreaks(line)
    ensures Unfold(Fold(line) + b) == line + Unfold(b)
  {
    if |line| <= MAX_LINE {
      UnfoldAppend(line, b);
    } else {
      var first, s := line[..MAX_LINE], line[MAX_LINE..];
      assert (forall c :: c in first ==> c in line) && (forall c :: c in s ==> c in line) && line == first + s;
      UnfoldContinuations(first, s, b);
      assert first + (s + Unfold(b)) == line + Unfold(b);
    }
  }

  lemma {:induction false} FoldRoundTrip(line: string)
    requires NoBreaks(line)
    ensures Unfold(Fold(line)) == line
  {
    UnfoldLine(line, "");
    assert Fold(line) + "" == Fold(line) && line + "" == line;
  }

  // ----- Documents -----

  /** A content line, written folded or as it is. */
  datatype ContentLine = Folded(text: string) | Plain(text: string)

  function Physical(l: ContentLine): string {
    if l.Folded? then Fold(l.text) else l.text
  }

  /** Every line followed by CRLF. */
  function Document(ls: seq<ContentLine>): string {
    if ls == [] then "" else Physical(ls[0]) + CRLF + Document(ls[1..])
  }

  function Texts(ls: seq<ContentLine>): (r: seq<string>)
    ensures |r| == |ls| && forall i :: 0 <= i < |ls| ==> r[i] == ls[i].text
  {
    seq(|ls|, i requires 0 <= i < |ls| => ls[i].text)
  }

  function NonEmpty(ls: seq<string>): seq<string> {
    if ls == [] then [] else (if ls[0] != "" then [ls[0]] else []) + NonEmpty(ls[1..])
  }

  /** The non-empty lines of the unfolded text. */
  function LogicalLines(text: string): seq<string> {
    NonEmpty(Split(Unfold(text), '\n'))
  }

  predicate GoodLine(s: string) {
    s != "" && NoBreaks(s) && !StartsBlank(s)
  }

  lemma {:induction false} UnfoldPhysical(l: ContentLine, rest: string)
    requires NoBreaks(l.text) && !StartsBlank(rest)
    ensures Unfold(Physical(l) + CRLF + rest) == l.text + ['\n'] + Unfold(rest)
  {
    Assoc(Physical(l), CRLF, rest);
    var text, tail := l.text, CRLF + rest;
    if l.Folded? {
      UnfoldLine(text, tail);
    } else {
      UnfoldAppend(text, tail);
    }
    Assoc(text, ['\n'], Unfold(rest));
  }

  lemma {:induction false} LogicalStep(text: string, rest: string)
    requires text != "" && '\n' !in text
    ensures NonEmpty(Split(text + ['\n'] + rest, '\n')) == [text] + NonEmpty(Split(rest, '\n'))
  {
    SplitAppend(text, '\n', rest);
    assert ([text] + Split(rest, '\n'))[1..] == Split(rest, '\n');
  }

  lemma {:induction false} NoLines()
    ensures LogicalLines("") == []
  {
    assert Split("", '\n') == [""] && [""][1..] == [];
    assert NonEmpty([""]) == [];
  }

  lemma {:induction false} DocumentStep(l: ContentLine, rest: string)
    requires GoodLine(l.text) && !StartsBlank(rest)
    ensures LogicalLines(Physical(l) + CRLF + rest) == [l.text] + LogicalLines(rest)
  {
    UnfoldPhysical(l, rest);
    LogicalStep(l.text, Unfold(rest));
  }

  lemma {:induction false} TextsStep(ls: seq<ContentLine>)
    requires ls != []
    ensures Texts(ls) == [ls[0].text] + Texts(ls[1..])
  {
  }

  /** Reading a document back gives its content lines, whatever was folded. */
  lemma {:induction false} DocumentLines(ls: seq<ContentLine>)
    requires forall l :: l in ls ==> GoodLine(l.text)
    ensures LogicalLines(Document(ls)) == Texts(ls)
  {
    if ls == [] {
      NoLines();
    } else {
      assert ls[0] in ls;
      DocumentLines(ls[1..]);
      DocumentStep(ls[0], Document(ls[1..]));
      TextsStep(ls);
    }
  }
}
