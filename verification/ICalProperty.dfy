/** Content lines of iCalendar: `parsePropertyLine` (RFC 5545, section 3.1). */
module ICalProperty {
  import opened Strings
  import opened Optional

  datatype Property = Property(name: string, params: map<string, string>, value: string)

  // ----- Whitespace -----

  /** The characters `String.prototype.trim` removes. */
  predicate IsSpace(c: char) {
    c in {'\t', '\n', '\U{B}', '\U{C}', '\r', ' ', '\U{A0}', '\U{1680}', '\U{2028}', '\U{2029}', '\U{202F}', '\U{205F}', '\U{3000}', '\U{FEFF}'}
    || '\U{2000}' <= c <= '\U{200A}'
  }

  function TrimStart(s: string): string {
    if s != "" && IsSpace(s[0]) then TrimStart(s[1..]) else s
  }

  function TrimEnd(s: string): string {
    if s != "" && IsSpace(s[|s| - 1]) then TrimEnd(s[..|s| - 1]) else s
  }

  function Trim(s: string): string {
    TrimEnd(TrimStart(s))
  }

  lemma {:induction false} TrimEndAppend(p: string, rest: string)
    requires p != "" && !IsSpace(p[|p| - 1])
    ensures TrimEnd(p + rest) == p + TrimEnd(rest)
  {
    if rest == "" {
      assert p + rest == p;
    } else if IsSpace(rest[|rest| - 1]) {
      TrimEndAppend(p, rest[..|rest| - 1]);
      assert (p + rest)[..|p + rest| - 1] == p + rest[..|rest| - 1];
    }
  }

  /** Trimming a content line trims only the end of its value. */
  lemma {:induction false} TrimContent(head: string, value: string)
    requires head != "" && !IsSpace(head[0])
    ensures Trim(head + ":" + value) == head + ":" + TrimEnd(value)
  {
    TrimEndAppend(head + ":", value);
  }

  // ----- Reading one content line -----

  function Shift(k: int): int {
    if k < 0 then -1 else k + 1
  }

  /** The first colon outside quotes, or -1. */
  function Colon(s: string, quoted: bool): (k: int)
    ensures -1 <= k < |s|
  {
    if s == "" then -1
    else if s[0] == '"' then Shift(Colon(s[1..], !quoted))
    else if s[0] == ':' && !quoted then 0
    else Shift(Colon(s[1..], quoted))
  }

  function Quotes(s: string): nat {
    if s == "" then 0 else (if s[0] == '"' then 1 else 0) + Quotes(s[1..])
  }

  /** Position `k` holds a colon with an even number of quotes before it,
      counting one more when the scan starts inside quotes. */
  predicate Separates(s: string, quoted: bool, k: int) {
    0 <= k < |s| && s[k] == ':' && (Quotes(s[..k]) + (if quoted then 1 else 0)) % 2 == 0
  }

  /** The name ends at the first colon that an even number of quotes precedes. */
  lemma {:induction false} ColonIsFirst(s: string, quoted: bool)
    ensures Colon(s, quoted) >= 0 ==> Separates(s, quoted, Colon(s, quoted))
    ensures forall j :: Separates(s, quoted, j) ==> 0 <= Colon(s, quoted) <= j
  {
    if s != "" {
      var next := if s[0] == '"' then !quoted else quoted;
      ColonIsFirst(s[1..], next);
      forall j | 0 < j <= |s| ensures Separates(s, quoted, j) <==> Separates(s[1..], next, j - 1) {
        assert s[..j][1..] == s[1..][..j - 1];
      }
      assert s[..0] == "";
      if s[0] == ':' && !quoted {
        assert Separates(s, quoted, 0);
      } else if Colon(s, quoted) >= 0 {
        assert Separates(s[1..], next, Colon(s, quoted) - 1);
      }
    }
  }

  /** indexOf for one character. */
  function IndexOf(s: string, c: char): (k: int)
    ensures -1 <= k < |s|
    ensures k >= 0 ==> s[k] == c
    ensures forall j :: 0 <= j < |s| && s[j] == c ==> 0 <= k <= j
  {
    if s == "" then -1 else if s[0] == c then 0 else Shift(IndexOf(s[1..], c))
  }

  function UpperChar(c: char): char {
    if 'a' <= c <= 'z' then (c as int - 32) as char else c
  }

  function Upper(s: string): string {
    seq(|s|, i requires 0 <= i < |s| => UpperChar(s[i]))
  }

  function Unquoted(v: string): string {
    if v != "" && v[0] == '"' && v[|v| - 1] == '"' then (if |v| == 1 then "" else v[1..|v| - 1]) else v
  }

  function AddParam(params: map<string, string>, param: string): map<string, string> {
    var eq := IndexOf(param, '=');
    if eq < 0 then params else params[Upper(param[..eq]) := Unquoted(param[eq + 1..])]
  }

  function Params(parts: seq<string>): map<string, string> {
    if parts == [] then map[] else AddParam(Params(parts[..|parts| - 1]), parts[|parts| - 1])
  }

  function ParseHead(head: string, value: string): Property {
    var semi := IndexOf(head, ';');
    if semi < 0 then Property(Upper(head), map[], value)
    else Property(Upper(head[..semi]), Params(Split(head[semi + 1..], ';')), value)
  }

  function ParseProperty(line: string): Option<Property> {
    var k := Colon(line, false);
    if k < 0 then None else Some(ParseHead(line[..k], line[k + 1..]))
  }

  /** The first colon outside quotes, or -1. */
  method FindColon(line: string) returns (colon: int)
    ensures colon == Colon(line, false)
  {
    var inQuote, i := false, 0;
    colon := -1;
    while i < |line| && colon < 0
      invariant 0 <= i <= |line|
      invariant colon < 0 ==> colon == -1
      invariant colon < 0 ==> Colon(line, false) == (var k := Colon(line[i..], inQuote); if k < 0 then -1 else i + k)
      invariant colon >= 0 ==> colon == Colon(line, false)
      decreases |line| - i, if colon < 0 then 1 else 0
    {
      assert line[i..][1..] == line[i + 1..] && line[i..][0] == line[i];
      if line[i] == '"' {
        inQuote := !inQuote;
        i := i + 1;
      } else if line[i] == ':' && !inQuote {
        colon := i;
      } else {
        i := i + 1;
      }
    }
  }

  lemma {:induction false} ParamsSnoc(parts: seq<string>, p: nat)
    requires p < |parts|
    ensures Params(parts[..p + 1]) == AddParam(Params(parts[..p]), parts[p])
  {
    assert parts[..p + 1][..p] == parts[..p];
  }

  /** One iteration of the parameter loop. */
  method ReadParam(params: map<string, string>, part: string) returns (r: map<string, string>)
    ensures r == AddParam(params, part)
  {
    r := params;
    var eq := IndexOf(part, '=');
    if eq >= 0 {
      r := params[Upper(part[..eq]) := Unquoted(part[eq + 1..])];
    }
  }

  method ReadParams(parts: seq<string>) returns (params: map<string, string>)
    ensures params == Params(parts)
  {
    params := map[];
    for p := 0 to |parts|
      invariant params == Params(parts[..p])
    {
      ParamsSnoc(parts, p);
      params := ReadParam(params, parts[p]);
    }
    assert parts[..|parts|] == parts;
  }

  /** `parsePropertyLine`. */
  method ParsePropertyLine(line: string) returns (r: Option<Property>)
    ensures r == ParseProperty(line)
  {
    var colon := FindColon(line);
    if colon < 0 {
      return None;
    }
    var head, value := line[..colon], line[colon + 1..];
    var semi := IndexOf(head, ';');
    if semi < 0 {
      return Some(Property(Upper(head), map[], value));
    }
    var params := ReadParams(Split(head[semi + 1..], ';'));
    r := Some(Property(Upper(head[..semi]), params, value));
  }

  // ----- What printed lines read as -----

  /** Text that neither quotes nor ends a name or a parameter. */
  predicate Inert(s: string) {
    forall c :: c in s ==> c !in {'"', ':', ';'}
  }

  predicate IsName(s: string) {
    s != "" && forall c :: c in s ==> 'A' <= c <= 'Z' || c == '-'
  }

  lemma {:induction false} ColonAfter(head: string, value: string)
    requires forall c :: c in head ==> c != '"' && c != ':'
    ensures Colon(head + ":" + value, false) == |head|
  {
    if head == "" {
      assert head + ":" + value == ":" + value;
    } else {
      assert head[0] in head && forall c :: c in head[1..] ==> c in head;
      ColonAfter(head[1..], value);
      assert head + ":" + value == [head[0]] + (head[1..] + ":" + value);
      assert ([head[0]] + (head[1..] + ":" + value))[1..] == head[1..] + ":" + value;
    }
  }

  lemma {:induction false} NameUpper(name: string)
    requires IsName(name)
    ensures Upper(name) == name && Inert(name) && !IsSpace(name[0]) && '=' !in name
  {
    assert name[0] in name;
    forall i | 0 <= i < |name| ensures UpperChar(name[i]) == name[i] {
      assert name[i] in name;
    }
  }

  /** The first occurrence of a character that the head does not contain. */
  lemma {:induction false} IndexAfter(head: string, c: char, rest: string)
    requires c !in head
    ensures IndexOf(head, c) == -1
    ensures IndexOf(head + [c] + rest, c) == |head|
    ensures (head + [c] + rest)[..|head|] == head && (head + [c] + rest)[|head| + 1..] == rest
  {
    var s := head + [c] + rest;
    assert s[|head|] == c;
    forall j | 0 <= j < |head| ensures s[j] != c && head[j] != c {
      assert head[j] in head;
    }
  }

  lemma {:induction false} ParsePlain(name: string, value: string)
    requires IsName(name)
    ensures ParseProperty(name + ":" + value) == Some(Property(name, map[], value))
  {
    NameUpper(name);
    ColonAfter(name, value);
    var line := name + ":" + value;
    assert line[..|name|] == name && line[|name| + 1..] == value;
    IndexAfter(name, ';', "");
  }

  lemma {:induction false} UnquotedInert(val: string)
    requires Inert(val)
    ensures Unquoted(val) == val
  {
    if val != "" {
      assert val[0] in val;
    }
  }

  lemma {:induction false} OneParam(key: string, val: string)
    requires IsName(key) && Inert(val)
    ensures Params(Split(key + "=" + val, ';')) == map[key := val]
  {
    NameUpper(key);
    var param := key + "=" + val;
    SplitWhole(param, ';');
    IndexAfter(key, '=', val);
    UnquotedInert(val);
  }

  lemma {:induction false} ParseWithParam(name: string, key: string, val: string, value: string)
    requires IsName(name) && IsName(key) && Inert(val)
    ensures ParseProperty(name + ";" + key + "=" + val + ":" + value) == Some(Property(name, map[key := val], value))
  {
    NameUpper(name);
    NameUpper(key);
    var head := name + ";" + key + "=" + val;
    ColonAfter(head, value);
    var line := head + ":" + value;
    assert line[..|head|] == head && line[|head| + 1..] == value;
    IndexAfter(name, ';', key + "=" + val);
    assert head == name + [';'] + (key + "=" + val);
    OneParam(key, val);
  }
}
