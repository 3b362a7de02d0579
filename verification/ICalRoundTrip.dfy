/** Printing events and parsing the document back. */
module ICalRoundTrip {
  import opened Optional
  import opened ICalText
  import opened ICalFolding
  import opened ICalProperty
  import opened ICalDates
  import opened ICalPrinter
  import opened ICalParser
  import opened Sequences

  // ----- Texts -----
  /** What a text becomes: escaped, trimmed at the end of its line, unescaped. */
  function Received(t: string): string {
    UnescapeText(TrimEnd(EscapeText(t)))
  }

  predicate IsTail(c: char) {
    IsSpace(c) && c != '\n'
  }

  /** The text without the whitespace at its end, newlines excepted. */
  function DropTail(t: string): string {
    if t != "" && IsTail(t[|t| - 1]) then DropTail(t[..|t| - 1]) else t
  }

  lemma {:induction false} EscapedSnoc(t: string, c: char)
    ensures Escaped(t + [c], ALL) == Escaped(t, ALL) + EscapeChar(c, ALL)
  {
    if t == "" {
      assert t + [c] == [c] && [c][1..] == "" && Escaped("", ALL) == "";
    } else {
      EscapedSnoc(t[1..], c);
      assert (t + [c])[1..] == t[1..] + [c];
    }
  }

  /** Trimming an escaped text trims the text's own tail. */
  lemma {:induction false} TrimEscaped(t: string)
    ensures TrimEnd(Escaped(t, ALL)) == Escaped(DropTail(t), ALL)
  {
    if t != "" {
      var front, c := t[..|t| - 1], t[|t| - 1];
      assert t == front + [c];
      EscapedSnoc(front, c);
      var s := Escaped(t, ALL);
      if IsTail(c) {
        TrimEscaped(front);
        assert s == Escaped(front, ALL) + [c] && s[..|s| - 1] == Escaped(front, ALL);
      } else {
        assert s[|s| - 1] == Code(c) && !IsSpace(Code(c));
      }
    }
  }

  lemma {:induction false} NewlinesSnoc(t: string, c: char)
    requires c != '\n'
    ensures Newlines(t + [c]) == Newlines(t)
  {
    if t == "" {
      assert t + [c] == [c] && [c][1..] == "";
    } else {
      NewlinesSnoc(t[1..], c);
      assert (t + [c])[1..] == t[1..] + [c];
    }
  }

  lemma {:induction false} DropTailShape(t: string)
    ensures DropTail(t) == t <==> t == "" || !IsTail(t[|t| - 1])
    ensures |DropTail(t)| <= |t|
    ensures HasBackslashN(t) <==> HasBackslashN(DropTail(t))
    ensures Newlines(DropTail(t)) == Newlines(t)
  {
    if t != "" && IsTail(t[|t| - 1]) {
      var front := t[..|t| - 1];
      DropTailShape(front);
      if i :| 0 <= i < |t| - 1 && t[i] == '\\' && t[i + 1] in {'n', 'N'} {
        assert !IsSpace('n') && !IsSpace('N');
        assert front[i] == '\\' && front[i + 1] in {'n', 'N'};
      }
      if i :| 0 <= i < |front| - 1 && front[i] == '\\' && front[i + 1] in {'n', 'N'} {
        assert t[i] == '\\' && t[i + 1] in {'n', 'N'};
      }
      assert t == front + [t[|t| - 1]];
      NewlinesSnoc(front, t[|t| - 1]);
    }
  }

  predicate Survives(t: string) {
    !HasBackslashN(t) && (t == "" || !IsTail(t[|t| - 1]))
  }

  lemma {:induction false} ExtraNewlinesSurvive(t: string)
    requires HasBackslashN(t)
    ensures Newlines(UnescapeText(Escaped(t, ALL))) > Newlines(t)
  {
    ExtraNewlines(t);
    CountsBackslashN(t);
    var s := ReplaceEscape(Escaped(t, ALL), {'n', 'N'}, '\n');
    ReplaceEscapeKeepsNewlines(s, ',');
    ReplaceEscapeKeepsNewlines(ReplaceEscape(s, {','}, ','), ';');
    ReplaceEscapeKeepsNewlines(ReplaceEscape(ReplaceEscape(s, {','}, ','), {';'}, ';'), '\\');
  }

  /** A text comes back unchanged exactly when no backslash is followed by n or N
      and it does not end in whitespace other than a newline. */
  lemma {:induction false} TextSurvives(t: string)
    ensures Received(t) == t <==> Survives(t)
  {
    EscapeIsByCharacter(t);
    TrimEscaped(t);
    DropTailShape(t);
    var kept := DropTail(t);
    EscapeIsByCharacter(kept);
    UnescapeEscape(kept);
    if HasBackslashN(t) {
      ExtraNewlinesSurvive(kept);
    }
  }

  // ----- What an event becomes -----

  predicate PrintableTime(t: EventTime) {
    NoBreaks(t.date) && NoBreaks(t.dateTime) && NoBreaks(t.timeZone) && Inert(t.timeZone)
  }

  /** The text of a line that cannot be split: no CR anywhere, and no LF outside
      the escaped texts. */
  predicate Printable(e: Event) {
    && NoBreaks(e.id) && TrimEnd(e.id) != "" && NoBreaks(e.updatedAt) && NoBreaks(e.recurrenceRule)
    && PrintableTime(e.start) && PrintableTime(e.end)
    && '\r' !in TitleText(e) && '\r' !in e.description && '\r' !in e.location
  }

  function PropertyOf(x: Entry): Property {
    Property(Name(x.field), if x.param.Some? then map[x.param.value.key := x.param.value.val] else map[], TrimEnd(x.value))
  }

  function OptionalText(t: string): Option<string> {
    if t != "" then Some(Received(t)) else None
  }

  function TimeValue(e: Event, t: EventTime): string {
    if IsAllDay(e) then FormatICalDate(t.date) else FormatICalDateTime(t.dateTime, t.timeZone)
  }

  function TimeParams(e: Event, t: EventTime): map<string, string> {
    if IsAllDay(e) then map["VALUE" := "DATE"] else ZoneParams(t.timeZone)
  }

  /** The parsed event that stands for `e`. */
  function Expected(e: Event): VEvent {
    var dated := IsAllDay(e) || IsTimed(e);
    VEvent(
      TrimEnd(e.id),
      Some(Received(TitleText(e))), OptionalText(e.description), OptionalText(e.location),
      if dated then TrimEnd(TimeValue(e, e.start)) else "",
      if dated then Some(TimeParams(e, e.start)) else None,
      if dated then Some(TrimEnd(TimeValue(e, e.end))) else None,
      if dated then Some(TimeParams(e, e.end)) else None,
      Some(StatusText(e.status)), Some(TransparencyText(e.transparency)),
      if e.recurrenceRule != "" then Some(TrimEnd(e.recurrenceRule)) else None,
      None, Some(TrimEnd(FormatICalDateTime(e.updatedAt, ""))), None, None, None, [])
  }

  function ExpectedAll(es: seq<Event>): seq<VEvent> {
    if es == [] then [] else ExpectedAll(es[..|es| - 1]) + [Expected(es[|es| - 1])]
  }

  // ----- Lines that are not events -----

  /** A line that survives folding and is not an attendee. */
  predicate Fine(l: ContentLine) {
    GoodLine(l.text) && AttendeeOf(l.text) == []
  }

  /** A line the scan ignores outside events, and never takes for an attendee. */
  predicate Outer(l: string) {
    GoodLine(l) && Trim(l) != BEGIN_EVENT && Trim(l) != END_EVENT && AttendeeOf(l) == []
  }

  lemma {:induction false} PlainLine(name: string, value: string)
    requires IsName(name)
    ensures Trim(name + ":" + value) == name + ":" + TrimEnd(value)
    ensures ParseProperty(Trim(name + ":" + value)) == Some(Property(name, map[], TrimEnd(value)))
    ensures NoBreaks(value) ==> GoodLine(name + ":" + value)
  {
    NameUpper(name);
    TrimContent(name, value);
    ParsePlain(name, TrimEnd(value));
  }

  /** Neither an attendee nor the border of an event. */
  predicate Harmless(c: Content) {
    IsName(c.name) && c.name != "ATTENDEE" && NoBreaks(c.value)
    && (c.name in {"BEGIN", "END"} ==> |c.value| > 6 && !IsSpace(c.value[|c.value| - 1]))
  }

  lemma {:induction false} Borders()
    ensures OPEN.Text() == BEGIN_EVENT && CLOSE.Text() == END_EVENT
  {
  }

  lemma {:induction false} BordersRead(c: Content)
    requires c.name in {"BEGIN", "END"} && c.value == "VEVENT"
    ensures Trim(c.Text()) == c.Text() && ParseProperty(c.Text()) == Some(Property(c.name, map[], c.value))
    ensures Fine(Folded(c.Text()))
  {
    var value := c.value;
    assert IsName(c.name) && NoBreaks(value) && !IsSpace(value[|value| - 1]);
    assert c.name != "ATTENDEE";
    PlainLine(c.name, value);
  }

  lemma {:induction false} HarmlessIsOuter(c: Content)
    requires Harmless(c)
    ensures Outer(c.Text())
  {
    PlainLine(c.name, c.value);
    Borders();
    BordersRead(OPEN);
    BordersRead(CLOSE);
  }

  lemma {:induction false} Ordinary(name: string, value: string)
    requires name in {"TZID", "DTSTART", "TZNAME", "TZOFFSETFROM", "TZOFFSETTO"} && NoBreaks(value)
    ensures Harmless(Content(name, value))
  {
  }

  lemma {:induction false} OrdinaryHeader(name: string, value: string)
    requires name in {"VERSION", "PRODID", "CALSCALE", "METHOD", "X-WR-CALNAME"} && NoBreaks(value)
    ensures Harmless(Content(name, value))
  {
  }

  lemma {:induction false} BracketValue(value: string)
    requires value in {"VTIMEZONE", "STANDARD", "VCALENDAR"}
    ensures NoBreaks(value) && |value| > 6 && !IsSpace(value[|value| - 1])
  {
  }

  lemma {:induction false} Bracket(name: string, value: string)
    requires name in {"BEGIN", "END"} && value in {"VTIMEZONE", "STANDARD", "VCALENDAR"}
    ensures Harmless(Content(name, value))
  {
    BracketValue(value);
  }

  lemma {:induction false} FixedValue(value: string)
    requires value in {"19700101T000000", "+0000", "2.0", "-//T-Minus//Calendar Feed//EN", "GREGORIAN", "PUBLISH"}
    ensures NoBreaks(value)
  {
  }

  lemma {:induction false} ZoneHarmless(zone: string)
    requires NoBreaks(zone)
    ensures forall i :: 0 <= i < 9 ==> Harmless(ZoneContents(zone)[i])
  {
    Bracket("BEGIN", "VTIMEZONE");
    Ordinary("TZID", zone);
    Bracket("BEGIN", "STANDARD");
    FixedValue("19700101T000000");
    Ordinary("DTSTART", "19700101T000000");
    Ordinary("TZNAME", zone);
    FixedValue("+0000");
    Ordinary("TZOFFSETFROM", "+0000");
    Ordinary("TZOFFSETTO", "+0000");
    Bracket("END", "STANDARD");
    Bracket("END", "VTIMEZONE");
  }

  lemma {:induction false} HeaderHarmless()
    ensures forall i :: 0 <= i < 5 ==> Harmless(HEADER[i])
  {
    Bracket("BEGIN", "VCALENDAR");
    FixedValue("2.0");
    OrdinaryHeader("VERSION", "2.0");
    FixedValue("-//T-Minus//Calendar Feed//EN");
    OrdinaryHeader("PRODID", "-//T-Minus//Calendar Feed//EN");
    FixedValue("GREGORIAN");
    OrdinaryHeader("CALSCALE", "GREGORIAN");
    FixedValue("PUBLISH");
    OrdinaryHeader("METHOD", "PUBLISH");
  }

  lemma {:induction false} FooterHarmless()
    ensures Harmless(FOOTER)
  {
  }

  /** Escaped texts have no line breaks left. */
  lemma {:induction false} EscapedNoBreaks(t: string)
    requires '\r' !in t
    ensures NoBreaks(Escaped(t, ALL))
  {
    if t != "" {
      assert t[0] in t && forall c :: c in t[1..] ==> c in t;
      EscapedNoBreaks(t[1..]);
    }
  }

  predicate AllOuter(ls: seq<ContentLine>) {
    forall l :: l in ls ==> Outer(l.text)
  }

  lemma {:induction false} ContentsOuter(cs: seq<Content>)
    requires forall i :: 0 <= i < |cs| ==> Harmless(cs[i])
    ensures AllOuter(PlainLines(ContentTexts(cs)))
  {
    forall l | l in PlainLines(ContentTexts(cs)) ensures Outer(l.text) {
      var i :| 0 <= i < |cs| && l == Plain(cs[i].Text());
      HarmlessIsOuter(cs[i]);
    }
  }

  lemma {:induction false} HeaderOuter(name: string)
    requires '\r' !in name
    ensures AllOuter(HeaderLines(name))
  {
    HeaderHarmless();
    ContentsOuter(HEADER);
    EscapeIsByCharacter(name);
    EscapedNoBreaks(name);
    OrdinaryHeader("X-WR-CALNAME", EscapeText(name));
    HarmlessIsOuter(CalendarName(name));
  }

  lemma {:induction false} ZonesOuter(zones: seq<string>)
    requires forall z :: z in zones ==> NoBreaks(z)
    ensures AllOuter(ZoneLines(zones))
  {
    if zones != [] {
      var front, zone := zones[..|zones| - 1], zones[|zones| - 1];
      ZonesOuter(front);
      ZoneHarmless(zone);
      ContentsOuter(ZoneContents(zone));
    }
  }

  // ----- The lines of an event -----

  lemma {:induction false} FieldNames(f: Field)
    ensures IsName(Name(f)) && Name(f) != "ATTENDEE" && Name(f) !in {"BEGIN", "END"}
    ensures Name(f) !in {"CLASS", "LAST-MODIFIED", "X-TMINUS-MANAGED", "X-TMINUS-CANONICAL-ID"}
  {
  }

  lemma {:induction false} NamesDiffer(f: Field, g: Field)
    ensures Name(f) == Name(g) ==> f == g
  {
  }

  predicate Readable(x: Entry) {
    && NoBreaks(x.value)
    && (x.param.Some? ==> x.param.value.key in {"VALUE", "TZID"} && Inert(x.param.value.val) && NoBreaks(x.param.value.val))
  }

  lemma {:induction false} RemoveKeeps(s: string, c: char)
    requires NoBreaks(s)
    ensures NoBreaks(Remove(s, c))
  {
    if s != "" {
      assert s[0] in s && forall x :: x in s[1..] ==> x in s;
      RemoveKeeps(s[1..], c);
    }
  }

  lemma {:induction false} FormatKeeps(s: string, zone: string)
    requires NoBreaks(s)
    ensures NoBreaks(FormatICalDateTime(s, zone))
  {
    var bare := if EndsWithZ(s) then s[..|s| - 1] else s;
    assert forall x :: x in bare ==> x in s;
    RemoveKeeps(bare, '-');
    RemoveKeeps(Remove(bare, '-'), ':');
    var cleaned := Remove(Remove(bare, '-'), ':');
    var dot := IndexOf(cleaned, '.');
    var cut := if dot >= 0 then cleaned[..dot] else cleaned;
    assert forall x :: x in cut ==> x in cleaned;
    assert forall x :: x in FormatICalDateTime(s, zone) ==> x in cut || x == 'Z';
  }

  lemma {:induction false} TimeReadable(f: Field, allDay: bool, t: EventTime)
    requires PrintableTime(t)
    ensures Readable(TimeEntry(f, allDay, t))
  {
    RemoveKeeps(t.date, '-');
    FormatKeeps(t.dateTime, t.timeZone);
    assert Inert("DATE") && NoBreaks("DATE");
  }

  lemma {:induction false} TextReadable(t: string)
    requires '\r' !in t
    ensures NoBreaks(EscapeText(t))
  {
    EscapeIsByCharacter(t);
    EscapedNoBreaks(t);
  }

  lemma {:induction false} StateReadable(e: Event)
    ensures NoBreaks(StatusText(e.status)) && NoBreaks(TransparencyText(e.transparency))
    ensures TrimEnd(StatusText(e.status)) == StatusText(e.status)
    ensures TrimEnd(TransparencyText(e.transparency)) == TransparencyText(e.transparency)
  {
  }

  lemma {:induction false} FieldReadable(e: Event, f: Field)
    requires Printable(e) && FieldEntry(e, f).Some?
    ensures Readable(FieldEntry(e, f).value)
  {
    match f {
      case Uid =>
      case DtStamp => FormatKeeps(e.updatedAt, "");
      case DtStart => TimeReadable(f, IsAllDay(e), e.start);
      case DtEnd => TimeReadable(f, IsAllDay(e), e.end);
      case Summary => TextReadable(TitleText(e));
      case Description => TextReadable(e.description);
      case Location => TextReadable(e.location);
      case StatusField => StateReadable(e);
      case Transp => StateReadable(e);
      case RRule =>
    }
  }

  /** Inside an event this line adds the property `x` stands for. */
  predicate Adds(l: string, x: Entry) {
    && GoodLine(l) && Trim(l) != BEGIN_EVENT && Trim(l) != END_EVENT && AttendeeOf(l) == []
    && ParseProperty(Trim(l)) == Some(PropertyOf(x))
  }

  lemma {:induction false} ParamNames(key: string)
    requires key in {"VALUE", "TZID"}
    ensures IsName(key)
  {
  }

  lemma {:induction false} HeadNoBreaks(x: Entry)
    requires x.param.Some? && IsName(Name(x.field)) && IsName(x.param.value.key) && NoBreaks(x.param.value.val)
    ensures NoBreaks(Head(x)) && !IsSpace(Head(x)[0]) && !StartsBlank(Head(x))
  {
    NameUpper(Name(x.field));
  }

  lemma {:induction false} ReadsBackWithParam(x: Entry)
    requires Readable(x) && x.param.Some?
    ensures ParseProperty(Trim(Render(x))) == Some(PropertyOf(x)) && GoodLine(Render(x))
  {
    var p := x.param.value;
    FieldNames(x.field);
    ParamNames(p.key);
    HeadNoBreaks(x);
    TrimContent(Head(x), x.value);
    ParseWithParam(Name(x.field), p.key, p.val, TrimEnd(x.value));
  }

  lemma {:induction false} ReadsBack(x: Entry)
    requires Readable(x)
    ensures ParseProperty(Trim(Render(x))) == Some(PropertyOf(x)) && GoodLine(Render(x))
  {
    if x.param.Some? {
      ReadsBackWithParam(x);
    } else {
      FieldNames(x.field);
      PlainLine(Name(x.field), x.value);
    }
  }

  lemma {:induction false} EntryAdds(x: Entry)
    requires Readable(x)
    ensures Adds(Render(x), x)
  {
    FieldNames(x.field);
    ReadsBack(x);
    Borders();
    BordersRead(OPEN);
    BordersRead(CLOSE);
  }

  lemma {:induction false} StepAdds(st: Scan, x: Entry, attendees: seq<string>)
    requires st.inEvent && Readable(x)
    ensures StepLine(st, Render(x), attendees) == Scan(true, st.props[Name(x.field) := PropertyOf(x)], st.events)
  {
    EntryAdds(x);
  }

  function PropsFrom(props: Props, xs: seq<Entry>): Props
    decreases |xs|
  {
    if xs == [] then props else PropsFrom(props[Name(xs[0].field) := PropertyOf(xs[0])], xs[1..])
  }

  lemma {:induction false} RenderedTail(xs: seq<Entry>)
    requires xs != []
    ensures Rendered(xs) != [] && Rendered(xs)[0] == Render(xs[0]) && Rendered(xs)[1..] == Rendered(xs[1..])
  {
  }

  lemma {:induction false} ScanEntries(st: Scan, xs: seq<Entry>, attendees: seq<string>)
    requires st.inEvent && forall x :: x in xs ==> Readable(x)
    ensures ScanLines(st, Rendered(xs), attendees) == Scan(true, PropsFrom(st.props, xs), st.events)
    decreases |xs|
  {
    if xs == [] {
    } else {
      assert xs[0] in xs;
      RenderedTail(xs);
      StepAdds(st, xs[0], attendees);
      ScanEntries(StepLine(st, Render(xs[0]), attendees), xs[1..], attendees);
    }
  }

  /** The collected properties are the event's fields. */
  lemma {:induction false} Lookup(props: Props, xs: seq<Entry>, e: Event, f: Field)
    requires forall x :: x in xs ==> FieldEntry(e, x.field) == Some(x)
    ensures var r := PropsFrom(props, xs);
            if FieldEntry(e, f).Some? && FieldEntry(e, f).value in xs
            then Name(f) in r && r[Name(f)] == PropertyOf(FieldEntry(e, f).value)
            else (Name(f) in r <==> Name(f) in props) && (Name(f) in r ==> r[Name(f)] == props[Name(f)])
    decreases |xs|
  {
    if xs != [] {
      var x := xs[0];
      assert x in xs && forall y :: y in xs <==> y == x || y in xs[1..];
      NamesDiffer(x.field, f);
      FieldIs(e, f);
      Lookup(props[Name(x.field) := PropertyOf(x)], xs[1..], e, f);
    }
  }

  lemma {:induction false} OtherNames(props: Props, xs: seq<Entry>, name: string)
    requires name in {"CLASS", "LAST-MODIFIED", "X-TMINUS-MANAGED", "X-TMINUS-CANONICAL-ID"}
    ensures name in PropsFrom(props, xs) <==> name in props
    decreases |xs|
  {
    if xs != [] {
      FieldNames(xs[0].field);
      OtherNames(props[Name(xs[0].field) := PropertyOf(xs[0])], xs[1..], name);
    }
  }

  /** The properties of a parsed event, field by field. */
  predicate Carries(props: Props, e: Event) {
    && (forall f: Field :: if FieldEntry(e, f).Some? then Name(f) in props && props[Name(f)] == PropertyOf(FieldEntry(e, f).value)
                           else Name(f) !in props)
    && (forall n :: n in {"CLASS", "LAST-MODIFIED", "X-TMINUS-MANAGED", "X-TMINUS-CANONICAL-ID"} ==> n !in props)
  }

  lemma {:induction false} EventCarries(e: Event)
    ensures Carries(PropsFrom(map[], Entries(e)), e)
  {
    forall x | x in Entries(e) ensures FieldEntry(e, x.field) == Some(x) {
      EntriesAreFields(e, x);
    }
    forall f: Field ensures FieldEntry(e, f).Some? ==> FieldEntry(e, f).value in Entries(e) {
      FieldIs(e, f);
      if FieldEntry(e, f).Some? {
        EntriesAreFields(e, FieldEntry(e, f).value);
      }
    }
    forall f: Field {
      Lookup(map[], Entries(e), e, f);
    }
    forall n | n in {"CLASS", "LAST-MODIFIED", "X-TMINUS-MANAGED", "X-TMINUS-CANONICAL-ID"}
      ensures n !in PropsFrom(map[], Entries(e))
    {
      OtherNames(map[], Entries(e), n);
    }
  }

  lemma {:induction false} CarriesField(props: Props, e: Event, f: Field)
    requires Carries(props, e)
    ensures if FieldEntry(e, f).Some? then Name(f) in props && props[Name(f)] == PropertyOf(FieldEntry(e, f).value)
            else Name(f) !in props
  {
  }

  lemma {:induction false} CarriesText(props: Props, e: Event, f: Field, t: string)
    requires Carries(props, e) && FieldEntry(e, f) == Some(Entry(f, None, EscapeText(t)))
    ensures TextOf(props, Name(f)) == Some(Received(t))
  {
    CarriesField(props, e, f);
  }

  lemma {:induction false} CarriesNoText(props: Props, e: Event, f: Field)
    requires Carries(props, e) && FieldEntry(e, f) == None
    ensures TextOf(props, Name(f)) == None
  {
    CarriesField(props, e, f);
  }

  lemma {:induction false} CarriesOptionalText(props: Props, e: Event, f: Field, t: string)
    requires Carries(props, e) && FieldEntry(e, f) == When(t != "", Entry(f, None, EscapeText(t)))
    ensures TextOf(props, Name(f)) == OptionalText(t)
  {
    if t != "" {
      CarriesText(props, e, f, t);
    } else {
      CarriesNoText(props, e, f);
    }
  }

  lemma {:induction false} CarriesTexts(props: Props, e: Event)
    requires Carries(props, e)
    ensures TextOf(props, "SUMMARY") == Some(Received(TitleText(e)))
    ensures TextOf(props, "DESCRIPTION") == OptionalText(e.description)
    ensures TextOf(props, "LOCATION") == OptionalText(e.location)
  {
    CarriesText(props, e, Summary, TitleText(e));
    CarriesOptionalText(props, e, Description, e.description);
    CarriesOptionalText(props, e, Location, e.location);
  }

  lemma {:induction false} CarriesTime(props: Props, e: Event, f: Field, t: EventTime)
    requires Carries(props, e) && f in {DtStart, DtEnd} && t == (if f == DtStart then e.start else e.end)
    ensures ValueOf(props, Name(f)) == (if IsAllDay(e) || IsTimed(e) then Some(TrimEnd(TimeValue(e, t))) else None)
    ensures ParamsOf(props, Name(f)) == (if IsAllDay(e) || IsTimed(e) then Some(TimeParams(e, t)) else None)
  {
    CarriesField(props, e, f);
  }

  lemma {:induction false} CarriesRest(props: Props, e: Event)
    requires Carries(props, e)
    ensures ValueOf(props, "UID") == Some(TrimEnd(e.id))
    ensures ValueOf(props, "DTSTAMP") == Some(TrimEnd(FormatICalDateTime(e.updatedAt, "")))
    ensures ValueOf(props, "RRULE") == if e.recurrenceRule != "" then Some(TrimEnd(e.recurrenceRule)) else None
  {
    CarriesField(props, e, Uid);
    CarriesField(props, e, RRule);
    CarriesField(props, e, DtStamp);
  }

  lemma {:induction false} CarriesState(props: Props, e: Event)
    requires Carries(props, e)
    ensures ValueOf(props, "STATUS") == Some(StatusText(e.status))
    ensures ValueOf(props, "TRANSP") == Some(TransparencyText(e.transparency))
  {
    CarriesField(props, e, StatusField);
    CarriesField(props, e, Transp);
    StateReadable(e);
  }

  lemma {:induction false} BuildsExpected(props: Props, e: Event)
    requires Carries(props, e)
    ensures BuildEvent(props, []) == Expected(e) && ValueOf(props, "UID") == Some(TrimEnd(e.id))
  {
    CarriesTexts(props, e);
    CarriesTime(props, e, DtStart, e.start);
    CarriesTime(props, e, DtEnd, e.end);
    CarriesRest(props, e);
    CarriesState(props, e);
  }

  lemma {:induction false} BorderSteps(st: Scan)
    ensures StepLine(st, OPEN.Text(), []) == Scan(true, map[], st.events)
    ensures OrEmpty(ValueOf(st.props, "UID")) != "" ==>
              StepLine(st, CLOSE.Text(), []) == Scan(false, st.props, st.events + [BuildEvent(st.props, [])])
  {
    Borders();
    BordersRead(OPEN);
    BordersRead(CLOSE);
    assert OPEN.Text()[0] != CLOSE.Text()[0];
  }

  lemma {:induction false} ScanOne(st: Scan, line: string)
    ensures ScanLines(st, [line], []) == StepLine(st, line, [])
  {
    assert [line][1..] == [];
  }

  /** The scan of an event's lines: open, collect, close. */
  lemma {:induction false} ScanBlock(st: Scan, xs: seq<Entry>)
    requires forall x :: x in xs ==> Readable(x)
    ensures ScanLines(st, [OPEN.Text()] + Rendered(xs) + [CLOSE.Text()], [])
            == StepLine(Scan(true, PropsFrom(map[], xs), st.events), CLOSE.Text(), [])
  {
    var first, last := OPEN.Text(), CLOSE.Text();
    BorderSteps(st);
    ScanConcat(st, [first] + Rendered(xs), [last], []);
    ScanConcat(st, [first], Rendered(xs), []);
    ScanOne(st, first);
    ScanEntries(Scan(true, map[], st.events), xs, []);
    ScanOne(Scan(true, PropsFrom(map[], xs), st.events), last);
  }

  lemma {:induction false} EntriesReadable(e: Event)
    requires Printable(e)
    ensures forall x :: x in Entries(e) ==> Readable(x)
  {
    forall x | x in Entries(e) ensures Readable(x) {
      EntriesAreFields(e, x);
      FieldReadable(e, x.field);
    }
  }

  /** The end of an event's block emits what was collected. */
  lemma {:induction false} CloseEvent(props: Props, events: seq<VEvent>, e: Event)
    requires Carries(props, e) && TrimEnd(e.id) != ""
    ensures StepLine(Scan(true, props, events), CLOSE.Text(), []) == Scan(false, props, events + [Expected(e)])
  {
    BuildsExpected(props, e);
    BorderSteps(Scan(true, props, events));
  }

  /** Scanning an event's lines appends exactly that event. */
  lemma {:induction false} ScanEvent(st: Scan, e: Event)
    requires Printable(e) && !st.inEvent
    ensures var r := ScanLines(st, EventTexts(e), []);
            !r.inEvent && r.events == st.events + [Expected(e)]
  {
    EntriesReadable(e);
    ScanBlock(st, Entries(e));
    EventCarries(e);
    CloseEvent(PropsFrom(map[], Entries(e)), st.events, e);
  }

  // ----- The document -----

  lemma {:induction false} TextsConcat(a: seq<ContentLine>, b: seq<ContentLine>)
    ensures Texts(a + b) == Texts(a) + Texts(b)
  {
  }

  lemma {:induction false} ScanOuter(st: Scan, ls: seq<ContentLine>)
    requires !st.inEvent && AllOuter(ls)
    ensures ScanLines(st, Texts(ls), []) == st
    decreases |ls|
  {
    if ls != [] {
      assert ls[0] in ls;
      TextsStep(ls);
      assert Texts(ls)[1..] == Texts(ls[1..]);
      ScanOuter(st, ls[1..]);
    }
  }

  lemma {:induction false} EventsTextsSnoc(es: seq<Event>)
    requires es != []
    ensures Texts(EventsLines(es)) == Texts(EventsLines(es[..|es| - 1])) + EventTexts(es[|es| - 1])
  {
    var front, e := es[..|es| - 1], es[|es| - 1];
    TextsConcat(EventsLines(front), EventLines(e));
    assert Texts(EventLines(e)) == EventTexts(e);
  }

  lemma {:induction false} ScanEvents(st: Scan, es: seq<Event>)
    requires !st.inEvent && forall e :: e in es ==> Printable(e)
    ensures var r := ScanLines(st, Texts(EventsLines(es)), []);
            !r.inEvent && r.events == st.events + ExpectedAll(es)
    decreases |es|
  {
    if es == [] {
    } else {
      var front, e := es[..|es| - 1], es[|es| - 1];
      ScanEvents(st, front);
      var mid := ScanLines(st, Texts(EventsLines(front)), []);
      EventsTextsSnoc(es);
      ScanConcat(st, Texts(EventsLines(front)), EventTexts(e), []);
      ScanEvent(mid, e);
      Assoc(st.events, ExpectedAll(front), [Expected(e)]);
    }
  }

  lemma {:induction false} RenderedFine(xs: seq<Entry>, t: string)
    requires t in Rendered(xs) && forall x :: x in xs ==> Readable(x)
    ensures Fine(Folded(t))
  {
    var i :| 0 <= i < |xs| && t == Render(xs[i]);
    EntryAdds(xs[i]);
  }

  lemma {:induction false} EventTextFine(e: Event, t: string)
    requires Printable(e) && t in EventTexts(e)
    ensures Fine(Folded(t))
  {
    EntriesReadable(e);
    if t == OPEN.Text() {
      BordersRead(OPEN);
    } else if t == CLOSE.Text() {
      BordersRead(CLOSE);
    } else {
      RenderedFine(Entries(e), t);
    }
  }

  lemma {:induction false} EventLinesFine(e: Event, l: ContentLine)
    requires Printable(e) && l in EventLines(e)
    ensures Fine(l)
  {
    assert l.text in EventTexts(e);
    EventTextFine(e, l.text);
  }

  lemma {:induction false} EventsLinesFine(es: seq<Event>)
    requires forall e :: e in es ==> Printable(e)
    ensures forall l :: l in EventsLines(es) ==> Fine(l)
    decreases |es|
  {
    if es != [] {
      var front, e := es[..|es| - 1], es[|es| - 1];
      EventsLinesFine(front);
      forall l | l in EventLines(e) ensures Fine(l) {
        EventLinesFine(e, l);
      }
    }
  }

  lemma {:induction false} NoAttendees(ls: seq<ContentLine>)
    requires forall l :: l in ls ==> Fine(l)
    ensures Attendees(Texts(ls)) == []
    decreases |ls|
  {
    if ls != [] {
      var front := ls[..|ls| - 1];
      assert ls[|ls| - 1] in ls;
      NoAttendees(front);
      assert Texts(ls)[..|ls| - 1] == Texts(front);
    }
  }

  lemma {:induction false} CalendarFine(es: seq<Event>, zones: seq<string>, name: string)
    requires (forall e :: e in es ==> Printable(e)) && (forall z :: z in zones ==> NoBreaks(z)) && '\r' !in name
    ensures AllOuter(HeaderLines(name) + ZoneLines(zones)) && AllOuter([Plain(FOOTER.Text())])
    ensures forall l :: l in CalendarLines(es, zones, name) ==> Fine(l)
  {
    HeaderOuter(name);
    ZonesOuter(zones);
    EventsLinesFine(es);
    FooterHarmless();
    HarmlessIsOuter(FOOTER);
  }

  lemma {:induction false} ScanCalendar(es: seq<Event>, zones: seq<string>, name: string)
    requires (forall e :: e in es ==> Printable(e)) && (forall z :: z in zones ==> NoBreaks(z)) && '\r' !in name
    ensures ScanLines(START, Texts(CalendarLines(es, zones, name)), []).events == ExpectedAll(es)
  {
    CalendarFine(es, zones, name);
    var front, middle, back := HeaderLines(name) + ZoneLines(zones), EventsLines(es), [Plain(FOOTER.Text())];
    TextsConcat(front + middle, back);
    TextsConcat(front, middle);
    ScanConcat(START, Texts(front) + Texts(middle), Texts(back), []);
    ScanConcat(START, Texts(front), Texts(middle), []);
    ScanOuter(START, front);
    ScanEvents(START, es);
    ScanOuter(ScanLines(START, Texts(middle), []), back);
    assert [] + ExpectedAll(es) == ExpectedAll(es);
  }

  /** The calendar's document parses to its events, in order and nothing else. */
  lemma {:induction false} DocumentRoundTrip(es: seq<Event>, zones: seq<string>, name: string)
    requires (forall e :: e in es ==> Printable(e)) && (forall z :: z in zones ==> NoBreaks(z)) && '\r' !in name
    ensures Parsed(Document(CalendarLines(es, zones, name))) == ExpectedAll(es)
  {
    var ls := CalendarLines(es, zones, name);
    CalendarFine(es, zones, name);
    DocumentLines(ls);
    NoAttendees(ls);
    ScanCalendar(es, zones, name);
  }

  /** `parseVEvents(buildVCalendar(events, options))`. */
  method PrintAndParse(events: seq<Event>, excludeCancelled: bool, name: string) returns (parsed: seq<VEvent>)
    requires (forall e :: e in events ==> Printable(e)) && '\r' !in name
    ensures parsed == ExpectedAll(Kept(events, excludeCancelled))
  {
    var text, zones := BuildVCalendar(events, excludeCancelled, name);
    forall z | z in zones ensures NoBreaks(z) {
      var e :| e in Kept(events, excludeCancelled) && Uses(e, z);
    }
    DocumentRoundTrip(Kept(events, excludeCancelled), zones, name);
    parsed := ParseVEvents(text);
  }

  // ----- Events that come back whole -----

  predicate Trimmed(s: string) {
    s == "" || !IsSpace(s[|s| - 1])
  }

  function Given(t: string): Option<string> {
    if t != "" then Some(t) else None
  }

  lemma {:induction false} OptionalSurvives(t: string)
    ensures OptionalText(t) == Given(t) <==> Survives(t)
  {
    TextSurvives(t);
  }

  /** Every text of the event comes back, exactly when each of them survives. */
  lemma {:induction false} TextsComeBack(e: Event)
    ensures var v := Expected(e);
            (v.summary == Some(TitleText(e)) && v.description == Given(e.description) && v.location == Given(e.location))
            <==> Survives(TitleText(e)) && Survives(e.description) && Survives(e.location)
  {
    TextSurvives(TitleText(e));
    OptionalSurvives(e.description);
    OptionalSurvives(e.location);
  }

  /** Identifier, recurrence rule, dates and their parameters come back as they
      were written when they do not end in whitespace. */
  lemma {:induction false} FieldsComeBack(e: Event)
    requires Trimmed(e.id) && Trimmed(e.recurrenceRule) && Trimmed(TimeValue(e, e.start)) && Trimmed(TimeValue(e, e.end))
    requires IsAllDay(e) || IsTimed(e)
    ensures var v := Expected(e);
            && v.uid == e.id && v.rrule == (if e.recurrenceRule != "" then Some(e.recurrenceRule) else None)
            && v.dtstart == TimeValue(e, e.start) && v.dtstartParams == Some(TimeParams(e, e.start))
            && v.dtend == Some(TimeValue(e, e.end)) && v.dtendParams == Some(TimeParams(e, e.end))
  {
  }

  lemma {:induction false} LastDigit(front: string, s: string)
    requires Digits(s) && s != ""
    ensures TrimEnd(front + s) == front + s
  {
    assert s[|s| - 1] in s && (front + s)[|front + s| - 1] == s[|s| - 1];
  }

  /** From event to event: an all-day start survives printing, parsing and
      conversion. */
  lemma {:induction false} AllDayStartComesBack(e: Event, k: Clock)
    requires k.Valid() && IsAllDay(e) && e.start.date == k.Date()
    ensures var v := Expected(e);
            v.dtstartParams.Some? && ToEventTime(v.dtstart, v.dtstartParams.value) == EventTime(k.Date(), "", "")
  {
    DateRoundTrip(k);
    CompactsDate(k);
    LastDigit(k.year + k.month, k.day);
    assert TimeValue(e, e.start) == k.year + k.month + k.day;
  }

  lemma {:induction false} CompactEnds(k: Clock)
    requires k.Valid()
    ensures TrimEnd(k.Compact() + "") == k.Compact() + "" && TrimEnd(k.Compact() + "Z") == k.Compact() + "Z"
  {
    LastDigit(k.CompactDate() + "T" + k.hour + k.minute, k.second);
    assert k.Compact() == k.CompactDate() + "T" + k.hour + k.minute + k.second;
    assert k.Compact() + "" == k.Compact();
  }

  /** So does a start given to the second that does not both name a zone and
      carry a Z. */
  lemma {:induction false} TimedStartComesBack(e: Event, k: Clock, utc: bool)
    requires k.Valid() && IsTimed(e) && e.start.dateTime == Stamp(k, "", utc) && !(utc && e.start.timeZone != "")
    ensures var v := Expected(e);
            v.dtstartParams.Some?
            && ToEventTime(v.dtstart, v.dtstartParams.value) == EventTime("", e.start.dateTime, e.start.timeZone)
  {
    DateTimeRoundTrip(k, "", utc, e.start.timeZone);
    Formatted(k, "", utc, e.start.timeZone);
    CompactEnds(k);
  }
}
