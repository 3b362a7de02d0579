/** Printing canonical events as an iCalendar document (RFC 5545). */
module ICalPrinter {
  import opened Optional
  import opened ICalText
  import opened ICalFolding
  import opened ICalDates
  import opened Sequences

  datatype Status = Confirmed | Tentative | Cancelled

  datatype Transparency = Opaque | Transparent

  /** `CanonicalEvent`; texts the source tests by truthiness use "" when absent. */
  datatype Event = Event(
    id: string,
    updatedAt: string,
    title: Option<string>,
    description: string,
    location: string,
    start: EventTime,
    end: EventTime,
    allDay: bool,
    status: Status,
    transparency: Transparency,
    recurrenceRule: string)

  /** The properties a VEVENT can carry, in the order they are written. */
  datatype Field = Uid | DtStamp | DtStart | DtEnd | Summary | Description | Location | StatusField | Transp | RRule

  function Name(f: Field): string {
    match f
    case Uid => "UID"
    case DtStamp => "DTSTAMP"
    case DtStart => "DTSTART"
    case DtEnd => "DTEND"
    case Summary => "SUMMARY"
    case Description => "DESCRIPTION"
    case Location => "LOCATION"
    case StatusField => "STATUS"
    case Transp => "TRANSP"
    case RRule => "RRULE"
  }

  datatype Param = Param(key: string, val: string)

  datatype Entry = Entry(field: Field, param: Option<Param>, value: string)

  function StatusText(s: Status): string {
    match s case Confirmed => "CONFIRMED" case Tentative => "TENTATIVE" case Cancelled => "CANCELLED"
  }

  function TransparencyText(t: Transparency): string {
    match t case Opaque => "OPAQUE" case Transparent => "TRANSPARENT"
  }

  function Head(e: Entry): string {
    match e.param
    case None => Name(e.field)
    case Some(p) => Name(e.field) + ";" + p.key + "=" + p.val
  }

  function Render(e: Entry): string {
    Head(e) + ":" + e.value
  }

  predicate IsAllDay(e: Event) {
    e.allDay && e.start.date != "" && e.end.date != ""
  }

  predicate IsTimed(e: Event) {
    !IsAllDay(e) && e.start.dateTime != "" && e.end.dateTime != ""
  }

  function TimeEntry(f: Field, allDay: bool, t: EventTime): Entry {
    if allDay then Entry(f, Some(Param("VALUE", "DATE")), FormatICalDate(t.date))
    else if t.timeZone != "" then Entry(f, Some(Param("TZID", t.timeZone)), FormatICalDateTime(t.dateTime, t.timeZone))
    else Entry(f, None, FormatICalDateTime(t.dateTime, ""))
  }

  function TitleText(e: Event): string {
    if e.title.Some? then e.title.value else "(No title)"
  }

  function When(b: bool, x: Entry): Option<Entry> {
    if b then Some(x) else None
  }

  /** What each property of the event's VEVENT says, if it is written at all. */
  function FieldEntry(e: Event, f: Field): Option<Entry> {
    match f
    case Uid => Some(Entry(f, None, e.id))
    case DtStamp => Some(Entry(f, None, FormatICalDateTime(e.updatedAt, "")))
    case DtStart => When(IsAllDay(e) || IsTimed(e), TimeEntry(f, IsAllDay(e), e.start))
    case DtEnd => When(IsAllDay(e) || IsTimed(e), TimeEntry(f, IsAllDay(e), e.end))
    case Summary => Some(Entry(f, None, EscapeText(TitleText(e))))
    case Description => When(e.description != "", Entry(f, None, EscapeText(e.description)))
    case Location => When(e.location != "", Entry(f, None, EscapeText(e.location)))
    case StatusField => Some(Entry(f, None, StatusText(e.status)))
    case Transp => Some(Entry(f, None, TransparencyText(e.transparency)))
    case RRule => When(e.recurrenceRule != "", Entry(f, None, e.recurrenceRule))
  }

  function AsSeq(x: Option<Entry>): seq<Entry> {
    if x.Some? then [x.value] else []
  }

  const FIELDS: seq<Field> :=
    [Uid, DtStamp, DtStart, DtEnd, Summary, Description, Location, StatusField, Transp, RRule]

  /** The entries of these fields, those that are written. */
  function EntriesOf(e: Event, fs: seq<Field>): seq<Entry> {
    if fs == [] then [] else EntriesOf(e, fs[..|fs| - 1]) + AsSeq(FieldEntry(e, fs[|fs| - 1]))
  }

  function Entries(e: Event): seq<Entry> {
    EntriesOf(e, FIELDS)
  }

  lemma {:induction false} FieldIs(e: Event, f: Field)
    ensures FieldEntry(e, f).Some? ==> FieldEntry(e, f).value.field == f
  {
  }

  lemma {:induction false} EntriesOfSnoc(e: Event, fs: seq<Field>, f: Field)
    ensures EntriesOf(e, fs + [f]) == EntriesOf(e, fs) + AsSeq(FieldEntry(e, f))
  {
    assert (fs + [f])[..|fs|] == fs;
  }

  lemma {:induction false} EntriesOfMembers(e: Event, fs: seq<Field>, x: Entry)
    ensures x in EntriesOf(e, fs) <==> x.field in fs && FieldEntry(e, x.field) == Some(x)
  {
    if fs != [] {
      var front, f := fs[..|fs| - 1], fs[|fs| - 1];
      EntriesOfMembers(e, front, x);
      FieldIs(e, f);
      assert x.field in fs <==> x.field == f || x.field in front;
    }
  }

  /** The entries are exactly the event's fields, one entry per field. */
  lemma {:induction false} EntriesAreFields(e: Event, x: Entry)
    ensures x in Entries(e) <==> FieldEntry(e, x.field) == Some(x)
  {
    EntriesOfMembers(e, FIELDS, x);
  }

  // ----- Lines -----

  function Rendered(es: seq<Entry>): seq<string> {
    seq(|es|, i requires 0 <= i < |es| => Render(es[i]))
  }

  /** A content line without parameters. */
  datatype Content = Content(name: string, value: string) {
    function Text(): string { name + ":" + value }

  }

  const OPEN := Content("BEGIN", "VEVENT")

  const CLOSE := Content("END", "VEVENT")

  function EventTexts(e: Event): seq<string> {
    [OPEN.Text()] + Rendered(Entries(e)) + [CLOSE.Text()]
  }

  function FoldedLines(ts: seq<string>): seq<ContentLine> {
    seq(|ts|, i requires 0 <= i < |ts| => Folded(ts[i]))
  }

  function PlainLines(ts: seq<string>): seq<ContentLine> {
    seq(|ts|, i requires 0 <= i < |ts| => Plain(ts[i]))
  }

  function EventLines(e: Event): seq<ContentLine> {
    FoldedLines(EventTexts(e))
  }

  function ZoneContents(zone: string): seq<Content> {
    [Content("BEGIN", "VTIMEZONE"), Content("TZID", zone), Content("BEGIN", "STANDARD"), Content("DTSTART", "19700101T000000"),
     Content("TZNAME", zone), Content("TZOFFSETFROM", "+0000"), Content("TZOFFSETTO", "+0000"), Content("END", "STANDARD"),
     Content("END", "VTIMEZONE")]
  }

  const HEADER: seq<Content> :=
    [Content("BEGIN", "VCALENDAR"), Content("VERSION", "2.0"), Content("PRODID", "-//T-Minus//Calendar Feed//EN"),
     Content("CALSCALE", "GREGORIAN"), Content("METHOD", "PUBLISH")]

  const FOOTER := Content("END", "VCALENDAR")

  function ContentTexts(cs: seq<Content>): seq<string> {
    seq(|cs|, i requires 0 <= i < |cs| => cs[i].Text())
  }

  function CalendarName(name: string): Content {
    Content("X-WR-CALNAME", EscapeText(name))
  }

  function HeaderLines(name: string): seq<ContentLine> {
    PlainLines(ContentTexts(HEADER)) + [Folded(CalendarName(name).Text())]
  }

  function ZoneLines(zones: seq<string>): seq<ContentLine> {
    if zones == [] then [] else ZoneLines(zones[..|zones| - 1]) + PlainLines(ContentTexts(ZoneContents(zones[|zones| - 1])))
  }

  function EventsLines(es: seq<Event>): seq<ContentLine> {
    if es == [] then [] else EventsLines(es[..|es| - 1]) + EventLines(es[|es| - 1])
  }

  function CalendarLines(es: seq<Event>, zones: seq<string>, name: string): seq<ContentLine> {
    HeaderLines(name) + ZoneLines(zones) + EventsLines(es) + [Plain(FOOTER.Text())]
  }

  // ----- Text -----

  function Physicals(ls: seq<ContentLine>): seq<string> {
    seq(|ls|, i requires 0 <= i < |ls| => Physical(ls[i]))
  }

  lemma {:induction false} DocumentCons(l: ContentLine, ls: seq<ContentLine>)
    ensures Document([l] + ls) == Physical(l) + CRLF + Document(ls)
  {
    assert ([l] + ls)[1..] == ls;
  }

  lemma {:induction false} DocumentConcat(a: seq<ContentLine>, b: seq<ContentLine>)
    ensures Document(a + b) == Document(a) + Document(b)
  {
    if a == [] {
      assert a + b == b;
    } else {
      DocumentConcat(a[1..], b);
      var line := Physical(a[0]) + CRLF;
      assert a == [a[0]] + a[1..];
      DocumentCons(a[0], a[1..]);
      Assoc([a[0]], a[1..], b);
      DocumentCons(a[0], a[1..] + b);
      Assoc(line, Document(a[1..]), Document(b));
    }
  }

  /** Joining the lines of a part and closing it with CRLF is its document. */
  lemma {:induction false} JoinIsDocument(ls: seq<ContentLine>)
    requires ls != []
    ensures Join(Physicals(ls), CRLF) + CRLF == Document(ls)
  {
    if |ls| == 1 {
      assert ls[1..] == [] && Document(ls[1..]) == "";
    } else {
      JoinIsDocument(ls[1..]);
      assert Physicals(ls)[1..] == Physicals(ls[1..]);
    }
  }

  /** `parts` are the joined texts of parts whose lines are `ls`. */
  predicate Assembled(parts: seq<string>, ls: seq<ContentLine>) {
    parts != [] && Join(parts, CRLF) + CRLF == Document(ls)
  }

  lemma {:induction false} JoinSnoc(parts: seq<string>, p: string)
    requires parts != []
    ensures Join(parts + [p], CRLF) == Join(parts, CRLF) + CRLF + p
  {
    if |parts| == 1 {
      assert (parts + [p])[1..] == [p];
    } else {
      JoinSnoc(parts[1..], p);
      assert (parts + [p])[1..] == parts[1..] + [p];
    }
  }

  lemma {:induction false} AssembledSnoc(parts: seq<string>, ls: seq<ContentLine>, p: string, more: seq<ContentLine>)
    requires Assembled(parts, ls) && p + CRLF == Document(more)
    ensures Assembled(parts + [p], ls + more)
  {
    JoinSnoc(parts, p);
    DocumentConcat(ls, more);
  }

  lemma {:induction false} DocumentOne(l: ContentLine)
    ensures Document([l]) == Physical(l) + CRLF
  {
    assert [l][1..] == [] && Document([l][1..]) == "";
  }

  // ----- The printer -----

  /** The lines so far open the component and write these fields. */
  predicate Written(lines: seq<string>, e: Event, fs: seq<Field>) {
    lines == [OPEN.Text()] + Rendered(EntriesOf(e, fs))
  }

  lemma {:induction false} WriteField(lines: seq<string>, e: Event, fs: seq<Field>, f: Field, line: string)
    requires Written(lines, e, fs) && FieldEntry(e, f).Some? && line == Render(FieldEntry(e, f).value)
    ensures Written(lines + [line], e, fs + [f])
  {
    EntriesOfSnoc(e, fs, f);
    var x := FieldEntry(e, f).value;
    assert Rendered(EntriesOf(e, fs) + [x]) == Rendered(EntriesOf(e, fs)) + [Render(x)];
  }

  lemma {:induction false} SkipField(lines: seq<string>, e: Event, fs: seq<Field>, f: Field)
    requires Written(lines, e, fs) && FieldEntry(e, f).None?
    ensures Written(lines, e, fs + [f])
  {
    EntriesOfSnoc(e, fs, f);
  }

  method TimeLine(f: Field, allDay: bool, t: EventTime) returns (line: string)
    ensures line == Render(TimeEntry(f, allDay, t))
  {
    if allDay {
      line := Name(f) + ";" + "VALUE" + "=" + "DATE" + ":" + FormatICalDate(t.date);
    } else if t.timeZone != "" {
      line := Name(f) + ";" + "TZID" + "=" + t.timeZone + ":" + FormatICalDateTime(t.dateTime, t.timeZone);
    } else {
      line := Name(f) + ":" + FormatICalDateTime(t.dateTime, "");
    }
  }

  method DatePart(e: Event, lines0: seq<string>, ghost fs: seq<Field>) returns (lines: seq<string>)
    requires Written(lines0, e, fs)
    ensures Written(lines, e, fs + [DtStart] + [DtEnd])
  {
    lines := lines0;
    if IsAllDay(e) || IsTimed(e) {
      var line := TimeLine(DtStart, IsAllDay(e), e.start);
      WriteField(lines, e, fs, DtStart, line);
      lines := lines + [line];
      line := TimeLine(DtEnd, IsAllDay(e), e.end);
      WriteField(lines, e, fs + [DtStart], DtEnd, line);
      lines := lines + [line];
    } else {
      SkipField(lines, e, fs, DtStart);
      SkipField(lines, e, fs + [DtStart], DtEnd);
    }
  }

  method TimePart(e: Event) returns (lines: seq<string>)
    ensures Written(lines, e, [Uid, DtStamp, DtStart, DtEnd])
  {
    lines := [OPEN.Text()];
    ghost var fs: seq<Field> := [];
    assert Written(lines, e, fs);
    var line;
    line := Name(Uid) + ":" + e.id;
    WriteField(lines, e, fs, Uid, line);
    lines, fs := lines + [line], fs + [Uid];
    line := Name(DtStamp) + ":" + FormatICalDateTime(e.updatedAt, "");
    WriteField(lines, e, fs, DtStamp, line);
    lines, fs := lines + [line], fs + [DtStamp];
    lines := DatePart(e, lines, fs);
    fs := fs + [DtStart] + [DtEnd];
    assert fs == [Uid, DtStamp, DtStart, DtEnd];
  }

  method TextPart(e: Event, lines0: seq<string>, ghost fs0: seq<Field>) returns (lines: seq<string>)
    requires Written(lines0, e, fs0)
    ensures Written(lines, e, fs0 + [Summary] + [Description] + [Location])
  {
    lines := lines0;
    ghost var fs := fs0;
    var line;
    var title := if e.title.Some? then e.title.value else "(No title)";
    line := Name(Summary) + ":" + EscapeText(title);
    WriteField(lines, e, fs, Summary, line);
    lines, fs := lines + [line], fs + [Summary];
    if e.description != "" {
      line := Name(Description) + ":" + EscapeText(e.description);
      WriteField(lines, e, fs, Description, line);
      lines := lines + [line];
    } else {
      SkipField(lines, e, fs, Description);
    }
    fs := fs + [Description];
    if e.location != "" {
      line := Name(Location) + ":" + EscapeText(e.location);
      WriteField(lines, e, fs, Location, line);
      lines := lines + [line];
    } else {
      SkipField(lines, e, fs, Location);
    }
    fs := fs + [Location];
  }

  method StatePart(e: Event, lines0: seq<string>, ghost fs0: seq<Field>) returns (lines: seq<string>)
    requires Written(lines0, e, fs0)
    ensures Written(lines, e, fs0 + [StatusField] + [Transp] + [RRule])
  {
    lines := lines0;
    ghost var fs := fs0;
    var line;
    line := Name(StatusField) + ":" + StatusText(e.status);
    WriteField(lines, e, fs, StatusField, line);
    lines, fs := lines + [line], fs + [StatusField];
    line := Name(Transp) + ":" + TransparencyText(e.transparency);
    WriteField(lines, e, fs, Transp, line);
    lines, fs := lines + [line], fs + [Transp];
    if e.recurrenceRule != "" {
      line := Name(RRule) + ":" + e.recurrenceRule;
      WriteField(lines, e, fs, RRule, line);
      lines := lines + [line];
    } else {
      SkipField(lines, e, fs, RRule);
    }
    fs := fs + [RRule];
  }

  method EventStrings(e: Event) returns (lines: seq<string>)
    ensures lines == EventTexts(e)
  {
    ghost var fs := [Uid, DtStamp, DtStart, DtEnd];
    lines := TimePart(e);
    lines := TextPart(e, lines, fs);
    fs := fs + [Summary] + [Description] + [Location];
    lines := StatePart(e, lines, fs);
    fs := fs + [StatusField] + [Transp] + [RRule];
    assert fs == FIELDS;
    lines := lines + [CLOSE.Text()];
  }

  method FoldAll(lines: seq<string>) returns (folded: seq<string>)
    ensures folded == Physicals(FoldedLines(lines))
  {
    folded := [];
    for i := 0 to |lines|
      invariant folded == Physicals(FoldedLines(lines[..i]))
    {
      var f, _ := FoldLine(lines[i]);
      folded := folded + [f];
      assert lines[..i + 1] == lines[..i] + [lines[i]];
    }
    assert lines[..|lines|] == lines;
  }

  /** `buildVEvent`: with its closing CRLF, the text is the event's folded lines. */
  method BuildVEvent(e: Event) returns (text: string)
    ensures text + CRLF == Document(EventLines(e))
  {
    var lines := EventStrings(e);
    var folded := FoldAll(lines);
    text := Join(folded, CRLF);
    JoinIsDocument(EventLines(e));
  }

  /** `generateVTimezone`. */
  method GenerateVTimezone(zone: string) returns (text: string)
    ensures text + CRLF == Document(PlainLines(ContentTexts(ZoneContents(zone))))
  {
    var lines := ContentTexts(ZoneContents(zone));
    text := Join(lines, CRLF);
    assert Physicals(PlainLines(lines)) == lines;
    JoinIsDocument(PlainLines(lines));
  }

  // ----- Time zones -----

  predicate Uses(e: Event, zone: string) {
    zone != "" && (e.start.timeZone == zone || e.end.timeZone == zone)
  }

  function AddZone(zones: seq<string>, zone: string): (r: seq<string>)
    requires Distinct(zones)
    ensures Distinct(r) && forall z :: z in r <==> z in zones || (z == zone && zone != "")
  {
    if zone == "" || zone in zones then zones else zones + [zone]
  }

  /** `collectTimezones`: every zone some event names, once. */
  method CollectTimezones(es: seq<Event>) returns (zones: seq<string>)
    ensures Distinct(zones)
    ensures forall z :: z in zones <==> exists e :: e in es && Uses(e, z)
  {
    zones := [];
    for i := 0 to |es|
      invariant Distinct(zones)
      invariant forall z :: z in zones <==> exists e :: e in es[..i] && Uses(e, z)
    {
      ghost var before := zones;
      zones := AddZone(zones, es[i].start.timeZone);
      zones := AddZone(zones, es[i].end.timeZone);
      assert es[..i + 1] == es[..i] + [es[i]];
      forall z ensures z in zones <==> exists e :: e in es[..i + 1] && Uses(e, z) {
        assert z in zones <==> z in before || Uses(es[i], z);
        if z in before {
          var e :| e in es[..i] && Uses(e, z);
          assert e in es[..i + 1];
        } else if Uses(es[i], z) {
          assert es[i] in es[..i + 1];
        }
      }
    }
    assert es[..|es|] == es;
  }

  // ----- The whole calendar -----

  function Kept(es: seq<Event>, excludeCancelled: bool): (r: seq<Event>)
    ensures forall e :: e in r <==> e in es && !(excludeCancelled && e.status == Cancelled)
  {
    if es == [] then []
    else
      var e := es[|es| - 1];
      Kept(es[..|es| - 1], excludeCancelled) + (if excludeCancelled && e.status == Cancelled then [] else [e])
  }

  method HeaderParts(name: string) returns (parts: seq<string>)
    ensures Assembled(parts, HeaderLines(name))
  {
    var plain := ContentTexts(HEADER);
    var title := CalendarName(name).Text();
    var folded, _ := FoldLine(title);
    parts := plain + [folded];
    JoinIsDocument(PlainLines(plain));
    assert Physicals(PlainLines(plain)) == plain;
    DocumentOne(Folded(title));
    AssembledSnoc(plain, PlainLines(plain), folded, [Folded(title)]);
  }

  lemma {:induction false} AssembledZone(parts: seq<string>, front: seq<ContentLine>, zones: seq<string>, i: nat, part: string)
    requires i < |zones| && Assembled(parts, front + ZoneLines(zones[..i]))
    requires part + CRLF == Document(PlainLines(ContentTexts(ZoneContents(zones[i]))))
    ensures Assembled(parts + [part], front + ZoneLines(zones[..i + 1]))
  {
    AssembledSnoc(parts, front + ZoneLines(zones[..i]), part, PlainLines(ContentTexts(ZoneContents(zones[i]))));
    assert zones[..i + 1][..i] == zones[..i];
    Assoc(front, ZoneLines(zones[..i]), PlainLines(ContentTexts(ZoneContents(zones[i]))));
  }

  lemma {:induction false} AssembledEvent(parts: seq<string>, front: seq<ContentLine>, es: seq<Event>, i: nat, part: string)
    requires i < |es| && Assembled(parts, front + EventsLines(es[..i]))
    requires part + CRLF == Document(EventLines(es[i]))
    ensures Assembled(parts + [part], front + EventsLines(es[..i + 1]))
  {
    AssembledSnoc(parts, front + EventsLines(es[..i]), part, EventLines(es[i]));
    assert es[..i + 1][..i] == es[..i];
    Assoc(front, EventsLines(es[..i]), EventLines(es[i]));
  }

  method ZoneParts(zones: seq<string>, parts0: seq<string>, ghost front: seq<ContentLine>) returns (parts: seq<string>)
    requires Assembled(parts0, front)
    ensures Assembled(parts, front + ZoneLines(zones))
  {
    parts := parts0;
    assert front + ZoneLines(zones[..0]) == front;
    for i := 0 to |zones|
      invariant Assembled(parts, front + ZoneLines(zones[..i]))
    {
      var part := GenerateVTimezone(zones[i]);
      AssembledZone(parts, front, zones, i, part);
      parts := parts + [part];
    }
    assert zones[..|zones|] == zones;
  }

  method EventParts(es: seq<Event>, parts0: seq<string>, ghost front: seq<ContentLine>) returns (parts: seq<string>)
    requires Assembled(parts0, front)
    ensures Assembled(parts, front + EventsLines(es))
  {
    parts := parts0;
    assert front + EventsLines(es[..0]) == front;
    for i := 0 to |es|
      invariant Assembled(parts, front + EventsLines(es[..i]))
    {
      var part := BuildVEvent(es[i]);
      AssembledEvent(parts, front, es, i, part);
      parts := parts + [part];
    }
    assert es[..|es|] == es;
  }

  /** `buildVCalendar`: the document of the kept events and the zones they name. */
  method BuildVCalendar(events: seq<Event>, excludeCancelled: bool, name: string) returns (text: string, zones: seq<string>)
    ensures text == Document(CalendarLines(Kept(events, excludeCancelled), zones, name))
    ensures Distinct(zones)
    ensures forall z :: z in zones <==> exists e :: e in Kept(events, excludeCancelled) && Uses(e, z)
  {
    var kept := Kept(events, excludeCancelled);
    zones := CollectTimezones(kept);
    var parts := HeaderParts(name);
    parts := ZoneParts(zones, parts, HeaderLines(name));
    parts := EventParts(kept, parts, HeaderLines(name) + ZoneLines(zones));
    DocumentOne(Plain(FOOTER.Text()));
    AssembledSnoc(parts, HeaderLines(name) + ZoneLines(zones) + EventsLines(kept), FOOTER.Text(), [Plain(FOOTER.Text())]);
    parts := parts + [FOOTER.Text()];
    text := Join(parts, CRLF) + CRLF;
  }
}
