/** Extracting VEVENT components from iCalendar text: `parseVEvents`. */
module ICalParser {
  import opened Optional
  import opened ICalText
  import opened ICalFolding
  import opened ICalProperty

  /** `ParsedVEvent`; no attendees stands for an absent list. */
  datatype VEvent = VEvent(
    uid: string,
    summary: Option<string>,
    description: Option<string>,
    location: Option<string>,
    dtstart: string,
    dtstartParams: Option<map<string, string>>,
    dtend: Option<string>,
    dtendParams: Option<map<string, string>>,
    status: Option<string>,
    transp: Option<string>,
    rrule: Option<string>,
    classification: Option<string>,
    dtstamp: Option<string>,
    lastModified: Option<string>,
    managed: Option<string>,
    canonicalId: Option<string>,
    attendees: seq<string>)

  type Props = map<string, Property>

  function ValueOf(props: Props, name: string): Option<string> {
    if name in props then Some(props[name].value) else None
  }

  function TextOf(props: Props, name: string): Option<string> {
    if name in props then Some(UnescapeText(props[name].value)) else None
  }

  function ParamsOf(props: Props, name: string): Option<map<string, string>> {
    if name in props then Some(props[name].params) else None
  }

  function OrEmpty(v: Option<string>): string {
    if v.Some? then v.value else ""
  }

  function BuildEvent(props: Props, attendees: seq<string>): VEvent {
    VEvent(
      OrEmpty(ValueOf(props, "UID")),
      TextOf(props, "SUMMARY"), TextOf(props, "DESCRIPTION"), TextOf(props, "LOCATION"),
      OrEmpty(ValueOf(props, "DTSTART")), ParamsOf(props, "DTSTART"),
      ValueOf(props, "DTEND"), ParamsOf(props, "DTEND"),
      ValueOf(props, "STATUS"), ValueOf(props, "TRANSP"), ValueOf(props, "RRULE"), ValueOf(props, "CLASS"),
      ValueOf(props, "DTSTAMP"), ValueOf(props, "LAST-MODIFIED"),
      ValueOf(props, "X-TMINUS-MANAGED"), ValueOf(props, "X-TMINUS-CANONICAL-ID"),
      attendees)
  }

  function AttendeeOf(line: string): seq<string> {
    var p := ParseProperty(Trim(line));
    if p.Some? && p.value.name == "ATTENDEE" then [p.value.value] else []
  }

  /** The values of the ATTENDEE lines of the whole document. */
  function Attendees(lines: seq<string>): seq<string> {
    if lines == [] then [] else Attendees(lines[..|lines| - 1]) + AttendeeOf(lines[|lines| - 1])
  }

  datatype Scan = Scan(inEvent: bool, props: Props, events: seq<VEvent>)

  const BEGIN_EVENT := "BEGIN:VEVENT"
  const END_EVENT := "END:VEVENT"

  const START := Scan(false, map[], [])

  function Collect(props: Props, line: string): Props {
    var p := ParseProperty(line);
    if p.Some? then props[p.value.name := p.value] else props
  }

  function StepLine(st: Scan, line: string, attendees: seq<string>): Scan {
    var trimmed := Trim(line);
    if trimmed == BEGIN_EVENT then Scan(true, map[], st.events)
    else if trimmed == END_EVENT then
      Scan(false, st.props, if OrEmpty(ValueOf(st.props, "UID")) != "" then st.events + [BuildEvent(st.props, attendees)] else st.events)
    else if st.inEvent then Scan(true, Collect(st.props, trimmed), st.events)
    else st
  }

  function ScanLines(st: Scan, lines: seq<string>, attendees: seq<string>): Scan
    decreases |lines|
  {
    if lines == [] then st else ScanLines(StepLine(st, lines[0], attendees), lines[1..], attendees)
  }

  function Parsed(text: string): seq<VEvent> {
    var lines := LogicalLines(text);
    ScanLines(START, lines, Attendees(lines)).events
  }

  lemma {:induction false} ScanConcat(st: Scan, a: seq<string>, b: seq<string>, attendees: seq<string>)
    ensures ScanLines(st, a + b, attendees) == ScanLines(ScanLines(st, a, attendees), b, attendees)
    decreases |a|
  {
    if a == [] {
      assert a + b == b;
    } else {
      ScanConcat(StepLine(st, a[0], attendees), a[1..], b, attendees);
      assert (a + b)[1..] == a[1..] + b;
    }
  }

  lemma {:induction false} ScanSnoc(st: Scan, lines: seq<string>, i: nat, attendees: seq<string>)
    requires i < |lines|
    ensures ScanLines(st, lines[..i + 1], attendees) == StepLine(ScanLines(st, lines[..i], attendees), lines[i], attendees)
  {
    assert lines[..i + 1] == lines[..i] + [lines[i]];
    ScanConcat(st, lines[..i], [lines[i]], attendees);
    assert [lines[i]][1..] == [];
  }

  method RescanAttendees(lines: seq<string>) returns (attendees: seq<string>)
    ensures attendees == Attendees(lines)
  {
    attendees := [];
    for i := 0 to |lines|
      invariant attendees == Attendees(lines[..i])
    {
      var parsed := ParsePropertyLine(Trim(lines[i]));
      assert lines[..i + 1][..i] == lines[..i];
      if parsed.Some? && parsed.value.name == "ATTENDEE" {
        attendees := attendees + [parsed.value.value];
      }
    }
    assert lines[..|lines|] == lines;
  }

  /** One iteration of the line loop. */
  method NextLine(line: string, lines: seq<string>, inEvent: bool, props: Props, events: seq<VEvent>)
    returns (within: bool, record: Props, found: seq<VEvent>)
    ensures Scan(within, record, found) == StepLine(Scan(inEvent, props, events), line, Attendees(lines))
  {
    within, record, found := inEvent, props, events;
    var trimmed := Trim(line);
    if trimmed == BEGIN_EVENT {
      within, record := true, map[];
    } else if trimmed == END_EVENT {
      within := false;
      if OrEmpty(ValueOf(props, "UID")) != "" {
        var attendees := RescanAttendees(lines);
        found := events + [BuildEvent(props, attendees)];
      }
    } else if inEvent {
      var parsed := ParsePropertyLine(trimmed);
      if parsed.Some? {
        record := props[parsed.value.name := parsed.value];
      }
    }
  }

  method ScanAll(lines: seq<string>) returns (events: seq<VEvent>)
    ensures events == ScanLines(START, lines, Attendees(lines)).events
  {
    var inEvent, props := false, map[];
    events := [];
    ghost var attendees := Attendees(lines);
    for i := 0 to |lines|
      invariant Scan(inEvent, props, events) == ScanLines(START, lines[..i], attendees)
    {
      inEvent, props, events := NextLine(lines[i], lines, inEvent, props, events);
      ScanSnoc(START, lines, i, attendees);
    }
    assert lines[..|lines|] == lines;
  }

  /** `parseVEvents`. */
  method ParseVEvents(text: string) returns (events: seq<VEvent>)
    ensures events == Parsed(text)
  {
    var lines := LogicalLines(text);
    events := ScanAll(lines);
  }
}
