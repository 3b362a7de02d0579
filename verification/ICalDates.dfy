/** Dates and date-times written to iCalendar and read back
    (RFC 5545, sections 3.3.4 and 3.3.5). */
module ICalDates {
  import opened ICalText
  import opened ICalProperty

  /** `EventDateTime`; the empty string stands for an absent field, which the
      source tests by truthiness. */
  datatype EventTime = EventTime(date: string, dateTime: string, timeZone: string)

  predicate EndsWithZ(s: string) {
    s != "" && s[|s| - 1] == 'Z'
  }

  function Remove(s: string, c: char): string {
    ReplaceChar(s, c, "")
  }

  /** `formatICalDate`. */
  function FormatICalDate(date: string): string {
    Remove(date, '-')
  }

  /** `formatICalDateTime`. */
  function FormatICalDateTime(dateTime: string, zone: string): string {
    var utc := EndsWithZ(dateTime) && zone == "";
    var cleaned := Remove(Remove(if EndsWithZ(dateTime) then dateTime[..|dateTime| - 1] else dateTime, '-'), ':');
    var dot := IndexOf(cleaned, '.');
    (if dot >= 0 then cleaned[..dot] else cleaned) + (if utc then "Z" else "")
  }

  predicate Digits(s: string) {
    forall c :: c in s ==> '0' <= c <= '9'
  }

  /** String.slice for non-negative bounds. */
  function Slice(s: string, from: nat, to: nat): string
    requires from <= to
  {
    if |s| <= from then "" else if |s| <= to then s[from..] else s[from..to]
  }

  function RemoveFirst(s: string, c: char): string {
    var k := IndexOf(s, c);
    if k < 0 then s else s[..k] + s[k + 1..]
  }

  /** The ISO form spelled by its six parts. */
  function Spelled(clean: string, utc: bool): string {
    Slice(clean, 0, 4) + "-" + Slice(clean, 4, 6) + "-" + Slice(clean, 6, 8) + "T"
    + Slice(clean, 9, 11) + ":" + Slice(clean, 11, 13) + ":" + Slice(clean, 13, 15) + (if utc then "Z" else "")
  }

  /** `icalDateTimeToEventDateTime`. */
  function ToEventTime(value: string, params: map<string, string>): EventTime {
    if ("VALUE" in params && params["VALUE"] == "DATE") || (|value| == 8 && Digits(value)) then
      EventTime(Slice(value, 0, 4) + "-" + Slice(value, 4, 6) + "-" + Slice(value, 6, 8), "", "")
    else
      var utc := EndsWithZ(value);
      var clean := RemoveFirst(value, 'Z');
      var zone := if "TZID" in params then params["TZID"] else "";
      EventTime("", Spelled(clean, utc), if utc then "" else zone)
  }

  // ----- Round trips -----

  lemma {:induction false} RemoveNone(s: string, c: char)
    requires c !in s
    ensures Remove(s, c) == s
  {
    if s != "" {
      RemoveNone(s[1..], c);
    }
  }

  lemma {:induction false} RemoveAt(head: string, c: char, rest: string)
    requires c !in head
    ensures Remove(head + [c] + rest, c) == head + Remove(rest, c)
  {
    RemoveNone(head, c);
    ReplaceConcat(head + [c], rest, c, "");
    ReplaceConcat(head, [c], c, "");
    ReplaceSingle(c, c, "");
    assert head + "" == head;
  }

  /** The digits of a clock reading: YYYY MM DD hh mm ss. */
  datatype Clock = Clock(year: string, month: string, day: string, hour: string, minute: string, second: string) {
    predicate Valid() {
      && Digits(year) && Digits(month) && Digits(day) && Digits(hour) && Digits(minute) && Digits(second)
      && |year| == 4 && |month| == |day| == |hour| == |minute| == |second| == 2
    }

    function Date(): string { year + ['-'] + (month + ['-'] + day) }

    function Time(): string { hour + [':'] + (minute + [':'] + second) }

    /** The ISO 8601 form. */

    function Iso(): string { Date() + "T" + Time() }

    function CompactDate(): string { year + (month + day) }

    function CompactTime(): string { hour + (minute + second) }

    /** The iCalendar form. */

    function Compact(): string { CompactDate() + "T" + CompactTime() }

  }

  lemma {:induction false} CompactsDate(k: Clock)
    requires k.Valid()
    ensures Remove(k.Date(), '-') == k.CompactDate()
  {
    RemoveAt(k.year, '-', k.month + ['-'] + k.day);
    RemoveAt(k.month, '-', k.day);
    RemoveNone(k.day, '-');
  }

  lemma {:induction false} CompactsTime(k: Clock)
    requires k.Valid()
    ensures Remove(k.Time(), ':') == k.CompactTime()
  {
    RemoveAt(k.hour, ':', k.minute + [':'] + k.second);
    RemoveAt(k.minute, ':', k.second);
    RemoveNone(k.second, ':');
  }

  /** A sub-second fraction: nothing, or a dot and digits. */
  predicate Fraction(s: string) {
    s == "" || (s[0] == '.' && Digits(s[1..]))
  }

  function Stamp(k: Clock, fraction: string, utc: bool): string {
    k.Iso() + fraction + (if utc then "Z" else "")
  }

  lemma {:induction false} FractionChars(fraction: string)
    requires Fraction(fraction)
    ensures forall c :: c in fraction ==> c == '.' || '0' <= c <= '9'
  {
    if fraction != "" {
      assert fraction == [fraction[0]] + fraction[1..];
    }
  }

  lemma {:induction false} DashesRemoved(k: Clock)
    requires k.Valid()
    ensures Remove(k.Iso(), '-') == k.CompactDate() + "T" + k.Time()
  {
    ReplaceConcat(k.Date() + "T", k.Time(), '-', "");
    ReplaceConcat(k.Date(), "T", '-', "");
    CompactsDate(k);
    RemoveNone("T", '-');
    RemoveNone(k.Time(), '-');
  }

  lemma {:induction false} ColonsRemoved(k: Clock)
    requires k.Valid()
    ensures Remove(k.CompactDate() + "T" + k.Time(), ':') == k.Compact()
  {
    ReplaceConcat(k.CompactDate() + "T", k.Time(), ':', "");
    CompactsTime(k);
    RemoveNone(k.CompactDate() + "T", ':');
  }

  lemma {:induction false} Cleaned(k: Clock, fraction: string)
    requires k.Valid() && Fraction(fraction)
    ensures Remove(Remove(k.Iso() + fraction, '-'), ':') == k.Compact() + fraction
  {
    FractionChars(fraction);
    RemoveNone(fraction, '-');
    RemoveNone(fraction, ':');
    ReplaceConcat(k.Iso(), fraction, '-', "");
    DashesRemoved(k);
    ReplaceConcat(k.CompactDate() + "T" + k.Time(), fraction, ':', "");
    ColonsRemoved(k);
  }

  lemma {:induction false} LastChar(k: Clock, fraction: string)
    requires k.Valid() && Fraction(fraction)
    ensures !EndsWithZ(k.Iso() + fraction)
  {
    FractionChars(fraction);
    var text := k.Iso() + fraction;
    if fraction == "" {
      assert text == k.Iso() && k.second[1] in k.second;
      assert text[|text| - 1] == k.second[1];
    } else {
      assert text[|text| - 1] == fraction[|fraction| - 1] && fraction[|fraction| - 1] in fraction;
    }
  }

  lemma {:induction false} Formatted(k: Clock, fraction: string, utc: bool, zone: string)
    requires k.Valid() && Fraction(fraction)
    ensures FormatICalDateTime(Stamp(k, fraction, utc), zone) == k.Compact() + (if utc && zone == "" then "Z" else "")
  {
    var text := Stamp(k, fraction, utc);
    FractionChars(fraction);
    if utc {
      assert text[..|text| - 1] == k.Iso() + fraction;
    } else {
      assert text == k.Iso() + fraction;
      LastChar(k, fraction);
    }
    Cleaned(k, fraction);
    assert forall c :: c in k.Compact() ==> c == 'T' || '0' <= c <= '9';
    if fraction == "" {
      assert k.Compact() + fraction == k.Compact();
      IndexAfter(k.Compact(), '.', "");
    } else {
      IndexAfter(k.Compact(), '.', fraction[1..]);
      assert k.Compact() + ['.'] + fraction[1..] == k.Compact() + fraction;
    }
  }

  lemma {:induction false} CompactSlices(k: Clock)
    requires k.Valid()
    ensures var s := k.Compact();
            && |s| == 15 && s[0..4] == k.year && s[4..6] == k.month && s[6..8] == k.day
            && s[9..11] == k.hour && s[11..13] == k.minute && s[13..15] == k.second
            && s[8] == 'T' && s[14] == k.second[1]
  {
  }

  function ZoneParams(zone: string): map<string, string> {
    if zone == "" then map[] else map["TZID" := zone]
  }

  lemma {:induction false} SpellsIso(k: Clock, utc: bool)
    requires k.Valid()
    ensures Spelled(k.Compact(), utc) == k.Iso() + (if utc then "Z" else "")
  {
    CompactSlices(k);
    assert k.Compact()[0..4] == k.Compact()[..4];
    assert k.Iso() == k.year + "-" + k.month + "-" + k.day + "T" + k.hour + ":" + k.minute + ":" + k.second;
  }

  lemma {:induction false} CompactChars(k: Clock)
    requires k.Valid()
    ensures forall c :: c in k.Compact() ==> c == 'T' || '0' <= c <= '9'
    ensures |k.Compact()| == 15 && !EndsWithZ(k.Compact())
  {
    CompactSlices(k);
    assert k.second[1] in k.second;
  }

  lemma {:induction false} ReadsCompact(k: Clock, utc: bool, zone: string)
    requires k.Valid() && (utc ==> zone == "")
    ensures ToEventTime(k.Compact() + (if utc then "Z" else ""), ZoneParams(zone))
            == EventTime("", k.Iso() + (if utc then "Z" else ""), zone)
  {
    var s := k.Compact();
    CompactChars(k);
    assert "VALUE"[0] != "TZID"[0];
    IndexAfter(s, 'Z', "");
    if utc {
      assert s + "Z" == s + ['Z'] + "" && RemoveFirst(s + "Z", 'Z') == s;
    } else {
      assert s + "" == s && RemoveFirst(s, 'Z') == s;
    }
    SpellsIso(k, utc);
  }

  /** A date-time comes back without its fraction, and without its Z when the
      event also names a zone; so it comes back unchanged exactly when it has no
      fraction and does not carry both. */
  lemma {:induction false} DateTimeRoundTrip(k: Clock, fraction: string, utc: bool, zone: string)
    requires k.Valid() && Fraction(fraction)
    ensures var text := Stamp(k, fraction, utc);
            var back := ToEventTime(FormatICalDateTime(text, zone), ZoneParams(zone));
            && back == EventTime("", Stamp(k, "", utc && zone == ""), zone)
            && (back == EventTime("", text, zone) <==> fraction == "" && !(utc && zone != ""))
  {
    Formatted(k, fraction, utc, zone);
    ReadsCompact(k, utc && zone == "", zone);
    assert k.Iso() + "" == k.Iso();
  }

  /** An all-day date comes back unchanged. */
  lemma {:induction false} DateRoundTrip(k: Clock)
    requires k.Valid()
    ensures ToEventTime(FormatICalDate(k.Date()), map["VALUE" := "DATE"]) == EventTime(k.Date(), "", "")
  {
    CompactsDate(k);
    var s := k.CompactDate();
    assert |s| == 8 && s[..4] == k.year && s[4..6] == k.month && s[6..] == k.day;
    assert Slice(s, 4, 6) == k.month && Slice(s, 6, 8) == k.day;
  }
}
