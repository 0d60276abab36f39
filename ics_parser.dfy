/**
 * The iCalendar adapter (backend/ingestion/ics_parser.py): each VEVENT of a
 * decoded calendar becomes a candidate dict, class meetings and events without
 * a start are skipped, online meetings are detected from the description, and
 * a tag is inferred by a keyword cascade.
 */
module IcsParser {
  import opened Wrappers
  import opened Text
  import opened Temporal
  import opened Deduplication

  /** A DTSTART/DTEND value: a whole-day `date` or a `datetime`. */
  datatype DateOrDateTime = DateValue(date: Date) | DateTimeValue(dateTime: DateTime)

  /** The properties of a VEVENT that the adapter reads; `None` is a missing property. */
  datatype VEvent = VEvent(
    summary: Option<string>,
    description: Option<string>,
    location: Option<string>,
    dtstart: Option<DateOrDateTime>,
    dtend: Option<DateOrDateTime>,
    uid: Option<string>)

  /** One component of `calendar.walk()`: its name and, for a VEVENT, its properties. */
  datatype Component = Component(name: string, props: VEvent)

  /** `re.match(r'^[A-Z]{2}\d{3}\s', title)`: a course-code prefix such as `CS110 `. */
  predicate CourseCodePrefix(title: string) {
    && |title| >= 6
    && IsUpper(title[0]) && IsUpper(title[1])
    && IsDigit(title[2]) && IsDigit(title[3]) && IsDigit(title[4])
    && IsSpace(title[5])
  }

  /** Class meetings are recognised by their course code; other titles are kept. */
  lemma CourseCodeExamples()
    ensures CourseCodePrefix("CS110 Lecture")
    ensures CourseCodePrefix("NS101 Recitation")
    ensures !CourseCodePrefix("AI Night")
    ensures !CourseCodePrefix("Guest Lecture: AI Ethics")
    ensures !CourseCodePrefix("CS110")
  {
  }

  /** `ensure_datetime`: a datetime as it is, a date as midnight of that date. */
  function EnsureDateTime(v: DateOrDateTime): (dt: DateTime)
    ensures v.DateTimeValue? ==> dt == v.dateTime
    ensures v.DateValue? ==>
      dt.date == v.date && dt.hour == 0 && dt.minute == 0 && dt.second == 0 && dt.microsecond == 0
      && dt.tz.None?
  {
    match v
    case DateTimeValue(dt) => dt
    case DateValue(d) => Midnight(d)
  }

  /** The zone recorded for an event: `str(tzinfo)` of an aware DTSTART, `'UTC'` otherwise. */
  function ZoneName(start: DateOrDateTime): string {
    if start.DateTimeValue? && start.dateTime.tz.Some? then start.dateTime.tz.value.name else "UTC"
  }

  /** The category rules of `infer_tag_from_event`, in the order they are tried. */
  const IcsRules: seq<Rule> := [
    Rule("Required", ["required", "mandatory", "attendance", "must attend", "compulsory"]),
    Rule("Career", ["career", "job", "recruiting", "interview", "resume", "networking", "employer"]),
    Rule("Capstone", ["capstone", "thesis", "research", "advisor", "committee", "defense"]),
    Rule("Deadline", ["deadline", "due", "submission", "final date"]),
    Rule("Social", ["social", "party", "gathering", "hangout", "celebration", "mixer"])
  ]

  /** The text the cascade searches: `(title + ' ' + description).lower()`. */
  function TagText(title: string, description: string): string {
    Lower(title + " " + description)
  }

  /** `infer_tag_from_event`: the first category with a keyword in the text, `'General'` when none has. */
  function InferTag(title: string, description: string): (tag: string)
    ensures tag in ["Required", "Career", "Capstone", "Deadline", "Social", "General"]
  {
    FirstFiring(IcsRules, TagText(title, description)).GetOr("General")
  }

  /**
   * The inferred tag is one of the six names; it is `'General'` exactly when
   * no rule fires, and otherwise the category of the first rule that fires.
   */
  lemma InferTagFirstMatch(title: string, description: string)
    ensures InferTag(title, description) in ["Required", "Career", "Capstone", "Deadline", "Social", "General"]
    ensures var text := TagText(title, description);
      InferTag(title, description) == "General" <==> forall j :: 0 <= j < |IcsRules| ==> !Fires(IcsRules[j], text)
    ensures var text := TagText(title, description);
      InferTag(title, description) != "General" ==>
        exists k :: 0 <= k < |IcsRules| && Fires(IcsRules[k], text)
          && (forall j :: 0 <= j < k ==> !Fires(IcsRules[j], text))
          && InferTag(title, description) == IcsRules[k].category
  {
    FirstFiringIndexSpec(IcsRules, TagText(title, description));
  }

  /** A title with `mandatory` and `career` is Required: the earlier rule wins. */
  lemma InferTagMandatoryCareerFair()
    ensures InferTag("Mandatory Career Fair", "") == "Required"
  {
    var text := TagText("Mandatory Career Fair", "");
    MandatoryCareerFairText();
    assert text[0..9] == "mandatory";
    assert OccursAt(text, "mandatory", 0);
    assert Contains(text, "mandatory");
    assert "mandatory" in IcsRules[0].keywords;
    assert Fires(IcsRules[0], text);
    FirstFiringIndexSpec(IcsRules, text);
  }

  lemma MandatoryCareerFairText()
    ensures TagText("Mandatory Career Fair", "") == "mandatory career fair "
  {
    assert "Mandatory Career Fair" + " " + "" == "Mandatory Career Fair ";
  }

  /** The online-meeting hosts looked for in the lower-cased description. */
  const MeetingHosts: seq<string> := ["zoom.us", "meet.google.com", "teams.microsoft"]

  /**
   * What the virtual-meeting check decides: an event is online exactly when its
   * description is non-empty and, lower-cased, names a meeting host; its link is
   * then the first URL of the description as written.
   */
  function VirtualInfo(description: string): (bool, Option<string>) {
    if description != "" && ContainsAny(Lower(description), MeetingHosts) then (true, FirstUrl(description))
    else (false, None)
  }

  /** The candidate dict `parse_vevent` returns for a VEVENT, or `None` when it skips it. */
  function VEventCandidate(v: VEvent): (r: Option<Candidate>)
    ensures r.Some? <==> !CourseCodePrefix(v.summary.GetOr("")) && v.dtstart.Some?
  {
    var title := v.summary.GetOr("");
    var description := v.description.GetOr("");
    var location := v.location.GetOr("");
    if CourseCodePrefix(title) || v.dtstart.None? then None
    else
      var info := VirtualInfo(description);
      Some(EmptyCandidate.(
        title := Present(title),
        description := Present(description),
        startTime := Present(EnsureDateTime(v.dtstart.value)),
        endTime := if v.dtend.Some? then Present(EnsureDateTime(v.dtend.value)) else Null,
        timezone := Present(ZoneName(v.dtstart.value)),
        location := if location != "" then Present(location) else Null,
        isVirtual := Present(info.0),
        meetingLink := if info.1.Some? then Present(info.1.value) else Null,
        sourceEventId := Present(v.uid.GetOr("")),
        tag := Present(InferTag(title, description))))
  }

  /** `parse_vevent`, with its loop over the meeting hosts. */
  method ParseVEvent(v: VEvent) returns (r: Option<Candidate>)
    ensures r == VEventCandidate(v)
  {
    var title := v.summary.GetOr("");
    var description := v.description.GetOr("");
    var location := v.location.GetOr("");
    if CourseCodePrefix(title) {
      return None;
    }
    if v.dtstart.None? {
      return None;
    }
    var start := EnsureDateTime(v.dtstart.value);
    var end: Field<DateTime> := Null;
    if v.dtend.Some? {
      end := Present(EnsureDateTime(v.dtend.value));
    }
    var tz := "UTC";
    if v.dtstart.value.DateTimeValue? && v.dtstart.value.dateTime.tz.Some? {
      tz := v.dtstart.value.dateTime.tz.value.name;
    }
    var isVirtual := false;
    var meetingLink: Option<string> := None;
    if description != "" {
      var lowered := Lower(description);
      var i := 0;
      while i < |MeetingHosts|
        invariant 0 <= i <= |MeetingHosts|
        invariant !isVirtual && meetingLink.None?
        invariant forall j :: 0 <= j < i ==> !Contains(lowered, MeetingHosts[j])
      {
        if Contains(lowered, MeetingHosts[i]) {
          isVirtual := true;
          meetingLink := FirstUrl(description);
          break;
        }
        i := i + 1;
      }
      assert isVirtual <==> ContainsAny(lowered, MeetingHosts);
    }
    r := Some(EmptyCandidate.(
      title := Present(title),
      description := Present(description),
      startTime := Present(start),
      endTime := end,
      timezone := Present(tz),
      location := if location != "" then Present(location) else Null,
      isVirtual := Present(isVirtual),
      meetingLink := if meetingLink.Some? then Present(meetingLink.value) else Null,
      sourceEventId := Present(v.uid.GetOr("")),
      tag := Present(InferTag(title, description))));
  }

  /**
   * A VEVENT yields a candidate exactly when its title has no course-code
   * prefix and it has a DTSTART. The candidate then carries the title and
   * description, the start and (when DTEND is present) the end as datetimes,
   * the UID or `''`, the zone, the location when non-empty, the cascade's tag,
   * and, for an online event whose description holds a URL, that first URL as
   * its meeting link.
   */
  lemma VEventCandidateFields(v: VEvent)
    ensures VEventCandidate(v).Some? <==> !CourseCodePrefix(v.summary.GetOr("")) && v.dtstart.Some?
    ensures VEventCandidate(v).Some? ==>
      var c := VEventCandidate(v).value;
      var title := v.summary.GetOr("");
      var description := v.description.GetOr("");
      && c.title == Present(title)
      && c.startTime == Present(EnsureDateTime(v.dtstart.value))
      && c.tag == Present(InferTag(title, description))
      && (c.location.Null? <==> v.location.GetOr("") == "")
      && (c.timezone == Present("UTC") <==>
            (v.dtstart.value.DateValue? || v.dtstart.value.dateTime.tz.None? || v.dtstart.value.dateTime.tz.value.name == "UTC"))
      && (v.dtstart.value.DateTimeValue? && v.dtstart.value.dateTime.tz.Some? ==>
            c.timezone == Present(v.dtstart.value.dateTime.tz.value.name))
      && (c.isVirtual == Present(true) <==> description != "" && ContainsAny(Lower(description), MeetingHosts))
      && c.description == Present(description)
      && (v.dtend.None? ==> c.endTime.Null?)
      && (v.dtend.Some? ==> c.endTime == Present(EnsureDateTime(v.dtend.value)))
      && (c.location.Present? ==> c.location.value == v.location.value)
      && c.sourceEventId == Present(v.uid.GetOr(""))
      && (c.isVirtual == Present(false) ==> c.meetingLink.Null?)
      && (c.meetingLink.Present? <==> c.isVirtual == Present(true) && FirstUrl(description).Some?)
      && (c.meetingLink.Present? ==> c.meetingLink.value == FirstUrl(description).value)
      && c.virtualUrl.Absent?
  {
  }

  /** What one component contributes to the result: its candidate when it is a VEVENT that is not skipped. */
  function ComponentEvents(c: Component): seq<Candidate> {
    if c.name == "VEVENT" && VEventCandidate(c.props).Some? then [VEventCandidate(c.props).value] else []
  }

  /** The candidates of the components, in component order. */
  function ParsedComponents(cs: seq<Component>): seq<Candidate> {
    if cs == [] then [] else ParsedComponents(cs[..|cs| - 1]) + ComponentEvents(cs[|cs| - 1])
  }

  /**
   * `parse_ics_content`: `calendar` is the decoded component list, or `None`
   * when `Calendar.from_ical` rejects the bytes, in which case nothing is
   * returned. It never fails.
   */
  method ParseIcsContent(calendar: Option<seq<Component>>) returns (events: seq<Candidate>)
    ensures calendar.None? ==> events == []
    ensures calendar.Some? ==> events == ParsedComponents(calendar.value)
  {
    events := [];
    if calendar.None? {
      return;
    }
    var cs := calendar.value;
    var i := 0;
    while i < |cs|
      invariant 0 <= i <= |cs|
      invariant events == ParsedComponents(cs[..i])
    {
      ParsedComponentsStep(cs, i);
      var c := cs[i];
      if c.name == "VEVENT" {
        var event := ParseVEvent(c.props);
        if event.Some? {
          events := events + [event.value];
        }
      }
      i := i + 1;
    }
    assert cs[..|cs|] == cs;
  }

  lemma ParsedComponentsStep(cs: seq<Component>, i: nat)
    requires i < |cs|
    ensures ParsedComponents(cs[..i + 1]) == ParsedComponents(cs[..i]) + ComponentEvents(cs[i])
  {
    assert cs[..i + 1][..i] == cs[..i];
  }

  function VEventCount(cs: seq<Component>): nat {
    if cs == [] then 0 else VEventCount(cs[..|cs| - 1]) + (if cs[|cs| - 1].name == "VEVENT" then 1 else 0)
  }

  /** Parsing is compositional: the candidates of two runs of components are those of each run, in order. */
  lemma {:induction false} ParsedComponentsAppend(a: seq<Component>, b: seq<Component>)
    ensures ParsedComponents(a + b) == ParsedComponents(a) + ParsedComponents(b)
    decreases |b|
  {
    if b == [] {
      assert a + b == a;
    } else {
      var b' := b[..|b| - 1];
      assert (a + b)[..|a + b| - 1] == a + b';
      assert (a + b)[|a + b| - 1] == b[|b| - 1];
      ParsedComponentsAppend(a, b');
    }
  }

  /** At most one candidate per VEVENT; components of other kinds contribute nothing. */
  lemma {:induction false} ParsedComponentsBound(cs: seq<Component>)
    ensures |ParsedComponents(cs)| <= VEventCount(cs)
    ensures (forall i :: 0 <= i < |cs| ==> cs[i].name != "VEVENT") ==> ParsedComponents(cs) == []
  {
    if cs != [] {
      var init := cs[..|cs| - 1];
      assert forall i :: 0 <= i < |init| ==> init[i] == cs[i];
      ParsedComponentsBound(init);
    }
  }

  /**
   * Every candidate comes from a VEVENT of the calendar that was not skipped:
   * it has a start time and the tag the cascade gives for its title and
   * description.
   */
  lemma {:induction false} ParsedComponentsSound(cs: seq<Component>)
    ensures forall e :: e in ParsedComponents(cs) ==>
      exists i :: 0 <= i < |cs| && cs[i].name == "VEVENT" && VEventCandidate(cs[i].props) == Some(e)
    ensures forall e :: e in ParsedComponents(cs) ==>
      e.startTime.Present? && e.title.Present? && e.description.Present? && e.tag.Present?
      && e.tag.value == InferTag(e.title.value, e.description.value)
  {
    if cs != [] {
      var init := cs[..|cs| - 1];
      ParsedComponentsSound(init);
      forall e | e in ParsedComponents(cs)
        ensures exists i :: 0 <= i < |cs| && cs[i].name == "VEVENT" && VEventCandidate(cs[i].props) == Some(e)
      {
        if e in ParsedComponents(init) {
          var i :| 0 <= i < |init| && init[i].name == "VEVENT" && VEventCandidate(init[i].props) == Some(e);
          assert cs[i] == init[i];
        } else {
          assert e in ComponentEvents(cs[|cs| - 1]);
        }
      }
      var last := cs[|cs| - 1];
      if last.name == "VEVENT" {
        VEventCandidateFields(last.props);
      }
    }
  }
}
