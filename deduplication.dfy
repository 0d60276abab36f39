/**
 * The normaliser and the fingerprint identity (backend/utils/deduplication.py):
 * a loosely keyed candidate becomes the canonical event record, and the
 * identity key `lower(strip(title)) | isoformat(start) | lower(strip(location or ''))`
 * is hashed with SHA-256.
 */
module Deduplication {
  import opened Wrappers
  import opened Text
  import opened Temporal
  import Sha256

  /** One key of a Python dict: missing, mapped to `None`, or mapped to a value. */
  datatype Field<T> = Absent | Null | Present(value: T) {

    /** `d.get(key)` */
    function Get(): Option<T> {
      if Present? then Some(value) else None
    }

    /** `d.get(key, default)`: the default only when the key is missing. */
    function GetDefault(default: T): Option<T> {
      match this
      case Absent => Some(default)
      case Null => None
      case Present(v) => Some(v)
    }
  }

  /** The candidate dict an adapter produces, key by key. */
  datatype Candidate = Candidate(
    title: Field<string>,
    description: Field<string>,
    startTime: Field<DateTime>,
    endTime: Field<DateTime>,
    timezone: Field<string>,
    location: Field<string>,
    isVirtual: Field<bool>,
    meetingLink: Field<string>,
    virtualUrl: Field<string>,
    tag: Field<string>,
    rsvpLink: Field<string>,
    whyMatters: Field<string>,
    sourceEventId: Field<string>,
    sourceType: Field<string>,
    sourceChatId: Field<string>,
    messageId: Field<int>)

  /** `{}` */
  const EmptyCandidate: Candidate := Candidate(
    Absent, Absent, Absent, Absent, Absent, Absent, Absent, Absent,
    Absent, Absent, Absent, Absent, Absent, Absent, Absent, Absent)

  /** The dict `normalize_event_data` returns; `fingerprint == None` is the missing key. */
  datatype NormalizedEvent = NormalizedEvent(
    title: string,
    description: string,
    startTime: Option<DateTime>,
    endTime: Option<DateTime>,
    timezone: Option<string>,
    location: Option<string>,
    isVirtual: Option<bool>,
    meetingLink: Option<string>,
    tag: Option<string>,
    rsvpLink: Option<string>,
    whyMatters: Option<string>,
    sourceEventId: Option<string>,
    fingerprint: Option<string>)

  /** `(raw.get(key) or '').strip()` */
  function TrimmedText(f: Field<string>): string {
    Strip(f.Get().GetOr(""))
  }

  /** `(raw.get(key) or '').strip() or None` */
  function TrimmedOrNone(f: Field<string>): Option<string> {
    var t := TrimmedText(f);
    if t == "" then None else Some(t)
  }

  /** The string that is hashed: the three identity components joined by `|`. */
  function FingerprintKey(title: string, start: DateTime, location: Option<string>): string {
    Strip(Lower(title)) + "|" + IsoFormat(start) + "|" + Strip(Lower(location.GetOr("")))
  }

  /** `generate_fingerprint`: SHA-256 hex digest of the identity key, 64 characters (the column width). */
  function GenerateFingerprint(title: string, start: DateTime, location: Option<string>): (fp: string)
    ensures |fp| == 64
    ensures forall c :: c in fp ==> c in Sha256.HexDigits
  {
    Sha256.HexDigest(FingerprintKey(title, start, location))
  }

  /** The synonym table of `normalize_tag`, keyed by lower-cased, stripped tag. */
  const TagSynonyms: map<string, string> := map[
    "required" := "Required", "mandatory" := "Required",
    "career" := "Career", "jobs" := "Career", "recruiting" := "Career",
    "capstone" := "Capstone", "thesis" := "Capstone",
    "social" := "Social", "community" := "Social",
    "deadline" := "Deadline", "due" := "Deadline"
  ]

  /** `normalize_tag`: `None` for a falsy tag, the canonical name of a synonym, otherwise the tag title-cased. */
  function NormalizeTag(tag: Option<string>): (r: Option<string>)
    ensures r.None? <==> tag.None? || tag.value == ""
  {
    if tag.None? || tag.value == "" then None
    else
      var key := Strip(Lower(tag.value));
      if key in TagSynonyms then Some(TagSynonyms[key]) else Some(TitleCase(tag.value))
  }

  /** `normalize_event_data` */
  function NormalizeEventData(raw: Candidate): (n: NormalizedEvent)
    ensures n.fingerprint.Some? <==> n.title != "" && n.startTime.Some?
  {
    var title := TrimmedText(raw.title);
    var location := TrimmedOrNone(raw.location);
    var start := raw.startTime.Get();
    NormalizedEvent(
      title,
      TrimmedText(raw.description),
      start,
      raw.endTime.Get(),
      raw.timezone.GetDefault("UTC"),
      location,
      raw.isVirtual.GetDefault(false),
      TrimmedOrNone(raw.meetingLink),
      NormalizeTag(raw.tag.Get()),
      TrimmedOrNone(raw.rsvpLink),
      TrimmedOrNone(raw.whyMatters),
      raw.sourceEventId.Get(),
      if title != "" && start.Some? then Some(GenerateFingerprint(title, start.value, location)) else None)
  }

  /** Two texts equal once stripped of surrounding whitespace and lower-cased. */
  predicate SameUpToCaseAndPadding(a: string, b: string) {
    Lower(Strip(a)) == Lower(Strip(b))
  }

  /** Titles and locations that differ only in letter case or surrounding whitespace give one fingerprint. */
  lemma FingerprintIgnoresCaseAndPadding(
    title1: string, title2: string, start: DateTime, location1: Option<string>, location2: Option<string>)
    requires SameUpToCaseAndPadding(title1, title2)
    requires SameUpToCaseAndPadding(location1.GetOr(""), location2.GetOr(""))
    ensures GenerateFingerprint(title1, start, location1) == GenerateFingerprint(title2, start, location2)
  {
    StripLowerCommute(title1);
    StripLowerCommute(title2);
    StripLowerCommute(location1.GetOr(""));
    StripLowerCommute(location2.GetOr(""));
  }

  /** A missing location and an empty or all-blank one give the same fingerprint. */
  lemma FingerprintBlankLocation(title: string, start: DateTime, location: string)
    requires forall k :: 0 <= k < |location| ==> IsSpace(location[k])
    ensures GenerateFingerprint(title, start, None) == GenerateFingerprint(title, start, Some(location))
  {
    StripEmptyIffBlank(location);
    StripEmptyIffBlank("");
    FingerprintIgnoresCaseAndPadding(title, title, start, None, Some(location));
  }

  /** A worked example: `"CS110 Office Hours "` at `" Room 305"` is `"cs110 office hours"` at `"room 305"`. */
  lemma FingerprintExample(start: DateTime)
    ensures GenerateFingerprint("CS110 Office Hours ", start, Some(" Room 305"))
         == GenerateFingerprint("cs110 office hours", start, Some("room 305"))
  {
    ExampleTitlesAgree();
    ExampleLocationsAgree();
    FingerprintIgnoresCaseAndPadding("CS110 Office Hours ", "cs110 office hours", start, Some(" Room 305"), Some("room 305"));
  }

  lemma ExampleTitlesAgree()
    ensures SameUpToCaseAndPadding("CS110 Office Hours ", "cs110 office hours")
  {
    ExampleTitleStripped();
    ExampleTitleLowered();
  }

  lemma ExampleTitleStripped()
    ensures Strip("CS110 Office Hours ") == "CS110 Office Hours"
    ensures Strip("cs110 office hours") == "cs110 office hours"
  {
  }

  lemma ExampleTitleLowered()
    ensures Lower("CS110 Office Hours") == "cs110 office hours"
    ensures Lower("cs110 office hours") == "cs110 office hours"
  {
  }

  lemma ExampleLocationsAgree()
    ensures SameUpToCaseAndPadding(" Room 305", "room 305")
  {
    assert Strip(" Room 305") == "Room 305";
    assert Strip("room 305") == "room 305";
    assert Lower("Room 305") == "room 305";
  }

  /** The first `|` of `a + "|" + b` is right after `a` when `a` holds none. */
  lemma FirstBarAfter(a: string, b: string)
    requires '|' !in a
    ensures IndexOf(a + "|" + b, '|') == |a|
  {
    var s := a + "|" + b;
    var k := IndexOf(s, '|');
    assert s[|a|] == '|';
    assert forall j :: 0 <= j < |a| ==> s[j] == a[j];
  }

  /** Splitting at the first `|` recovers both halves when the left one holds none. */
  lemma SplitAtFirstBar(a: string, b: string, c: string, d: string)
    requires '|' !in a && '|' !in c
    requires a + "|" + b == c + "|" + d
    ensures a == c && b == d
  {
    var s := a + "|" + b;
    FirstBarAfter(a, b);
    FirstBarAfter(c, d);
    assert a == s[..|a|] && c == s[..|c|];
    assert b == s[|a| + 1..] && d == s[|c| + 1..];
  }

  /** Three fields joined by `|` determine each field when the first two hold no `|`. */
  lemma JoinedKeyDetermines(t1: string, i1: string, l1: string, t2: string, i2: string, l2: string)
    requires '|' !in t1 && '|' !in t2 && '|' !in i1 && '|' !in i2
    requires t1 + "|" + i1 + "|" + l1 == t2 + "|" + i2 + "|" + l2
    ensures t1 == t2 && i1 == i2 && l1 == l2
  {
    assert t1 + "|" + i1 + "|" + l1 == t1 + "|" + (i1 + "|" + l1);
    assert t2 + "|" + i2 + "|" + l2 == t2 + "|" + (i2 + "|" + l2);
    SplitAtFirstBar(t1, i1 + "|" + l1, t2, i2 + "|" + l2);
    SplitAtFirstBar(i1, l1, i2, l2);
  }

  /**
   * The identity key is unambiguous when the normalised title holds no `|`:
   * equal keys mean equal normalised titles, equal `isoformat` strings and
   * equal normalised locations.
   */
  lemma FingerprintKeyDetermines(
    title1: string, start1: DateTime, location1: Option<string>,
    title2: string, start2: DateTime, location2: Option<string>)
    requires '|' !in Strip(Lower(title1)) && '|' !in Strip(Lower(title2))
    requires FingerprintKey(title1, start1, location1) == FingerprintKey(title2, start2, location2)
    ensures Strip(Lower(title1)) == Strip(Lower(title2))
    ensures IsoFormat(start1) == IsoFormat(start2)
    ensures Strip(Lower(location1.GetOr(""))) == Strip(Lower(location2.GetOr("")))
  {
    var i1, i2 := IsoFormat(start1), IsoFormat(start2);
    assert '|' !in i1 && '|' !in i2;
    JoinedKeyDetermines(Strip(Lower(title1)), i1, Strip(Lower(location1.GetOr(""))),
                        Strip(Lower(title2)), i2, Strip(Lower(location2.GetOr(""))));
  }

  /**
   * The fingerprint is present exactly when the stripped title is non-empty and
   * a start time is given, and it is the fingerprint of the raw title and
   * location: normalising first does not change it.
   */
  lemma NormalizeFingerprint(raw: Candidate)
    ensures var n := NormalizeEventData(raw);
      n.fingerprint.Some? <==> (TrimmedText(raw.title) != "" && raw.startTime.Present?)
    ensures var n := NormalizeEventData(raw);
      n.fingerprint.Some? ==>
        n.fingerprint.value == GenerateFingerprint(raw.title.Get().GetOr(""), raw.startTime.value, raw.location.Get())
  {
    var n := NormalizeEventData(raw);
    if n.fingerprint.Some? {
      var t := raw.title.Get().GetOr("");
      var l := raw.location.Get().GetOr("");
      StripIdempotent(t);
      StripIdempotent(l);
      StripEmptyIffBlank(Strip(l));
      FingerprintIgnoresCaseAndPadding(Strip(t), t, raw.startTime.value, n.location, raw.location.Get());
    }
  }

  /** A text field of the normalised record: no surrounding whitespace. */
  predicate TrimmedField(s: string) {
    Unpadded(s)
  }

  /** An optional text field of the normalised record: `None`, or non-empty with no surrounding whitespace. */
  predicate TrimmedOptional(s: Option<string>) {
    s.None? || (s.value != "" && Unpadded(s.value))
  }

  lemma TrimmedTextShape(f: Field<string>)
    ensures TrimmedField(TrimmedText(f))
  {
    StripUnpadded(f.Get().GetOr(""));
  }

  lemma TrimmedOrNoneShape(f: Field<string>)
    ensures TrimmedOptional(TrimmedOrNone(f))
    ensures TrimmedOrNone(f).None? <==> Strip(f.Get().GetOr("")) == ""
  {
    StripUnpadded(f.Get().GetOr(""));
  }

  /** A present optional field holds the raw text with its surrounding whitespace removed. */
  lemma TrimmedOrNoneKeepsText(f: Field<string>)
    ensures TrimmedOrNone(f).Some? ==> StrippedFrom(f.Get().GetOr(""), TrimmedOrNone(f).value)
  {
    StripKeepsMiddle(f.Get().GetOr(""));
  }

  /**
   * Normalisation is total and trims: title and description are the raw texts
   * (a missing or `None` one read as `''`) with surrounding whitespace removed;
   * location, meeting link, RSVP link and rationale are `None` when blank and
   * otherwise the raw text with surrounding whitespace removed.
   */
  lemma NormalizeTrims(raw: Candidate)
    ensures var n := NormalizeEventData(raw);
      && TrimmedField(n.title) && TrimmedField(n.description)
      && TrimmedOptional(n.location) && TrimmedOptional(n.meetingLink)
      && TrimmedOptional(n.rsvpLink) && TrimmedOptional(n.whyMatters)
    ensures var n := NormalizeEventData(raw);
      && StrippedFrom(raw.title.Get().GetOr(""), n.title)
      && StrippedFrom(raw.description.Get().GetOr(""), n.description)
      && (n.location.Some? ==> StrippedFrom(raw.location.Get().GetOr(""), n.location.value))
      && (n.meetingLink.Some? ==> StrippedFrom(raw.meetingLink.Get().GetOr(""), n.meetingLink.value))
      && (n.rsvpLink.Some? ==> StrippedFrom(raw.rsvpLink.Get().GetOr(""), n.rsvpLink.value))
      && (n.whyMatters.Some? ==> StrippedFrom(raw.whyMatters.Get().GetOr(""), n.whyMatters.value))
    ensures var n := NormalizeEventData(raw);
      && (n.location.None? <==> Strip(raw.location.Get().GetOr("")) == "")
      && (n.meetingLink.None? <==> Strip(raw.meetingLink.Get().GetOr("")) == "")
      && (n.rsvpLink.None? <==> Strip(raw.rsvpLink.Get().GetOr("")) == "")
      && (n.whyMatters.None? <==> Strip(raw.whyMatters.Get().GetOr("")) == "")
  {
    TrimmedTextShape(raw.title);
    TrimmedTextShape(raw.description);
    TrimmedOrNoneShape(raw.location);
    TrimmedOrNoneShape(raw.meetingLink);
    TrimmedOrNoneShape(raw.rsvpLink);
    TrimmedOrNoneShape(raw.whyMatters);
    StripKeepsMiddle(raw.title.Get().GetOr(""));
    StripKeepsMiddle(raw.description.Get().GetOr(""));
    TrimmedOrNoneKeepsText(raw.location);
    TrimmedOrNoneKeepsText(raw.meetingLink);
    TrimmedOrNoneKeepsText(raw.rsvpLink);
    TrimmedOrNoneKeepsText(raw.whyMatters);
  }

  /**
   * Defaults: the zone is `'UTC'` only when the key is missing (an explicit
   * `None` stays `None`), `is_virtual` is `False` when missing, and the
   * meeting link is read from `meeting_link` alone.
   */
  lemma NormalizeDefaults(raw: Candidate, otherUrl: Field<string>)
    ensures raw.timezone.Absent? ==> NormalizeEventData(raw).timezone == Some("UTC")
    ensures raw.timezone.Null? ==> NormalizeEventData(raw).timezone.None?
    ensures raw.isVirtual.Absent? ==> NormalizeEventData(raw).isVirtual == Some(false)
    ensures raw.meetingLink.Absent? ==> NormalizeEventData(raw).meetingLink.None?
    ensures NormalizeEventData(raw.(virtualUrl := otherUrl)) == NormalizeEventData(raw)
  {
    StripEmptyIffBlank("");
  }

  /** The canonical names the synonym table produces. */
  const CanonicalTags: seq<string> := ["Required", "Career", "Capstone", "Social", "Deadline"]

  /**
   * `normalize_tag` case by case: a falsy tag gives `None`; a tag whose trimmed,
   * lower-cased form is a synonym key gives that key's canonical name; any other
   * tag comes back title-cased: each letter upper-cased when it does not follow
   * a letter and lower-cased when it does, every other character kept.
   */
  lemma NormalizeTagCases(tag: Option<string>)
    ensures (tag.None? || tag.value == "") ==> NormalizeTag(tag).None?
    ensures tag.Some? && tag.value != "" && Strip(Lower(tag.value)) in TagSynonyms ==>
      NormalizeTag(tag) == Some(TagSynonyms[Strip(Lower(tag.value))])
      && NormalizeTag(tag).value in CanonicalTags
    ensures tag.Some? && tag.value != "" && Strip(Lower(tag.value)) !in TagSynonyms ==>
      NormalizeTag(tag).Some? && |NormalizeTag(tag).value| == |tag.value|
      && Lower(NormalizeTag(tag).value) == Lower(tag.value)
      && forall k :: 0 <= k < |tag.value| ==>
        NormalizeTag(tag).value[k]
          == if k > 0 && IsLetter(tag.value[k - 1]) then LowerChar(tag.value[k]) else UpperChar(tag.value[k])
  {
    if tag.Some? && tag.value != "" && Strip(Lower(tag.value)) !in TagSynonyms {
      LowerTitleCase(tag.value, false);
      TitleCaseChars(tag.value);
    }
  }

  /** A canonical name whose lower-cased form is its own synonym key is kept. */
  lemma CanonicalTagKept(name: string, key: string)
    requires Lower(name) == key && Unpadded(key) && key in TagSynonyms && TagSynonyms[key] == name
    ensures NormalizeTag(Some(name)) == Some(name)
  {
    StripUnpadded(key);
  }

  /**
   * The category names both classifiers emit are fixed points of
   * `normalize_tag`, so normalising an already classified event keeps its tag.
   */
  lemma NormalizeTagKeepsCategories(name: string)
    requires name in CanonicalTags || name == "General"
    ensures NormalizeTag(Some(name)) == Some(name)
  {
    if name == "General" {
      GeneralTagKept();
    } else {
      SynonymTargetsKept(name);
    }
  }

  /** Each canonical name of the synonym table is its own key up to case. */
  lemma SynonymTargetsKept(name: string)
    requires name in CanonicalTags
    ensures NormalizeTag(Some(name)) == Some(name)
  {
    if name == "Required" {
      CanonicalTagKept(name, "required");
    } else if name == "Career" {
      CanonicalTagKept(name, "career");
    } else {
      LaterSynonymTargetsKept(name);
    }
  }

  lemma LaterSynonymTargetsKept(name: string)
    requires name in ["Capstone", "Social", "Deadline"]
    ensures NormalizeTag(Some(name)) == Some(name)
  {
    if name == "Capstone" {
      CanonicalTagKept(name, "capstone");
    } else if name == "Social" {
      CanonicalTagKept(name, "social");
    } else {
      CanonicalTagKept(name, "deadline");
    }
  }

  /** `"General"` is not a synonym key and is already title-cased. */
  lemma GeneralTagKept()
    ensures NormalizeTag(Some("General")) == Some("General")
  {
    GeneralKey();
    GeneralTitle();
  }

  lemma GeneralKey()
    ensures Strip(Lower("General")) == "general" && "general" !in TagSynonyms
  {
    assert Lower("General") == "general";
  }

  lemma GeneralTitle()
    ensures TitleCase("General") == "General"
  {
  }

  /** `"mandatory"` is a synonym of Required. */
  lemma NormalizeTagMandatory()
    ensures NormalizeTag(Some("mandatory")) == Some("Required")
  {
    assert Strip(Lower("mandatory")) == "mandatory" by { assert Lower("mandatory") == "mandatory"; }
  }

  /** The key is trimmed and lower-cased first: `" JOBS "` is a synonym of Career. */
  lemma NormalizeTagPaddedJobs()
    ensures NormalizeTag(Some(" JOBS ")) == Some("Career")
  {
    assert Strip(Lower(" JOBS ")) == "jobs" by {
      assert Lower(" JOBS ") == " jobs ";
      assert Strip(" jobs ") == "jobs";
    }
  }

  /** A tag outside the table is title-cased: `"hackathon"` becomes `"Hackathon"`. */
  lemma NormalizeTagUnknown()
    ensures NormalizeTag(Some("hackathon")) == Some("Hackathon")
  {
    HackathonKey();
    HackathonTitle();
  }

  lemma HackathonKey()
    ensures Strip(Lower("hackathon")) == "hackathon" && "hackathon" !in TagSynonyms
  {
    assert Lower("hackathon") == "hackathon";
  }

  lemma HackathonTitle()
    ensures TitleCase("hackathon") == "Hackathon"
  {
  }

  /** Normalising a tag twice gives what normalising it once gives. */
  lemma NormalizeTagIdempotent(tag: Option<string>)
    ensures NormalizeTag(NormalizeTag(tag)) == NormalizeTag(tag)
  {
    var r := NormalizeTag(tag);
    if r.Some? {
      var key := Strip(Lower(tag.value));
      if key in TagSynonyms {
        NormalizeTagKeepsCategories(TagSynonyms[key]);
      } else {
        LowerTitleCase(tag.value, false);
        TitleCaseIdempotent(tag.value, false);
      }
    }
  }

  /** Reads a normalised record back as a candidate dict with every key present. */
  function AsCandidate(n: NormalizedEvent): Candidate {
    Candidate(
      Present(n.title), Present(n.description),
      OptionField(n.startTime), OptionField(n.endTime), OptionField(n.timezone),
      OptionField(n.location), OptionField(n.isVirtual), OptionField(n.meetingLink), Absent,
      OptionField(n.tag), OptionField(n.rsvpLink), OptionField(n.whyMatters),
      OptionField(n.sourceEventId), Absent, Absent, Absent)
  }

  function OptionField<T>(o: Option<T>): Field<T> {
    if o.Some? then Present(o.value) else Null
  }

  /**
   * What every record `normalize_event_data` returns satisfies: trimmed text
   * fields, blank optional fields turned into `None`, a normalised tag, and a
   * fingerprint present exactly for a titled, timed event and computed from
   * the record's own title, start and location.
   */
  predicate Normalized(n: NormalizedEvent) {
    && TrimmedField(n.title) && TrimmedField(n.description)
    && TrimmedOptional(n.location) && TrimmedOptional(n.meetingLink)
    && TrimmedOptional(n.rsvpLink) && TrimmedOptional(n.whyMatters)
    && NormalizeTag(n.tag) == n.tag
    && n.fingerprint == (if n.title != "" && n.startTime.Some?
                         then Some(GenerateFingerprint(n.title, n.startTime.value, n.location)) else None)
  }

  /** Every output of `normalize_event_data` is normalised. */
  lemma NormalizeEstablishes(raw: Candidate)
    ensures Normalized(NormalizeEventData(raw))
  {
    NormalizeTrims(raw);
    NormalizeTagIdempotent(raw.tag.Get());
  }

  lemma TrimmedOptionalFixed(o: Option<string>)
    requires TrimmedOptional(o)
    ensures TrimmedOrNone(OptionField(o)) == o
  {
    StripEmptyIffBlank("");
    if o.Some? {
      StripUnpadded(o.value);
    }
  }

  /** A normalised record read back as a dict normalises to itself. */
  lemma NormalizedIsFixed(n: NormalizedEvent)
    requires Normalized(n)
    ensures NormalizeEventData(AsCandidate(n)) == n
  {
    var m := NormalizeEventData(AsCandidate(n));
    StripUnpadded(n.title);
    StripUnpadded(n.description);
    TrimmedOptionalFixed(n.location);
    TrimmedOptionalFixed(n.meetingLink);
    TrimmedOptionalFixed(n.rsvpLink);
    TrimmedOptionalFixed(n.whyMatters);
    assert m.title == n.title && m.location == n.location && m.startTime == n.startTime;
  }

  /** Normalisation is idempotent: normalising a normalised record gives it back unchanged. */
  lemma NormalizeIdempotent(raw: Candidate)
    ensures NormalizeEventData(AsCandidate(NormalizeEventData(raw))) == NormalizeEventData(raw)
  {
    NormalizeEstablishes(raw);
    NormalizedIsFixed(NormalizeEventData(raw));
  }

  /** Python truthiness of an optional fingerprint. */
  predicate Truthy(fp: Option<string>) {
    fp.Some? && fp.value != ""
  }

  /**
   * `is_duplicate` as written: fingerprint equality when both are set, otherwise
   * a field comparison that calls `.lower()` on the location; `None` stands for
   * the `AttributeError` raised when a location is `None`.
   */
  function IsDuplicateAsWritten(e1: NormalizedEvent, e2: NormalizedEvent): (r: Option<bool>)
    ensures r.None? <==> !(Truthy(e1.fingerprint) && Truthy(e2.fingerprint)) && (e1.location.None? || e2.location.None?)
  {
    if Truthy(e1.fingerprint) && Truthy(e2.fingerprint) then Some(e1.fingerprint == e2.fingerprint)
    else if e1.location.None? || e2.location.None? then None
    else
      Some(Lower(e1.title) == Lower(e2.title)
        && SameStart(e1.startTime, e2.startTime)
        && Lower(e1.location.value) == Lower(e2.location.value))
  }

  /** `event1.get('start_time') == event2.get('start_time')` */
  predicate SameStart(a: Option<DateTime>, b: Option<DateTime>) {
    if a.None? || b.None? then a.None? && b.None? else SameDateTime(a.value, b.value)
  }

  /** Two records with no usable fingerprint and no location: the as-written comparison raises. */
  lemma IsDuplicateRaisesOnMissingLocation()
    ensures IsDuplicateAsWritten(NormalizeEventData(EmptyCandidate), NormalizeEventData(EmptyCandidate)).None?
  {
    StripEmptyIffBlank("");
  }

  /**
   * `is_duplicate` with a missing location read as `''` (as the `.get(..., '')`
   * defaults intend): fingerprint equality when both are set, otherwise
   * case-insensitive title, equal start and case-insensitive location.
   */
  function IsDuplicate(e1: NormalizedEvent, e2: NormalizedEvent): (dup: bool)
    ensures e1 == e2 ==> dup
  {
    if Truthy(e1.fingerprint) && Truthy(e2.fingerprint) then e1.fingerprint == e2.fingerprint
    else
      Lower(e1.title) == Lower(e2.title)
      && SameStart(e1.startTime, e2.startTime)
      && Lower(e1.location.GetOr("")) == Lower(e2.location.GetOr(""))
  }

  /** The corrected comparison never fails and agrees with the original wherever that one returns. */
  lemma IsDuplicateRefinesAsWritten(e1: NormalizedEvent, e2: NormalizedEvent)
    ensures IsDuplicateAsWritten(e1, e2).Some? ==> IsDuplicateAsWritten(e1, e2).value == IsDuplicate(e1, e2)
    ensures IsDuplicateAsWritten(e1, e2).None? <==>
      (!(Truthy(e1.fingerprint) && Truthy(e2.fingerprint)) && (e1.location.None? || e2.location.None?))
  {
  }

  /** `is_duplicate` is symmetric. */
  lemma IsDuplicateSymmetric(e1: NormalizedEvent, e2: NormalizedEvent)
    ensures IsDuplicate(e1, e2) == IsDuplicate(e2, e1)
    ensures IsDuplicateAsWritten(e1, e2) == IsDuplicateAsWritten(e2, e1)
  {
  }

  /**
   * The two ways of comparing agree on normalised records with equal fields:
   * equal lower-cased title, the same start value and equal lower-cased
   * location make two records duplicates whether or not fingerprints are set.
   */
  lemma SameFieldsAreDuplicates(raw1: Candidate, raw2: Candidate)
    requires var n1, n2 := NormalizeEventData(raw1), NormalizeEventData(raw2);
      && Lower(n1.title) == Lower(n2.title)
      && n1.startTime == n2.startTime
      && Lower(n1.location.GetOr("")) == Lower(n2.location.GetOr(""))
    ensures IsDuplicate(NormalizeEventData(raw1), NormalizeEventData(raw2))
  {
    var n1, n2 := NormalizeEventData(raw1), NormalizeEventData(raw2);
    if Truthy(n1.fingerprint) && Truthy(n2.fingerprint) {
      assert Strip(Lower(n1.title)) == Strip(Lower(n2.title));
      assert Strip(Lower(n1.location.GetOr(""))) == Strip(Lower(n2.location.GetOr("")));
    } else if n1.startTime.Some? {
      assert SameDateTime(n1.startTime.value, n1.startTime.value);
    }
  }
}
