/**
 * The chat adapter (backend/ingestion/telegram_ingest.py): a chat message
 * becomes a candidate dict when it has a title line and a date the parser
 * accepts; location, link and tag are read off the text.
 * Date parsing (`dateutil`) and the three date patterns' regular expressions
 * are oracles: `DateOracles` says, for each pattern, which two groups its
 * search captures, and which strings parse to which datetime.
 */
module TelegramIngest {
  import opened Wrappers
  import opened Text
  import opened Temporal
  import opened Deduplication
  import IcsParser

  /** A chat message: its `text` and `message_id` keys (`None` when missing or null). */
  datatype Message = Message(text: Option<string>, messageId: Option<int>)

  /** The three date patterns of `_extract_datetime`, in the order they are tried. */
  datatype DatePattern =
    | NumericDate   // `12/05/2025 at 3:00 PM`
    | WeekdayDate   // `Friday, December 5 at 3:00 PM`
    | MonthDayYear  // `December 5th, 2025 at 3:00 PM`

  const DatePatterns: seq<DatePattern> := [NumericDate, WeekdayDate, MonthDayYear]

  /**
   * The regular-expression search and `dateutil` parse the adapter relies on:
   * `search(p, text)` is the two groups of the first match of pattern `p`
   * (case-insensitive) or `None`; `parse(s)` is the fuzzy parse of `s`, or
   * `None` where the parser raises.
   */
  datatype DateOracles = DateOracles(
    search: (DatePattern, string) -> Option<(string, string)>,
    parse: string -> Option<DateTime>)

  /** What pattern `i` yields: the parse of its two groups joined by a space, when it matches and parses. */
  function PatternParse(text: string, o: DateOracles, i: nat): Option<DateTime>
    requires i < |DatePatterns|
  {
    match o.search(DatePatterns[i], text)
    case None => None
    case Some(groups) => o.parse(groups.0 + " " + groups.1)
  }

  /** The patterns from `i` on, then the whole-text fallback. */
  function DateCascadeFrom(text: string, o: DateOracles, i: nat): Option<DateTime>
    requires i <= |DatePatterns|
    decreases |DatePatterns| - i
  {
    if i == |DatePatterns| then o.parse(text)
    else if PatternParse(text, o, i).Some? then PatternParse(text, o, i)
    else DateCascadeFrom(text, o, i + 1)
  }

  /** `_extract_datetime`: the first pattern that matches and parses, else a parse of the whole text. */
  method ExtractDateTime(text: string, o: DateOracles) returns (dt: Option<DateTime>)
    ensures dt == DateCascadeFrom(text, o, 0)
  {
    for i := 0 to |DatePatterns|
      invariant DateCascadeFrom(text, o, 0) == DateCascadeFrom(text, o, i)
    {
      var groups := o.search(DatePatterns[i], text);
      if groups.Some? {
        var parsed := o.parse(groups.value.0 + " " + groups.value.1);
        if parsed.Some? {
          return parsed;
        }
      }
    }
    dt := o.parse(text);
  }

  /**
   * The cascade's promise: the first pattern that matches and parses decides;
   * the whole-text parse is used only when none does; no date is found exactly
   * when every attempt fails.
   */
  lemma {:induction false} DateCascadeFirstSuccess(text: string, o: DateOracles, i: nat)
    requires i <= |DatePatterns|
    ensures forall k ::
      (i <= k < |DatePatterns| && PatternParse(text, o, k).Some?
        && (forall j :: i <= j < k ==> PatternParse(text, o, j).None?))
      ==> DateCascadeFrom(text, o, i) == PatternParse(text, o, k)
    ensures (forall k :: i <= k < |DatePatterns| ==> PatternParse(text, o, k).None?)
      ==> DateCascadeFrom(text, o, i) == o.parse(text)
    ensures DateCascadeFrom(text, o, i).None? <==>
      (forall k :: i <= k < |DatePatterns| ==> PatternParse(text, o, k).None?) && o.parse(text).None?
    decreases |DatePatterns| - i
  {
    if i < |DatePatterns| {
      DateCascadeFirstSuccess(text, o, i + 1);
    }
  }

  /** `lines` up to the first one that is not blank: `line.strip()[:200]` of it. */
  function TitleOf(lines: seq<string>): (t: Option<string>)
    ensures t.Some? ==> |t.value| <= 200
  {
    if lines == [] then None
    else if Strip(lines[0]) != "" then Some(Take(Strip(lines[0]), 200))
    else TitleOf(lines[1..])
  }

  /** The title is the first non-blank line, stripped and cut to 200 characters; `None` when every line is blank. */
  lemma {:induction false} TitleOfFirstNonBlank(lines: seq<string>)
    ensures TitleOf(lines).None? <==> forall j :: 0 <= j < |lines| ==> Strip(lines[j]) == ""
    ensures TitleOf(lines).Some? ==> exists j :: (0 <= j < |lines| && Strip(lines[j]) != ""
      && (forall i :: 0 <= i < j ==> Strip(lines[i]) == "")
      && TitleOf(lines).value == Take(Strip(lines[j]), 200))
  {
    if lines != [] && Strip(lines[0]) == "" {
      TitleOfFirstNonBlank(lines[1..]);
      if TitleOf(lines).Some? {
        var j :| 0 <= j < |lines[1..]| && Strip(lines[1..][j]) != ""
          && (forall i :: 0 <= i < j ==> Strip(lines[1..][i]) == "")
          && TitleOf(lines[1..]).value == Take(Strip(lines[1..][j]), 200);
        assert lines[j + 1] == lines[1..][j];
        assert forall i :: 1 <= i < j + 1 ==> lines[i] == lines[1..][i - 1];
      }
      assert forall j :: 1 <= j < |lines| ==> lines[j] == lines[1..][j - 1];
    }
  }

  /** `\s*` after position `i`: the length of the whitespace run there. */
  function SpaceRun(s: string, i: nat): (n: nat)
    requires i <= |s|
    ensures i + n <= |s|
    ensures forall k :: i <= k < i + n ==> IsSpace(s[k])
    ensures i + n == |s| || !IsSpace(s[i + n])
    decreases |s| - i
  {
    if i < |s| && IsSpace(s[i]) then 1 + SpaceRun(s, i + 1) else 0
  }

  /** The last position in `[lo, hi)` whose character is not a newline. */
  function LastNonNewline(s: string, lo: nat, hi: nat): (r: Option<nat>)
    requires lo <= hi <= |s|
    ensures r.Some? ==> (lo <= r.value < hi && s[r.value] != '\n'
      && forall k :: r.value < k < hi ==> s[k] == '\n')
    ensures r.None? ==> forall k :: lo <= k < hi ==> s[k] == '\n'
    decreases hi
  {
    if hi <= lo then None
    else if s[hi - 1] != '\n' then Some(hi - 1)
    else LastNonNewline(s, lo, hi - 1)
  }

  /** End of the line holding position `g`: the next newline, or the end of the text. */
  function LineEnd(s: string, g: nat): (e: nat)
    requires g <= |s|
    ensures g <= e <= |s|
    ensures forall k :: g <= k < e ==> s[k] != '\n'
    ensures e < |s| ==> s[e] == '\n'
  {
    var k := IndexOf(s[g..], '\n');
    assert forall j :: g <= j < g + k ==> s[j] == s[g..][j - g];
    g + k
  }

  /** Length of the location marker (`📍`, `Location:` or `Venue:`, any letter case) at `p`, or 0. */
  function MarkerLenAt(s: string, p: nat): (n: nat)
    requires p <= |s|
    ensures n == 0 || n == 1 || n == 6 || n == 9
    ensures p + n <= |s|
  {
    if p < |s| && s[p] == '\U{1F4CD}' then 1
    else if p + 9 <= |s| && Lower(s[p..p + 9]) == "location:" then 9
    else if p + 6 <= |s| && Lower(s[p..p + 6]) == "venue:" then 6
    else 0
  }

  /**
   * Where `(.+)` starts when `(?:📍|Location:|Venue:)\s*(.+)` is tried at `p`:
   * after the whole whitespace run when a character follows it; otherwise
   * `\s*` gives back characters until one that is not a newline is left.
   */
  function GroupStartAt(s: string, p: nat): Option<nat>
    requires p <= |s|
  {
    var n := MarkerLenAt(s, p);
    if n == 0 then None
    else
      var q := p + n;
      var m := SpaceRun(s, q);
      if q + m < |s| then Some(q + m) else LastNonNewline(s, q, q + m)
  }

  /** The captured group when the location pattern matches at `p`: from its start to the end of that line. */
  function LocationGroupAt(s: string, p: nat): Option<string>
    requires p <= |s|
  {
    var g := GroupStartAt(s, p);
    if g.None? then None else Some(s[g.value..LineEnd(s, g.value)])
  }

  /** `re.search`: the group of the leftmost position at or after `p` where the pattern matches. */
  function LocationSearchFrom(s: string, p: nat): Option<string>
    requires p <= |s|
    decreases |s| - p
  {
    if p == |s| then None
    else if LocationGroupAt(s, p).Some? then LocationGroupAt(s, p)
    else LocationSearchFrom(s, p + 1)
  }

  /** The `location` of a message: the captured group, stripped and cut to 200 characters. */
  function ExtractLocation(text: string): (loc: Option<string>)
    ensures loc.Some? ==> |loc.value| <= 200
  {
    var g := LocationSearchFrom(text, 0);
    if g.None? then None else Some(Take(Strip(g.value), 200))
  }

  lemma {:induction false} NoMarkerNoMatch(s: string, p: nat)
    requires p <= |s|
    requires forall k :: p <= k < |s| ==> MarkerLenAt(s, k) == 0
    ensures LocationSearchFrom(s, p).None?
    decreases |s| - p
  {
    if p < |s| {
      NoMarkerNoMatch(s, p + 1);
    }
  }

  /** Without a `📍`, `Location:` or `Venue:` marker there is no location. */
  lemma LocationNeedsMarker(text: string)
    requires forall k :: 0 <= k < |text| ==> MarkerLenAt(text, k) == 0
    ensures ExtractLocation(text).None?
  {
    NoMarkerNoMatch(text, 0);
  }

  lemma {:induction false} SearchSkipsToMarker(s: string, p: nat, from: nat)
    requires from <= p < |s|
    requires forall k :: from <= k < p ==> MarkerLenAt(s, k) == 0
    ensures LocationSearchFrom(s, from) == LocationSearchFrom(s, p)
    decreases p - from
  {
    if from < p {
      SearchSkipsToMarker(s, p, from + 1);
    }
  }

  /**
   * The location is read after the first marker: past the whitespace that
   * follows it (newlines included) up to the end of the line where the text
   * resumes, then stripped and cut to 200 characters.
   */
  lemma LocationAfterFirstMarker(text: string, p: nat, g: nat)
    requires p < |text| && MarkerLenAt(text, p) > 0
    requires forall k :: 0 <= k < p ==> MarkerLenAt(text, k) == 0
    requires p + MarkerLenAt(text, p) <= g < |text| && !IsSpace(text[g])
    requires forall k :: p + MarkerLenAt(text, p) <= k < g ==> IsSpace(text[k])
    ensures ExtractLocation(text) == Some(Take(Strip(text[g..LineEnd(text, g)]), 200))
  {
    var q := p + MarkerLenAt(text, p);
    var m := SpaceRun(text, q);
    assert GroupStartAt(text, p) == Some(g);
    SearchSkipsToMarker(text, p, 0);
  }

  /** A location holds no newline and is at most 200 characters. */
  lemma LocationShape(text: string)
    requires ExtractLocation(text).Some?
    ensures '\n' !in ExtractLocation(text).value
    ensures |ExtractLocation(text).value| <= 200
  {
    var g := LocationSearchFrom(text, 0).value;
    SearchResultIsLine(text, 0);
    StripKeepsChars(g);
    var l := Take(Strip(g), 200);
    assert forall k :: 0 <= k < |l| ==> l[k] == Strip(g)[k];
  }

  lemma {:induction false} SearchResultIsLine(s: string, p: nat)
    requires p <= |s|
    ensures LocationSearchFrom(s, p).Some? ==> '\n' !in LocationSearchFrom(s, p).value
    decreases |s| - p
  {
    if p < |s| {
      if LocationGroupAt(s, p).Some? {
        var g := GroupStartAt(s, p).value;
        var e := LineEnd(s, g);
        assert forall k :: 0 <= k < e - g ==> s[g..e][k] == s[g + k];
      } else {
        SearchResultIsLine(s, p + 1);
      }
    }
  }

  /** `strip` only removes characters. */
  lemma StripKeepsChars(s: string)
    ensures forall c :: c in Strip(s) ==> c in s
  {
    var t := TrimStart(s);
    TrimStartShape(s);
    TrimEndShape(t);
    forall c | c in Strip(s) ensures c in s {
      var k :| 0 <= k < |Strip(s)| && Strip(s)[k] == c;
      assert Strip(s)[k] == t[k];
      assert t[k] == s[|s| - |t| + k];
    }
  }

  /** The category rules of the chat adapter, in the order they are tried (no `'General'` fallback). */
  const TelegramRules: seq<Rule> := [
    Rule("Required", ["required", "mandatory", "attendance"]),
    Rule("Career", ["career", "job", "internship", "recruiting"]),
    Rule("Capstone", ["capstone", "thesis", "project"]),
    Rule("Social", ["social", "party", "gathering", "meetup"]),
    Rule("Deadline", ["deadline", "due", "submission"])
  ]

  /** The tag of a message: the first category with a keyword in the lower-cased text, or none. */
  function MessageTag(text: string): Option<string> {
    FirstFiring(TelegramRules, Lower(text))
  }

  /** The candidate dict `parse_event_from_message` returns for a message, or `None`. */
  function MessageCandidate(msg: Message, o: DateOracles): (r: Option<Candidate>)
    ensures r.Some? ==>
      |msg.text.GetOr("")| >= 10 && r.value.description == Present(msg.text.GetOr(""))
      && r.value.title.Present? && r.value.startTime.Present?
  {
    var text := msg.text.GetOr("");
    if |text| < 10 then None
    else
      var title := TitleOf(SplitLines(text));
      var start := DateCascadeFrom(text, o, 0);
      var location := ExtractLocation(text);
      var url := FirstUrl(text);
      var tag := MessageTag(text);
      if title.None? || start.None? then None
      else
        Some(EmptyCandidate.(
          title := Present(title.value),
          description := Present(text),
          startTime := Present(start.value),
          location := if location.Some? then Present(location.value) else Null,
          virtualUrl := if url.Some? then Present(url.value) else Null,
          tag := if tag.Some? then Present(tag.value) else Null))
  }

  /** `TelegramIngester.parse_event_from_message`, with its title loop. */
  method ParseEventFromMessage(msg: Message, o: DateOracles) returns (r: Option<Candidate>)
    ensures r == MessageCandidate(msg, o)
  {
    var text := msg.text.GetOr("");
    // `not text or len(text) < 10`: the empty text is also shorter than 10
    if |text| < 10 {
      return None;
    }
    var lines := SplitLines(text);
    var title: Option<string> := None;
    var i := 0;
    while i < |lines|
      invariant 0 <= i <= |lines|
      invariant TitleOf(lines) == TitleOf(lines[i..])
      invariant title.None?
    {
      if Strip(lines[i]) != "" {
        title := Some(Take(Strip(lines[i]), 200));
        break;
      }
      assert lines[i..][1..] == lines[i + 1..];
      i := i + 1;
    }
    assert title.None? ==> i == |lines|;
    assert title == TitleOf(lines) by {
      if title.None? {
        assert lines[i..] == [];
      }
    }
    var start := ExtractDateTime(text, o);
    var location := ExtractLocation(text);
    var url := FirstUrl(text);
    var tag := MessageTag(text);
    if title.Some? && start.Some? {
      r := Some(EmptyCandidate.(
        title := Present(title.value),
        description := Present(text),
        startTime := Present(start.value),
        location := if location.Some? then Present(location.value) else Null,
        virtualUrl := if url.Some? then Present(url.value) else Null,
        tag := if tag.Some? then Present(tag.value) else Null));
    } else {
      r := None;
    }
  }

  /** A title is non-empty, starts with a non-blank character and has at most 200 characters. */
  lemma TitleShape(lines: seq<string>)
    requires TitleOf(lines).Some?
    ensures TitleOf(lines).value != "" && !IsSpace(TitleOf(lines).value[0])
    ensures |TitleOf(lines).value| <= 200
  {
    TitleOfFirstNonBlank(lines);
    var j :| 0 <= j < |lines| && Strip(lines[j]) != "" && TitleOf(lines).value == Take(Strip(lines[j]), 200);
    var t := Strip(lines[j]);
    StripUnpadded(lines[j]);
    assert Take(t, 200)[0] == t[0];
  }

  /** A message tag is one of the five categories, the first whose keyword occurs in the lower-cased text. */
  lemma MessageTagFirstMatch(text: string)
    ensures MessageTag(text).None? <==> forall j :: 0 <= j < |TelegramRules| ==> !Fires(TelegramRules[j], Lower(text))
    ensures MessageTag(text).Some? ==> MessageTag(text).value in ["Required", "Career", "Capstone", "Social", "Deadline"]
    ensures MessageTag(text).Some? ==> exists k :: (0 <= k < |TelegramRules| && Fires(TelegramRules[k], Lower(text))
      && MessageTag(text).value == TelegramRules[k].category
      && forall j :: 0 <= j < k ==> !Fires(TelegramRules[j], Lower(text)))
  {
    FirstFiringIndexSpec(TelegramRules, Lower(text));
  }

  /**
   * A message yields a candidate exactly when its text has at least 10
   * characters, a non-blank line and a date; a message with a location but no
   * date yields nothing. The candidate keeps the whole text as description,
   * the location and the first URL (under `virtual_url`) and the tag.
   */
  lemma MessageCandidateFields(msg: Message, o: DateOracles)
    ensures var text := msg.text.GetOr("");
      MessageCandidate(msg, o).Some? <==>
        |text| >= 10 && TitleOf(SplitLines(text)).Some? && DateCascadeFrom(text, o, 0).Some?
    ensures var text := msg.text.GetOr("");
      MessageCandidate(msg, o).Some? ==>
        var c := MessageCandidate(msg, o).value;
        && c.title == Present(TitleOf(SplitLines(text)).value)
        && c.description == Present(text)
        && c.startTime == Present(DateCascadeFrom(text, o, 0).value)
        && (c.location.Present? <==> ExtractLocation(text).Some?)
        && (c.location.Present? ==> c.location.value == ExtractLocation(text).value)
        && (c.virtualUrl.Present? <==> FirstUrl(text).Some?)
        && (c.virtualUrl.Present? ==> c.virtualUrl.value == FirstUrl(text).value)
        && (c.tag.Present? <==> MessageTag(text).Some?)
        && (c.tag.Present? ==> c.tag.value == MessageTag(text).value)
        && c.meetingLink.Absent? && c.isVirtual.Absent? && c.endTime.Absent?
  {
  }

  /** Text shorter than 10 characters, or none at all, gives no event. */
  lemma ShortMessageIgnored(msg: Message, o: DateOracles)
    requires |msg.text.GetOr("")| < 10
    ensures MessageCandidate(msg, o).None?
  {
  }

  /** The chat adapter files its link under `virtual_url`, which normalisation never reads: the link is lost. */
  lemma ChatUrlIsDropped(msg: Message, o: DateOracles)
    requires MessageCandidate(msg, o).Some?
    ensures NormalizeEventData(MessageCandidate(msg, o).value).meetingLink.None?
    ensures NormalizeEventData(MessageCandidate(msg, o).value).isVirtual == Some(false)
  {
    NormalizeDefaults(MessageCandidate(msg, o).value, Absent);
  }

  /** A parsed message with its source metadata: `source_type`, `source_chat_id` and `message_id`. */
  function WithChatMetadata(c: Candidate, chatId: string, msg: Message): Candidate {
    c.(sourceType := Present("telegram"),
       sourceChatId := Present(chatId),
       messageId := if msg.messageId.Some? then Present(msg.messageId.value) else Null)
  }

  /** The events of one chat, in message order. */
  function ChatEvents(chatId: string, messages: seq<Message>, o: DateOracles): seq<Candidate> {
    if messages == [] then []
    else
      var last := messages[|messages| - 1];
      var c := MessageCandidate(last, o);
      ChatEvents(chatId, messages[..|messages| - 1], o)
        + (if c.Some? then [WithChatMetadata(c.value, chatId, last)] else [])
  }

  /** `TelegramIngester.ingest_from_chat` over the messages the chat API returned. */
  method IngestFromChat(chatId: string, messages: seq<Message>, o: DateOracles) returns (events: seq<Candidate>)
    ensures events == ChatEvents(chatId, messages, o)
  {
    events := [];
    for i := 0 to |messages|
      invariant events == ChatEvents(chatId, messages[..i], o)
    {
      var msg := messages[i];
      var event := ParseEventFromMessage(msg, o);
      if event.Some? {
        events := events + [WithChatMetadata(event.value, chatId, msg)];
      }
      assert messages[..i + 1][..i] == messages[..i];
    }
    assert messages[..|messages|] == messages;
  }

  /**
   * At most one event per message. Each event is the candidate parsed from
   * one of the chat's messages, marked as coming from this chat and carrying
   * that message's id (`None` when the message has none); the parsed fields
   * themselves are untouched.
   */
  lemma {:induction false} ChatEventsShape(chatId: string, messages: seq<Message>, o: DateOracles)
    ensures |ChatEvents(chatId, messages, o)| <= |messages|
    ensures forall e :: e in ChatEvents(chatId, messages, o) ==>
      e.sourceType == Present("telegram") && e.sourceChatId == Present(chatId)
      && e.startTime.Present? && e.title.Present?
    ensures forall e :: e in ChatEvents(chatId, messages, o) ==>
      exists k :: 0 <= k < |messages| && MessageCandidate(messages[k], o).Some?
        && e.messageId == (if messages[k].messageId.Some? then Present(messages[k].messageId.value) else Null)
        && e.(sourceType := Absent, sourceChatId := Absent, messageId := Absent) == MessageCandidate(messages[k], o).value
  {
    if messages != [] {
      var init := messages[..|messages| - 1];
      ChatEventsShape(chatId, init, o);
      forall e | e in ChatEvents(chatId, messages, o)
        ensures exists k :: (0 <= k < |messages| && MessageCandidate(messages[k], o).Some?
          && e.messageId == (if messages[k].messageId.Some? then Present(messages[k].messageId.value) else Null)
          && e.(sourceType := Absent, sourceChatId := Absent, messageId := Absent) == MessageCandidate(messages[k], o).value)
      {
        if e in ChatEvents(chatId, init, o) {
          var k :| 0 <= k < |init| && MessageCandidate(init[k], o).Some?
            && e.messageId == (if init[k].messageId.Some? then Present(init[k].messageId.value) else Null)
            && e.(sourceType := Absent, sourceChatId := Absent, messageId := Absent) == MessageCandidate(init[k], o).value;
          assert messages[k] == init[k];
        } else {
          var k := |messages| - 1;
          assert MessageCandidate(messages[k], o).Some?;
        }
      }
    }
  }

  /** Message order is kept: the events of two runs of messages are those of the first run, then those of the second. */
  lemma {:induction false} ChatEventsAppend(chatId: string, m1: seq<Message>, m2: seq<Message>, o: DateOracles)
    ensures ChatEvents(chatId, m1 + m2, o) == ChatEvents(chatId, m1, o) + ChatEvents(chatId, m2, o)
    decreases |m2|
  {
    if m2 == [] {
      assert m1 + m2 == m1;
    } else {
      var m2' := m2[..|m2| - 1];
      assert (m1 + m2)[..|m1 + m2| - 1] == m1 + m2';
      assert (m1 + m2)[|m1 + m2| - 1] == m2[|m2| - 1];
      ChatEventsAppend(chatId, m1, m2', o);
    }
  }

  /** The events of every chat, chat by chat. */
  function AllChatEvents(chatIds: seq<string>, fetch: string -> seq<Message>, o: DateOracles): seq<Candidate> {
    if chatIds == [] then []
    else
      var last := chatIds[|chatIds| - 1];
      AllChatEvents(chatIds[..|chatIds| - 1], fetch, o) + ChatEvents(last, fetch(last), o)
  }

  /**
   * `ingest_telegram_events`: `token` is `TELEGRAM_BOT_TOKEN` from the
   * environment and `fetch` the chat API's answer for each chat.
   */
  method IngestTelegramEvents(chatIds: seq<string>, token: Option<string>, fetch: string -> seq<Message>, o: DateOracles)
    returns (all: seq<Candidate>)
    ensures token.None? || token.value == "" ==> all == []
    ensures token.Some? && token.value != "" ==> all == AllChatEvents(chatIds, fetch, o)
  {
    all := [];
    if token.None? || token.value == "" {
      return;
    }
    for i := 0 to |chatIds|
      invariant all == AllChatEvents(chatIds[..i], fetch, o)
    {
      var events := IngestFromChat(chatIds[i], fetch(chatIds[i]), o);
      all := all + events;
      assert chatIds[..i + 1][..i] == chatIds[..i];
    }
    assert chatIds[..|chatIds|] == chatIds;
  }

  /**
   * The two cascades try Deadline and Social in opposite orders: on a text
   * where neither cascade's first three categories fire, but the calendar's
   * Deadline keywords and the chat's Social keywords do, the calendar says
   * Deadline and the chat says Social.
   */
  lemma CascadeOrderDiffers(text: string)
    requires forall j :: 0 <= j < 3 ==> !Fires(IcsParser.IcsRules[j], text) && !Fires(TelegramRules[j], text)
    requires Fires(IcsParser.IcsRules[3], text) && Fires(TelegramRules[3], text)
    ensures FirstFiring(IcsParser.IcsRules, text) == Some("Deadline")
    ensures FirstFiring(TelegramRules, text) == Some("Social")
  {
    FirstFiringIndexSpec(IcsParser.IcsRules, text);
    FirstFiringIndexSpec(TelegramRules, text);
  }

  /**
   * The calendar and chat cascades try Deadline and Social in opposite orders:
   * "party due" is a Deadline in a calendar and Social in a chat.
   */
  lemma CascadesDisagree()
    ensures IcsParser.InferTag(PartyDue, "") == "Deadline"
    ensures MessageTag(PartyDue) == Some("Social")
  {
    IcsPartyDue();
    ChatPartyDue();
  }

  const PartyDue: string := "party due"

  lemma PartyDueLowered()
    ensures Lower(PartyDue) == PartyDue
    ensures IcsParser.TagText(PartyDue, "") == PartyDue + " "
  {
    assert PartyDue + " " + "" == PartyDue + " ";
    assert Lower(PartyDue + " ") == Lower(PartyDue) + Lower(" ");
  }

  lemma PartyFires(text: string, r: Rule)
    requires |text| >= 5 && text[..5] == "party" && "party" in r.keywords
    ensures Fires(r, text)
  {
    assert OccursAt(text, "party", 0);
  }

  lemma DueFires(text: string, r: Rule)
    requires |text| >= 9 && text[6..9] == "due" && "due" in r.keywords
    ensures Fires(r, text)
  {
    assert OccursAt(text, "due", 6);
  }

  lemma IcsPartyDue()
    ensures IcsParser.InferTag(PartyDue, "") == "Deadline"
  {
    var text := PartyDue + " ";
    PartyDueLowered();
    IcsEarlierRulesSilent(text);
    DueFires(text, IcsParser.IcsRules[3]);
    FirstFiringIndexSpec(IcsParser.IcsRules, text);
  }

  /** None of the calendar's first three rules fires on `"party due "`. */
  lemma IcsEarlierRulesSilent(text: string)
    requires text == PartyDue + " "
    ensures forall j :: 0 <= j < 3 ==> !Fires(IcsParser.IcsRules[j], text)
  {
    RuleSilent(IcsParser.IcsRules[0], text, [2, 0, 4, 0, 0]);
    RuleSilent(IcsParser.IcsRules[1], text, [0, 0, 2, 0, 2, 0, 1]);
    RuleSilent(IcsParser.IcsRules[2], text, [0, 1, 2, 2, 0, 2]);
  }

  lemma ChatPartyDue()
    ensures MessageTag(PartyDue) == Some("Social")
  {
    PartyDueLowered();
    ChatEarlierRulesSilent(PartyDue);
    PartyFires(PartyDue, TelegramRules[3]);
    FirstFiringIndexSpec(TelegramRules, PartyDue);
  }

  /** None of the chat's first three rules fires on `"party due"`. */
  lemma ChatEarlierRulesSilent(text: string)
    requires text == PartyDue
    ensures forall j :: 0 <= j < 3 ==> !Fires(TelegramRules[j], text)
  {
    RuleSilent(TelegramRules[0], text, [2, 0, 4]);
    RuleSilent(TelegramRules[1], text, [0, 0, 0, 2]);
    RuleSilent(TelegramRules[2], text, [0, 1, 3]);
  }
}
