# Concierge ingestion, deduplication and digest selection in Dafny

Concierge collects campus events from calendar feeds and chat groups, stores
them in one events table without duplicates, and mails users a morning digest
and an afternoon reminder. This project models the core of that pipeline and
proves properties of it:

- **Deduplication** (`deduplication.dfy`, module `Deduplication`). It covers:
  - `normalize_event_data`, which turns a candidate dict into the stored
    schema;
  - `normalize_tag`, the tag synonym table;
  - `generate_fingerprint`, the SHA-256 hex digest of
    `title|isoformat(start)|location`, case-folded and stripped;
  - `is_duplicate`.

  A candidate dict is a `Candidate` record. Each key is a `Field`: `Absent`
  (key missing), `Null` (`None`) or `Present(v)`. This keeps `dict.get(k, d)`
  apart from `dict.get(k) or d`.
- **Calendar adapter** (`ics_parser.dfy`, module `IcsParser`). It covers:
  - `parse_ics_content`, which walks the decoded components;
  - `parse_vevent`: skip course-code titles and events without DTSTART, detect
    meeting hosts, take the first URL;
  - `ensure_datetime`;
  - the `infer_tag_from_event` keyword cascade.
- **Chat adapter** (`telegram_ingest.dfy`, module `TelegramIngest`). It covers:
  - `parse_event_from_message`, with its title loop, a model of the location
    regex, the URL regex and the tag cascade;
  - `_extract_datetime`'s pattern cascade;
  - `ingest_from_chat` and `ingest_telegram_events`.
- **Ingestion run** (`ingest.dfy`, module `Ingest`). It covers:
  - the events table as a class `EventStore`, which keeps the schema's NOT
    NULL `start_time` and UNIQUE `fingerprint`;
  - `store_events`;
  - the dispatch `fetch_events_from_source`;
  - `ingest_all_sources` over a `SourceTable` of source rows.
- **Digest selection** (`scheduler.dfy`, module `Scheduler`). It covers:
  - `get_user_events`, a window and tag filter followed by a sort by start;
  - the two daily jobs, which send digests and append rows to the
    `DigestLogBook`.

The supporting modules are:
- `text.dfy` (`Text`): Python's `lower`, `strip`, `title`, `split('\n')`,
  substring tests and the URL regex, on ASCII.
- `temporal.dfy` (`Temporal`): `date`/`datetime` values, `isoformat()`, and
  wall-clock ticks for comparing stored times.
- `sha256.dfy` (`Sha256`): the digest, written out in full.
- `wrappers.dfy` (`Wrappers`): `Option`.

Everything outside the process is a parameter:
- A `World` value gives the decoded calendar behind each feed URL, the bot
  token, each chat's messages and the date parser.
- The mail sender is a function `Sender`.
- `now` is an argument.

Two behaviours of the code are easy to miss.
The model follows the code in both:
- **Chat links are lost.** The chat adapter stores the message's first URL
  under `virtual_url` (backend/ingestion/telegram_ingest.py:86-88). The
  normaliser reads only `meeting_link`, so a chat event is stored with no
  meeting link and `is_virtual` false (`TelegramIngest.ChatUrlIsDropped`).
- **The date fallback also runs after a failed parse.** The code falls back
  to the whole-text parse both when no pattern matches and when every
  matching pattern's text fails to parse (lines 119-132).

Other consequences of the code that the proofs make explicit:
- **The location can start on a later line.** The `\s*` after a location
  marker also crosses newlines, so the location is read from the line where
  the text resumes (`TelegramIngest.LocationAfterFirstMarker`). It can be
  `""` after stripping.
- **Truncation can leave trailing whitespace.** A title or location cut to
  200 characters may end in whitespace.
- **The two tag cascades disagree.** The calendar cascade tries Deadline
  before Social and the chat cascade Social before Deadline, so the same text
  gets different tags (`TelegramIngest.CascadesDisagree`).
- **Re-running only skips fingerprinted events.** Re-running a batch ingests
  nothing only when every candidate gets a fingerprint. A candidate without a
  title or start skips the lookup (backend/ingestion/ingest.py:88), so a
  second run inserts exactly the candidates with a start but a blank title
  (`Ingest.StoreEventsAgainMixed`).
- **No end-after-start check.** Nothing in the code checks that `end_time` is
  not before `start_time`.

## Model

| member | source | states |
|---|---|---|
| Deduplication.GenerateFingerprint | backend/utils/deduplication.py:9-27 | the fingerprint is 64 lower-case hex digits, the width of the `fingerprint` column |
| Deduplication.FingerprintIgnoresCaseAndPadding | backend/utils/deduplication.py:20-27 | titles and locations that differ only in letter case and surrounding whitespace give the same fingerprint |
| Deduplication.FingerprintBlankLocation | backend/utils/deduplication.py:23 | a missing location and an all-whitespace one give the same fingerprint |
| Deduplication.FingerprintExample | backend/utils/deduplication.py:20-27 | "CS110 Office Hours " at " Room 305" and "cs110 office hours" at "room 305" share a fingerprint |
| Deduplication.FingerprintKeyDetermines | backend/utils/deduplication.py:20-26 | when the cleaned title holds no `|`, equal keys mean equal cleaned titles and equal start isoformats |
| Deduplication.NormalizeFingerprint | backend/utils/deduplication.py:55-61 | a fingerprint is set exactly when the stripped title is non-empty and a start is given, and it is the fingerprint of the raw title and location |
| Deduplication.NormalizeEventData | backend/utils/deduplication.py:30-63 | the record gets a fingerprint exactly when its stripped title is non-empty and it has a start |
| Deduplication.NormalizeTrims | backend/utils/deduplication.py:40-53 | title and description are the raw texts (a missing or `None` one read as `''`) with surrounding whitespace removed; location, meeting link, RSVP link and rationale are `None` exactly when blank and otherwise the raw text with surrounding whitespace removed |
| Deduplication.NormalizeDefaults | backend/utils/deduplication.py:43-48 | the zone defaults to UTC only when the key is missing; `is_virtual` defaults to false; the meeting link is never read from `virtual_url` |
| Deduplication.NormalizeTagCases | backend/utils/deduplication.py:66-91 | a falsy tag gives `None`; a stripped, lower-cased synonym gives its canonical name; any other tag is title-cased: each letter upper-cased unless it follows a letter, lower-cased when it does, other characters kept |
| Deduplication.NormalizeTag | backend/utils/deduplication.py:66-91 | the result is `None` exactly for a missing or empty tag; every other tag gives a name |
| Deduplication.NormalizeTagKeepsCategories | backend/utils/deduplication.py:70-91 | the five categories and "General" are kept as they are |
| Deduplication.NormalizeTagMandatory | backend/utils/deduplication.py:77-79 | "mandatory" becomes "Required" |
| Deduplication.NormalizeTagPaddedJobs | backend/utils/deduplication.py:75-81 | " JOBS " becomes "Career" (it is case-folded and stripped before lookup) |
| Deduplication.NormalizeTagUnknown | backend/utils/deduplication.py:91 | an unknown tag "hackathon" is passed on title-cased as "Hackathon" |
| Deduplication.NormalizeTagIdempotent | backend/utils/deduplication.py:66-91 | normalising a normalised tag changes nothing |
| Deduplication.NormalizeEstablishes | backend/utils/deduplication.py:30-63 | every normalised record satisfies the `Normalized` invariant (trimmed texts and a consistent fingerprint) |
| Deduplication.NormalizedIsFixed | backend/utils/deduplication.py:30-63 | a record satisfying the invariant is left unchanged by normalisation |
| Deduplication.NormalizeIdempotent | backend/utils/deduplication.py:30-63 | normalising an already normalised record gives it back |
| Deduplication.IsDuplicateRaisesOnMissingLocation | backend/utils/deduplication.py:103-107 | two records with no fingerprint and no location make the as-written comparison raise |
| Deduplication.IsDuplicateRefinesAsWritten | backend/utils/deduplication.py:94-109 | the corrected comparison agrees with the original wherever that one returns, and the original raises exactly when a fingerprint is missing and a location is `None` |
| Deduplication.IsDuplicateAsWritten | backend/utils/deduplication.py:94-109 | the as-written comparison raises exactly when a fingerprint is missing or empty on either side and either location is `None` |
| Deduplication.IsDuplicate | backend/utils/deduplication.py:94-109 | every record is a duplicate of itself |
| Deduplication.IsDuplicateSymmetric | backend/utils/deduplication.py:94-109 | duplicate detection is symmetric, as written and corrected |
| Deduplication.SameFieldsAreDuplicates | backend/utils/deduplication.py:98-109 | records equal in lower-cased title, start and lower-cased location are duplicates, with or without fingerprints |
| IcsParser.CourseCodeExamples | backend/ingestion/ics_parser.py:92-95 | "CS110 Lecture" and "NS101 Recitation" are course meetings; "AI Night", "Guest Lecture: AI Ethics" and a bare "CS110" are not |
| IcsParser.EnsureDateTime | backend/ingestion/ics_parser.py:148-154 | a datetime is kept; a date becomes midnight of that day with no zone |
| IcsParser.InferTagFirstMatch | backend/ingestion/ics_parser.py:157-200 | the tag is one of six values: "General" exactly when no keyword occurs, otherwise the category of the first rule that fires |
| IcsParser.InferTag | backend/ingestion/ics_parser.py:157-200 | the tag is one of the five categories or "General" |
| IcsParser.InferTagMandatoryCareerFair | backend/ingestion/ics_parser.py:163-177 | "Mandatory Career Fair" is Required: the earlier rule wins |
| IcsParser.ParseVEvent | backend/ingestion/ics_parser.py:76-145 | the method's loop over the meeting hosts computes the candidate `VEventCandidate` describes |
| IcsParser.VEventCandidateFields | backend/ingestion/ics_parser.py:86-141 | a VEVENT yields a candidate exactly when its title has no course-code prefix and it has a DTSTART; then it carries the title, description, start, end (`None` without DTEND), UID (or `''`), zone (the DTSTART's own zone name when it is an aware datetime, `"UTC"` otherwise), non-empty location and tag; it is virtual exactly when the description names a meeting host, and has a meeting link exactly when it is virtual and the description holds a URL, that link being the first URL |
| IcsParser.VEventCandidate | backend/ingestion/ics_parser.py:86-102 | a VEVENT gives a candidate exactly when its title has no course-code prefix and it has a DTSTART |
| IcsParser.ParseIcsContent | backend/ingestion/ics_parser.py:49-73 | an undecodable calendar gives `[]`; otherwise the candidates of the VEVENTs in walk order |
| IcsParser.ParsedComponentsAppend | backend/ingestion/ics_parser.py:64-68 | parsing two component lists one after the other is parsing their concatenation |
| IcsParser.ParsedComponentsBound | backend/ingestion/ics_parser.py:64-68 | at most one candidate per VEVENT, and none without VEVENTs |
| IcsParser.ParsedComponentsSound | backend/ingestion/ics_parser.py:64-68 | every candidate comes from a VEVENT of the calendar and has a start, a title and the tag the cascade gives |
| TelegramIngest.ExtractDateTime | backend/ingestion/telegram_ingest.py:109-132 | the loop returns what the pattern cascade `DateCascadeFrom` defines |
| TelegramIngest.DateCascadeFirstSuccess | backend/ingestion/telegram_ingest.py:119-132 | the first pattern that matches and parses decides; the whole-text parse is used only when none does; no date exactly when every attempt fails |
| TelegramIngest.TitleOfFirstNonBlank | backend/ingestion/telegram_ingest.py:71-75 | the title is the first non-blank line, stripped and cut to 200 characters; `None` when every line is blank |
| TelegramIngest.TitleShape | backend/ingestion/telegram_ingest.py:71-75 | a title is non-empty, starts with a non-blank character and has at most 200 characters |
| TelegramIngest.TitleOf | backend/ingestion/telegram_ingest.py:71-75 | a title has at most 200 characters |
| TelegramIngest.LocationNeedsMarker | backend/ingestion/telegram_ingest.py:80-83 | without a pin, `Location:` or `Venue:` marker there is no location |
| TelegramIngest.SearchSkipsToMarker | backend/ingestion/telegram_ingest.py:81 | the search result is decided at the first marker |
| TelegramIngest.LocationAfterFirstMarker | backend/ingestion/telegram_ingest.py:80-83 | the location is the line where the text resumes after the first marker, stripped and cut to 200 characters |
| TelegramIngest.LocationShape | backend/ingestion/telegram_ingest.py:81-83 | a location holds no newline and has at most 200 characters |
| TelegramIngest.ExtractLocation | backend/ingestion/telegram_ingest.py:80-83 | a location has at most 200 characters |
| TelegramIngest.ParseEventFromMessage | backend/ingestion/telegram_ingest.py:46-107 | the method, with its title loop, returns the candidate `MessageCandidate` describes |
| TelegramIngest.MessageTagFirstMatch | backend/ingestion/telegram_ingest.py:90-101 | a message tag is `None` exactly when no keyword occurs; otherwise it is the category of the first rule that fires |
| TelegramIngest.MessageCandidateFields | backend/ingestion/telegram_ingest.py:55-107 | a message yields a candidate exactly when it has at least 10 characters, a non-blank line and a date; the candidate keeps title, text, start, location, URL (as `virtual_url`) and tag |
| TelegramIngest.MessageCandidate | backend/ingestion/telegram_ingest.py:55-107 | a candidate needs a text of at least 10 characters, keeps that text as its description, and has a title and a start |
| TelegramIngest.ShortMessageIgnored | backend/ingestion/telegram_ingest.py:55-57 | a missing text or one under 10 characters gives no event |
| TelegramIngest.ChatUrlIsDropped | backend/ingestion/telegram_ingest.py:85-88 | after normalisation a chat event has no meeting link and is not virtual |
| TelegramIngest.IngestFromChat | backend/ingestion/telegram_ingest.py:134-148 | the loop gives `ChatEvents`: the parsed messages in order, each tagged with its chat metadata |
| TelegramIngest.ChatEventsShape | backend/ingestion/telegram_ingest.py:139-146 | at most one event per message; each is the candidate parsed from one of the chat's messages, marked `telegram` with its chat id and that message's id (`None` when it has none), with a title and a start |
| TelegramIngest.ChatEventsAppend | backend/ingestion/telegram_ingest.py:139-148 | message order is kept: the events of two runs of messages are those of the first run followed by those of the second |
| TelegramIngest.IngestTelegramEvents | backend/ingestion/telegram_ingest.py:151-168 | with no token or an empty one the result is `[]`; otherwise every chat's events, chat by chat |
| TelegramIngest.CascadesDisagree | backend/ingestion/telegram_ingest.py:90-101 | "party due" is a Deadline in a calendar and Social in a chat |
| TelegramIngest.CascadeOrderDiffers | backend/ingestion/telegram_ingest.py:90-101 | on any text where only the later categories fire, the calendar cascade picks Deadline and the chat cascade Social |
| Ingest.EventStore.HasFingerprint | backend/ingestion/ingest.py:88-93 | found exactly when some stored row carries the fingerprint |
| Ingest.EventStore.Insert | backend/ingestion/ingest.py:97-105 | the row is appended exactly when it has a start and an unused or absent fingerprint, otherwise nothing changes; the table's constraints are kept |
| Ingest.StoreOne | backend/ingestion/ingest.py:82-106 | one candidate is a duplicate, inserted or dropped as `StoreOutcome` says, the table changes accordingly and keeps its constraints |
| Ingest.StoreEvents | backend/ingestion/ingest.py:71-108 | the loop's table and counters are those of `StoreBatch` over the normalised candidates, and the table keeps its constraints |
| Ingest.StoreBatch | backend/ingestion/ingest.py:71-108 | each event adds to at most one counter, and the table grows by exactly `ingested` rows |
| Ingest.StoreBatchCounts | backend/ingestion/ingest.py:78-108 | ingested plus duplicates is at most the batch size; the table grows by exactly `ingested` rows after the untouched old ones, each from the batch and filed under the source |
| Ingest.StoreBatchAppend | backend/ingestion/ingest.py:78-108 | storing one batch and then another is storing their concatenation, with the counters added |
| Ingest.StoreBatchKeepsStored | backend/ingestion/ingest.py:88-101 | a fingerprint stored before a batch is still stored after it |
| Ingest.StoreBatchKeepsValid | backend/ingestion/ingest.py:88-101 | storing a batch keeps fingerprints unique and a start on every row |
| Ingest.StoreBatchStoresFingerprints | backend/ingestion/ingest.py:88-101 | afterwards every fingerprint of the batch is stored |
| Ingest.StoreBatchAllDuplicates | backend/ingestion/ingest.py:88-95 | a batch whose fingerprints are all stored changes nothing and counts every event as a duplicate |
| Ingest.StoreAgainIngestsNothing | backend/ingestion/ingest.py:88-95 | storing the same fingerprinted batch twice: the second run ingests nothing |
| Ingest.StoreEventsAgain | backend/ingestion/ingest.py:81-101 | running `store_events` again on candidates that all get a fingerprint ingests nothing and counts all as duplicates |
| Ingest.SameBatchDuplicate | backend/ingestion/ingest.py:88-101 | in any batch, once an event with a start and a fingerprint has been processed, every later event of the batch with that fingerprint is a duplicate |
| Ingest.SameBatchPair | backend/ingestion/ingest.py:88-101 | the same fingerprinted event twice in one batch is stored once and counted once as a duplicate |
| Ingest.StoreBatchOverStored | backend/ingestion/ingest.py:88-101 | against a table that holds every fingerprint of a batch, each fingerprinted event is a duplicate and exactly the events without a fingerprint and with a start are inserted |
| Ingest.StoreAgainOnlyUnkeyed | backend/ingestion/ingest.py:88-101 | the second run of any batch counts every fingerprinted event as a duplicate and ingests exactly its events without a fingerprint that have a start |
| Ingest.StoreEventsAgainMixed | backend/ingestion/ingest.py:81-101 | the same for `store_events` run twice on any candidates |
| Ingest.UnfingerprintedInserted | backend/ingestion/ingest.py:88-101 | an event without a fingerprint skips the lookup: it is inserted when it has a start and dropped otherwise |
| Ingest.SourceTable.MarkFetched | backend/ingestion/ingest.py:35-37 | only the chosen source's `last_fetched` changes |
| Ingest.FetchDispatch | backend/ingestion/ingest.py:51-68 | calendar sources read their feed, telegram sources their one chat (none without a URL), every other type gives nothing |
| Ingest.FetchEventsFromSource | backend/ingestion/ingest.py:51-68 | a type other than ics and telegram gives nothing, and so does telegram without a bot token |
| Ingest.IngestEachSource | backend/ingestion/ingest.py:20-43 | totals and table are those of `IngestSources` over the active sources; exactly the active sources are stamped with `now` |
| Ingest.IngestAllSources | backend/ingestion/ingest.py:13-48 | the same, with `fetch_events_from_source` as the fetcher |
| Ingest.IngestSourcesKeepsStore | backend/ingestion/ingest.py:25-43 | a run only appends, by exactly the total ingested, and keeps the table's constraints |
| Ingest.IngestSources | backend/ingestion/ingest.py:25-35 | the table grows by exactly the total ingested |
| Scheduler.UpcomingCount | backend/scheduler.py:136-146 | the filter keeps each row in the window (and subscribed) as often as the table holds it, and no other row |
| Scheduler.InsertByCount | backend/scheduler.py:140 | inserting into the sorted list adds exactly that element |
| Scheduler.InsertBySorted | backend/scheduler.py:140 | inserting into a sorted list keeps it sorted |
| Scheduler.SortBySorted | backend/scheduler.py:140 | the sort is ascending by start and a permutation of its input |
| Scheduler.GetUserEventsSpec | backend/scheduler.py:118-148 | the result is sorted by start and holds each wanted row exactly as often as the table, and nothing else |
| Scheduler.GetUserEvents | backend/scheduler.py:118-148 | never more events than the table holds |
| Scheduler.GetUserEventsInWindow | backend/scheduler.py:129-145 | every event returned starts between `now` and `now + hours`, both included |
| Scheduler.GetUserEventsUnsubscribed | backend/scheduler.py:136-140 | without subscriptions, exactly the rows in the window are returned |
| Scheduler.GetUserEventsSubscribed | backend/scheduler.py:141-146 | with subscriptions, exactly the rows in the window whose tag is subscribed are returned |
| Scheduler.LogsShape | backend/scheduler.py:58-64 | one log row per digest, with its type, user and event count |
| Scheduler.DigestsSpec | backend/scheduler.py:44-98 | each digest goes to an enabled user with that user's events for the window; 15:00 digests are non-empty; every user not skipped gets one |
| Scheduler.Digests | backend/scheduler.py:44-115 | no more digests than users |
| Scheduler.DigestsCount | backend/scheduler.py:44-115 | a user the job does not skip (digest enabled, and at 15:00 a non-empty list) gets exactly one digest per appearance in the user list; any other user gets none |
| Scheduler.AfternoonSkipsEmpty | backend/scheduler.py:88-92 | a user with no events in the next 9 hours is sent nothing and logged nothing; every 15:00 log row counts at least one event |
| Scheduler.DigestLogBook.Add | backend/scheduler.py:101-108 | the log row is appended |
| Scheduler.RunDigestJob | backend/scheduler.py:85-115 | the loop sends `Digests` and appends `Logs` of them to the log book |
| Scheduler.SendToUser | backend/scheduler.py:85-108 | one user's turn: the user is skipped, or the digest is sent and its log row appended, as `AfterUser` says |
| Scheduler.JobSendMorningDigest | backend/scheduler.py:38-74 | every user with the 08:00 digest on is sent the next 24 hours and logged |
| Scheduler.JobSendAfternoonReminder | backend/scheduler.py:77-115 | users with the 15:00 reminder on are sent the next 9 hours, unless that is empty, and logged |
| Text.StripLowerCommute | backend/utils/deduplication.py:21 | `lower().strip()` and `strip().lower()` agree |
| Text.StripIdempotent | backend/utils/deduplication.py:41 | stripping twice is stripping once |
| Text.StripEmptyIffBlank | backend/utils/deduplication.py:46 | strip gives `''` exactly for all-whitespace text |
| Text.StripKeepsMiddle | backend/utils/deduplication.py:41 | `strip()` gives the string with a whitespace-only prefix and a whitespace-only suffix removed |
| Text.StripUnique | backend/utils/deduplication.py:41 | conversely, a middle of the string with no surrounding whitespace is what `strip()` gives |
| Text.TitleCaseIdempotent | backend/utils/deduplication.py:91 | `title()` applied twice is `title()` once |
| Text.TitleCaseChars | backend/utils/deduplication.py:91 | `title()` character by character: upper-cased unless it follows a letter, lower-cased when it does |
| Text.FirstFiringIndexSpec | backend/ingestion/ics_parser.py:165-200 | no rule before the chosen one fires, and the chosen one does unless none fires |
| Text.FirstUrlIsLeftmostMatch | backend/ingestion/ics_parser.py:122 | the URL found is the leftmost match of `https?://[^\s]+`, and none is found exactly when none matches |
| Text.FirstUrlShape | backend/ingestion/telegram_ingest.py:86 | a URL found starts with `http://` or `https://`, has a non-empty tail and holds no whitespace |
| Text.JoinSplitLines | backend/ingestion/telegram_ingest.py:59 | joining the split lines with newlines gives the text back |
| Temporal.IsoFormat | backend/utils/deduplication.py:22 | `isoformat()` has at least 19 characters, all digits, `-`, `:`, `.`, `T` or `+` |
| Sha256.HexDigest | backend/utils/deduplication.py:27 | `hexdigest()` is 64 lower-case hex digits |

## Left out

- The network and files are inputs, not modelled. This covers `parse_ics_url`, `parse_ics_from_file`, `TelegramIngester.get_chat_messages` and `Calendar.from_ical`. The model takes the decoded components and the chat messages as values, and a failed download or decoding as `None`.
- The three date regexes and `dateutil.parser.parse(..., fuzzy=True)` are oracles in `DateOracles`. Their exceptions are folded into `None`, as the bare `except` does.
- Text handling is ASCII only. `lower`, `strip`, `title`, `\s` and `re.IGNORECASE` are defined on ASCII. Non-ASCII letters and Unicode whitespace are not folded. The one non-ASCII character handled is the pin marker.
- `datetime.utcnow()` is the argument `now`. The zone of stored datetimes is dropped: times are compared by wall clock, like a column with no time zone. The overflow of `now + timedelta(hours)` near year 9999 is not modelled.
- Scheduler.GetUserEvents: events with equal start times are returned in table order, because the stable `SortBy` keeps it. SQL leaves that order unspecified, and `GetUserEventsSpec` states only sortedness and the multiset of rows.
- The `String(n)` length limits of the schema are not enforced. Only NOT NULL `start_time` and UNIQUE `fingerprint` are. Other commit failures of `store_events` are not modelled.
- Ingest.IngestSources: the sources are processed in table order. `Source.query.filter_by(active=True).all()` (backend/ingestion/ingest.py:20) has no ORDER BY, so the database may return another order, and the order decides which source's copy of a shared fingerprint is stored.
- Ingest.IngestAllSources: the commit of `last_fetched` is taken to succeed. The totals were already added when it runs, so a failing commit would not change them.
- `parse_vevent`'s `try/except` is not modelled. The modelled steps cannot raise on the value types given here.
- `send_digest_to_user` and the digest e-mail body are out of scope; the mail sender is the parameter `Sender`.
- Exceptions in the job loops are not modelled, and neither are the `sent_at` and `error_message` columns of `DigestLog`.
- The APScheduler cron set-up in `main`, `job_ingest_events`, the Flask application and sessions, the printing, and the one-off CLI and seed scripts are not part of this model.
- Scheduler.RunDigestJob and Ingest.IngestEachSource: each takes its per-item query as a function parameter (`select`, `fetch`), to keep the proofs small. `JobSendMorningDigest`, `JobSendAfternoonReminder` and `IngestAllSources` pass it `get_user_events` or `fetch_events_from_source`. The users passed in stand for the `digest_xx_enabled=True` query, which the loop re-checks.

## Findings

| source | as written | input that shows it | evidently intended | confidence | as-written member | corrected member |
|---|---|---|---|---|---|---|
| backend/utils/deduplication.py:103-107 | the field comparison calls `.lower()` on `get('location', '')`. A normalised record always has the key, and its value is `None` when the location is blank | two normalised records with no title or start (no fingerprint) and no location | a missing location compares as `''`, as the default `''` suggests | not executed | Deduplication.IsDuplicateRaisesOnMissingLocation | Deduplication.IsDuplicateRefinesAsWritten |
