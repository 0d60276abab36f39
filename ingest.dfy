/**
 * The ingestion run (backend/ingestion/ingest.py): every active source is
 * fetched, its candidates normalised, and each one stored unless an event
 * with the same fingerprint is already in the events table.
 * The table is `EventStore`; its rows keep the two constraints of the schema
 * that matter here: `start_time` is NOT NULL and `fingerprint` is UNIQUE.
 */
module Ingest {
  import opened Wrappers
  import opened Temporal
  import opened Deduplication
  import IcsParser
  import TelegramIngest

  /** A row of the events table: the normalised event and the id of its source. */
  datatype StoredEvent = StoredEvent(event: NormalizedEvent, sourceId: int)

  /** Some stored row carries fingerprint `fp`. */
  predicate FingerprintStored(rows: seq<StoredEvent>, fp: string) {
    exists k :: 0 <= k < |rows| && rows[k].event.fingerprint == Some(fp)
  }

  /** The UNIQUE constraint on `fingerprint`: no two rows share one (rows without one are free). */
  predicate FingerprintsUnique(rows: seq<StoredEvent>) {
    forall i, j :: 0 <= i < j < |rows| && rows[i].event.fingerprint.Some? ==>
      rows[i].event.fingerprint != rows[j].event.fingerprint
  }

  /** What the table guarantees of its rows: unique fingerprints and a start time on each row. */
  predicate ValidRows(rows: seq<StoredEvent>) {
    FingerprintsUnique(rows) && forall k :: 0 <= k < |rows| ==> rows[k].event.startTime.Some?
  }

  /** The events table. */
  class EventStore {
    var rows: seq<StoredEvent>

    constructor()
      ensures rows == [] && Valid()
    {
      rows := [];
    }

    predicate Valid()
      reads this
    {
      ValidRows(rows)
    }

    /** `Event.query.filter_by(fingerprint=fp).first()` is not `None`. */
    method HasFingerprint(fp: string) returns (found: bool)
      ensures found <==> FingerprintStored(rows, fp)
    {
      found := false;
      var k := 0;
      while k < |rows|
        invariant 0 <= k <= |rows|
        invariant forall j :: 0 <= j < k ==> rows[j].event.fingerprint != Some(fp)
      {
        if rows[k].event.fingerprint == Some(fp) {
          return true;
        }
        k := k + 1;
      }
    }

    /**
     * `db.session.add(Event(**normalized))` and `commit()`: the row is added
     * unless it breaks a constraint (no start time, or a fingerprint already
     * stored), in which case the commit fails and nothing changes.
     */
    method Insert(e: NormalizedEvent, sourceId: int) returns (ok: bool)
      modifies this
      ensures ok <==> e.startTime.Some? && (e.fingerprint.None? || !FingerprintStored(old(rows), e.fingerprint.value))
      ensures rows == if ok then old(rows) + [StoredEvent(e, sourceId)] else old(rows)
      ensures old(Valid()) ==> Valid()
    {
      ok := e.startTime.Some?;
      if ok && e.fingerprint.Some? {
        var taken := HasFingerprint(e.fingerprint.value);
        ok := !taken;
      }
      if ok {
        rows := rows + [StoredEvent(e, sourceId)];
      }
    }
  }

  /** The running result of `store_events`: the table and the two counters. */
  datatype StoreResult = StoreResult(rows: seq<StoredEvent>, ingested: nat, duplicates: nat)

  /** What happens to one candidate: counted as a duplicate, inserted, or dropped by a failed commit. */
  datatype Outcome = Duplicate | Inserted | Failed

  function StoreOutcome(rows: seq<StoredEvent>, e: NormalizedEvent): Outcome {
    if e.fingerprint.Some? && FingerprintStored(rows, e.fingerprint.value) then Duplicate
    else if e.startTime.None? then Failed
    else Inserted
  }

  /** One candidate's effect on the running result. */
  function StoreStep(r: StoreResult, e: NormalizedEvent, sourceId: int): StoreResult {
    match StoreOutcome(r.rows, e)
    case Duplicate => r.(duplicates := r.duplicates + 1)
    case Failed => r
    case Inserted => StoreResult(r.rows + [StoredEvent(e, sourceId)], r.ingested + 1, r.duplicates)
  }

  /** The candidates as `normalize_event_data` leaves them. */
  function NormalizeAll(events: seq<Candidate>): (r: seq<NormalizedEvent>)
    ensures |r| == |events|
    ensures forall k :: 0 <= k < |events| ==> r[k] == NormalizeEventData(events[k])
  {
    seq(|events|, k requires 0 <= k < |events| => NormalizeEventData(events[k]))
  }

  /** Normalised events stored one after another into the table `rows`. */
  function StoreBatch(rows: seq<StoredEvent>, es: seq<NormalizedEvent>, sourceId: int): (r: StoreResult)
    ensures r.ingested + r.duplicates <= |es|
    ensures |r.rows| == |rows| + r.ingested
  {
    if es == [] then StoreResult(rows, 0, 0)
    else StoreStep(StoreBatch(rows, es[..|es| - 1], sourceId), es[|es| - 1], sourceId)
  }

  /** The body of `store_events`' loop for one normalised candidate: look its fingerprint up, then insert it. */
  method StoreOne(store: EventStore, e: NormalizedEvent, sourceId: int) returns (outcome: Outcome)
    requires store.Valid()
    modifies store
    ensures outcome == StoreOutcome(old(store.rows), e)
    ensures store.rows == StoreStep(StoreResult(old(store.rows), 0, 0), e, sourceId).rows
    ensures store.Valid()
  {
    if e.fingerprint.Some? {
      var existing := store.HasFingerprint(e.fingerprint.value);
      if existing {
        return Duplicate;
      }
    }
    var ok := store.Insert(e, sourceId);
    outcome := if ok then Inserted else Failed;
  }

  lemma StoreBatchStep(rows: seq<StoredEvent>, es: seq<NormalizedEvent>, i: nat, sourceId: int)
    requires i < |es|
    ensures StoreBatch(rows, es[..i + 1], sourceId) == StoreStep(StoreBatch(rows, es[..i], sourceId), es[i], sourceId)
  {
    assert es[..i + 1][..i] == es[..i];
  }

  /** `store_events`: normalise each candidate, count it as a duplicate if its fingerprint is stored, else insert it. */
  method StoreEvents(store: EventStore, events: seq<Candidate>, sourceId: int) returns (ingested: nat, duplicates: nat)
    requires store.Valid()
    modifies store
    ensures StoreResult(store.rows, ingested, duplicates) == StoreBatch(old(store.rows), NormalizeAll(events), sourceId)
    ensures store.Valid()
  {
    ghost var es := NormalizeAll(events);
    ingested, duplicates := 0, 0;
    for i := 0 to |events|
      invariant StoreResult(store.rows, ingested, duplicates) == StoreBatch(old(store.rows), es[..i], sourceId)
      invariant store.Valid()
    {
      StoreBatchStep(old(store.rows), es, i, sourceId);
      var normalized := NormalizeEventData(events[i]);
      var outcome := StoreOne(store, normalized, sourceId);
      if outcome == Duplicate {
        duplicates := duplicates + 1;
      } else if outcome == Inserted {
        ingested := ingested + 1;
      }
    }
    assert es[..|events|] == es;
  }

  /**
   * Each event adds to at most one counter; the table only grows, by exactly
   * `ingested` rows appended after the untouched old ones, each one of the
   * batch's events filed under `sourceId`.
   */
  lemma {:induction false} StoreBatchCounts(rows: seq<StoredEvent>, es: seq<NormalizedEvent>, sourceId: int)
    ensures var r := StoreBatch(rows, es, sourceId);
      && r.ingested + r.duplicates <= |es|
      && |r.rows| == |rows| + r.ingested
      && r.rows[..|rows|] == rows
      && forall k :: |rows| <= k < |r.rows| ==> r.rows[k].sourceId == sourceId && r.rows[k].event in es
  {
    if es != [] {
      var init := es[..|es| - 1];
      StoreBatchCounts(rows, init, sourceId);
      var r := StoreBatch(rows, init, sourceId);
      var r' := StoreBatch(rows, es, sourceId);
      forall k | |rows| <= k < |r'.rows|
        ensures r'.rows[k].sourceId == sourceId && r'.rows[k].event in es
      {
        if k < |r.rows| {
          assert r.rows[k].event in init;
        }
      }
    }
  }

  /** `store_events` keeps the table's constraints: fingerprints stay unique and every row has a start time. */
  lemma {:induction false} StoreBatchKeepsValid(rows: seq<StoredEvent>, es: seq<NormalizedEvent>, sourceId: int)
    requires ValidRows(rows)
    ensures ValidRows(StoreBatch(rows, es, sourceId).rows)
  {
    if es != [] {
      StoreBatchKeepsValid(rows, es[..|es| - 1], sourceId);
    }
  }

  /** After `store_events`, the fingerprint of every fingerprinted event of the batch is stored. */
  lemma {:induction false} StoreBatchStoresFingerprints(rows: seq<StoredEvent>, es: seq<NormalizedEvent>, sourceId: int)
    requires forall e :: e in es && e.fingerprint.Some? ==> e.startTime.Some?
    ensures forall e :: e in es && e.fingerprint.Some? ==>
      FingerprintStored(StoreBatch(rows, es, sourceId).rows, e.fingerprint.value)
  {
    if es != [] {
      var init := es[..|es| - 1];
      StoreBatchStoresFingerprints(rows, init, sourceId);
      var r := StoreBatch(rows, init, sourceId);
      var r' := StoreBatch(rows, es, sourceId);
      forall e | e in es && e.fingerprint.Some?
        ensures FingerprintStored(r'.rows, e.fingerprint.value)
      {
        assert r'.rows == r.rows || r'.rows == r.rows + [StoredEvent(es[|es| - 1], sourceId)];
        if e in init {
          var k :| 0 <= k < |r.rows| && r.rows[k].event.fingerprint == e.fingerprint;
          assert r'.rows[k] == r.rows[k];
        } else {
          assert e == es[|es| - 1];
          if StoreOutcome(r.rows, e) == Inserted {
            assert r'.rows[|r.rows|].event.fingerprint == e.fingerprint;
          }
        }
      }
    }
  }

  /** Storing a batch whose fingerprints are all present already changes nothing and counts every event as a duplicate. */
  lemma {:induction false} StoreBatchAllDuplicates(rows: seq<StoredEvent>, es: seq<NormalizedEvent>, sourceId: int)
    requires forall e :: e in es ==> e.fingerprint.Some? && FingerprintStored(rows, e.fingerprint.value)
    ensures StoreBatch(rows, es, sourceId) == StoreResult(rows, 0, |es|)
  {
    if es != [] {
      StoreBatchAllDuplicates(rows, es[..|es| - 1], sourceId);
      assert es[|es| - 1] in es;
    }
  }

  /** Normalisation gives a fingerprint only to events with a start time. */
  lemma NormalizeAllFingerprinted(events: seq<Candidate>)
    ensures forall e :: e in NormalizeAll(events) && e.fingerprint.Some? ==> e.startTime.Some?
  {
    forall e | e in NormalizeAll(events) && e.fingerprint.Some? ensures e.startTime.Some? {
      var k :| 0 <= k < |events| && NormalizeAll(events)[k] == e;
      NormalizeFingerprint(events[k]);
    }
  }

  /** Running the same batch again ingests nothing when every event has a fingerprint: each counts as a duplicate. */
  lemma StoreAgainIngestsNothing(rows: seq<StoredEvent>, es: seq<NormalizedEvent>, sourceId: int)
    requires forall e :: e in es ==> e.fingerprint.Some? && e.startTime.Some?
    ensures var first := StoreBatch(rows, es, sourceId);
      StoreBatch(first.rows, es, sourceId) == StoreResult(first.rows, 0, |es|)
  {
    StoreBatchStoresFingerprints(rows, es, sourceId);
    StoreBatchAllDuplicates(StoreBatch(rows, es, sourceId).rows, es, sourceId);
  }

  /** `store_events` run twice on candidates that all get a fingerprint: the second run ingests nothing. */
  lemma StoreEventsAgain(rows: seq<StoredEvent>, events: seq<Candidate>, sourceId: int)
    requires forall c :: c in events ==> NormalizeEventData(c).fingerprint.Some?
    ensures var es := NormalizeAll(events);
      var first := StoreBatch(rows, es, sourceId);
      StoreBatch(first.rows, es, sourceId) == StoreResult(first.rows, 0, |events|)
  {
    var es := NormalizeAll(events);
    NormalizeAllFingerprinted(events);
    forall e | e in es ensures e.fingerprint.Some? && e.startTime.Some? {
      var k :| 0 <= k < |events| && es[k] == e;
      assert events[k] in events;
    }
    StoreAgainIngestsNothing(rows, es, sourceId);
  }

  /** Storing one batch and then another is storing their concatenation; the counters add up. */
  lemma {:induction false} StoreBatchAppend(rows: seq<StoredEvent>, a: seq<NormalizedEvent>, b: seq<NormalizedEvent>, sourceId: int)
    ensures var ra := StoreBatch(rows, a, sourceId);
      var rb := StoreBatch(ra.rows, b, sourceId);
      StoreBatch(rows, a + b, sourceId) == StoreResult(rb.rows, ra.ingested + rb.ingested, ra.duplicates + rb.duplicates)
    decreases |b|
  {
    if b == [] {
      assert a + b == a;
    } else {
      var b' := b[..|b| - 1];
      assert (a + b)[..|a + b| - 1] == a + b';
      assert (a + b)[|a + b| - 1] == b[|b| - 1];
      StoreBatchAppend(rows, a, b', sourceId);
    }
  }

  /** A stored fingerprint stays stored: storing a batch only appends rows. */
  lemma StoreBatchKeepsStored(rows: seq<StoredEvent>, es: seq<NormalizedEvent>, sourceId: int, fp: string)
    requires FingerprintStored(rows, fp)
    ensures FingerprintStored(StoreBatch(rows, es, sourceId).rows, fp)
  {
    StoreBatchCounts(rows, es, sourceId);
    var k :| 0 <= k < |rows| && rows[k].event.fingerprint == Some(fp);
    assert StoreBatch(rows, es, sourceId).rows[k] == rows[k];
  }

  /**
   * A fingerprint met earlier in the same batch, on an event with a start
   * time, makes every later event with that fingerprint a duplicate: the
   * earlier one was either inserted or already stored.
   */
  lemma SameBatchDuplicate(rows: seq<StoredEvent>, es: seq<NormalizedEvent>, i: nat, j: nat, sourceId: int)
    requires i < j < |es|
    requires es[i].fingerprint.Some? && es[j].fingerprint == es[i].fingerprint && es[i].startTime.Some?
    ensures StoreOutcome(StoreBatch(rows, es[..j], sourceId).rows, es[j]) == Duplicate
  {
    var fp := es[i].fingerprint.value;
    StoreBatchStep(rows, es, i, sourceId);
    var before := StoreBatch(rows, es[..i], sourceId);
    var after := StoreBatch(rows, es[..i + 1], sourceId);
    if StoreOutcome(before.rows, es[i]) != Duplicate {
      assert after.rows[|before.rows|].event.fingerprint == Some(fp);
    }
    assert FingerprintStored(after.rows, fp);
    StoreBatchKeepsStored(after.rows, es[i + 1..j], sourceId, fp);
    StoreBatchAppend(rows, es[..i + 1], es[i + 1..j], sourceId);
    assert es[..i + 1] + es[i + 1..j] == es[..j];
  }

  /** The smallest case: the same event twice is stored once and counted once as a duplicate. */
  lemma SameBatchPair(rows: seq<StoredEvent>, e: NormalizedEvent, sourceId: int)
    requires e.fingerprint.Some? && e.startTime.Some?
    requires !FingerprintStored(rows, e.fingerprint.value)
    ensures StoreBatch(rows, [e, e], sourceId) == StoreResult(rows + [StoredEvent(e, sourceId)], 1, 1)
  {
    assert [e, e][..1] == [e];
    assert [e][..0] == [];
    var rows' := rows + [StoredEvent(e, sourceId)];
    assert StoreBatch(rows, [e], sourceId) == StoreResult(rows', 1, 0);
    assert rows'[|rows|].event.fingerprint == e.fingerprint;
    assert FingerprintStored(rows', e.fingerprint.value);
  }

  /** How many events of the batch carry a fingerprint. */
  function FingerprintedCount(es: seq<NormalizedEvent>): nat {
    if es == [] then 0
    else FingerprintedCount(es[..|es| - 1]) + (if es[|es| - 1].fingerprint.Some? then 1 else 0)
  }

  /** How many events of the batch have no fingerprint but a start time: those the lookup skips and the insert accepts. */
  function UnkeyedCount(es: seq<NormalizedEvent>): nat {
    if es == [] then 0
    else UnkeyedCount(es[..|es| - 1]) + (if es[|es| - 1].fingerprint.None? && es[|es| - 1].startTime.Some? then 1 else 0)
  }

  /**
   * Against a table that already holds every fingerprint of the batch, each
   * fingerprinted event is a duplicate and only the events without a
   * fingerprint (and with a start time) are inserted.
   */
  lemma {:induction false} StoreBatchOverStored(rows: seq<StoredEvent>, es: seq<NormalizedEvent>, sourceId: int)
    requires forall e :: e in es && e.fingerprint.Some? ==> FingerprintStored(rows, e.fingerprint.value)
    ensures StoreBatch(rows, es, sourceId).duplicates == FingerprintedCount(es)
    ensures StoreBatch(rows, es, sourceId).ingested == UnkeyedCount(es)
  {
    if es != [] {
      var init := es[..|es| - 1];
      var e := es[|es| - 1];
      assert forall x :: x in init ==> x in es;
      StoreBatchOverStored(rows, init, sourceId);
      assert e in es;
      if e.fingerprint.Some? {
        StoreBatchKeepsStored(rows, init, sourceId, e.fingerprint.value);
      }
    }
  }

  /**
   * Running a batch a second time, whatever mix of events it holds, ingests
   * only its events without a fingerprint: every fingerprinted one counts as a
   * duplicate.
   */
  lemma StoreAgainOnlyUnkeyed(rows: seq<StoredEvent>, es: seq<NormalizedEvent>, sourceId: int)
    requires forall e :: e in es && e.fingerprint.Some? ==> e.startTime.Some?
    ensures var first := StoreBatch(rows, es, sourceId);
      var second := StoreBatch(first.rows, es, sourceId);
      second.ingested == UnkeyedCount(es) && second.duplicates == FingerprintedCount(es)
  {
    StoreBatchStoresFingerprints(rows, es, sourceId);
    StoreBatchOverStored(StoreBatch(rows, es, sourceId).rows, es, sourceId);
  }

  /** `store_events` run twice on any candidates: the second run inserts only those that get no fingerprint. */
  lemma StoreEventsAgainMixed(rows: seq<StoredEvent>, events: seq<Candidate>, sourceId: int)
    ensures var es := NormalizeAll(events);
      var first := StoreBatch(rows, es, sourceId);
      var second := StoreBatch(first.rows, es, sourceId);
      second.ingested == UnkeyedCount(es) && second.duplicates == FingerprintedCount(es)
  {
    NormalizeAllFingerprinted(events);
    StoreAgainOnlyUnkeyed(rows, NormalizeAll(events), sourceId);
  }

  /** An event without a fingerprint skips the lookup: it is inserted whenever it has a start time, even beside an identical row. */
  lemma UnfingerprintedInserted(rows: seq<StoredEvent>, e: NormalizedEvent, sourceId: int)
    requires e.fingerprint.None?
    ensures e.startTime.Some? ==> StoreBatch(rows, [e], sourceId) == StoreResult(rows + [StoredEvent(e, sourceId)], 1, 0)
    ensures e.startTime.None? ==> StoreBatch(rows, [e], sourceId) == StoreResult(rows, 0, 0)
  {
    assert [e][..0] == [];
  }

  /** A row of the sources table; `kind` is its `type` column ('ics', 'slack', 'telegram', 'forum', 'manual'). */
  datatype Source = Source(
    id: int, name: string, kind: string, url: Option<string>, active: bool, lastFetched: Option<DateTime>)

  /** The sources table; only `last_fetched` is written by an ingestion run. */
  class SourceTable {
    var rows: seq<Source>

    constructor(rows: seq<Source>)
      ensures this.rows == rows
    {
      this.rows := rows;
    }

    /** `source.last_fetched = now` on the `i`-th row. */
    method MarkFetched(i: nat, now: DateTime)
      requires i < |rows|
      modifies this
      ensures rows == old(rows)[i := old(rows)[i].(lastFetched := Some(now))]
    {
      rows := rows[i := rows[i].(lastFetched := Some(now))];
    }
  }

  /**
   * What the fetchers see of the outside world: the decoded calendar behind
   * each feed URL (`None` when the download or decoding fails, which the
   * calendar adapter reports as no events), the bot token, each chat's
   * messages, and the date parser.
   */
  datatype World = World(
    icsFeed: string -> Option<seq<IcsParser.Component>>,
    botToken: Option<string>,
    chatMessages: string -> seq<TelegramIngest.Message>,
    dates: TelegramIngest.DateOracles)

  /** The chats a telegram source names: its URL when set and non-empty. */
  function ChatIdsOf(url: Option<string>): seq<string> {
    if url.Some? && url.value != "" then [url.value] else []
  }

  /** The chat adapter's result for the given chats, `[]` without a token. */
  function TelegramEvents(chatIds: seq<string>, w: World): seq<Candidate> {
    if w.botToken.None? || w.botToken.value == "" then []
    else TelegramIngest.AllChatEvents(chatIds, w.chatMessages, w.dates)
  }

  /** `fetch_events_from_source`: dispatch on the source type. */
  function FetchEventsFromSource(kind: string, url: Option<string>, w: World): (r: seq<Candidate>)
    ensures kind != "ics" && kind != "telegram" ==> r == []
    ensures kind == "telegram" && (w.botToken.None? || w.botToken.value == "") ==> r == []
  {
    if kind == "ics" then
      (if url.None? || w.icsFeed(url.value).None? then [] else IcsParser.ParsedComponents(w.icsFeed(url.value).value))
    else if kind == "telegram" then TelegramEvents(ChatIdsOf(url), w)
    else []  // 'slack', 'forum' and every other type
  }

  /** Calendar sources read their feed, telegram sources their one chat, and every other type gives nothing. */
  lemma FetchDispatch(kind: string, url: Option<string>, w: World)
    ensures kind != "ics" && kind != "telegram" ==> FetchEventsFromSource(kind, url, w) == []
    ensures kind == "telegram" && (url.None? || url.value == "") ==> FetchEventsFromSource(kind, url, w) == []
    ensures kind == "telegram" && url.Some? && url.value != "" && w.botToken.Some? && w.botToken.value != "" ==>
      FetchEventsFromSource(kind, url, w) == TelegramIngest.ChatEvents(url.value, w.chatMessages(url.value), w.dates)
    ensures kind == "ics" && url.Some? && w.icsFeed(url.value).Some? ==>
      FetchEventsFromSource(kind, url, w) == IcsParser.ParsedComponents(w.icsFeed(url.value).value)
    ensures kind == "ics" && (url.None? || w.icsFeed(url.value).None?) ==> FetchEventsFromSource(kind, url, w) == []
  {
    if url.Some? && url.value != "" {
      assert ChatIdsOf(url) == [url.value];
      assert [url.value][..0] == [];
      assert TelegramIngest.AllChatEvents([url.value], w.chatMessages, w.dates)
        == TelegramIngest.ChatEvents(url.value, w.chatMessages(url.value), w.dates);
    }
  }

  /** `fetch_events_from_source` as a function of the source row. */
  function SourceFetcher(w: World): Source -> seq<Candidate> {
    (s: Source) => FetchEventsFromSource(s.kind, s.url, w)
  }

  /** The table and the two totals after the active sources' batches, as `fetch` gives them, are stored one source after another. */
  function IngestSources(rows: seq<StoredEvent>, sources: seq<Source>, fetch: Source -> seq<Candidate>): (r: StoreResult)
    ensures |r.rows| == |rows| + r.ingested
  {
    if sources == [] then StoreResult(rows, 0, 0)
    else
      var r := IngestSources(rows, sources[..|sources| - 1], fetch);
      var s := sources[|sources| - 1];
      if !s.active then r
      else
        var b := StoreBatch(r.rows, NormalizeAll(fetch(s)), s.id);
        StoreResult(b.rows, r.ingested + b.ingested, r.duplicates + b.duplicates)
  }

  lemma IngestSourcesStep(rows: seq<StoredEvent>, sources: seq<Source>, i: nat, fetch: Source -> seq<Candidate>)
    requires i < |sources|
    ensures var r := IngestSources(rows, sources[..i], fetch);
      var s := sources[i];
      var b := StoreBatch(r.rows, NormalizeAll(fetch(s)), s.id);
      IngestSources(rows, sources[..i + 1], fetch)
        == if s.active then StoreResult(b.rows, r.ingested + b.ingested, r.duplicates + b.duplicates) else r
  {
    assert sources[..i + 1][..i] == sources[..i];
  }

  /** The table once the first `i` sources have been visited: those that are active are stamped. */
  function StampedUpTo(all: seq<Source>, i: nat, now: DateTime): (r: seq<Source>)
    ensures |r| == |all|
  {
    seq(|all|, k requires 0 <= k < |all| => if k < i then Stamped(all[k], now) else all[k])
  }

  lemma StampedUpToStep(all: seq<Source>, i: nat, now: DateTime)
    requires i < |all|
    ensures StampedUpTo(all, i + 1, now)
      == if all[i].active then StampedUpTo(all, i, now)[i := all[i].(lastFetched := Some(now))] else StampedUpTo(all, i, now)
  {
  }

  /** A source after the run: stamped with `now` when active, untouched otherwise. */
  function Stamped(s: Source, now: DateTime): Source {
    if s.active then s.(lastFetched := Some(now)) else s
  }

  /**
   * `ingest_all_sources`: for each active source, store its events, add its
   * counts to the totals and stamp its `last_fetched` with `now`. Both
   * fetchers and `store_events` catch their own errors, so every active
   * source reaches the totals and the stamp.
   */
  method IngestAllSources(sources: SourceTable, store: EventStore, w: World, now: DateTime)
    returns (totalIngested: nat, totalDuplicates: nat)
    requires store.Valid()
    modifies sources, store
    ensures StoreResult(store.rows, totalIngested, totalDuplicates)
      == IngestSources(old(store.rows), old(sources.rows), SourceFetcher(w))
    ensures store.Valid()
    ensures |sources.rows| == |old(sources.rows)|
    ensures forall k :: 0 <= k < |sources.rows| ==> sources.rows[k] == Stamped(old(sources.rows)[k], now)
  {
    totalIngested, totalDuplicates := IngestEachSource(sources, store, SourceFetcher(w), now);
  }

  /** The loop of `ingest_all_sources`, with `fetch_events_from_source` passed in as `fetch`. */
  method IngestEachSource(sources: SourceTable, store: EventStore, fetch: Source -> seq<Candidate>, now: DateTime)
    returns (totalIngested: nat, totalDuplicates: nat)
    requires store.Valid()
    modifies sources, store
    ensures StoreResult(store.rows, totalIngested, totalDuplicates) == IngestSources(old(store.rows), old(sources.rows), fetch)
    ensures store.Valid()
    ensures |sources.rows| == |old(sources.rows)|
    ensures forall k :: 0 <= k < |sources.rows| ==> sources.rows[k] == Stamped(old(sources.rows)[k], now)
  {
    var all := sources.rows;
    totalIngested, totalDuplicates := 0, 0;
    for i := 0 to |all|
      invariant StoreResult(store.rows, totalIngested, totalDuplicates) == IngestSources(old(store.rows), all[..i], fetch)
      invariant sources.rows == StampedUpTo(all, i, now)
      invariant store.Valid()
    {
      IngestSourcesStep(old(store.rows), all, i, fetch);
      StampedUpToStep(all, i, now);
      var source := all[i];
      if source.active {  // the query's `active=True` filter
        var events := fetch(source);
        var ingested, duplicates := StoreEvents(store, events, source.id);
        totalIngested := totalIngested + ingested;
        totalDuplicates := totalDuplicates + duplicates;
        sources.MarkFetched(i, now);
      }
    }
    assert all[..|all|] == all;
  }

  /** An ingestion run keeps the table's constraints, never changes old rows, and its totals count only what it stored or skipped. */
  lemma {:induction false} IngestSourcesKeepsStore(rows: seq<StoredEvent>, sources: seq<Source>, fetch: Source -> seq<Candidate>)
    ensures var r := IngestSources(rows, sources, fetch);
      |r.rows| == |rows| + r.ingested && r.rows[..|rows|] == rows
    ensures ValidRows(rows) ==> ValidRows(IngestSources(rows, sources, fetch).rows)
  {
    if sources != [] {
      var init := sources[..|sources| - 1];
      IngestSourcesKeepsStore(rows, init, fetch);
      var r := IngestSources(rows, init, fetch);
      var s := sources[|sources| - 1];
      var es := NormalizeAll(fetch(s));
      StoreBatchCounts(r.rows, es, s.id);
      if ValidRows(rows) {
        StoreBatchKeepsValid(r.rows, es, s.id);
      }
      var r' := IngestSources(rows, sources, fetch);
      assert r'.rows[..|rows|] == r'.rows[..|r.rows|][..|rows|];
    }
  }
}
