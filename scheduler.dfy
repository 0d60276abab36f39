/**
 * The digest side of the scheduler: choosing a user's upcoming events
 * (`get_user_events`) and the two daily jobs that send them and record a
 * `DigestLog` row per delivery.
 */
module Scheduler {
  import opened Wrappers
  import opened Temporal
  import opened Ingest

  /** A user row with its subscribed tags (the `subscriptions` relationship). */
  datatype User = User(
    id: int, email: string, digest08Enabled: bool, digest15Enabled: bool, subscriptions: seq<string>)

  /** Where a stored event sits on the time line; a row without a start sorts first. */
  function StartKey(r: StoredEvent): int {
    if r.event.startTime.Some? then Ticks(r.event.startTime.value) else 0
  }

  /** `now <= start_time <= now + hours`, both ends included; a NULL start matches neither bound. */
  predicate InWindow(r: StoredEvent, now: DateTime, hours: int) {
    r.event.startTime.Some?
    && Ticks(now) <= Ticks(r.event.startTime.value) <= Ticks(now) + hours * MicrosPerHour
  }

  /** No subscriptions means every tag; otherwise `tag IN (...)`, which a NULL tag never satisfies. */
  predicate Subscribed(r: StoredEvent, tags: seq<string>) {
    tags == [] || (r.event.tag.Some? && r.event.tag.value in tags)
  }

  predicate Wanted(r: StoredEvent, now: DateTime, hours: int, tags: seq<string>) {
    InWindow(r, now, hours) && Subscribed(r, tags)
  }

  /** The rows the query's filter keeps, in table order. */
  function Upcoming(rows: seq<StoredEvent>, now: DateTime, hours: int, tags: seq<string>): (r: seq<StoredEvent>)
    ensures |r| <= |rows|
  {
    if rows == [] then []
    else
      var r := Upcoming(rows[..|rows| - 1], now, hours, tags);
      var x := rows[|rows| - 1];
      if Wanted(x, now, hours, tags) then r + [x] else r
  }

  /** The filter keeps every wanted row as often as the table holds it, and nothing else. */
  lemma {:induction false} UpcomingCount(rows: seq<StoredEvent>, now: DateTime, hours: int, tags: seq<string>, x: StoredEvent)
    ensures multiset(Upcoming(rows, now, hours, tags))[x]
      == if Wanted(x, now, hours, tags) then multiset(rows)[x] else 0
  {
    if rows != [] {
      var init := rows[..|rows| - 1];
      UpcomingCount(init, now, hours, tags, x);
      assert rows == init + [rows[|rows| - 1]];
    }
  }

  predicate SortedBy<T>(s: seq<T>, key: T -> int) {
    forall i, j :: 0 <= i < j < |s| ==> key(s[i]) <= key(s[j])
  }

  /** Places `x` after every element whose key is not larger, so equal keys keep their order. */
  function InsertBy<T>(x: T, s: seq<T>, key: T -> int): (r: seq<T>)
    ensures |r| == |s| + 1
  {
    if s == [] then [x]
    else if key(x) < key(s[0]) then [x] + s
    else [s[0]] + InsertBy(x, s[1..], key)
  }

  lemma {:induction false} InsertByCount<T>(x: T, s: seq<T>, key: T -> int)
    ensures multiset(InsertBy(x, s, key)) == multiset(s) + multiset{x}
  {
    if s != [] && key(x) >= key(s[0]) {
      InsertByCount(x, s[1..], key);
      assert s == [s[0]] + s[1..];
    }
  }

  lemma {:induction false} InsertBySorted<T>(x: T, s: seq<T>, key: T -> int)
    requires SortedBy(s, key)
    ensures SortedBy(InsertBy(x, s, key), key)
  {
    if s != [] && key(x) >= key(s[0]) {
      var t := InsertBy(x, s[1..], key);
      InsertBySorted(x, s[1..], key);
      InsertByCount(x, s[1..], key);
      var r := [s[0]] + t;
      forall i, j | 0 <= i < j < |r|
        ensures key(r[i]) <= key(r[j])
      {
        if i == 0 {
          var y := t[j - 1];
          assert y in multiset(t);
          if y != x {
            assert y in multiset(s[1..]);
            var k :| 0 <= k < |s[1..]| && s[1..][k] == y;
            assert s[k + 1] == y;
          }
        } else {
          assert r[i] == t[i - 1] && r[j] == t[j - 1];
        }
      }
    }
  }

  /** `ORDER BY ... ASC`: an insertion sort by `key`, stable on equal keys. */
  function SortBy<T>(s: seq<T>, key: T -> int): (r: seq<T>)
    ensures |r| == |s|
  {
    if s == [] then [] else InsertBy(s[|s| - 1], SortBy(s[..|s| - 1], key), key)
  }

  lemma {:induction false} SortBySorted<T>(s: seq<T>, key: T -> int)
    ensures SortedBy(SortBy(s, key), key)
    ensures multiset(SortBy(s, key)) == multiset(s)
  {
    if s != [] {
      var init := s[..|s| - 1];
      SortBySorted(init, key);
      InsertBySorted(s[|s| - 1], SortBy(init, key), key);
      InsertByCount(s[|s| - 1], SortBy(init, key), key);
      assert s == init + [s[|s| - 1]];
    }
  }

  /** `get_user_events`: the user's events starting in the next `hours` hours, earliest first. */
  function GetUserEvents(rows: seq<StoredEvent>, user: User, now: DateTime, hours: int): (r: seq<StoredEvent>)
    ensures |r| <= |rows|
  {
    SortBy(Upcoming(rows, now, hours, user.subscriptions), StartKey)
  }

  /**
   * The result is sorted by start and holds each wanted row exactly as
   * often as the table does, and no other row.
   */
  lemma GetUserEventsSpec(rows: seq<StoredEvent>, user: User, now: DateTime, hours: int)
    ensures var r := GetUserEvents(rows, user, now, hours);
      SortedBy(r, StartKey)
      && forall x :: multiset(r)[x] == if Wanted(x, now, hours, user.subscriptions) then multiset(rows)[x] else 0
  {
    var up := Upcoming(rows, now, hours, user.subscriptions);
    SortBySorted(up, StartKey);
    forall x
      ensures multiset(GetUserEvents(rows, user, now, hours))[x]
        == if Wanted(x, now, hours, user.subscriptions) then multiset(rows)[x] else 0
    {
      UpcomingCount(rows, now, hours, user.subscriptions, x);
    }
  }

  /** Every returned event starts inside the window, both ends included. */
  lemma GetUserEventsInWindow(rows: seq<StoredEvent>, user: User, now: DateTime, hours: int)
    ensures forall x :: x in GetUserEvents(rows, user, now, hours) ==>
      (x.event.startTime.Some?
       && Ticks(now) <= Ticks(x.event.startTime.value) <= Ticks(now) + hours * MicrosPerHour)
  {
    GetUserEventsSpec(rows, user, now, hours);
    forall x | x in GetUserEvents(rows, user, now, hours)
      ensures InWindow(x, now, hours)
    {
      assert multiset(GetUserEvents(rows, user, now, hours))[x] > 0;
    }
  }

  /** Without subscriptions, exactly the table's rows inside the window come back. */
  lemma GetUserEventsUnsubscribed(rows: seq<StoredEvent>, user: User, now: DateTime, hours: int)
    requires user.subscriptions == []
    ensures forall x :: x in GetUserEvents(rows, user, now, hours) <==> x in rows && InWindow(x, now, hours)
  {
    GetUserEventsSpec(rows, user, now, hours);
    forall x
      ensures x in GetUserEvents(rows, user, now, hours) <==> x in rows && InWindow(x, now, hours)
    {
      assert x in GetUserEvents(rows, user, now, hours) <==> multiset(GetUserEvents(rows, user, now, hours))[x] > 0;
      assert x in rows <==> multiset(rows)[x] > 0;
    }
  }

  /** With subscriptions, exactly the rows inside the window whose tag is one of them come back. */
  lemma GetUserEventsSubscribed(rows: seq<StoredEvent>, user: User, now: DateTime, hours: int)
    requires user.subscriptions != []
    ensures forall x :: x in GetUserEvents(rows, user, now, hours) <==>
      (x in rows && InWindow(x, now, hours) && x.event.tag.Some? && x.event.tag.value in user.subscriptions)
  {
    GetUserEventsSpec(rows, user, now, hours);
    forall x
      ensures x in GetUserEvents(rows, user, now, hours) <==>
        (x in rows && InWindow(x, now, hours) && x.event.tag.Some? && x.event.tag.value in user.subscriptions)
    {
      assert x in GetUserEvents(rows, user, now, hours) <==> multiset(GetUserEvents(rows, user, now, hours))[x] > 0;
      assert x in rows <==> multiset(rows)[x] > 0;
    }
  }

  /** The two daily jobs: the 08:00 digest looks 24 hours ahead, the 15:00 reminder 9. */
  datatype DigestKind = Morning | Afternoon {
    function Label(): string {
      match this
      case Morning => "08:00"
      case Afternoon => "15:00"
    }

    function Hours(): int {
      match this
      case Morning => 24
      case Afternoon => 9
    }

    predicate EnabledFor(u: User) {
      match this
      case Morning => u.digest08Enabled
      case Afternoon => u.digest15Enabled
    }
  }

  /** One call of `send_digest_to_user`. */
  datatype Digest = Digest(user: User, events: seq<StoredEvent>, kind: DigestKind)

  /** A `DigestLog` row; `sent_at` and `error_message` are not modelled. */
  datatype DigestLog = DigestLog(digestType: string, userId: int, eventCount: nat, success: bool)

  /** `send_digest_to_user`, which mails the digest and answers whether it went out. */
  type Sender = (User, seq<StoredEvent>, string) -> bool

  /** `get_user_events(user, hours)` against the table `rows` at time `now`. */
  function Selector(rows: seq<StoredEvent>, now: DateTime, hours: int): User -> seq<StoredEvent> {
    (u: User) => GetUserEvents(rows, u, now, hours)
  }

  /**
   * The digests a job sends, in user order, with `select` giving each user's
   * events: the 15:00 job skips users with nothing upcoming.
   */
  function Digests(kind: DigestKind, users: seq<User>, select: User -> seq<StoredEvent>): (ds: seq<Digest>)
    ensures |ds| <= |users|
  {
    if users == [] then []
    else AfterUser(kind, Digests(kind, users[..|users| - 1], select), users[|users| - 1], select)
  }

  /** One user's turn: skipped when the digest is off or (at 15:00) the list is empty, otherwise sent. */
  function AfterUser(kind: DigestKind, ds: seq<Digest>, u: User, select: User -> seq<StoredEvent>): seq<Digest> {
    if Receives(kind, u, select) then ds + [Digest(u, select(u), kind)] else ds
  }

  /** Whether the job sends `u` a digest: it is enabled, and at 15:00 the list is non-empty. */
  predicate Receives(kind: DigestKind, u: User, select: User -> seq<StoredEvent>) {
    kind.EnabledFor(u) && (kind.Morning? || select(u) != [])
  }

  /** The log rows the job writes for the digests it sent, one each, in order. */
  function Logs(ds: seq<Digest>, send: Sender): seq<DigestLog> {
    if ds == [] then []
    else
      var d := ds[|ds| - 1];
      Logs(ds[..|ds| - 1], send) + [DigestLog(d.kind.Label(), d.user.id, |d.events|, send(d.user, d.events, d.kind.Label()))]
  }

  lemma {:induction false} LogsShape(ds: seq<Digest>, send: Sender)
    ensures |Logs(ds, send)| == |ds|
    ensures forall k :: 0 <= k < |ds| ==>
      (Logs(ds, send)[k].digestType == ds[k].kind.Label()
       && Logs(ds, send)[k].userId == ds[k].user.id
       && Logs(ds, send)[k].eventCount == |ds[k].events|)
  {
    if ds != [] {
      LogsShape(ds[..|ds| - 1], send);
    }
  }

  /**
   * Every digest goes to an enabled user of the list with that user's
   * events for the job's window; every 15:00 digest is non-empty; and
   * each user the job does not skip gets one.
   */
  lemma {:induction false} DigestsSpec(kind: DigestKind, users: seq<User>, select: User -> seq<StoredEvent>)
    ensures |Digests(kind, users, select)| <= |users|
    ensures forall d :: d in Digests(kind, users, select) ==>
      (d.user in users && kind.EnabledFor(d.user) && d.kind == kind && d.events == select(d.user)
       && (kind.Afternoon? ==> d.events != []))
    ensures forall u :: (u in users && kind.EnabledFor(u) && (kind.Morning? || select(u) != [])) ==>
      Digest(u, select(u), kind) in Digests(kind, users, select)
  {
    if users != [] {
      var init := users[..|users| - 1];
      DigestsSpec(kind, init, select);
      assert users == init + [users[|users| - 1]];
    }
  }

  /** The users a list of digests goes to, in order. */
  function Recipients(ds: seq<Digest>): (us: seq<User>)
    ensures |us| == |ds|
  {
    if ds == [] then [] else Recipients(ds[..|ds| - 1]) + [ds[|ds| - 1].user]
  }

  /**
   * Each user the job does not skip gets exactly one digest for each time
   * it appears in the list; every other user gets none.
   */
  lemma {:induction false} DigestsCount(kind: DigestKind, users: seq<User>, select: User -> seq<StoredEvent>, u: User)
    ensures multiset(Recipients(Digests(kind, users, select)))[u]
      == if Receives(kind, u, select) then multiset(users)[u] else 0
  {
    if users != [] {
      var init := users[..|users| - 1];
      var last := users[|users| - 1];
      var ds := Digests(kind, init, select);
      DigestsCount(kind, init, select, u);
      assert users == init + [last];
      if Receives(kind, last, select) {
        RecipientsAppend(ds, Digest(last, select(last), kind));
      }
    }
  }

  lemma RecipientsAppend(ds: seq<Digest>, d: Digest)
    ensures Recipients(ds + [d]) == Recipients(ds) + [d.user]
  {
    assert (ds + [d])[..|ds|] == ds;
  }

  lemma DigestsStep(kind: DigestKind, users: seq<User>, i: nat, select: User -> seq<StoredEvent>)
    requires i < |users|
    ensures Digests(kind, users[..i + 1], select) == AfterUser(kind, Digests(kind, users[..i], select), users[i], select)
  {
    assert users[..i + 1][..i] == users[..i];
  }

  lemma LogsStep(ds: seq<Digest>, d: Digest, send: Sender)
    ensures Logs(ds + [d], send)
      == Logs(ds, send) + [DigestLog(d.kind.Label(), d.user.id, |d.events|, send(d.user, d.events, d.kind.Label()))]
  {
    assert (ds + [d])[..|ds|] == ds;
  }

  /** The 15:00 job sends nothing to, and logs nothing for, a user with no events in the next 9 hours. */
  lemma AfternoonSkipsEmpty(users: seq<User>, rows: seq<StoredEvent>, now: DateTime, send: Sender, u: User)
    requires GetUserEvents(rows, u, now, 9) == []
    ensures forall d :: d in Digests(Afternoon, users, Selector(rows, now, 9)) ==> d.user != u
    ensures forall l :: l in Logs(Digests(Afternoon, users, Selector(rows, now, 9)), send) ==>
      l.eventCount > 0 && l.digestType == "15:00"
  {
    var ds := Digests(Afternoon, users, Selector(rows, now, 9));
    DigestsSpec(Afternoon, users, Selector(rows, now, 9));
    LogsShape(ds, send);
    forall l | l in Logs(ds, send)
      ensures l.eventCount > 0 && l.digestType == "15:00"
    {
      var k :| 0 <= k < |ds| && Logs(ds, send)[k] == l;
      assert ds[k] in ds;
    }
  }

  /** The `digest_logs` table, to which the jobs append. */
  class DigestLogBook {
    var entries: seq<DigestLog>

    constructor()
      ensures entries == []
    {
      entries := [];
    }

    method Add(entry: DigestLog)
      modifies this
      ensures entries == old(entries) + [entry]
    {
      entries := entries + [entry];
    }
  }

  /** `job_send_morning_digest`: every user with the 08:00 digest on gets the next 24 hours and a log row. */
  method JobSendMorningDigest(book: DigestLogBook, users: seq<User>, store: EventStore, now: DateTime, send: Sender)
    returns (sent: seq<Digest>)
    modifies book
    ensures sent == Digests(Morning, users, Selector(store.rows, now, 24))
    ensures book.entries == old(book.entries) + Logs(sent, send)
  {
    sent := RunDigestJob(Morning, book, users, Selector(store.rows, now, 24), send);
  }

  /** `job_send_afternoon_reminder`: the same over the next 9 hours, skipping users with nothing upcoming. */
  method JobSendAfternoonReminder(book: DigestLogBook, users: seq<User>, store: EventStore, now: DateTime, send: Sender)
    returns (sent: seq<Digest>)
    modifies book
    ensures sent == Digests(Afternoon, users, Selector(store.rows, now, 9))
    ensures book.entries == old(book.entries) + Logs(sent, send)
  {
    sent := RunDigestJob(Afternoon, book, users, Selector(store.rows, now, 9), send);
  }

  /**
   * The loop both jobs run over the users, with `get_user_events` passed in
   * as `select`: send each enabled user a digest and log it; the 15:00 job
   * moves on to the next user when the list is empty.
   */
  method RunDigestJob(kind: DigestKind, book: DigestLogBook, users: seq<User>, select: User -> seq<StoredEvent>, send: Sender)
    returns (sent: seq<Digest>)
    modifies book
    ensures sent == Digests(kind, users, select)
    ensures book.entries == old(book.entries) + Logs(sent, send)
  {
    sent := [];
    for i := 0 to |users|
      invariant sent == Digests(kind, users[..i], select)
      invariant book.entries == old(book.entries) + Logs(sent, send)
    {
      DigestsStep(kind, users, i, select);
      sent := SendToUser(kind, book, users[i], select, send, sent, old(book.entries));
    }
    assert users[..|users|] == users;
  }

  /** The loop body: one user's digest is sent and logged, or the user is skipped. */
  method SendToUser(
    kind: DigestKind, book: DigestLogBook, user: User, select: User -> seq<StoredEvent>, send: Sender,
    sent: seq<Digest>, ghost logged: seq<DigestLog>)
    returns (next: seq<Digest>)
    requires book.entries == logged + Logs(sent, send)
    modifies book
    ensures next == AfterUser(kind, sent, user, select)
    ensures book.entries == logged + Logs(next, send)
  {
    next := sent;
    if kind.EnabledFor(user) {  // the query's `digest_08_enabled=True` / `digest_15_enabled=True` filter
      var events := select(user);
      if !(kind.Afternoon? && events == []) {
        var success := send(user, events, kind.Label());
        LogsStep(sent, Digest(user, events, kind), send);
        book.Add(DigestLog(kind.Label(), user.id, |events|, success));
        next := sent + [Digest(user, events, kind)];
      }
    }
  }
}
