// The coordinator summarizes its history: over every run of events and queries, what it serves is
// determined by the log of accepted events and of which of them were published.
module PublicationHistory {
  import opened Features
  import opened Publication
  import opened Sets

  // ---- The log ----

  // An accepted event, the vector extracted for it, and whether and when it was published.
  datatype Entry = Entry(event: RawEvent, x: Vector, published: bool, at: Word)

  type Log = seq<Entry>

  predicate Concerns(log: Log, k: Word, i: int) { 0 <= i < |log| && log[i].event.key == k }

  ghost function Updates(log: Log, k: Word): set<nat> { set i: nat | i < |log| && Concerns(log, k, i) }

  ghost function Publications(log: Log, k: Word): set<nat> {
    set i: nat | i < |log| && Concerns(log, k, i) && log[i].published
  }

  // Index of the key's last event, or of its last published one; -1 when there is none.
  function LastUpdate(log: Log, k: Word): (r: int)
    ensures -1 <= r < |log| && (r >= 0 ==> Concerns(log, k, r))
    ensures forall j | r < j < |log| :: !Concerns(log, k, j)
  {
    if |log| == 0 then -1
    else if log[|log| - 1].event.key == k then |log| - 1
    else
      var r := LastUpdate(log[..|log| - 1], k);
      assert forall j | r < j < |log| - 1 :: Concerns(log, k, j) == Concerns(log[..|log| - 1], k, j);
      r
  }

  function LastPublication(log: Log, k: Word): (r: int)
    ensures -1 <= r < |log| && (r >= 0 ==> Concerns(log, k, r) && log[r].published)
    ensures forall j | r < j < |log| && log[j].published :: !Concerns(log, k, j)
  {
    if |log| == 0 then -1
    else if log[|log| - 1].event.key == k && log[|log| - 1].published then |log| - 1
    else
      var r := LastPublication(log[..|log| - 1], k);
      assert forall j | r < j < |log| - 1 :: Concerns(log, k, j) == Concerns(log[..|log| - 1], k, j);
      r
  }

  // The key's events since its last publication.
  ghost function Since(log: Log, k: Word): set<nat> {
    set i: nat | i < |log| && Concerns(log, k, i) && i > LastPublication(log, k)
  }

  ghost function AllPublished(log: Log): set<nat> { set i: nat | i < |log| && log[i].published }

  // Feature state after the events of the log, and the vector each entry must hold.
  function UsersAfter(alpha: real, log: Log): Users {
    if |log| == 0 then map[] else ExtractUsers(UsersAfter(alpha, log[..|log| - 1]), log[|log| - 1].event, alpha)
  }

  ghost predicate VectorsRight(setup: Setup, log: Log) {
    forall i | 0 <= i < |log| :: log[i].x == ExtractVector(setup.num, UsersAfter(setup.alpha, log[..i]), log[i].event,
                                                           setup.alpha)
  }

  // ---- Refinement ----

  ghost predicate KeyRefines(log: Log, s: State, k: Word) {
    var u, p := LastUpdate(log, k), LastPublication(log, k);
    && (k in s.users <==> u >= 0) && (k in s.latest <==> u >= 0) && (k in s.tracking <==> u >= 0)
    && (u >= 0 ==>
          s.latest[k] == log[u].x && s.users[k].count == |Updates(log, k)| && s.users[k].last == log[u].event.ts)
    && (u >= 0 ==> s.tracking[k].pending == |Since(log, k)| && (s.tracking[k].hasPublished <==> p >= 0))
    && (u >= 0 && p >= 0 ==> s.tracking[k].lastTs == log[p].event.ts && s.tracking[k].lastSeq == log[p].event.seqno)
    && (k in s.versions <==> p >= 0)
    && (p >= 0 ==> s.versions[k] == Version(k, |Publications(log, k)|, log[p].event.seqno, log[p].event.ts, log[p].x,
                                            log[p].at))
  }

  ghost predicate Refines(setup: Setup, log: Log, s: State) {
    && (forall k: Word :: KeyRefines(log, s, k))
    && s.users == UsersAfter(setup.alpha, log) && VectorsRight(setup, log) && |s.users| <= setup.maxKeys
    && s.total == s.accounting.published == |AllPublished(log)|
    && s.accounting.processed == |log| && IsConserved(s.accounting)
    && s.accounting.queries == s.accounting.cold + s.accounting.warm
  }

  // ---- One more entry ----

  lemma ExtendOther(log: Log, e: Entry, k: Word)
    requires e.event.key != k
    ensures var log' := log + [e];
            && Updates(log', k) == Updates(log, k) && Publications(log', k) == Publications(log, k)
            && LastUpdate(log', k) == LastUpdate(log, k) && LastPublication(log', k) == LastPublication(log, k)
            && Since(log', k) == Since(log, k)
  {
    var log' := log + [e];
    assert log'[..|log|] == log;
    forall i: nat ensures Concerns(log', k, i) <==> Concerns(log, k, i) {}
  }

  lemma ExtendOwn(log: Log, e: Entry)
    ensures var log', k, n := log + [e], e.event.key, |log|;
            && Updates(log', k) == Updates(log, k) + {n} && n !in Updates(log, k)
            && LastUpdate(log', k) == n
  {
    var log', k, n := log + [e], e.event.key, |log|;
    assert log'[..n] == log;
    forall i: nat ensures Concerns(log', k, i) <==> Concerns(log, k, i) || i == n {}
  }

  lemma ExtendPublication(log: Log, e: Entry)
    ensures LastPublication(log + [e], e.event.key) == if e.published then |log| else LastPublication(log, e.event.key)
  {
    assert (log + [e])[..|log|] == log;
  }

  lemma ExtendSince(log: Log, e: Entry)
    ensures var log', k := log + [e], e.event.key;
            && Since(log', k) == (if e.published then {} else Since(log, k) + {|log|}) && |log| !in Since(log, k)
            && Publications(log', k) == Publications(log, k) + (if e.published then {|log|} else {})
            && |log| !in Publications(log, k)
  {
    hide LastPublication, LastUpdate;
    var log', k, n := log + [e], e.event.key, |log|;
    ExtendPublication(log, e);
    forall i: nat ensures Concerns(log', k, i) <==> Concerns(log, k, i) || i == n {}
  }

  lemma ExtendSizes(log: Log, e: Entry)
    ensures var log', k := log + [e], e.event.key;
            && |Updates(log', k)| == |Updates(log, k)| + 1
            && |Publications(log', k)| == |Publications(log, k)| + (if e.published then 1 else 0)
            && |Since(log', k)| == if e.published then 0 else |Since(log, k)| + 1
  {
    hide Updates, Publications, Since, LastUpdate, LastPublication;
    ExtendOwn(log, e);
    ExtendSince(log, e);
  }

  lemma ExtendPublished(log: Log, e: Entry)
    ensures AllPublished(log + [e]) == AllPublished(log) + (if e.published then {|log|} else {})
    ensures |log| !in AllPublished(log)
  {
  }

  lemma ExtendVectors(setup: Setup, log: Log, e: Entry)
    requires VectorsRight(setup, log)
    requires e.x == ExtractVector(setup.num, UsersAfter(setup.alpha, log), e.event, setup.alpha)
    ensures UsersAfter(setup.alpha, log + [e]) == ExtractUsers(UsersAfter(setup.alpha, log), e.event, setup.alpha)
    ensures VectorsRight(setup, log + [e])
  {
    hide ExtractVector, ExtractUsers;
    var log' := log + [e];
    assert log'[..|log|] == log;
    assert UsersAfter(setup.alpha, log') == ExtractUsers(UsersAfter(setup.alpha, log), e.event, setup.alpha);
    forall i | 0 <= i < |log'|
      ensures log'[i].x == ExtractVector(setup.num, UsersAfter(setup.alpha, log'[..i]), log'[i].event, setup.alpha)
    {
      if i < |log| {
        VectorAt(setup, log, i);
        assert log'[..i] == log[..i];
      }
    }
  }

  lemma VectorAt(setup: Setup, log: Log, i: nat)
    requires VectorsRight(setup, log) && i < |log|
    ensures log[i].x == ExtractVector(setup.num, UsersAfter(setup.alpha, log[..i]), log[i].event, setup.alpha)
  {
  }

  // ---- Every run ----

  datatype Op = Ingest(event: RawEvent, pressure: real, wall: Word) | Ask(key: Word)

  function StepOp(setup: Setup, s: State, op: Op): State {
    match op
    case Ingest(event, pressure, wall) => Process(setup, s, event, pressure, wall).1
    case Ask(key) => Query(s, key)
  }

  function Run(setup: Setup, ops: seq<Op>): State {
    if |ops| == 0 then EMPTY else StepOp(setup, Run(setup, ops[..|ops| - 1]), ops[|ops| - 1])
  }

  // What an operation adds to the log.
  function Logged(setup: Setup, s: State, op: Op): Log {
    match op
    case Ask(key) => []
    case Ingest(event, pressure, wall) =>
      match Process(setup, s, event, pressure, wall).0
      case Processed(published, version) =>
        [Entry(event, ExtractVector(setup.num, s.users, event, setup.alpha), published, PublicationTime(event, wall))]
      case _ => []
  }

  function LogOf(setup: Setup, ops: seq<Op>): Log {
    if |ops| == 0 then []
    else LogOf(setup, ops[..|ops| - 1]) + Logged(setup, Run(setup, ops[..|ops| - 1]), ops[|ops| - 1])
  }

  // The record an event of the key is decided with: it counts that event.
  ghost function Decided(s: State, k: Word): Tracking {
    var t := TrackingOf(s.tracking, k);
    t.(pending := t.pending + 1)
  }

  // The cache's own key budget can never be the one to run out.
  lemma CacheNeverThrows(setup: Setup, log: Log, s: State, event: RawEvent, pressure: real, wall: Word)
    requires Refines(setup, log, s)
    ensures Process(setup, s, event, pressure, wall).0 != CacheThrew
    ensures Admissible(s.users, setup.maxKeys, event, setup.alpha) ==> CacheAdmits(s.versions, setup.maxKeys, event.key)
  {
    hide ExtractVector, ExtractUsers, UsersAfter, Decide, Publish, Taken;
    forall k | k in s.versions ensures k in s.users { assert KeyRefines(log, s, k); }
    if event.key !in s.versions {
      assert KeyRefines(log, s, event.key);
      if event.key in s.users {
        StrictSubsetSize(s.versions.Keys, s.users.Keys, event.key);
      } else {
        SubsetSize(s.versions.Keys, s.users.Keys);
      }
    }
  }

  // How an accepted event moves the state: its own key, every other key, and the counters.
  ghost predicate OwnKeyMoves(s: State, e: Entry, s': State) {
    var k := e.event.key;
    && k in s'.users && k in s'.latest && k in s'.tracking
    && s'.latest[k] == e.x && s'.users[k].count == StateOf(s.users, k).count + 1 && s'.users[k].last == e.event.ts
    && (e.published ==> s'.tracking[k] == Tracking(0, e.event.ts, e.event.seqno, true) && k in s'.versions
                        && s'.versions[k] == NextVersion(s.versions, k, e.event.seqno, e.event.ts, e.x, e.at))
    && (!e.published ==> s'.tracking[k] == TrackingOf(s.tracking, k).(pending := TrackingOf(s.tracking, k).pending + 1)
                         && (k in s'.versions <==> k in s.versions)
                         && (k in s.versions ==> s'.versions[k] == s.versions[k]))
  }

  ghost predicate OtherKeyStays(s: State, s': State, k: Word) {
    && (k in s'.users <==> k in s.users) && (k in s.users ==> s'.users[k] == s.users[k])
    && (k in s'.latest <==> k in s.latest) && (k in s.latest ==> s'.latest[k] == s.latest[k])
    && (k in s'.tracking <==> k in s.tracking) && (k in s.tracking ==> s'.tracking[k] == s.tracking[k])
    && (k in s'.versions <==> k in s.versions) && (k in s.versions ==> s'.versions[k] == s.versions[k])
  }

  ghost predicate CountersMove(s: State, e: Entry, s': State) {
    var one := if e.published then 1 else 0;
    && s'.total == s.total + one
    && s'.accounting == s.accounting.(processed := s.accounting.processed + 1,
                                      published := s.accounting.published + one,
                                      coalesced := s.accounting.coalesced + 1 - one)
  }

  lemma OtherKeyKept(log: Log, s: State, e: Entry, s': State, k: Word)
    requires KeyRefines(log, s, k) && k != e.event.key && OtherKeyStays(s, s', k)
    ensures KeyRefines(log + [e], s', k)
  {
    hide Updates, Publications, Since, LastUpdate, LastPublication;
    ExtendOther(log, e, k);
  }

  lemma OwnKeyAdvances(log: Log, s: State, e: Entry, s': State)
    requires KeyRefines(log, s, e.event.key) && OwnKeyMoves(s, e, s')
    ensures KeyRefines(log + [e], s', e.event.key)
  {
    hide Updates, Publications, Since, LastUpdate, LastPublication;
    ExtendOwn(log, e);
    ExtendSizes(log, e);
    ExtendPublication(log, e);
    NothingSoFar(log, e.event.key);
  }

  lemma NothingSoFar(log: Log, k: Word)
    ensures LastUpdate(log, k) < 0 ==> Updates(log, k) == {} && Since(log, k) == {}
    ensures LastPublication(log, k) < 0 ==> Publications(log, k) == {}
    ensures LastPublication(log, k) <= LastUpdate(log, k)
  {
  }

  lemma AcceptedRefines(setup: Setup, log: Log, s: State, e: Entry, s': State)
    requires Refines(setup, log, s) && OwnKeyMoves(s, e, s') && CountersMove(s, e, s')
    requires forall k: Word | k != e.event.key :: OtherKeyStays(s, s', k)
    requires s'.users == ExtractUsers(s.users, e.event, setup.alpha) && |s'.users| <= setup.maxKeys
    requires e.x == ExtractVector(setup.num, s.users, e.event, setup.alpha)
    ensures Refines(setup, log + [e], s')
  {
    hide ExtractVector, ExtractUsers, UsersAfter, KeyRefines, VectorsRight, AllPublished, OwnKeyMoves, OtherKeyStays;
    ExtendVectors(setup, log, e);
    ExtendPublished(log, e);
    forall k: Word ensures KeyRefines(log + [e], s', k) {
      assert KeyRefines(log, s, k);
      if k == e.event.key {
        OwnKeyAdvances(log, s, e, s');
      } else {
        OtherKeyKept(log, s, e, s', k);
      }
    }
  }

  lemma IngestMoves(setup: Setup, s: State, event: RawEvent, pressure: real, wall: Word)
    requires Process(setup, s, event, pressure, wall).0.Processed?
    ensures var op := Ingest(event, pressure, wall); var s' := StepOp(setup, s, op);
            && |Logged(setup, s, op)| == 1
            && var e := Logged(setup, s, op)[0];
            && e.event == event && e.x == ExtractVector(setup.num, s.users, event, setup.alpha)
            && OwnKeyMoves(s, e, s') && CountersMove(s, e, s')
                  && (forall k: Word | k != event.key :: OtherKeyStays(s, s', k))
            && s'.users == ExtractUsers(s.users, event, setup.alpha)
            && |s'.users| <= if event.key in s.users then |s.users| else |s.users| + 1
  {
    hide ExtractVector, ExtractUsers, Decide, Admissible, OwnKeyMoves, OtherKeyStays;
    CountAdvances(s.users, event, setup.alpha);
    OwnKeyIngested(setup, s, event, pressure, wall);
    OthersIngested(setup, s, event, pressure, wall);
  }

  lemma OwnKeyIngested(setup: Setup, s: State, event: RawEvent, pressure: real, wall: Word)
    requires Process(setup, s, event, pressure, wall).0.Processed?
    ensures var op := Ingest(event, pressure, wall);
            |Logged(setup, s, op)| == 1 && OwnKeyMoves(s, Logged(setup, s, op)[0], StepOp(setup, s, op))
  {
    hide ExtractVector, Decide, Advance, Admissible, CacheAdmits;
    CountAdvances(s.users, event, setup.alpha);
  }

  lemma OthersIngested(setup: Setup, s: State, event: RawEvent, pressure: real, wall: Word)
    ensures forall k: Word | k != event.key ::
              OtherKeyStays(s, StepOp(setup, s, Ingest(event, pressure, wall)), k)
  {
    hide ExtractVector, Decide, Advance, Admissible, CacheAdmits, NextVersion;
  }

  lemma IngestRefines(setup: Setup, log: Log, s: State, event: RawEvent, pressure: real, wall: Word)
    requires Refines(setup, log, s)
    ensures var op := Ingest(event, pressure, wall);
            Refines(setup, log + Logged(setup, s, op), StepOp(setup, s, op))
  {
    hide ExtractVector, ExtractUsers, Decide, Refines, OwnKeyMoves, OtherKeyStays, CountersMove, Publish, Taken;
    var op := Ingest(event, pressure, wall);
    CacheNeverThrows(setup, log, s, event, pressure, wall);
    if Process(setup, s, event, pressure, wall).0.Processed? {
      IngestMoves(setup, s, event, pressure, wall);
      var e := Logged(setup, s, op)[0];
      assert Logged(setup, s, op) == [e];
      BudgetOf(setup, log, s);
      AcceptedRefines(setup, log, s, e, StepOp(setup, s, op));
    } else {
      assert log + [] == log;
    }
  }

  lemma BudgetOf(setup: Setup, log: Log, s: State)
    requires Refines(setup, log, s)
    ensures |s.users| <= setup.maxKeys
  {
  }

  lemma CountAdvances(users: Users, event: RawEvent, alpha: real)
    ensures var u := ExtractUsers(users, event, alpha);
            && u[event.key].count == StateOf(users, event.key).count + 1 && u[event.key].last == event.ts
            && |u| <= if event.key in users then |users| else |users| + 1
  {
    assert ExtractUsers(users, event, alpha).Keys == users.Keys + {event.key};
  }

  // Over every run, the state is what the log says it is.
  lemma {:induction false} HistoryRefined(setup: Setup, ops: seq<Op>)
    requires ValidSetup(setup)
    ensures Refines(setup, LogOf(setup, ops), Run(setup, ops))
  {
    hide Process, Logged;
    if |ops| > 0 {
      var before := ops[..|ops| - 1];
      HistoryRefined(setup, before);
      match ops[|ops| - 1] {
        case Ingest(event, pressure, wall) =>
          IngestRefines(setup, LogOf(setup, before), Run(setup, before), event, pressure, wall);
        case Ask(key) =>
          QueryRefines(setup, LogOf(setup, before), Run(setup, before), key);
      }
    } else {
      EmptyRefines(setup, LogOf(setup, ops), Run(setup, ops));
    }
  }

  lemma EmptyRefines(setup: Setup, log: Log, s: State)
    requires ValidSetup(setup) && |log| == 0 && s == EMPTY
    ensures Refines(setup, log, s)
  {
    hide KeyRefines, VectorsRight, AllPublished, UsersAfter, EMPTY;
    forall k: Word ensures KeyRefines(log, s, k) { EmptyKey(log, s, k); }
    NothingLogged(setup, log);
    EmptyUsers(setup, log, s);
    EmptyCounters(s);
  }

  lemma EmptyUsers(setup: Setup, log: Log, s: State)
    requires ValidSetup(setup) && |log| == 0 && s == EMPTY
    ensures s.users == UsersAfter(setup.alpha, log) && |s.users| <= setup.maxKeys
  {
  }

  lemma EmptyCounters(s: State)
    requires s == EMPTY
    ensures s.total == 0 && s.accounting == Accounting(0, 0, 0, 0, 0, 0)
  {
  }

  lemma EmptyKey(log: Log, s: State, k: Word)
    requires |log| == 0 && s == EMPTY
    ensures KeyRefines(log, s, k)
  {
    hide LastUpdate, LastPublication, Updates, Publications, Since;
  }

  lemma NothingLogged(setup: Setup, log: Log)
    requires |log| == 0
    ensures AllPublished(log) == {} && VectorsRight(setup, log)
  {
  }

  lemma QueryRefines(setup: Setup, log: Log, s: State, key: Word)
    requires Refines(setup, log, s)
    ensures Refines(setup, log + Logged(setup, s, Ask(key)), Query(s, key))
  {
    hide VectorsRight, UsersAfter, AllPublished, LastUpdate, LastPublication, Since, Updates, Publications;
    assert log + [] == log;
    forall k: Word ensures KeyRefines(log, Query(s, key), k) { assert KeyRefines(log, s, k); }
  }
}
