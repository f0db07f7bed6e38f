// The publication coordinator and its versioned cache.
module Publication {
  import opened Bits
  import opened Options
  import opened Reals
  import opened Controllers
  import opened Features

  datatype Version = Version(key: Word, id: nat, latestSeq: Word, latestTs: Word, features: Vector, publishedTs: Word)

  function ColdVersion(key: Word): Version { Version(key, 0, 0, 0, ZERO_VECTOR, 0) }

  datatype Policy =
    | ExactFresh
    | FixedCadence(cadence: Word)
    | ElapsedThreshold(threshold: Word)
    | AdaptivePressure(cadenceMax: Word)

  datatype Tracking = Tracking(pending: nat, lastTs: Word, lastSeq: Word, hasPublished: bool)

  const NO_TRACKING := Tracking(0, 0, 0, false)

  datatype Accounting = Accounting(processed: nat, published: nat, coalesced: nat, queries: nat, cold: nat, warm: nat)

  predicate IsConserved(a: Accounting) { a.processed == a.published + a.coalesced }

  datatype Answer = Answer(id: nat, key: Word, ts: Word, cold: bool, version: nat, latestSeq: Word, latestTs: Word,
                           cached: Vector, freshX: Vector, age: nat, staleness: nat, error: real)

  type Versions = map<Word, Version>

  // The value of a coordinator with its feature extractor and its cache.
  datatype State = State(users: Users, latest: map<Word, Vector>, tracking: map<Word, Tracking>,
                         versions: Versions, total: nat, accounting: Accounting)

  const EMPTY := State(map[], map[], map[], map[], 0, Accounting(0, 0, 0, 0, 0, 0))

  datatype Setup = Setup(num: Numerics, root: real -> real, policy: Policy, alpha: real, maxKeys: nat)

  predicate ValidSetup(s: Setup) { 0.0 < s.alpha <= 1.0 && s.maxKeys > 0 }

  // ---- The decision ----

  // A fraction of n, truncated.
  function Portion(p: real, n: nat): int { (p * n as real).Floor }

  // 64-bit arithmetic: with no cadence bound at all the range wraps, and clamping undoes it.
  function AdaptiveCadence(cadenceMax: Word, pressure: real): Word {
    var p := Clamp(pressure, 0.0, 1.0);
    var k := (1 + Portion(p, (cadenceMax - 1) % WORD)) % WORD;
    if cadenceMax < k then (if cadenceMax < 1 then 1 else cadenceMax) else if k < 1 then 1 else k
  }

  lemma PortionIs(p: real, n: nat)
    requires 0.0 <= p <= 1.0
    ensures 0 <= Portion(p, n) <= n
    ensures Portion(p, n) as real <= Multiply(p, n as real) < (Portion(p, n) + 1) as real
    ensures (p == 0.0 ==> Portion(p, n) == 0) && (p == 1.0 ==> Portion(p, n) == n)
  {
    hide Portion, Multiply;
    Share(p, n as real);
    PortionOf(p, n);
    Truncated(Multiply(p, n as real), n);
  }

  lemma PortionOf(p: real, n: nat)
    ensures Portion(p, n) == Multiply(p, n as real).Floor
  {
  }

  lemma Share(p: real, x: real)
    requires 0.0 <= p <= 1.0 && x >= 0.0
    ensures 0.0 <= Multiply(p, x) <= x
    ensures (p == 0.0 ==> Multiply(p, x) == 0.0) && (p == 1.0 ==> Multiply(p, x) == x)
  {
    hide Multiply;
    ProductNonnegative(1.0 - p, x);
    ProductNonnegative(p, x);
    Complement(p, x);
    Ends(x);
  }

  lemma Complement(p: real, x: real)
    ensures Multiply(1.0 - p, x) == x - Multiply(p, x)
  {
  }

  lemma Ends(x: real)
    ensures Multiply(0.0, x) == 0.0 && Multiply(1.0, x) == x
  {
  }

  lemma Truncated(y: real, n: nat)
    requires 0.0 <= y <= n as real
    ensures 0 <= y.Floor <= n && y.Floor as real <= y < (y.Floor + 1) as real
    ensures (y == 0.0 ==> y.Floor == 0) && (y == n as real ==> y.Floor == n)
  {
  }

  // The last publication time plus the threshold wraps at 64 bits.
  predicate Elapsed(ts: Word, lastTs: Word, threshold: Word) { ts >= (lastTs + threshold) % WORD }

  // `pending` counts the current event.
  predicate Decide(policy: Policy, t: Tracking, ts: Word, pressure: real) {
    match policy
    case ExactFresh => true
    case FixedCadence(cadence) => t.pending >= cadence
    case ElapsedThreshold(threshold) => !t.hasPublished || Elapsed(ts, t.lastTs, threshold)
    case AdaptivePressure(cadenceMax) => t.pending >= AdaptiveCadence(cadenceMax, pressure)
  }

  // ---- The cache ----

  predicate CacheAdmits(versions: Versions, maxKeys: nat, key: Word) { key in versions || |versions| < maxKeys }

  function NextVersion(versions: Versions, key: Word, seqno: Word, ts: Word, x: Vector, publishedTs: Word): Version {
    Version(key, if key in versions then versions[key].id + 1 else 1, seqno, ts, x, publishedTs)
  }

  class VersionedCache {
    const maxKeys: nat
    var versions: Versions
    var totalPublications: nat

    constructor (maxKeys: nat)
      requires maxKeys > 0
      ensures this.maxKeys == maxKeys && versions == map[] && totalPublications == 0
    {
      this.maxKeys, versions, totalPublications := maxKeys, map[], 0;
    }

    method Get(key: Word) returns (cold: bool, version: Version)
      ensures cold <==> key !in versions
      ensures version == if key in versions then versions[key] else ColdVersion(key)
    {
      if key !in versions { return true, Version(key, 0, 0, 0, ZERO_VECTOR, 0); }
      return false, versions[key];
    }

    // None stands for the exhausted key budget; nothing changes then.
    method Publish(key: Word, seqno: Word, ts: Word, x: Vector, publishedTs: Word) returns (r: Option<Version>)
      modifies this
      ensures r.Some? <==> CacheAdmits(old(versions), maxKeys, key)
      ensures r.Some? ==> r.value == NextVersion(old(versions), key, seqno, ts, x, publishedTs)
      ensures r.Some? ==> versions == old(versions)[key := r.value] && totalPublications == old(totalPublications) + 1
      ensures r.None? ==> versions == old(versions) && totalPublications == old(totalPublications)
    {
      var next := 1;
      if key in versions {
        next := versions[key].id + 1;
      } else if |versions| >= maxKeys {
        return None;
      }
      var version := Version(key, next, seqno, ts, x, publishedTs);
      versions := versions[key := version];
      totalPublications := totalPublications + 1;
      r := Some(version);
    }
  }

  // ---- The coordinator as a function of its value ----

  // Rejected: the feature extractor threw. CacheThrew: the cache did.
  datatype Outcome = Rejected | CacheThrew | Processed(published: bool, version: Version)

  function TrackingOf(tracking: map<Word, Tracking>, key: Word): Tracking {
    if key in tracking then tracking[key] else NO_TRACKING
  }

  function PublicationTime(event: RawEvent, wall: Word): Word { if wall > 0 then wall else event.ts }

  // The event is extracted and counted, whether or not it is then published.
  function Taken(setup: Setup, s: State, event: RawEvent): State {
    var t := TrackingOf(s.tracking, event.key);
    s.(users := ExtractUsers(s.users, event, setup.alpha),
       latest := s.latest[event.key := ExtractVector(setup.num, s.users, event, setup.alpha)],
       tracking := s.tracking[event.key := t.(pending := t.pending + 1)],
       accounting := s.accounting.(processed := s.accounting.processed + 1))
  }

  function Publish(s: State, event: RawEvent, wall: Word): State
    requires event.key in s.latest
  {
    var v := NextVersion(s.versions, event.key, event.seqno, event.ts, s.latest[event.key],
                         PublicationTime(event, wall));
    s.(versions := s.versions[event.key := v], total := s.total + 1,
       tracking := s.tracking[event.key := Tracking(0, event.ts, event.seqno, true)],
       accounting := s.accounting.(published := s.accounting.published + 1))
  }

  function Process(setup: Setup, s: State, event: RawEvent, pressure: real, wall: Word): (Outcome, State) {
    if !Admissible(s.users, setup.maxKeys, event, setup.alpha) then (Rejected, s)
    else
      var taken := Taken(setup, s, event);
      if !Decide(setup.policy, taken.tracking[event.key], event.ts, pressure) then
        (Processed(false, ColdVersion(event.key)),
         taken.(accounting := taken.accounting.(coalesced := taken.accounting.coalesced + 1)))
      else if !CacheAdmits(s.versions, setup.maxKeys, event.key) then (CacheThrew, taken)
      else
        var published := Publish(taken, event, wall);
        (Processed(true, published.versions[event.key]), published)
  }

  function SquaredError(a: Vector, b: Vector): real {
    Square(a.engagement - b.engagement) + Square(a.logPv - b.logPv) + Square(a.logCartFav - b.logCartFav)
    + Square(a.gapHours - b.gapHours) + Square(a.buyShare - b.buyShare) + Square(a.logBuy - b.logBuy)
    + Square(a.gapEma - b.gapEma)
  }

  function Square(x: real): real { x * x }

  function AnswerOf(setup: Setup, s: State, id: nat, key: Word, ts: Word): Answer {
    var cold := key !in s.versions;
    var v := if cold then ColdVersion(key) else s.versions[key];
    var freshX := if key in s.latest then s.latest[key] else ZERO_VECTOR;
    Answer(id, key, ts, cold, v.id, v.latestSeq, v.latestTs, v.features, freshX,
           if cold then ts else if ts >= v.latestTs then ts - v.latestTs else 0,
           TrackingOf(s.tracking, key).pending, setup.root(SquaredError(v.features, freshX)))
  }

  function Query(s: State, key: Word): State {
    var cold, a := key !in s.versions, s.accounting;
    s.(accounting := a.(queries := a.queries + 1, cold := a.cold + (if cold then 1 else 0),
                        warm := a.warm + if cold then 0 else 1))
  }

  // ---- The coordinator as a class ----

  class PublicationCoordinator {
    const setup: Setup
    const features: KeyedFeatures
    const cache: VersionedCache
    var latest: map<Word, Vector>
    var tracking: map<Word, Tracking>
    var accounting: Accounting

    constructor (setup: Setup)
      requires 0.0 < setup.alpha <= 1.0 && setup.maxKeys > 0
      ensures Valid() && this.setup == setup && Value() == EMPTY && fresh(features) && fresh(cache)
    {
      this.setup := setup;
      features := new KeyedFeatures(setup.num, setup.maxKeys);
      cache := new VersionedCache(setup.maxKeys);
      latest, tracking, accounting := map[], map[], Accounting(0, 0, 0, 0, 0, 0);
    }

    ghost predicate Valid()
      reads this, features, cache
    {
      ValidSetup(setup) && features.num == setup.num && features.maxKeys == cache.maxKeys == setup.maxKeys
    }

    ghost function Value(): State
      reads this, features, cache
    {
      State(features.users, latest, tracking, cache.versions, cache.totalPublications, accounting)
    }

    method ProcessEvent(event: RawEvent, pressure: real, wall: Word) returns (r: Outcome)
      requires Valid()
      modifies this, features, cache
      ensures Valid() && (r, Value()) == Process(setup, old(Value()), event, pressure, wall)
    {
      hide ExtractVector, ExtractUsers, Admissible, Decide, CacheAdmits, NextVersion;
      var snapshot := features.Update(event, setup.alpha, wall, NO_OBSERVATION);
      if snapshot.None? { return Rejected; }
      var x := snapshot.value.x;
      latest := latest[event.key := x];
      accounting := accounting.(processed := accounting.processed + 1);
      var t := if event.key in tracking then tracking[event.key] else NO_TRACKING;
      t := t.(pending := t.pending + 1);
      tracking := tracking[event.key := t];
      var decision := ShouldPublish(t, event, pressure);
      if decision {
        var publishedTs := if wall > 0 then wall else event.ts;
        var version := cache.Publish(event.key, event.seqno, event.ts, x, publishedTs);
        if version.None? { return CacheThrew; }
        tracking := tracking[event.key := Tracking(0, event.ts, event.seqno, true)];
        accounting := accounting.(published := accounting.published + 1);
        return Processed(true, version.value);
      } else {
        accounting := accounting.(coalesced := accounting.coalesced + 1);
        return Processed(false, Version(event.key, 0, 0, 0, ZERO_VECTOR, 0));
      }
    }

    method ShouldPublish(t: Tracking, event: RawEvent, pressure: real) returns (publish: bool)
      ensures publish <==> Decide(setup.policy, t, event.ts, pressure)
    {
      match setup.policy {
        case ExactFresh => publish := true;
        case FixedCadence(cadence) => publish := t.pending >= cadence;
        case ElapsedThreshold(threshold) =>
          publish := if !t.hasPublished then true else event.ts >= (t.lastTs + threshold) % WORD;
        case AdaptivePressure(cadenceMax) => publish := t.pending >= AdaptiveCadence(cadenceMax, pressure);
      }
    }

    method ServeQuery(id: nat, key: Word, ts: Word) returns (r: Answer)
      requires Valid()
      modifies this
      ensures Valid() && Value() == Query(old(Value()), key) && r == AnswerOf(setup, old(Value()), id, key, ts)
    {
      var cold, version := cache.Get(key);
      accounting := accounting.(queries := accounting.queries + 1);
      if cold {
        accounting := accounting.(cold := accounting.cold + 1);
      } else {
        accounting := accounting.(warm := accounting.warm + 1);
      }
      var freshX := if key in latest then latest[key] else ZERO_VECTOR;
      var age := ts;
      if !cold {
        age := if ts >= version.latestTs then ts - version.latestTs else 0;
      }
      var staleness := if key in tracking then tracking[key].pending else 0;
      r := Answer(id, key, ts, cold, version.id, version.latestSeq, version.latestTs, version.features, freshX,
                  age, staleness, setup.root(SquaredError(version.features, freshX)));
    }
  }
}
