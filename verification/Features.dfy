// Keyed streaming features and the logistic scorer. Transcendental functions are parameters.
module Features {
  import opened Bits
  import opened Options
  import opened Controllers
  import opened Reals

  type Word = n: nat | n < WORD

  // Any positive function may stand for exp.
  type PositiveFunction = f: real -> real | forall x :: f(x) > 0.0 witness (x: real) => 1.0

  datatype Numerics = Numerics(log1p: real -> real, exp: PositiveFunction)

  datatype RawEvent = RawEvent(seqno: Word, ts: Word, key: Word, item: Word, category: Word, behavior: nat)

  // The seven features, in column order.
  datatype Vector = Vector(engagement: real, logPv: real, logCartFav: real, gapHours: real,
                           buyShare: real, logBuy: real, gapEma: real)

  const ZERO_VECTOR := Vector(0.0, 0.0, 0.0, 0.0, 0.0, 0.0, 0.0)

  datatype Snapshot = Snapshot(event: RawEvent, x: Vector, alpha: real, used: Observation, created: nat, loaded: nat)

  datatype UserState = UserState(engagement: real, gapEma: real, pv: nat, cartFav: nat, buy: nat, count: nat,
                                 last: Word, seen: bool)

  const NEW_USER := UserState(0.0, 0.0, 0, 0, 0, 0, 0, false)

  type Users = map<Word, UserState>

  function BehaviorWeight(code: nat): real {
    match code case 0 => 1.0 case 1 => 3.0 case 2 => 2.0 case _ => 5.0
  }

  function StateOf(users: Users, key: Word): UserState {
    if key in users then users[key] else NEW_USER
  }

  // Every reason for which an update throws, in the order the code tests them.
  predicate Admissible(users: Users, maxKeys: nat, event: RawEvent, alpha: real) {
    && event.behavior <= 3
    && 0.0 < alpha <= 1.0
    && (event.key in users || |users| < maxKeys)
    && (StateOf(users, event.key).seen ==> event.ts >= StateOf(users, event.key).last)
    && StateOf(users, event.key).count != WORD - 1
  }

  function Gap(u: UserState, event: RawEvent): real {
    if u.seen then (event.ts - u.last) as real / 1000000000.0 else 0.0
  }

  function Advance(u: UserState, event: RawEvent, alpha: real): UserState {
    UserState(EmaStep(alpha, u.engagement, BehaviorWeight(event.behavior)),
              EmaStep(alpha, u.gapEma, Gap(u, event)),
              u.pv + if event.behavior == 0 then 1 else 0,
              u.cartFav + if event.behavior == 0 || event.behavior == 3 then 0 else 1,
              u.buy + if event.behavior == 3 then 1 else 0,
              u.count + 1, event.ts, true)
  }

  // The vector emitted for an event that moved its user from `before` to `after`.
  function VectorOf(num: Numerics, before: UserState, after: UserState, event: RawEvent): Vector
    requires after.count > 0
  {
    Vector(after.engagement, num.log1p(after.pv as real), num.log1p(after.cartFav as real),
           MinReal(Gap(before, event), 3600.0) / 3600.0,
           after.buy as real / after.count as real, num.log1p(after.buy as real), after.gapEma)
  }

  function ExtractVector(num: Numerics, users: Users, event: RawEvent, alpha: real): Vector {
    var u := StateOf(users, event.key);
    VectorOf(num, u, Advance(u, event, alpha), event)
  }

  function ExtractUsers(users: Users, event: RawEvent, alpha: real): Users {
    users[event.key := Advance(StateOf(users, event.key), event, alpha)]
  }

  class KeyedFeatures {
    const num: Numerics
    const maxKeys: nat
    var users: Users

    constructor (num: Numerics, maxKeys: nat)
      requires maxKeys > 0
      ensures this.num == num && this.maxKeys == maxKeys && users == map[]
    {
      this.num, this.maxKeys, users := num, maxKeys, map[];
    }

    // None stands for a thrown exception; the state is then unchanged.
    method Update(event: RawEvent, alpha: real, created: nat, observation: Observation) returns (r: Option<Snapshot>)
      modifies this
      ensures r.Some? <==> Admissible(old(users), maxKeys, event, alpha)
      ensures r.Some? ==> users == ExtractUsers(old(users), event, alpha)
      ensures r.Some? ==>
        r.value == Snapshot(event, ExtractVector(num, old(users), event, alpha), alpha, observation, created, 0)
      ensures r.None? ==> users == old(users)
    {
      if event.behavior > 3 { return None; }
      if alpha <= 0.0 || alpha > 1.0 { return None; }
      var state := NEW_USER;
      if event.key in users {
        state := users[event.key];
      } else if |users| >= maxKeys {
        return None;
      }
      if state.seen && event.ts < state.last { return None; }
      if state.count == WORD - 1 { return None; }
      var after := Observe(state, event, alpha);
      users := users[event.key := after];
      r := Some(Snapshot(event, VectorOf(num, state, after, event), alpha, observation, created, 0));
    }

    static method Observe(state: UserState, event: RawEvent, alpha: real) returns (after: UserState)
      requires event.behavior <= 3 && (state.seen ==> event.ts >= state.last)
      ensures after == Advance(state, event, alpha)
    {
      var gap := if state.seen then (event.ts - state.last) as real / 1000000000.0 else 0.0;
      var engagement := EmaStep(alpha, state.engagement, BehaviorWeight(event.behavior));
      var gapEma := EmaStep(alpha, state.gapEma, gap);
      var pv, cartFav, buy := state.pv, state.cartFav, state.buy;
      if event.behavior == 0 { pv := pv + 1; }
      else if event.behavior == 3 { buy := buy + 1; }
      else { cartFav := cartFav + 1; }
      after := UserState(engagement, gapEma, pv, cartFav, buy, state.count + 1, event.ts, true);
    }
  }

  // ---- Scoring ----

  datatype Model = Model(bias: real, weights: Vector)

  function Dot(w: Vector, x: Vector): real {
    w.engagement * x.engagement + w.logPv * x.logPv + w.logCartFav * x.logCartFav + w.gapHours * x.gapHours
    + w.buyShare * x.buyShare + w.logBuy * x.logBuy + w.gapEma * x.gapEma
  }

  // The columns of a vector in order.
  function Columns(x: Vector): (r: seq<real>)
    ensures |r| == 7
  {
    [x.engagement, x.logPv, x.logCartFav, x.gapHours, x.buyShare, x.logBuy, x.gapEma]
  }

  function Score(num: Numerics, model: Model, x: Vector): real {
    var z := model.bias + Dot(model.weights, x);
    if z >= 0.0 then 1.0 / (1.0 + num.exp(-z)) else num.exp(z) / (1.0 + num.exp(z))
  }
}
