/** Idempotency keys (idempotency.service.ts). */
module Idempotency {
  import opened Prelude

  // The keys and the two orders in which services use them. `resolveOrCreate` and `begin` run inside
  // the caller's transaction: when they throw, everything the transaction did is undone. Hashes stand
  // for request bodies.

  /** 24 hours, in milliseconds. */
  const TTL := 86400000

  datatype KeyId = KeyId(tenant: Option<string>, actorScope: string, operation: string, key: string)

  datatype Status = Processing | Completed

  datatype Record<+B> = Record(hash: string, status: Status, body: Option<B>, expiresAt: int)

  type Rows<B> = map<KeyId, Record<B>>

  datatype Answer<+B> = Replayed(body: Option<B>) | Proceed | KeyReused | InProgress

  /** What an existing row decides; Proceed when there is none or it has expired. */
  function Lookup<B>(rows: Rows<B>, k: KeyId, hash: string, now: int): Answer<B> {
    if k !in rows || rows[k].expiresAt <= now then Proceed
    else if rows[k].hash != hash then KeyReused
    else if rows[k].status == Completed then Replayed(rows[k].body)
    else InProgress
  }

  class IdempotencyKeys<B> {
    var rows: Rows<B>

    constructor (rows: Rows<B>)
      ensures this.rows == rows
    {
      this.rows := rows;
    }

    method FindExisting(k: KeyId) returns (r: Option<Record<B>>)
      ensures r == if k in rows then Some(rows[k]) else None
    {
      if k in rows {
        return Some(rows[k]);
      }
      return None;
    }

    /** The look-up services make before their transaction; it takes no notice of expiry. */
    method ReplayBefore(k: KeyId, hash: string) returns (replay: Option<Option<B>>)
      ensures replay == if k in rows && rows[k].hash == hash then Some(rows[k].body) else None
    {
      var existing := FindExisting(k);
      if existing.Some? && existing.value.hash == hash {
        return Some(existing.value.body);
      }
      return None;
    }

    /** Replay, refuse, or store the finished response. */
    method ResolveOrCreate(k: KeyId, hash: string, body: B, now: int) returns (answer: Answer<B>)
      modifies this
      ensures answer == Lookup(old(rows), k, hash, now)
      ensures rows == if answer == Proceed then old(rows)[k := Record(hash, Completed, Some(body), now + TTL)] else old(rows)
    {
      if k in rows {
        var existing := rows[k];
        if existing.expiresAt <= now {
          rows := rows - {k};
        } else if existing.hash != hash {
          return KeyReused;
        } else if existing.status == Completed {
          return Replayed(existing.body);
        } else {
          return InProgress;
        }
      }
      rows := rows[k := Record(hash, Completed, Some(body), now + TTL)];
      return Proceed;
    }

    /** Reserve the key before the work. */
    method Begin(k: KeyId, hash: string, now: int) returns (answer: Answer<B>)
      modifies this
      ensures answer == Lookup(old(rows), k, hash, now)
      ensures rows == if answer == Proceed then old(rows)[k := Record(hash, Processing, None, now + TTL)] else old(rows)
    {
      if k in rows {
        var existing := rows[k];
        if existing.expiresAt <= now {
          rows := rows - {k};
        } else if existing.hash != hash {
          return KeyReused;
        } else if existing.status == Completed {
          return Replayed(existing.body);
        } else {
          return InProgress;
        }
      }
      rows := rows[k := Record(hash, Processing, None, now + TTL)];
      return Proceed;
    }

    method Complete(k: KeyId, body: B)
      modifies this
      ensures rows == if k in old(rows) then old(rows)[k := old(rows)[k].(status := Completed, body := Some(body))] else old(rows)
    {
      if k in rows {
        rows := rows[k := rows[k].(status := Completed, body := Some(body))];
      }
    }
  }

  // ----- services around the keys -----

  datatype Request = Request(k: KeyId, hash: string, now: int)

  /** The business state, the key rows, and which requests took effect so far. */
  datatype Sys<S, B> = Sys(state: S, rows: Rows<B>, applied: seq<Request>)

  /** What an operation does to the business state; None when it throws. */
  type Effect<!S, !B> = (Request, S) -> Option<(S, B)>

  datatype Reply<+B> = Answered(body: Option<B>) | Thrown

  function Stored<B>(rows: Rows<B>, r: Request, body: B): Rows<B> {
    rows[r.k := Record(r.hash, Completed, Some(body), r.now + TTL)]
  }

  /** The transaction of postInvoice, voidInvoice and postCreditNote: effects, then the key. A key
      already answered for the same request does not undo the effects. */
  function EffectsFirst<S, B>(sys: Sys<S, B>, r: Request, effect: Effect<S, B>): (Sys<S, B>, Reply<B>) {
    match effect(r, sys.state)
    case None => (sys, Thrown)
    case Some((state, body)) =>
      match Lookup(sys.rows, r.k, r.hash, r.now)
      case Proceed => (Sys(state, Stored(sys.rows, r, body), sys.applied + [r]), Answered(Some(body)))
      case Replayed(_) => (Sys(state, sys.rows, sys.applied + [r]), Answered(Some(body)))
      case _ => (sys, Thrown)
  }

  /** The whole service call when nothing runs between its look-up and its transaction. */
  function CallEffectsFirst<S, B>(sys: Sys<S, B>, r: Request, effect: Effect<S, B>): (Sys<S, B>, Reply<B>) {
    if r.k in sys.rows && sys.rows[r.k].hash == r.hash then (sys, Answered(sys.rows[r.k].body))
    else EffectsFirst(sys, r, effect)
  }

  /** The transaction of the import commit, and of begin ... complete: the key, then effects. */
  function KeyFirst<S, B>(sys: Sys<S, B>, r: Request, effect: Effect<S, B>): (Sys<S, B>, Reply<B>) {
    match Lookup(sys.rows, r.k, r.hash, r.now)
    case Replayed(body) => (sys, Answered(body))
    case Proceed =>
      (match effect(r, sys.state)
       case None => (sys, Thrown)
       case Some((state, body)) => (Sys(state, Stored(sys.rows, r, body), sys.applied + [r]), Answered(Some(body))))
    case _ => (sys, Thrown)
  }

  datatype Protocol = KeyThenEffects | SerialEffectsThenKey | RacingEffectsThenKey

  function Call<S, B>(p: Protocol, sys: Sys<S, B>, r: Request, effect: Effect<S, B>): (Sys<S, B>, Reply<B>) {
    match p
    case KeyThenEffects => KeyFirst(sys, r, effect)
    case SerialEffectsThenKey => CallEffectsFirst(sys, r, effect)
    case RacingEffectsThenKey => EffectsFirst(sys, r, effect)
  }

  function Run<S, B>(p: Protocol, sys: Sys<S, B>, rs: seq<Request>, effect: Effect<S, B>): Sys<S, B> {
    if rs == [] then sys else Call(p, Run(p, sys, rs[..|rs| - 1], effect), rs[|rs| - 1], effect).0
  }

  predicate InOrder(rs: seq<Request>) {
    forall i, j :: 0 <= i <= j < |rs| ==> rs[i].now <= rs[j].now
  }

  /** Two effects under one key are a whole lifetime of the key apart. */
  ghost predicate AtMostOncePerLifetime(applied: seq<Request>) {
    forall i, j :: 0 <= i < j < |applied| && applied[i].k == applied[j].k ==> applied[j].now >= applied[i].now + TTL
  }

  /** The rows remember every effect until its key expires. */
  ghost predicate Inv<S(!new), B(!new)>(sys: Sys<S, B>, now: int) {
    && AtMostOncePerLifetime(sys.applied)
    && (forall k :: k in sys.rows ==> sys.rows[k].status == Completed && sys.rows[k].body.Some?)
    && (forall i :: 0 <= i < |sys.applied| ==>
          && sys.applied[i].now <= now
          && sys.applied[i].k in sys.rows
          && sys.rows[sys.applied[i].k].expiresAt >= sys.applied[i].now + TTL
          && (now < sys.applied[i].now + TTL ==> sys.rows[sys.applied[i].k].hash == sys.applied[i].hash))
  }

  lemma CallKeepsInv<S(!new), B(!new)>(p: Protocol, sys: Sys<S, B>, r: Request, effect: Effect<S, B>, now: int)
    requires p != RacingEffectsThenKey && Inv(sys, now) && now <= r.now
    ensures Inv(Call(p, sys, r, effect).0, r.now)
  {
  }

  /** Checking the key first, or handling one call at a time, an operation takes effect at most once
      in the lifetime of its key, whatever requests come in. */
  lemma {:induction false} EffectsAtMostOnce<S(!new), B(!new)>(p: Protocol, state: S, rs: seq<Request>, effect: Effect<S, B>)
    requires p != RacingEffectsThenKey && InOrder(rs) && rs != []
    ensures Inv(Run(p, Sys(state, map[], []), rs, effect), rs[|rs| - 1].now)
    ensures AtMostOncePerLifetime(Run(p, Sys(state, map[], []), rs, effect).applied)
  {
    var before, r := rs[..|rs| - 1], rs[|rs| - 1];
    if before == [] {
      CallKeepsInv(p, Sys(state, map[], []), r, effect, r.now);
    } else {
      EffectsAtMostOnce(p, state, before, effect);
      CallKeepsInv(p, Run(p, Sys(state, map[], []), before, effect), r, effect, before[|before| - 1].now);
    }
  }

  /** While a key is unexpired, the same request is answered with the stored body and nothing
      changes; a different request under the key is refused and nothing changes, not even what its
      own transaction had already done. */
  lemma UnexpiredKeyDecides<S, B>(p: Protocol, sys: Sys<S, B>, r: Request, effect: Effect<S, B>)
    requires r.k in sys.rows && r.now < sys.rows[r.k].expiresAt && sys.rows[r.k].status == Completed
    ensures r.hash != sys.rows[r.k].hash ==> Call(p, sys, r, effect) == (sys, Thrown)
    ensures r.hash == sys.rows[r.k].hash && p != RacingEffectsThenKey ==>
              Call(p, sys, r, effect) == (sys, Answered(sys.rows[r.k].body))
  {
  }

  /** A key decides for 24 hours after it was stored: the same request is answered with the stored body and
      another one refused. From then on, and for every other key, nothing has been stored. */
  lemma KeyLivesADay<B>(rows: Rows<B>, r: Request, body: B, k: KeyId, hash: string, later: int)
    ensures Lookup(Stored(rows, r, body), k, hash, later)
         == if k != r.k then Lookup(rows, k, hash, later)
            else if later - r.now >= 24 * 60 * 60 * 1000 then Proceed
            else if hash == r.hash then Replayed(Some(body))
            else KeyReused
  {
  }

  /** A request takes effect exactly if the operation accepts it and its key is free or expired; where a
      service looks up the key before its transaction, an expired row must be of a different request too. */
  lemma TakesEffectIff<S, B>(p: Protocol, sys: Sys<S, B>, r: Request, effect: Effect<S, B>)
    requires p != RacingEffectsThenKey
    ensures Call(p, sys, r, effect).0.applied == sys.applied + [r]
            <==> && effect(r, sys.state).Some?
                 && (r.k in sys.rows ==>
                       && r.now >= sys.rows[r.k].expiresAt
                       && (p == SerialEffectsThenKey ==> r.hash != sys.rows[r.k].hash))
    ensures Call(p, sys, r, effect).0.applied != sys.applied + [r] ==> Call(p, sys, r, effect).0 == sys
  {
  }

  /** A row, once written, keeps its body until it expires, so every replay shows the first answer. */
  lemma {:induction false} BodyIsStable<S, B>(p: Protocol, sys: Sys<S, B>, rs: seq<Request>, effect: Effect<S, B>, k: KeyId)
    requires k in sys.rows && sys.rows[k].status == Completed
    requires forall i :: 0 <= i < |rs| ==> rs[i].now < sys.rows[k].expiresAt
    ensures var after := Run(p, sys, rs, effect).rows; k in after && after[k] == sys.rows[k]
  {
    if rs != [] {
      BodyIsStable(p, sys, rs[..|rs| - 1], effect, k);
    }
  }

  // ----- racing calls -----

  /** If another call with the same key and request commits between a call's look-up and its
      transaction, the effects happen a second time exactly when the operation itself still accepts
      the state: the key does not stop them. */
  lemma RaceRepeatsIff<S, B>(sys: Sys<S, B>, r: Request, effect: Effect<S, B>)
    requires r.k in sys.rows && sys.rows[r.k].hash == r.hash && r.now < sys.rows[r.k].expiresAt
    requires sys.rows[r.k].status == Completed
    ensures EffectsFirst(sys, r, effect).0.applied == sys.applied + [r] <==> effect(r, sys.state).Some?
    ensures effect(r, sys.state).None? ==> EffectsFirst(sys, r, effect) == (sys, Thrown)
  {
  }

  /** A request pinned to a version of what it changes, as `If-Match` does: it leaves the state as it
      is, or meets the version it expects and leaves the next one. */
  ghost predicate Pinned<S(!new), B(!new)>(effect: Effect<S, B>, version: S -> int, expected: Request -> int) {
    forall r, s :: effect(r, s).Some? ==>
      effect(r, s).value.0 == s || (version(s) == expected(r) && version(effect(r, s).value.0) == version(s) + 1)
  }

  /** The business state before request i. */
  function StateBefore<S, B>(p: Protocol, sys: Sys<S, B>, rs: seq<Request>, effect: Effect<S, B>, i: nat): S
    requires i <= |rs|
  {
    Run(p, sys, rs[..i], effect).state
  }

  lemma StateStep<S(!new), B(!new)>(sys: Sys<S, B>, rs: seq<Request>, effect: Effect<S, B>, version: S -> int, expected: Request -> int, i: nat)
    requires Pinned(effect, version, expected) && i < |rs|
    ensures var before, after := StateBefore(RacingEffectsThenKey, sys, rs, effect, i), StateBefore(RacingEffectsThenKey, sys, rs, effect, i + 1);
            after == before || (version(before) == expected(rs[i]) && version(after) == version(before) + 1)
  {
    assert rs[..i + 1][..i] == rs[..i];
  }

  lemma {:induction false} VersionsGrow<S(!new), B(!new)>(sys: Sys<S, B>, rs: seq<Request>, effect: Effect<S, B>, version: S -> int,
                                                        expected: Request -> int, i: nat, j: nat)
    requires Pinned(effect, version, expected) && i <= j <= |rs|
    ensures version(StateBefore(RacingEffectsThenKey, sys, rs, effect, i)) <= version(StateBefore(RacingEffectsThenKey, sys, rs, effect, j))
  {
    if i < j {
      VersionsGrow(sys, rs, effect, version, expected, i, j - 1);
      StateStep(sys, rs, effect, version, expected, j - 1);
    }
  }

  ghost predicate Changes<S, B>(sys: Sys<S, B>, rs: seq<Request>, effect: Effect<S, B>, i: nat)
    requires i < |rs|
  {
    StateBefore(RacingEffectsThenKey, sys, rs, effect, i + 1) != StateBefore(RacingEffectsThenKey, sys, rs, effect, i)
  }

  /** With such a pin no request changes the state twice, even when all look-ups race: of two that do
      change it the later one expects a higher version. */
  lemma PinnedEffectsOnce<S(!new), B(!new)>(sys: Sys<S, B>, rs: seq<Request>, effect: Effect<S, B>, version: S -> int,
                                            expected: Request -> int, i: nat, j: nat)
    requires Pinned(effect, version, expected) && i < j < |rs|
    requires Changes(sys, rs, effect, i) && Changes(sys, rs, effect, j)
    ensures expected(rs[i]) < expected(rs[j])
  {
    StateStep(sys, rs, effect, version, expected, i);
    StateStep(sys, rs, effect, version, expected, j);
    VersionsGrow(sys, rs, effect, version, expected, i + 1, j);
  }

  lemma RunTwo<S, B>(p: Protocol, sys: Sys<S, B>, a: Request, b: Request, effect: Effect<S, B>)
    ensures Run(p, sys, [a, b], effect) == Call(p, Call(p, sys, a, effect).0, b, effect).0
  {
    assert [a, b][..1] == [a] && [a][..0] == [];
    assert Run(p, sys, [a], effect) == Call(p, Run(p, sys, [], effect), a, effect).0;
  }

  /** Without it two racing calls both take effect. */
  lemma UnpinnedRaceRepeats(r: Request, effect: Effect<int, int>)
    requires forall q, n :: effect(q, n) == Some((n + 1, n + 1))
    ensures var after := Run(RacingEffectsThenKey, Sys(0, map[], []), [r, r], effect);
            after.state == 2 && after.applied == [r, r]
  {
    RunTwo(RacingEffectsThenKey, Sys(0, map[], []), r, r, effect);
  }
}
