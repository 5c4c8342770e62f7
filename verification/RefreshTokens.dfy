/** Refresh-token rotation (auth.service.ts). */
module RefreshTokens {
  import opened Prelude
  import opened AuthUserValidator

  // Rotation with reuse detection, section 4.14.2 of RFC 9700.
  //
  // A refresh is three steps: the checks on what was read, the read that opens the rotating
  // transaction, and its writes. That read takes no lock, so two transactions can both read a token
  // as unconsumed; `exclusive` says whether the database then lets only one of them write, as a row
  // lock or serializable isolation would. Revoking a family or a session is two statements. Steps of
  // any number of calls interleave freely, and a call may stop after any step. Token and family
  // values are fresh; a row's id is its position.

  datatype Token = Token(session: Id, family: Id, consumed: bool, replacedBy: Option<Id>, revoked: bool, expiresAt: int)

  /** A call between two of its steps. */
  datatype Pending =
    | Rotating(token: Id, organization: Option<Id>, membership: Option<Id>)
    | Replacing(token: Id)
    | RevokingFamilyTokens(family: Id)
    | RevokingFamilySessions(family: Id)
    | RevokingSessionTokens(session: Id)

  datatype Db = Db(
    tokens: seq<Token>, sessions: seq<Session>, users: seq<User>, memberships: seq<Membership>,
    calls: map<Id, Pending>, exclusive: bool)

  datatype Op =
    | CompleteLogin(user: Id, tenant: Option<Id>, membership: Option<Id>, loginExpiresAt: int)
    | CheckRefresh(call: Id, token: Id, now: int)
    | ReadCurrent(call: Id)
    | Replace(call: Id, expiresAt: int)
    | Logout(call: Id, session: Id)
    | Continue(call: Id)
    | Stop(call: Id)
    | SetUser(user: Id, disabled: bool, tokenVersion: nat)
    | SetMembership(member: Id, status: MembershipStatus)

  datatype Outcome = Done | Refused | ReuseDetected | Passed | Unconsumed | Conflict | Rotated(token: Id)

  // ----- the steps -----

  function RevokeTokens(tokens: seq<Token>, which: Token -> bool): seq<Token> {
    seq(|tokens|, i requires 0 <= i < |tokens| => if which(tokens[i]) then tokens[i].(revoked := true) else tokens[i])
  }

  function SessionsOfFamily(tokens: seq<Token>, family: Id): set<Id> {
    set t | t in tokens && t.family == family :: t.session
  }

  function Deactivate(sessions: seq<Session>, which: set<Id>): seq<Session> {
    seq(|sessions|, i requires 0 <= i < |sessions| => if i in which then sessions[i].(active := false) else sessions[i])
  }

  function Login(db: Db, user: Id, tenant: Option<Id>, membership: Option<Id>, expiresAt: int): Db {
    var s := |db.sessions|;
    db.(sessions := db.sessions + [Session(user, s, true, tenant, membership)],
        tokens := db.tokens + [Token(s, s, false, None, false, expiresAt)])
  }

  /** The session's membership no longer counts for a refresh: it is gone or suspended. */
  predicate Blocked(db: Db, session: Session) {
    session.membership.Some?
    && (session.membership.value >= |db.memberships| || db.memberships[session.membership.value].status == Suspended)
  }

  function Check(db: Db, call: Id, token: Id, now: int): (Db, Outcome) {
    if token >= |db.tokens| || db.tokens[token].revoked || db.tokens[token].expiresAt <= now then (db, Refused)
    else
      var t := db.tokens[token];
      if t.consumed then (db.(calls := db.calls[call := RevokingFamilyTokens(t.family)]), ReuseDetected)
      else if t.session >= |db.sessions| then (db, Refused)
      else
        var s := db.sessions[t.session];
        if !s.active || s.user >= |db.users| || db.users[s.user].disabled then (db, Refused)
        else if Blocked(db, s) then
          (db.(sessions := db.sessions[t.session := s.(tenant := None, membership := None)],
               calls := db.calls[call := Rotating(token, None, None)]), Passed)
        else (db.(calls := db.calls[call := Rotating(token, s.tenant, s.membership)]), Passed)
  }

  /** The read that opens the transaction. */
  function ReadToken(db: Db, call: Id): (Db, Outcome) {
    if call !in db.calls || !db.calls[call].Rotating? then (db, Refused)
    else
      var token := db.calls[call].token;
      if token >= |db.tokens| || db.tokens[token].consumed then (db.(calls := db.calls - {call}), Conflict)
      else (db.(calls := db.calls[call := Replacing(token)]), Unconsumed)
  }

  function RotatedTokens(tokens: seq<Token>, token: Id, expiresAt: int): seq<Token>
    requires token < |tokens|
  {
    var t := tokens[token];
    tokens[token := t.(consumed := true, replacedBy := Some(|tokens|))] + [Token(t.session, t.family, false, None, false, expiresAt)]
  }

  /** Its writes: the replacement, and the token marked by id, whatever it has become since the read. */
  function ReplaceToken(db: Db, call: Id, expiresAt: int): (Db, Outcome) {
    if call !in db.calls || !db.calls[call].Replacing? then (db, Refused)
    else
      var token := db.calls[call].token;
      var rest := db.(calls := db.calls - {call});
      if token >= |db.tokens| || (db.exclusive && db.tokens[token].consumed) then (rest, Conflict)
      else (rest.(tokens := RotatedTokens(db.tokens, token, expiresAt)), Rotated(|db.tokens|))
  }

  /** The next statement of a call that is revoking. */
  function ContinueCall(db: Db, call: Id): (Db, Outcome) {
    if call !in db.calls then (db, Refused)
    else
      match db.calls[call]
      case Rotating(_, _, _) => (db, Refused)
      case Replacing(_) => (db, Refused)
      case RevokingFamilyTokens(f) =>
        (db.(tokens := RevokeTokens(db.tokens, (t: Token) => t.family == f),
             calls := db.calls[call := RevokingFamilySessions(f)]), Done)
      case RevokingFamilySessions(f) =>
        (db.(sessions := Deactivate(db.sessions, SessionsOfFamily(db.tokens, f)), calls := db.calls - {call}), Done)
      case RevokingSessionTokens(s) =>
        (db.(tokens := RevokeTokens(db.tokens, (t: Token) => t.session == s), calls := db.calls - {call}), Done)
  }

  function Step(db: Db, op: Op): (Db, Outcome) {
    match op
    case CompleteLogin(user, tenant, membership, expiresAt) => (Login(db, user, tenant, membership, expiresAt), Done)
    case CheckRefresh(call, token, now) => if call in db.calls then (db, Refused) else Check(db, call, token, now)
    case ReadCurrent(call) => ReadToken(db, call)
    case Replace(call, expiresAt) => ReplaceToken(db, call, expiresAt)
    case Logout(call, session) =>
      if call in db.calls then (db, Refused)
      else (db.(sessions := Deactivate(db.sessions, {session}), calls := db.calls[call := RevokingSessionTokens(session)]), Done)
    case Continue(call) => ContinueCall(db, call)
    case Stop(call) => (db.(calls := db.calls - {call}), Done)
    case SetUser(user, disabled, version) =>
      if user < |db.users| then (db.(users := db.users[user := User(disabled, version)]), Done) else (db, Refused)
    case SetMembership(member, status) =>
      if member < |db.memberships| then (db.(memberships := db.memberships[member := db.memberships[member].(status := status)]), Done)
      else (db, Refused)
  }

  function Run(db: Db, ops: seq<Op>): Db {
    if ops == [] then db else Step(Run(db, ops[..|ops| - 1]), ops[|ops| - 1]).0
  }

  // ----- the service -----

  class AuthService {
    var tokens: seq<Token>
    var sessions: seq<Session>
    var users: seq<User>
    var memberships: seq<Membership>
    var calls: map<Id, Pending>
    const exclusive: bool

    function Tables(): Db
      reads this
    {
      Db(tokens, sessions, users, memberships, calls, exclusive)
    }

    constructor (db: Db)
      ensures Tables() == db
    {
      tokens, sessions, users, memberships, calls := db.tokens, db.sessions, db.users, db.memberships, db.calls;
      exclusive := db.exclusive;
    }

    method CompleteLogin(user: Id, tenant: Option<Id>, membership: Option<Id>, expiresAt: int) returns (token: Id)
      modifies this
      ensures Tables() == Login(old(Tables()), user, tenant, membership, expiresAt) && token == |old(tokens)|
    {
      var sessionId := |sessions|;
      sessions := sessions + [Session(user, sessionId, true, tenant, membership)];
      token := |tokens|;
      tokens := tokens + [Token(sessionId, sessionId, false, None, false, expiresAt)];
    }

    /** Everything `refresh` does before its transaction. */
    method CheckRefresh(call: Id, token: Id, now: int) returns (outcome: Outcome)
      modifies this
      ensures (Tables(), outcome) == Check(old(Tables()), call, token, now)
    {
      if token >= |tokens| || tokens[token].revoked || tokens[token].expiresAt <= now {
        return Refused;
      }
      var existing := tokens[token];
      if existing.consumed {
        calls := calls[call := RevokingFamilyTokens(existing.family)];
        return ReuseDetected;
      }
      if existing.session >= |sessions| {
        return Refused;
      }
      var session := sessions[existing.session];
      if !session.active || session.user >= |users| || users[session.user].disabled {
        return Refused;
      }
      var organization, membership := session.tenant, session.membership;
      if membership.Some? {
        if membership.value >= |memberships| || memberships[membership.value].status == Suspended {
          sessions := sessions[existing.session := session.(tenant := None, membership := None)];
          organization, membership := None, None;
        }
      }
      calls := calls[call := Rotating(token, organization, membership)];
      return Passed;
    }

    /** The transaction of `refresh`: what it reads first. */
    method FindCurrent(call: Id) returns (outcome: Outcome)
      modifies this`calls
      ensures (Tables(), outcome) == ReadToken(old(Tables()), call)
    {
      if call !in calls || !calls[call].Rotating? {
        return Refused;
      }
      var existing := calls[call].token;
      if existing >= |tokens| || tokens[existing].consumed {
        calls := calls - {call};
        return Conflict;
      }
      calls := calls[call := Replacing(existing)];
      return Unconsumed;
    }

    /** And what it writes. */
    method WriteReplacement(call: Id, expiresAt: int) returns (outcome: Outcome)
      modifies this`calls, this`tokens
      ensures (Tables(), outcome) == ReplaceToken(old(Tables()), call, expiresAt)
    {
      if call !in calls || !calls[call].Replacing? {
        return Refused;
      }
      var existing := calls[call].token;
      calls := calls - {call};
      if existing >= |tokens| || (exclusive && tokens[existing].consumed) {
        return Conflict;
      }
      var replacement := |tokens|;
      var current := tokens[existing];
      tokens := tokens + [Token(current.session, current.family, false, None, false, expiresAt)];
      tokens := tokens[existing := current.(consumed := true, replacedBy := Some(replacement))];
      assert tokens == RotatedTokens(old(tokens), existing, expiresAt);
      return Rotated(replacement);
    }

    /** `updateMany` on the unrevoked tokens of a family. */
    method RevokeFamilyTokens(family: Id)
      modifies this`tokens
      ensures tokens == RevokeTokens(old(tokens), (t: Token) => t.family == family)
    {
      for i := 0 to |tokens|
        invariant |tokens| == |old(tokens)|
        invariant forall k :: 0 <= k < i ==>
                    tokens[k] == if old(tokens)[k].family == family then old(tokens)[k].(revoked := true) else old(tokens)[k]
        invariant forall k :: i <= k < |tokens| ==> tokens[k] == old(tokens)[k]
      {
        if tokens[i].family == family && !tokens[i].revoked {
          tokens := tokens[i := tokens[i].(revoked := true)];
        }
      }
    }

    /** The two statements of revokeSession. */
    method RevokeSessionRow(session: Id)
      modifies this`sessions
      ensures sessions == Deactivate(old(sessions), {session})
    {
      if session < |sessions| {
        sessions := sessions[session := sessions[session].(active := false)];
      }
    }

    method RevokeSessionTokens(session: Id)
      modifies this`tokens
      ensures tokens == RevokeTokens(old(tokens), (t: Token) => t.session == session)
    {
      for i := 0 to |tokens|
        invariant |tokens| == |old(tokens)|
        invariant forall k :: 0 <= k < |tokens| ==>
                    tokens[k] == if k < i && old(tokens)[k].session == session then old(tokens)[k].(revoked := true) else old(tokens)[k]
      {
        if tokens[i].session == session && !tokens[i].revoked {
          tokens := tokens[i := tokens[i].(revoked := true)];
        }
      }
    }

    /** Revoke every session some token of the family belongs to. */
    method RevokeFamilySessions(family: Id)
      modifies this`sessions
      ensures sessions == Deactivate(old(sessions), SessionsOfFamily(tokens, family))
    {
      for i := 0 to |tokens|
        invariant sessions == Deactivate(old(sessions), SessionsOfFamily(tokens[..i], family))
      {
        assert tokens[..i + 1] == tokens[..i] + [tokens[i]];
        assert SessionsOfFamily(tokens[..i + 1], family)
            == SessionsOfFamily(tokens[..i], family) + if tokens[i].family == family then {tokens[i].session} else {};
        if tokens[i].family == family && tokens[i].session < |sessions| {
          sessions := sessions[tokens[i].session := sessions[tokens[i].session].(active := false)];
        }
      }
      assert tokens[..|tokens|] == tokens;
    }
  }

  // ----- the tokens of a family -----

  /** The family's tokens, oldest first. */
  function FamilyTokens(tokens: seq<Token>, family: Id): seq<Id> {
    if tokens == [] then []
    else
      var n := |tokens| - 1;
      FamilyTokens(tokens[..n], family) + if tokens[n].family == family then [n] else []
  }

  /** How many of the family's tokens are not consumed. */
  function Open(tokens: seq<Token>, family: Id): nat {
    if tokens == [] then 0
    else
      var n := |tokens| - 1;
      Open(tokens[..n], family) + if tokens[n].family == family && !tokens[n].consumed then 1 else 0
  }

  /** Every token but the last was consumed and replaced by the next; the last is unconsumed. */
  ghost predicate Chain(tokens: seq<Token>, chain: seq<Id>) {
    && chain != []
    && (forall i :: 0 <= i < |chain| ==> chain[i] < |tokens|)
    && (forall i :: 0 <= i < |chain| - 1 ==> tokens[chain[i]].consumed && tokens[chain[i]].replacedBy == Some(chain[i + 1]))
    && !tokens[chain[|chain| - 1]].consumed && tokens[chain[|chain| - 1]].replacedBy == None
  }

  predicate OnToken(p: Pending) {
    p.Rotating? || p.Replacing?
  }

  ghost predicate Inv(db: Db) {
    && (forall t :: 0 <= t < |db.tokens| ==> db.tokens[t].session == db.tokens[t].family < |db.sessions|)
    && (forall s :: 0 <= s < |db.sessions| ==> db.sessions[s].family == s)
    && (forall c :: c in db.calls && OnToken(db.calls[c]) ==> db.calls[c].token < |db.tokens|)
  }

  lemma {:induction false} FamilyMembers(tokens: seq<Token>, family: Id, t: Id)
    ensures t in FamilyTokens(tokens, family) <==> t < |tokens| && tokens[t].family == family
  {
    if tokens != [] {
      FamilyMembers(tokens[..|tokens| - 1], family, t);
    }
  }

  /** The family of a token list depends on nothing but the family fields. */
  lemma {:induction false} SameFamilies(a: seq<Token>, b: seq<Token>, family: Id)
    requires |a| == |b| && forall i :: 0 <= i < |a| ==> a[i].family == b[i].family
    ensures FamilyTokens(a, family) == FamilyTokens(b, family)
  {
    if a != [] {
      SameFamilies(a[..|a| - 1], b[..|b| - 1], family);
    }
  }

  lemma {:induction false} SameOpen(a: seq<Token>, b: seq<Token>, family: Id)
    requires |a| == |b| && forall i :: 0 <= i < |a| ==> a[i].family == b[i].family && a[i].consumed == b[i].consumed
    ensures Open(a, family) == Open(b, family)
  {
    if a != [] {
      SameOpen(a[..|a| - 1], b[..|b| - 1], family);
    }
  }

  lemma {:induction false} NoFamilyYet(tokens: seq<Token>, family: Id)
    requires forall t :: 0 <= t < |tokens| ==> tokens[t].family != family
    ensures FamilyTokens(tokens, family) == [] && Open(tokens, family) == 0
  {
    if tokens != [] { NoFamilyYet(tokens[..|tokens| - 1], family); }
  }

  lemma FamilyGrows(tokens: seq<Token>, t: Token, family: Id)
    ensures FamilyTokens(tokens + [t], family) == FamilyTokens(tokens, family) + if t.family == family then [|tokens|] else []
    ensures Open(tokens + [t], family) == Open(tokens, family) + if t.family == family && !t.consumed then 1 else 0
  {
    assert (tokens + [t])[..|tokens|] == tokens;
  }

  lemma {:induction false} Consuming(tokens: seq<Token>, token: Id, t: Token, family: Id)
    requires token < |tokens| && t.family == tokens[token].family && t.consumed
    ensures Open(tokens[token := t], family) == Open(tokens, family) - if t.family == family && !tokens[token].consumed then 1 else 0
  {
    var n := |tokens| - 1;
    if token < n {
      Consuming(tokens[..n], token, t, family);
      assert tokens[token := t][..n] == tokens[..n][token := t];
    } else {
      assert tokens[token := t][..n] == tokens[..n];
    }
  }

  lemma RotatedFamily(tokens: seq<Token>, token: Id, expiresAt: int, s: Id)
    requires token < |tokens|
    ensures var after := RotatedTokens(tokens, token, expiresAt);
            && FamilyTokens(after, s) == FamilyTokens(tokens, s) + (if tokens[token].family == s then [|tokens|] else [])
            && Open(after, s) == Open(tokens, s) + if tokens[token].family == s && tokens[token].consumed then 1 else 0
  {
    var t := tokens[token];
    var marked := tokens[token := t.(consumed := true, replacedBy := Some(|tokens|))];
    SameFamilies(tokens, marked, s);
    Consuming(tokens, token, marked[token], s);
    FamilyGrows(marked, Token(t.session, t.family, false, None, false, expiresAt), s);
  }

  function OpenAmong(tokens: seq<Token>, ids: seq<Id>): nat
    requires forall i :: 0 <= i < |ids| ==> ids[i] < |tokens|
  {
    if ids == [] then 0 else OpenAmong(tokens, ids[..|ids| - 1]) + if tokens[ids[|ids| - 1]].consumed then 0 else 1
  }

  lemma {:induction false} MembersInRange(tokens: seq<Token>, family: Id)
    ensures forall i :: 0 <= i < |FamilyTokens(tokens, family)| ==> FamilyTokens(tokens, family)[i] < |tokens|
  {
    if tokens != [] { MembersInRange(tokens[..|tokens| - 1], family); }
  }

  lemma {:induction false} LongerTable(tokens: seq<Token>, n: nat, ids: seq<Id>)
    requires n <= |tokens| && forall i :: 0 <= i < |ids| ==> ids[i] < n
    ensures OpenAmong(tokens, ids) == OpenAmong(tokens[..n], ids)
  {
    if ids != [] { LongerTable(tokens, n, ids[..|ids| - 1]); }
  }

  lemma {:induction false} OpenIsAmongMembers(tokens: seq<Token>, family: Id)
    ensures forall i :: 0 <= i < |FamilyTokens(tokens, family)| ==> FamilyTokens(tokens, family)[i] < |tokens|
    ensures OpenAmong(tokens, FamilyTokens(tokens, family)) == Open(tokens, family)
  {
    MembersInRange(tokens, family);
    if tokens != [] {
      var n := |tokens| - 1;
      var before, all := FamilyTokens(tokens[..n], family), FamilyTokens(tokens, family);
      OpenIsAmongMembers(tokens[..n], family);
      LongerTable(tokens, n, before);
      if tokens[n].family == family {
        assert all == before + [n] && all[..|all| - 1] == before;
        assert OpenAmong(tokens, all) == OpenAmong(tokens, before) + if tokens[n].consumed then 0 else 1;
      } else {
        assert all == before;
      }
    }
  }

  lemma {:induction false} NoneOpen(tokens: seq<Token>, ids: seq<Id>)
    requires forall i :: 0 <= i < |ids| ==> ids[i] < |tokens| && tokens[ids[i]].consumed
    ensures OpenAmong(tokens, ids) == 0
  {
    if ids != [] { NoneOpen(tokens, ids[..|ids| - 1]); }
  }

  lemma ChainHasOneOpen(tokens: seq<Token>, s: Id)
    requires Chain(tokens, FamilyTokens(tokens, s))
    ensures Open(tokens, s) == 1
  {
    OpenIsAmongMembers(tokens, s);
    OnlyEndOpen(tokens, FamilyTokens(tokens, s));
  }

  lemma OnlyEndOpen(tokens: seq<Token>, chain: seq<Id>)
    requires Chain(tokens, chain)
    ensures OpenAmong(tokens, chain) == 1
  {
    NoneOpen(tokens, chain[..|chain| - 1]);
  }

  lemma OnlyTheEndIsUnconsumed(tokens: seq<Token>, s: Id, t: Id)
    requires Chain(tokens, FamilyTokens(tokens, s)) && t < |tokens| && tokens[t].family == s
    ensures var chain := FamilyTokens(tokens, s);
            t in chain && (!tokens[t].consumed <==> t == chain[|chain| - 1])
  {
    var chain := FamilyTokens(tokens, s);
    FamilyMembers(tokens, s, t);
    var i :| 0 <= i < |chain| && chain[i] == t;
    assert i < |chain| - 1 ==> tokens[chain[i]].consumed;
  }

  // ----- steps -----

  /** Same tokens up to revocation, same sessions up to status and context. */
  ghost predicate SameShape(a: Db, b: Db) {
    && |a.tokens| == |b.tokens| && |a.sessions| == |b.sessions| && a.exclusive == b.exclusive
    && (forall i :: 0 <= i < |a.tokens| ==> b.tokens[i] == a.tokens[i].(revoked := b.tokens[i].revoked))
    && (forall s :: 0 <= s < |a.sessions| ==> b.sessions[s].family == a.sessions[s].family && b.sessions[s].user == a.sessions[s].user
                                              && (b.sessions[s].active ==> a.sessions[s].active))
  }

  lemma OtherStepsKeepShape(db: Db, op: Op)
    requires !op.CompleteLogin? && !op.Replace?
    ensures SameShape(db, Step(db, op).0)
  {
  }

  lemma StepKeepsInv(db: Db, op: Op)
    requires Inv(db)
    ensures Inv(Step(db, op).0) && Step(db, op).0.exclusive == db.exclusive
  {
    if !op.CompleteLogin? && !op.Replace? { OtherStepsKeepShape(db, op); }
  }

  lemma {:induction false} RunKeepsInv(db: Db, ops: seq<Op>)
    requires Inv(db)
    ensures Inv(Run(db, ops)) && Run(db, ops).exclusive == db.exclusive
  {
    if ops != [] {
      RunKeepsInv(db, ops[..|ops| - 1]);
      StepKeepsInv(Run(db, ops[..|ops| - 1]), ops[|ops| - 1]);
    }
  }

  /** A rotation of a token that some other rotation has consumed since this one read it. */
  ghost predicate Forks(db: Db, op: Op, s: Id) {
    && op.Replace? && Step(db, op).1.Rotated?
    && db.tokens[db.calls[op.call].token].consumed && db.tokens[db.calls[op.call].token].family == s
  }

  ghost function ForkCount(db: Db, ops: seq<Op>, s: Id): nat {
    if ops == [] then 0
    else ForkCount(db, ops[..|ops| - 1], s) + if Forks(Run(db, ops[..|ops| - 1]), ops[|ops| - 1], s) then 1 else 0
  }

  /** One step on a family that exists: a fork adds an unconsumed token, and nothing else breaks a chain. */
  lemma StepOnFamily(db: Db, op: Op, s: Id)
    requires Inv(db) && s < |db.sessions|
    ensures var after := Step(db, op).0;
            && Open(after.tokens, s) == Open(db.tokens, s) + (if Forks(db, op, s) then 1 else 0)
            && (Chain(db.tokens, FamilyTokens(db.tokens, s)) && !Forks(db, op, s) ==> Chain(after.tokens, FamilyTokens(after.tokens, s)))
  {
    if op.Replace? {
      ReplaceOnFamily(db, op.call, op.expiresAt, s);
    } else if op.CompleteLogin? {
      FamilyGrows(db.tokens, Step(db, op).0.tokens[|db.tokens|], s);
    } else {
      OtherStepsKeepShape(db, op);
      SameShapeKeepsFamily(db, Step(db, op).0, s);
    }
  }

  lemma SameShapeKeepsFamily(a: Db, b: Db, s: Id)
    requires SameShape(a, b)
    ensures FamilyTokens(a.tokens, s) == FamilyTokens(b.tokens, s) && Open(a.tokens, s) == Open(b.tokens, s)
    ensures Chain(a.tokens, FamilyTokens(a.tokens, s)) ==> Chain(b.tokens, FamilyTokens(b.tokens, s))
  {
    SameFamilies(a.tokens, b.tokens, s);
    SameOpen(a.tokens, b.tokens, s);
  }

  lemma ReplaceOnFamily(db: Db, call: Id, expiresAt: int, s: Id)
    requires Inv(db)
    ensures var (after, outcome) := ReplaceToken(db, call, expiresAt);
            var forks := outcome.Rotated? && db.tokens[db.calls[call].token].consumed && db.tokens[db.calls[call].token].family == s;
            && Open(after.tokens, s) == Open(db.tokens, s) + (if forks then 1 else 0)
            && (Chain(db.tokens, FamilyTokens(db.tokens, s)) && !forks ==> Chain(after.tokens, FamilyTokens(after.tokens, s)))
  {
    if ReplaceToken(db, call, expiresAt).1.Rotated? {
      var token := db.calls[call].token;
      RotatedFamily(db.tokens, token, expiresAt, s);
      if Chain(db.tokens, FamilyTokens(db.tokens, s)) && (db.tokens[token].family == s ==> !db.tokens[token].consumed) {
        RotatedChain(db.tokens, token, expiresAt, s);
      }
    }
  }

  lemma RotatedChain(tokens: seq<Token>, token: Id, expiresAt: int, s: Id)
    requires Chain(tokens, FamilyTokens(tokens, s)) && token < |tokens| && (tokens[token].family == s ==> !tokens[token].consumed)
    ensures var after := RotatedTokens(tokens, token, expiresAt); Chain(after, FamilyTokens(after, s))
  {
    RotatedFamily(tokens, token, expiresAt, s);
    var chain := FamilyTokens(tokens, s);
    if tokens[token].family == s { OnlyTheEndIsUnconsumed(tokens, s, token); }
    forall i | 0 <= i < |chain| ensures chain[i] == token ==> tokens[token].family == s && i == |chain| - 1 {
      FamilyMembers(tokens, s, chain[i]);
    }
  }

  function EmptyDb(exclusive: bool, users: seq<User>, memberships: seq<Membership>): Db {
    Db([], [], users, memberships, map[], exclusive)
  }

  /** The family has one unconsumed token and one more for every fork, and without forks it is a chain. */
  ghost predicate FamilyLaw(db: Db, s: Id, forks: nat) {
    && (s >= |db.sessions| ==> forks == 0)
    && (s < |db.sessions| ==> Open(db.tokens, s) == 1 + forks)
    && (s < |db.sessions| && forks == 0 ==> Chain(db.tokens, FamilyTokens(db.tokens, s)))
  }

  lemma StepKeepsLaw(db: Db, op: Op, s: Id, forks: nat)
    requires Inv(db) && FamilyLaw(db, s, forks)
    ensures FamilyLaw(Step(db, op).0, s, forks + if Forks(db, op, s) then 1 else 0)
  {
    if s < |db.sessions| {
      StepOnFamily(db, op, s);
      SessionsStay(db, op);
    } else {
      NewFamily(db, op, s);
    }
  }

  lemma SessionsStay(db: Db, op: Op)
    ensures |Step(db, op).0.sessions| >= |db.sessions|
  {
    if !op.CompleteLogin? && !op.Replace? { OtherStepsKeepShape(db, op); }
  }

  lemma NewFamily(db: Db, op: Op, s: Id)
    requires Inv(db) && s >= |db.sessions|
    ensures !Forks(db, op, s) && FamilyLaw(Step(db, op).0, s, 0)
  {
    var after := Step(db, op).0;
    if op.CompleteLogin? {
      NoFamilyYet(db.tokens, s);
      FamilyGrows(db.tokens, after.tokens[|db.tokens|], s);
    } else if !op.Replace? {
      OtherStepsKeepShape(db, op);
    }
  }

  /** The law holds over every interleaving of steps, however many calls stop midway. */
  lemma {:induction false} OneOpenTokenPerFork(exclusive: bool, users: seq<User>, memberships: seq<Membership>, ops: seq<Op>, s: Id)
    ensures FamilyLaw(Run(EmptyDb(exclusive, users, memberships), ops), s, ForkCount(EmptyDb(exclusive, users, memberships), ops, s))
  {
    if ops != [] {
      var start, before := EmptyDb(exclusive, users, memberships), ops[..|ops| - 1];
      OneOpenTokenPerFork(exclusive, users, memberships, before, s);
      RunKeepsInv(start, before);
      StepKeepsLaw(Run(start, before), ops[|ops| - 1], s, ForkCount(start, before, s));
    }
  }

  // ----- where forks come from -----

  /** At step k a rotation writes that read its token at step i, and in between, at step j, another
      rotation of that token wrote. */
  ghost predicate Overlap(db: Db, ops: seq<Op>, s: Id, i: nat, j: nat, k: nat) {
    && i < j < k < |ops|
    && ops[i].ReadCurrent? && ops[j].Replace? && ops[k].Replace? && ops[i].call == ops[k].call && ops[j].call != ops[k].call
    && Step(Run(db, ops[..j]), ops[j]).1.Rotated? && Step(Run(db, ops[..k]), ops[k]).1.Rotated?
    && Writer(Run(db, ops[..j]), ops[j].call, TokenOf(Run(db, ops[..k]), ops[k].call))
    && HeldSince(db, ops, i, k, ops[k].call, TokenOf(Run(db, ops[..k]), ops[k].call))
    && FamilyOf(Run(db, ops[..k]), TokenOf(Run(db, ops[..k]), ops[k].call)) == Some(s)
  }

  function TokenOf(db: Db, call: Id): Id {
    if call in db.calls && db.calls[call].Replacing? then db.calls[call].token else 0
  }

  function FamilyOf(db: Db, token: Id): Option<Id> {
    if token < |db.tokens| then Some(db.tokens[token].family) else None
  }

  predicate Writer(db: Db, call: Id, token: Id) {
    call in db.calls && db.calls[call] == Replacing(token)
  }

  /** From right after step i up to step k the call is between its read of the token and its writes. */
  ghost predicate HeldSince(db: Db, ops: seq<Op>, i: nat, k: nat, call: Id, token: Id) {
    i < k <= |ops| && forall m :: i < m <= k ==> Writer(Run(db, ops[..m]), call, token)
  }

  ghost predicate Consumed(db: Db, token: Id) {
    token < |db.tokens| && db.tokens[token].consumed
  }

  lemma StepKeepsWasConsumed(db: Db, op: Op, token: Id)
    requires Consumed(db, token)
    ensures Consumed(Step(db, op).0, token)
  {
    if !op.CompleteLogin? && !op.Replace? { OtherStepsKeepShape(db, op); }
  }

  lemma {:induction false} StaysConsumed(db: Db, ops: seq<Op>, m: nat, k: nat, token: Id)
    requires m <= k <= |ops| && Consumed(Run(db, ops[..m]), token)
    ensures Consumed(Run(db, ops[..k]), token)
  {
    if m < k {
      StaysConsumed(db, ops, m, k - 1, token);
      PrefixStep(db, ops, k - 1);
      StepKeepsWasConsumed(Run(db, ops[..k - 1]), ops[k - 1], token);
    }
  }

  lemma PrefixStep(db: Db, ops: seq<Op>, k: nat)
    requires k < |ops|
    ensures Run(db, ops[..k + 1]) == Step(Run(db, ops[..k]), ops[k]).0
  {
    assert ops[..k + 1][..k] == ops[..k];
  }

  lemma BecomesWriter(db: Db, op: Op, call: Id, token: Id)
    requires !Writer(db, call, token) && Writer(Step(db, op).0, call, token)
    ensures op == ReadCurrent(call) && !Consumed(Step(db, op).0, token)
  {
  }

  /** A call that is about to write read its token at some step and has not moved since. */
  lemma {:induction false} ReadBefore(db: Db, ops: seq<Op>, k: nat, call: Id, token: Id) returns (i: nat)
    requires k <= |ops| && db.calls == map[] && Writer(Run(db, ops[..k]), call, token)
    ensures i < k && ops[i] == ReadCurrent(call) && HeldSince(db, ops, i, k, call, token)
    ensures !Consumed(Run(db, ops[..i + 1]), token)
  {
    NobodyWritesAtFirst(db, ops, call, token);
    if Writer(Run(db, ops[..k - 1]), call, token) {
      i := ReadBefore(db, ops, k - 1, call, token);
      HeldLonger(db, ops, i, k - 1, call, token);
    } else {
      i := k - 1;
      PrefixStep(db, ops, i);
      BecomesWriter(Run(db, ops[..i]), ops[i], call, token);
      HeldOnce(db, ops, i, call, token);
    }
  }

  lemma NobodyWritesAtFirst(db: Db, ops: seq<Op>, call: Id, token: Id)
    requires db.calls == map[]
    ensures !Writer(Run(db, ops[..0]), call, token)
  {
    assert ops[..0] == [];
  }

  lemma HeldLonger(db: Db, ops: seq<Op>, i: nat, k: nat, call: Id, token: Id)
    requires HeldSince(db, ops, i, k, call, token) && k < |ops| && Writer(Run(db, ops[..k + 1]), call, token)
    ensures HeldSince(db, ops, i, k + 1, call, token)
  {
  }

  lemma HeldOnce(db: Db, ops: seq<Op>, i: nat, call: Id, token: Id)
    requires i < |ops| && Writer(Run(db, ops[..i + 1]), call, token)
    ensures HeldSince(db, ops, i, i + 1, call, token)
  {
  }

  /** Where a token that was not consumed becomes so, a rotation of it wrote. */
  lemma {:induction false} WrittenBetween(db: Db, ops: seq<Op>, m: nat, k: nat, token: Id, call: Id) returns (j: nat)
    requires m <= k <= |ops| && !Consumed(Run(db, ops[..m]), token) && Consumed(Run(db, ops[..k]), token)
    requires token < |Run(db, ops[..m]).tokens|
    requires forall x :: m <= x <= k ==> Writer(Run(db, ops[..x]), call, token)
    ensures m <= j < k && ops[j].Replace? && ops[j].call != call && Step(Run(db, ops[..j]), ops[j]).1.Rotated?
    ensures Writer(Run(db, ops[..j]), ops[j].call, token)
    decreases k - m
  {
    PrefixStep(db, ops, m);
    if Consumed(Run(db, ops[..m + 1]), token) {
      j := m;
      BecomesConsumed(Run(db, ops[..m]), ops[m], token);
      assert Writer(Run(db, ops[..m + 1]), call, token);
    } else {
      if !ops[m].CompleteLogin? && !ops[m].Replace? { OtherStepsKeepShape(Run(db, ops[..m]), ops[m]); }
      j := WrittenBetween(db, ops, m + 1, k, token, call);
    }
  }

  lemma BecomesConsumed(db: Db, op: Op, token: Id)
    requires token < |db.tokens| && !Consumed(db, token) && Consumed(Step(db, op).0, token)
    ensures op.Replace? && Step(db, op).1.Rotated? && Writer(db, op.call, token) && !Writer(Step(db, op).0, op.call, token)
  {
    if !op.CompleteLogin? && !op.Replace? { OtherStepsKeepShape(db, op); }
  }

  lemma {:induction false} SomeFork(db: Db, ops: seq<Op>, s: Id)
    ensures ForkCount(db, ops, s) > 0 <==> exists k :: 0 <= k < |ops| && ForksAt(db, ops, s, k)
  {
    if ops != [] {
      var n := |ops| - 1;
      SomeFork(db, ops[..n], s);
      forall k | 0 <= k < n ensures ForksAt(db, ops, s, k) <==> ForksAt(db, ops[..n], s, k) {
        assert ops[..n][..k] == ops[..k];
      }
      if ForksAt(db, ops, s, n) { assert 0 <= n < |ops|; }
    }
  }

  ghost predicate ForksAt(db: Db, ops: seq<Op>, s: Id, k: nat)
    requires k < |ops|
  {
    Forks(Run(db, ops[..k]), ops[k], s)
  }

  ghost predicate OverlapAt(db: Db, ops: seq<Op>, s: Id, k: nat) {
    exists i, j :: Overlap(db, ops, s, i, j, k)
  }

  /** A call about to write on a consumed token read it at i, and another rotation wrote at j since. */
  lemma WrittenSinceRead(db: Db, ops: seq<Op>, k: nat, call: Id, token: Id) returns (i: nat, j: nat)
    requires Inv(db) && db.calls == map[] && k <= |ops|
    requires Writer(Run(db, ops[..k]), call, token) && Consumed(Run(db, ops[..k]), token)
    ensures i < j < k && ops[i] == ReadCurrent(call) && HeldSince(db, ops, i, k, call, token)
    ensures ops[j].Replace? && ops[j].call != call && Step(Run(db, ops[..j]), ops[j]).1.Rotated?
    ensures Writer(Run(db, ops[..j]), ops[j].call, token)
  {
    i := ReadBefore(db, ops, k, call, token);
    InRange(db, ops, i + 1, call, token);
    j := WrittenBetween(db, ops, i + 1, k, token, call);
  }

  lemma ForkHasOverlap(db: Db, ops: seq<Op>, s: Id, k: nat)
    requires Inv(db) && db.calls == map[] && k < |ops| && ForksAt(db, ops, s, k)
    ensures OverlapAt(db, ops, s, k)
  {
    var call, token := ops[k].call, TokenOf(Run(db, ops[..k]), ops[k].call);
    var i, j := WrittenSinceRead(db, ops, k, call, token);
    assert Overlap(db, ops, s, i, j, k);
  }

  lemma InRange(db: Db, ops: seq<Op>, k: nat, call: Id, token: Id)
    requires Inv(db) && k <= |ops| && Writer(Run(db, ops[..k]), call, token)
    ensures token < |Run(db, ops[..k]).tokens|
  {
    RunKeepsInv(db, ops[..k]);
  }

  lemma OverlapForks(db: Db, ops: seq<Op>, s: Id, i: nat, j: nat, k: nat)
    requires Overlap(db, ops, s, i, j, k)
    ensures ForksAt(db, ops, s, k)
  {
    var token := TokenOf(Run(db, ops[..k]), ops[k].call);
    WriterConsumes(Run(db, ops[..j]), ops[j], token);
    PrefixStep(db, ops, j);
    StaysConsumed(db, ops, j + 1, k, token);
    RotatedOnlyByReplace(Run(db, ops[..k]), ops[k]);
  }

  lemma WriterConsumes(db: Db, op: Op, token: Id)
    requires op.Replace? && Step(db, op).1.Rotated? && Writer(db, op.call, token)
    ensures Consumed(Step(db, op).0, token)
  {
  }

  lemma RotatedOnlyByReplace(db: Db, op: Op)
    requires op.Replace? && Step(db, op).1.Rotated?
    ensures op.call in db.calls && db.calls[op.call] == Replacing(TokenOf(db, op.call)) && TokenOf(db, op.call) < |db.tokens|
  {
  }

  /** A write is a fork exactly when another rotation of the token wrote since this one read it. */
  lemma ForkIsOverlap(db: Db, ops: seq<Op>, s: Id, k: nat)
    requires Inv(db) && db.calls == map[] && k < |ops|
    ensures ForksAt(db, ops, s, k) <==> OverlapAt(db, ops, s, k)
  {
    if ForksAt(db, ops, s, k) { ForkHasOverlap(db, ops, s, k); }
    if i, j :| Overlap(db, ops, s, i, j, k) { OverlapForks(db, ops, s, i, j, k); }
  }

  lemma NoForkIff(db: Db, ops: seq<Op>, s: Id)
    requires Inv(db) && db.calls == map[]
    ensures ForkCount(db, ops, s) == 0 <==> forall k :: 0 <= k < |ops| ==> !OverlapAt(db, ops, s, k)
  {
    SomeFork(db, ops, s);
    forall k | 0 <= k < |ops| ensures ForksAt(db, ops, s, k) <==> OverlapAt(db, ops, s, k) {
      ForkIsOverlap(db, ops, s, k);
    }
  }

  /** A family is one chain of replacements, and has exactly one unconsumed token, exactly when no
      rotation of one of its tokens wrote between another's read and its writes. */
  lemma OneChainIff(exclusive: bool, users: seq<User>, memberships: seq<Membership>, ops: seq<Op>, s: Id)
    requires s < |Run(EmptyDb(exclusive, users, memberships), ops).sessions|
    ensures var tokens := Run(EmptyDb(exclusive, users, memberships), ops).tokens;
            var clean := forall k :: 0 <= k < |ops| ==> !OverlapAt(EmptyDb(exclusive, users, memberships), ops, s, k);
            && (Chain(tokens, FamilyTokens(tokens, s)) <==> clean)
            && (Open(tokens, s) == 1 <==> clean)
  {
    var start := EmptyDb(exclusive, users, memberships);
    OneOpenTokenPerFork(exclusive, users, memberships, ops, s);
    NoForkIff(start, ops, s);
    var tokens := Run(start, ops).tokens;
    if Chain(tokens, FamilyTokens(tokens, s)) { ChainHasOneOpen(tokens, s); }
  }

  lemma {:induction false} ExclusiveNeverForks(db: Db, ops: seq<Op>, s: Id)
    requires Inv(db) && db.exclusive
    ensures ForkCount(db, ops, s) == 0
  {
    if ops != [] {
      ExclusiveNeverForks(db, ops[..|ops| - 1], s);
      RunKeepsInv(db, ops[..|ops| - 1]);
    }
  }

  /** So with exclusive rotations, over every interleaving, every family is one chain and exactly its
      end is not consumed. */
  lemma OneUnconsumedToken(users: seq<User>, memberships: seq<Membership>, ops: seq<Op>, s: Id)
    requires s < |Run(EmptyDb(true, users, memberships), ops).sessions|
    ensures var tokens := Run(EmptyDb(true, users, memberships), ops).tokens;
            var chain := FamilyTokens(tokens, s);
            && Chain(tokens, chain)
            && forall t: Id :: t < |tokens| && tokens[t].family == s ==>
                 t in chain && (!tokens[t].consumed <==> t == chain[|chain| - 1])
  {
    OneOpenTokenPerFork(true, users, memberships, ops, s);
    ExclusiveNeverForks(EmptyDb(true, users, memberships), ops, s);
    var tokens := Run(EmptyDb(true, users, memberships), ops).tokens;
    forall t: Id | t < |tokens| && tokens[t].family == s
      ensures t in FamilyTokens(tokens, s) && (!tokens[t].consumed <==> t == FamilyTokens(tokens, s)[|FamilyTokens(tokens, s)| - 1])
    {
      OnlyTheEndIsUnconsumed(tokens, s, t);
    }
  }

  // ----- after a session is revoked -----

  ghost predicate RevokedSession(db: Db, s: Id) {
    s < |db.sessions| && !db.sessions[s].active
  }

  lemma StepKeepsRevoked(db: Db, op: Op, s: Id)
    requires RevokedSession(db, s)
    ensures RevokedSession(Step(db, op).0, s)
  {
    if !op.CompleteLogin? && !op.Replace? {
      OtherStepsKeepShape(db, op);
    }
  }

  /** Once a session is revoked it stays revoked, and from then on, whatever else happens, no check
      of a refresh on any of its tokens passes and no access token for it is accepted. */
  lemma {:induction false} RevocationIsFinal(db: Db, ops: seq<Op>, s: Id, call: Id, token: Id, now: int, claims: Claims)
    requires Inv(db) && RevokedSession(db, s)
    requires claims.session == s
    ensures var after := Run(db, ops);
            && RevokedSession(after, s)
            && !Accepted(after.users, after.sessions, claims)
            && (token < |after.tokens| && after.tokens[token].session == s ==> Step(after, CheckRefresh(call, token, now)).1 != Passed)
  {
    if ops != [] {
      RevocationIsFinal(db, ops[..|ops| - 1], s, call, token, now, claims);
      StepKeepsRevoked(Run(db, ops[..|ops| - 1]), ops[|ops| - 1], s);
    }
  }

  /** The call can still add a token to the family: it has passed its check and has not been overtaken. */
  predicate CanStillWrite(db: Db, call: Id, s: Id) {
    && call in db.calls && OnToken(db.calls[call]) && db.calls[call].token < |db.tokens|
    && db.tokens[db.calls[call].token].family == s
    && (db.calls[call].Rotating? || db.exclusive ==> !db.tokens[db.calls[call].token].consumed)
  }

  function InFlight(db: Db, s: Id): set<Id> {
    set c | c in db.calls && CanStillWrite(db, c, s)
  }

  lemma SubsetCount(a: set<Id>, b: set<Id>)
    requires a <= b
    ensures |a| <= |b|
  {
    assert b == a + (b - a);
  }

  lemma StepOnRevoked(db: Db, op: Op, s: Id)
    requires Inv(db) && RevokedSession(db, s)
    ensures var after := Step(db, op).0;
            && |FamilyTokens(after.tokens, s)| + |InFlight(after, s)| <= |FamilyTokens(db.tokens, s)| + |InFlight(db, s)|
            && InFlight(after, s) <= InFlight(db, s)
  {
    NoneJoins(db, op, s);
    if AddsTo(db, op, s) {
      WriterLeaves(db, op, s);
    } else {
      FamilyStays(db, op, s);
      SubsetCount(InFlight(Step(db, op).0, s), InFlight(db, s));
    }
  }

  ghost predicate AddsTo(db: Db, op: Op, s: Id) {
    op.Replace? && Step(db, op).1.Rotated? && db.tokens[db.calls[op.call].token].family == s
  }

  lemma WriterLeaves(db: Db, op: Op, s: Id)
    requires Inv(db) && RevokedSession(db, s) && AddsTo(db, op, s)
    ensures var after := Step(db, op).0;
            && |FamilyTokens(after.tokens, s)| == |FamilyTokens(db.tokens, s)| + 1
            && op.call in InFlight(db, s) && |InFlight(after, s)| < |InFlight(db, s)|
  {
    NoneJoins(db, op, s);
    RotatedFamily(db.tokens, db.calls[op.call].token, op.expiresAt, s);
    SubsetCount(InFlight(Step(db, op).0, s), InFlight(db, s) - {op.call});
  }

  lemma FamilyStays(db: Db, op: Op, s: Id)
    requires Inv(db) && s < |db.sessions| && !AddsTo(db, op, s)
    ensures FamilyTokens(Step(db, op).0.tokens, s) == FamilyTokens(db.tokens, s)
  {
    var after := Step(db, op).0;
    if op.CompleteLogin? {
      FamilyGrows(db.tokens, after.tokens[|db.tokens|], s);
    } else if op.Replace? && Step(db, op).1.Rotated? {
      RotatedFamily(db.tokens, db.calls[op.call].token, op.expiresAt, s);
    } else {
      TokensStay(db, op);
      SameFamilies(db.tokens, after.tokens, s);
    }
  }

  lemma TokensStay(db: Db, op: Op)
    requires !op.CompleteLogin? && !(op.Replace? && Step(db, op).1.Rotated?)
    ensures var after := Step(db, op).0;
            |after.tokens| == |db.tokens| && forall i :: 0 <= i < |db.tokens| ==> after.tokens[i].family == db.tokens[i].family
  {
    if !op.Replace? { OtherStepsKeepShape(db, op); }
  }

  /** No check passes on a token of a revoked session, so no rotation of it starts. */
  lemma NoneJoins(db: Db, op: Op, s: Id)
    requires Inv(db) && RevokedSession(db, s)
    ensures InFlight(Step(db, op).0, s) <= InFlight(db, s)
  {
    var after := Step(db, op).0;
    forall c | c in InFlight(after, s) ensures c in InFlight(db, s) {
      DoesNotJoin(db, op, c, s);
    }
  }

  lemma DoesNotJoin(db: Db, op: Op, c: Id, s: Id)
    requires Inv(db) && RevokedSession(db, s) && CanStillWrite(Step(db, op).0, c, s)
    ensures CanStillWrite(db, c, s)
  {
    if !op.CompleteLogin? && !op.Replace? { OtherStepsKeepShape(db, op); }
  }

  /** A revoked session's family gains at most as many tokens as there were rotations in flight. */
  lemma {:induction false} LateTokens(db: Db, ops: seq<Op>, s: Id)
    requires Inv(db) && RevokedSession(db, s)
    ensures Inv(Run(db, ops)) && RevokedSession(Run(db, ops), s) && InFlight(Run(db, ops), s) <= InFlight(db, s)
    ensures |FamilyTokens(Run(db, ops).tokens, s)| + |InFlight(Run(db, ops), s)| <= |FamilyTokens(db.tokens, s)| + |InFlight(db, s)|
  {
    RunKeepsInv(db, ops);
    if ops != [] {
      var mid := Run(db, ops[..|ops| - 1]);
      LateTokens(db, ops[..|ops| - 1], s);
      StepKeepsRevoked(mid, ops[|ops| - 1], s);
      StepOnRevoked(mid, ops[|ops| - 1], s);
    }
  }

  // ----- with exclusive rotations -----

  ghost function Leftover(db: Db, s: Id): nat {
    if InFlight(db, s) == {} then 0 else 1
  }

  lemma ExclusiveStepOnRevoked(db: Db, op: Op, s: Id)
    requires Inv(db) && db.exclusive && RevokedSession(db, s) && Chain(db.tokens, FamilyTokens(db.tokens, s))
    ensures var after := Step(db, op).0;
            && Chain(after.tokens, FamilyTokens(after.tokens, s))
            && |FamilyTokens(after.tokens, s)| + Leftover(after, s) <= |FamilyTokens(db.tokens, s)| + Leftover(db, s)
  {
    StepOnFamily(db, op, s);
    NoneJoins(db, op, s);
    if AddsTo(db, op, s) {
      WriterLeaves(db, op, s);
      NobodyLeft(db, op, s);
    } else {
      FamilyStays(db, op, s);
    }
  }

  /** A rotation of the only unconsumed token overtakes all others. */
  lemma NobodyLeft(db: Db, op: Op, s: Id)
    requires Inv(db) && db.exclusive && RevokedSession(db, s) && Chain(db.tokens, FamilyTokens(db.tokens, s)) && AddsTo(db, op, s)
    ensures InFlight(Step(db, op).0, s) == {}
  {
    var token := db.calls[op.call].token;
    OnlyTheEndIsUnconsumed(db.tokens, s, token);
    forall c | c in InFlight(db, s) ensures db.calls[c].token == token {
      OnlyTheEndIsUnconsumed(db.tokens, s, db.calls[c].token);
    }
    NoneJoins(db, op, s);
  }

  /** With exclusive rotations the late tokens are at most one, and none if no rotation was in flight. */
  lemma {:induction false} AtMostOneLateToken(db: Db, ops: seq<Op>, s: Id)
    requires Inv(db) && db.exclusive && RevokedSession(db, s) && Chain(db.tokens, FamilyTokens(db.tokens, s))
    ensures Chain(Run(db, ops).tokens, FamilyTokens(Run(db, ops).tokens, s))
    ensures |FamilyTokens(Run(db, ops).tokens, s)| + Leftover(Run(db, ops), s) <= |FamilyTokens(db.tokens, s)| + Leftover(db, s)
  {
    if ops != [] {
      var before := ops[..|ops| - 1];
      AtMostOneLateToken(db, before, s);
      LateTokens(db, before, s);
      RunKeepsInv(db, before);
      ExclusiveStepOnRevoked(Run(db, before), ops[|ops| - 1], s);
    }
  }

  // ----- a consumed token -----

  /** Once consumed, a token stays consumed, no later read or check of it passes, and its replacement
      changes exactly when a rotation that read it before writes now. */
  lemma StepKeepsConsumed(db: Db, op: Op, token: Id)
    requires Inv(db) && token < |db.tokens| && db.tokens[token].consumed && db.tokens[token].replacedBy != Some(|db.tokens|)
    ensures var after := Step(db, op).0;
            && token < |after.tokens| && after.tokens[token].consumed
            && (after.tokens[token].replacedBy != db.tokens[token].replacedBy
                <==> !db.exclusive && op.Replace? && Writer(db, op.call, token))
    ensures op.ReadCurrent? && op.call in db.calls && db.calls[op.call].Rotating? && db.calls[op.call].token == token
            ==> Step(db, op).1 == Conflict
    ensures op.CheckRefresh? && op.token == token ==> Step(db, op).1 == Refused || Step(db, op).1 == ReuseDetected
  {
    if !op.CompleteLogin? && !op.Replace? {
      OtherStepsKeepShape(db, op);
    }
  }

  lemma RunAppend(db: Db, ops: seq<Op>, op: Op)
    ensures Run(db, ops + [op]) == Step(Run(db, ops), op).0
  {
    assert (ops + [op])[..|ops|] == ops;
  }

  /** After the two statements of revokeFamily the family's tokens are revoked and its session too,
      so presenting a used token once shuts out thief and owner alike. */
  lemma ReuseRevokesFamily(db: Db, call: Id, token: Id, now: int)
    requires Inv(db) && call !in db.calls && Step(db, CheckRefresh(call, token, now)).1 == ReuseDetected
    ensures var after := Run(db, [CheckRefresh(call, token, now), Continue(call), Continue(call)]);
            var f := db.tokens[token].family;
            && RevokedSession(after, f)
            && (forall t :: 0 <= t < |after.tokens| && after.tokens[t].family == f ==> after.tokens[t].revoked)
            && call !in after.calls
  {
    var f := db.tokens[token].family;
    var check := CheckRefresh(call, token, now);
    var one := Step(db, check).0;
    RunThree(db, check, Continue(call), Continue(call));
    var two := Step(one, Continue(call)).0;
    assert two.tokens[token].family == f && two.tokens[token] in two.tokens;
    assert two.tokens[token].session in SessionsOfFamily(two.tokens, f);
  }

  lemma RunThree(db: Db, a: Op, b: Op, c: Op)
    ensures Run(db, [a, b, c]) == Step(Step(Step(db, a).0, b).0, c).0
  {
    assert [a, b, c][..2] == [a, b] && [a, b][..1] == [a] && [a][..0] == [];
    assert Run(db, [a]) == Step(Run(db, []), a).0;
    assert Run(db, [a, b]) == Step(Run(db, [a]), b).0;
  }

  // ----- the bounds are reached -----

  /** After a login, k refreshes of its token pass their check and read it as unconsumed. */
  function Readers(k: nat): seq<Op> {
    if k == 0 then [CompleteLogin(0, None, None, 100)] else Readers(k - 1) + [CheckRefresh(k - 1, 0, 0)] + [ReadCurrent(k - 1)]
  }

  /** Then the user logs out, session and tokens, and m of them write. */
  function Writers(k: nat, m: nat): seq<Op> {
    if m == 0 then Readers(k) + [Logout(k, 0)] + [Continue(k)] else Writers(k, m - 1) + [Replace(m - 1, 100)]
  }

  const ONE_USER := EmptyDb(false, [User(false, 0)], [])

  const FIRST_TOKEN := Token(0, 0, false, None, false, 100)

  /** Calls m up to k are between their read and their writes. */
  function Reading(m: nat, k: nat): map<Id, Pending> {
    if k <= m then map[] else Reading(m, k - 1)[k - 1 := Replacing(0)]
  }

  lemma {:induction false} WhoIsReading(m: nat, k: nat)
    ensures forall c :: c in Reading(m, k) <==> m <= c < k
    ensures forall c :: c in Reading(m, k) ==> Reading(m, k)[c] == Replacing(0)
  {
    if k > m { WhoIsReading(m, k - 1); }
  }

  function ReadyDb(k: nat): Db {
    Db([FIRST_TOKEN], [Session(0, 0, true, None, None)], [User(false, 0)], [], Reading(0, k), false)
  }

  lemma RunThen(ops: seq<Op>, op: Op, before: Db, after: Db)
    requires Run(ONE_USER, ops) == before && Step(before, op).0 == after
    ensures Run(ONE_USER, ops + [op]) == after
  {
    RunAppend(ONE_USER, ops, op);
  }

  lemma OneMoreReader(k: nat)
    ensures Step(Step(ReadyDb(k), CheckRefresh(k, 0, 0)).0, ReadCurrent(k)).0 == ReadyDb(k + 1)
  {
    WhoIsReading(0, k);
    var checked := Step(ReadyDb(k), CheckRefresh(k, 0, 0)).0;
    assert checked == ReadyDb(k).(calls := ReadyDb(k).calls[k := Rotating(0, None, None)]);
    assert ReadyDb(k).calls[k := Rotating(0, None, None)][k := Replacing(0)] == ReadyDb(k + 1).calls;
  }

  lemma AfterLogin()
    ensures Run(ONE_USER, Readers(0)) == ReadyDb(0)
  {
    RunAppend(ONE_USER, [], CompleteLogin(0, None, None, 100));
    assert [] + [CompleteLogin(0, None, None, 100)] == Readers(0);
  }

  lemma {:induction false} AfterReaders(k: nat)
    ensures Run(ONE_USER, Readers(k)) == ReadyDb(k)
  {
    if k == 0 {
      AfterLogin();
    } else {
      AfterReaders(k - 1);
      OneMoreReader(k - 1);
      var checked := Step(ReadyDb(k - 1), CheckRefresh(k - 1, 0, 0)).0;
      RunThen(Readers(k - 1), CheckRefresh(k - 1, 0, 0), ReadyDb(k - 1), checked);
      RunThen(Readers(k - 1) + [CheckRefresh(k - 1, 0, 0)], ReadCurrent(k - 1), checked, ReadyDb(k));
    }
  }

  function LateTable(m: nat): (tokens: seq<Token>)
    ensures tokens != []
  {
    if m == 0 then [FIRST_TOKEN.(revoked := true)] else RotatedTokens(LateTable(m - 1), 0, 100)
  }

  function LateDb(k: nat, m: nat): Db {
    Db(LateTable(m), [Session(0, 0, false, None, None)], [User(false, 0)], [], Reading(m, k), false)
  }

  lemma OneMoreWriter(k: nat, m: nat)
    requires m < k
    ensures Step(LateDb(k, m), Replace(m, 100)).0 == LateDb(k, m + 1)
  {
    WhoIsReading(m, k);
    WhoIsReading(m + 1, k);
    assert LateDb(k, m).calls - {m} == LateDb(k, m + 1).calls;
  }

  function LoggingOut(k: nat): Db {
    LateDb(k, 0).(tokens := [FIRST_TOKEN], calls := Reading(0, k)[k := RevokingSessionTokens(0)])
  }

  lemma ThenLogout(k: nat)
    ensures Step(ReadyDb(k), Logout(k, 0)).0 == LoggingOut(k)
    ensures Step(LoggingOut(k), Continue(k)).0 == LateDb(k, 0)
  {
    WhoIsReading(0, k);
    assert Deactivate(ReadyDb(k).sessions, {0}) == LateDb(k, 0).sessions;
    assert LoggingOut(k).calls - {k} == Reading(0, k);
    assert RevokeTokens([FIRST_TOKEN], (t: Token) => t.session == 0) == LateTable(0);
  }

  lemma {:induction false} AfterWriters(k: nat, m: nat)
    requires m <= k
    ensures Run(ONE_USER, Writers(k, m)) == LateDb(k, m)
  {
    if m == 0 {
      AfterReaders(k);
      ThenLogout(k);
      RunThen(Readers(k), Logout(k, 0), ReadyDb(k), LoggingOut(k));
      RunThen(Readers(k) + [Logout(k, 0)], Continue(k), LoggingOut(k), LateDb(k, 0));
    } else {
      AfterWriters(k, m - 1);
      OneMoreWriter(k, m - 1);
      RunThen(Writers(k, m - 1), Replace(m - 1, 100), LateDb(k, m - 1), LateDb(k, m));
    }
  }

  lemma {:induction false} LateTableGrows(m: nat)
    ensures var tokens := LateTable(m);
            && |FamilyTokens(tokens, 0)| == 1 + m && Open(tokens, 0) == (if m == 0 then 1 else m)
            && tokens[0].family == 0 && (tokens[0].consumed <==> m > 0)
            && forall t :: 1 <= t < |tokens| ==> !tokens[t].revoked
  {
    if m == 0 {
      assert LateTable(0)[..0] == [];
    } else {
      LateTableGrows(m - 1);
      RotatedFamily(LateTable(m - 1), 0, 100, 0);
    }
  }

  /** As the code stands, for every k a run from the empty tables leaves k late tokens, none of them
      revoked and all of them unconsumed: k rotations that had read the token before the logout. */
  lemma LateTokensAreReached(k: nat)
    ensures var after := Run(ONE_USER, Writers(k, k));
            && RevokedSession(after, 0)
            && |FamilyTokens(after.tokens, 0)| == 1 + k
            && (forall t :: 1 <= t < |after.tokens| ==> !after.tokens[t].revoked)
            && (k > 0 ==> Open(after.tokens, 0) == k)
  {
    AfterWriters(k, k);
    LateTableGrows(k);
  }

  // ----- what a refresh was checked for -----

  /** A check passes exactly for a token that is there, unrevoked, not expired and unconsumed, of an active
      session whose user is there and not disabled; reuse is detected exactly for one that is there,
      unrevoked, not expired and consumed. */
  lemma CheckPassesIff(db: Db, call: Id, token: Id, now: int)
    ensures Check(db, call, token, now).1 == Passed
            <==> && token < |db.tokens| && !db.tokens[token].revoked && now < db.tokens[token].expiresAt && !db.tokens[token].consumed
                 && db.tokens[token].session < |db.sessions| && db.sessions[db.tokens[token].session].active
                 && db.sessions[db.tokens[token].session].user < |db.users|
                 && !db.users[db.sessions[db.tokens[token].session].user].disabled
    ensures Check(db, call, token, now).1 == ReuseDetected
            <==> token < |db.tokens| && !db.tokens[token].revoked && now < db.tokens[token].expiresAt && db.tokens[token].consumed
    ensures Check(db, call, token, now).1 in {Passed, ReuseDetected, Refused}
    ensures Check(db, call, token, now).1 == Refused ==> Check(db, call, token, now).0 == db
  {
  }

  /** A check that passes goes on for the session's organization, unless its membership is gone or
      suspended: then for none, and the session forgets it. Nothing else changes. */
  lemma PassedFor(db: Db, call: Id, token: Id, now: int)
    requires Check(db, call, token, now).1 == Passed
    ensures var after, s := Check(db, call, token, now).0, db.tokens[token].session;
            var session := db.sessions[s];
            var kept := session.membership.None?
                        || (session.membership.value < |db.memberships| && db.memberships[session.membership.value].status != Suspended);
            && after.calls == db.calls[call := if kept then Rotating(token, session.tenant, session.membership) else Rotating(token, None, None)]
            && after.sessions == (if kept then db.sessions else db.sessions[s := session.(tenant := None, membership := None)])
            && after.tokens == db.tokens && after.users == db.users && after.memberships == db.memberships && after.exclusive == db.exclusive
  {
  }

  /** Expiry is set once. */
  lemma ExpiryStays(db: Db, op: Op, token: Id)
    requires token < |db.tokens|
    ensures token < |Step(db, op).0.tokens| && Step(db, op).0.tokens[token].expiresAt == db.tokens[token].expiresAt
  {
  }

  /** Call `call` passed the check of `token` at step i, before its expiry, and is past it ever since. */
  ghost predicate CheckedAt(db: Db, ops: seq<Op>, i: nat, call: Id, token: Id) {
    && i < |ops| && ops[i].CheckRefresh? && ops[i].call == call && ops[i].token == token
    && Step(Run(db, ops[..i]), ops[i]).1 == Passed
  }

  ghost predicate HoldsToken(db: Db, call: Id, token: Id) {
    call in db.calls && OnToken(db.calls[call]) && db.calls[call].token == token
  }

  lemma HoldsTokenSince(db: Db, op: Op, call: Id, token: Id)
    requires HoldsToken(Step(db, op).0, call, token)
    ensures HoldsToken(db, call, token) || (op.CheckRefresh? && op.call == call && op.token == token && Step(db, op).1 == Passed)
  {
  }

  lemma {:induction false} WasChecked(db: Db, ops: seq<Op>, k: nat, call: Id, token: Id) returns (i: nat)
    requires k <= |ops| && db.calls == map[] && HoldsToken(Run(db, ops[..k]), call, token)
    ensures i < k && CheckedAt(db, ops, i, call, token)
    ensures token < |Run(db, ops[..i]).tokens| && token < |Run(db, ops[..k]).tokens|
    ensures Run(db, ops[..k]).tokens[token].expiresAt == Run(db, ops[..i]).tokens[token].expiresAt > ops[i].now
  {
    assert k > 0 by { assert ops[..0] == []; }
    PrefixStep(db, ops, k - 1);
    var before := Run(db, ops[..k - 1]);
    if HoldsToken(before, call, token) {
      i := WasChecked(db, ops, k - 1, call, token);
      ExpiryStays(before, ops[k - 1], token);
    } else {
      i := k - 1;
      HoldsTokenSince(before, ops[i], call, token);
      CheckPassesIff(before, call, token, ops[i].now);
      ExpiryStays(before, ops[i], token);
    }
  }

  /** Over every interleaving: a token is replaced only by a call that found it unexpired, unrevoked and
      unconsumed, its session active and its user enabled, at some step before. */
  lemma ReplacedWasChecked(exclusive: bool, users: seq<User>, memberships: seq<Membership>, ops: seq<Op>, k: nat) returns (token: Id, i: nat)
    requires k < |ops| && ops[k].Replace? && Step(Run(EmptyDb(exclusive, users, memberships), ops[..k]), ops[k]).1.Rotated?
    ensures i < k && ops[i].CheckRefresh? && ops[i].call == ops[k].call && ops[i].token == token
    ensures var start := EmptyDb(exclusive, users, memberships);
            var before, checked := Run(start, ops[..k]), Run(start, ops[..i]);
            && token < |before.tokens| && Step(before, ops[k]).0.tokens[token].replacedBy == Some(|before.tokens|)
            && token < |checked.tokens| && ops[i].now < checked.tokens[token].expiresAt == before.tokens[token].expiresAt
            && !checked.tokens[token].revoked && !checked.tokens[token].consumed
            && checked.tokens[token].session < |checked.sessions| && checked.sessions[checked.tokens[token].session].active
            && checked.sessions[checked.tokens[token].session].user < |checked.users|
            && !checked.users[checked.sessions[checked.tokens[token].session].user].disabled
  {
    var start := EmptyDb(exclusive, users, memberships);
    token := Run(start, ops[..k]).calls[ops[k].call].token;
    i := WasChecked(start, ops, k, ops[k].call, token);
    CheckPassesIff(Run(start, ops[..i]), ops[i].call, token, ops[i].now);
  }

  lemma ConsumedOnStep(db: Db, op: Op, token: Id)
    requires token < |Step(db, op).0.tokens|
    requires token < |db.tokens| ==> !db.tokens[token].consumed && db.tokens[token].replacedBy == None
    requires Step(db, op).0.tokens[token].consumed || Step(db, op).0.tokens[token].replacedBy.Some?
    ensures op.Replace? && HoldsToken(db, op.call, token)
  {
  }

  lemma {:induction false} NeverReplaced(db: Db, ops: seq<Op>, k: nat, token: Id)
    requires k <= |ops| && db.calls == map[] && db.tokens == []
    requires forall i :: 0 <= i < |ops| && ops[i].CheckRefresh? && ops[i].token == token ==>
               token >= |Run(db, ops[..i]).tokens| || Run(db, ops[..i]).tokens[token].expiresAt <= ops[i].now
    ensures var after := Run(db, ops[..k]);
            token < |after.tokens| ==> !after.tokens[token].consumed && after.tokens[token].replacedBy == None
  {
    if k == 0 {
      assert ops[..0] == [];
    } else {
      NeverReplaced(db, ops, k - 1, token);
      PrefixStep(db, ops, k - 1);
      var before, op := Run(db, ops[..k - 1]), ops[k - 1];
      var after := Step(before, op).0;
      if token < |after.tokens| && (after.tokens[token].consumed || after.tokens[token].replacedBy.Some?) {
        ConsumedOnStep(before, op, token);
        var i := WasChecked(db, ops, k - 1, op.call, token);
        assert false;
      }
    }
  }

  /** So a token that is only ever checked after it has expired never gets a replacement. */
  lemma ExpiredIsNeverReplaced(exclusive: bool, users: seq<User>, memberships: seq<Membership>, ops: seq<Op>, token: Id)
    requires forall i :: 0 <= i < |ops| && ops[i].CheckRefresh? && ops[i].token == token ==>
               var now := Run(EmptyDb(exclusive, users, memberships), ops[..i]);
               token >= |now.tokens| || now.tokens[token].expiresAt <= ops[i].now
    ensures var after := Run(EmptyDb(exclusive, users, memberships), ops);
            token < |after.tokens| ==> !after.tokens[token].consumed && after.tokens[token].replacedBy == None
  {
    var start := EmptyDb(exclusive, users, memberships);
    assert ops[..|ops|] == ops;
    NeverReplaced(start, ops, |ops|, token);
  }

  /** Among the steps is any change to a user and to a membership, with everything else as it was. */
  lemma AccountsAreFree(db: Db, id: Id, disabled: bool, version: nat, status: MembershipStatus)
    ensures var after := Step(db, SetUser(id, disabled, version)).0;
            && after == db.(users := after.users) && |after.users| == |db.users|
            && forall u :: 0 <= u < |db.users| ==> after.users[u] == if u == id then User(disabled, version) else db.users[u]
    ensures var after := Step(db, SetMembership(id, status)).0;
            && after == db.(memberships := after.memberships) && |after.memberships| == |db.memberships|
            && forall m :: 0 <= m < |db.memberships| ==>
                 after.memberships[m] == if m == id then db.memberships[m].(status := status) else db.memberships[m]
  {
  }
}
