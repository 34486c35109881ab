/**
  Sessions: refresh tokens that rotate, and blocklists that outlive the access tokens they block. Times are milliseconds;
  a token carries whole seconds. Signatures are taken at their word: only a token the service signed decodes, and hashing
  never confuses two tokens, so a stored hash is the token itself.
 */
module Tokens {
  import opened Wrappers
  import opened Types
  import BatchedDelete

  const ACCESS_TOKEN_BLOCK_MAX := 900

  datatype AccessClaims = AccessClaims(sub: Uuid, jti: Uuid, iat: int, exp: int)
  datatype RefreshClaims = RefreshClaims(sub: Uuid, jti: Uuid, iat: int, exp: int)

  datatype Config = Config(accessTtlSecs: int, refreshTtlSecs: int)

  datatype RefreshRow = RefreshRow(user: Uuid, hash: RefreshClaims, expiresAt: int)

  /** The value of the per-user block, and when its key expires. */
  datatype UserBlock = UserBlock(at: int, expiresAt: int)

  /** The table, the two kinds of Redis keys, and what has been signed and numbered so far. */
  datatype Sessions = Sessions(
    rows: map<Uuid, RefreshRow>,
    blocked: map<Uuid, int>,
    userBlocks: map<Uuid, UserBlock>,
    users: set<Uuid>,
    refreshSigned: set<RefreshClaims>,
    accessSigned: set<AccessClaims>,
    used: set<Uuid>)

  datatype AuthError = InvalidToken | RefreshTokenExpired | RefreshTokenNotFound | UserNotFound | Database | Redis

  datatype Pair = Pair(access: AccessClaims, refresh: RefreshClaims)

  /** The clock is read several times in one call: to check, for the row's expiry, and for the claims. */
  datatype Instants = Instants(check: int, store: int, sign: int, signAccess: int)

  datatype Event =
    | Issue(at: Instants, user: Uuid, accessJti: Uuid, refreshJti: Uuid)
    | Rotate(at: Instants, token: RefreshClaims, accessJti: Uuid, refreshJti: Uuid)
    | Revoke(now: int, token: RefreshClaims, access: Option<AccessClaims>)
    | RevokeAll(now: int, user: Uuid)
    | Cleanup(now: int)

  datatype Outcome = Outcome(s: Sessions, reply: Result<Option<Pair>, AuthError>)

  function Secs(ms: int): int {
    ms / 1000
  }

  function SignAccess(cfg: Config, user: Uuid, jti: Uuid, now: int): AccessClaims {
    AccessClaims(user, jti, Secs(now), Secs(now) + cfg.accessTtlSecs)
  }

  function SignRefresh(cfg: Config, user: Uuid, jti: Uuid, now: int): RefreshClaims {
    RefreshClaims(user, jti, Secs(now), Secs(now) + cfg.refreshTtlSecs)
  }

  function DecodeAccess(s: Sessions, token: AccessClaims, now: int): bool {
    token in s.accessSigned && Secs(now) < token.exp
  }

  function DecodeRefresh(s: Sessions, token: RefreshClaims, now: int): Result<RefreshClaims, AuthError> {
    if token !in s.refreshSigned then Err(InvalidToken)
    else if Secs(now) >= token.exp then Err(RefreshTokenExpired)
    else Ok(token)
  }

  /** A new pair: `rows` already without the row it replaces, if any. */
  function Granted(cfg: Config, s: Sessions, rows: map<Uuid, RefreshRow>, at: Instants, user: Uuid, accessJti: Uuid, refreshJti: Uuid)
    : Outcome
  {
    var access := SignAccess(cfg, user, accessJti, at.signAccess);
    var refresh := SignRefresh(cfg, user, refreshJti, at.sign);
    var row := RefreshRow(user, refresh, at.store + cfg.refreshTtlSecs * 1000);
    Outcome(s.(rows := rows[refreshJti := row], refreshSigned := s.refreshSigned + {refresh},
               accessSigned := s.accessSigned + {access}, used := s.used + {accessJti, refreshJti}),
            Ok(Some(Pair(access, refresh))))
  }

  function IssuePair(cfg: Config, s: Sessions, at: Instants, user: Uuid, accessJti: Uuid, refreshJti: Uuid): Outcome {
    if user !in s.users || refreshJti in s.rows then Outcome(s, Err(Database))
    else Granted(cfg, s, s.rows, at, user, accessJti, refreshJti)
  }

  function RotatePair(cfg: Config, s: Sessions, at: Instants, token: RefreshClaims, accessJti: Uuid, refreshJti: Uuid): Outcome {
    var claims := DecodeRefresh(s, token, at.check);
    if claims.Err? then Outcome(s, Err(claims.error))
    else if token.jti !in s.rows || s.rows[token.jti].user != token.sub then Outcome(s, Err(RefreshTokenNotFound))
    else if s.rows[token.jti].hash != token then Outcome(s, Err(InvalidToken))
    else if s.rows[token.jti].expiresAt < at.check then
      Outcome(s.(rows := s.rows - {token.jti}), Err(RefreshTokenExpired))
    else if token.sub !in s.users then Outcome(s, Err(UserNotFound))
    else if refreshJti in s.rows - {token.jti} then Outcome(s, Err(Database))
    else Granted(cfg, s, s.rows - {token.jti}, at, token.sub, accessJti, refreshJti)
  }

  /** `SET key EX ttl` refuses a lifetime that is not positive. */
  function BlockAccess(s: Sessions, access: AccessClaims, now: int): Sessions {
    var remaining := access.exp - Secs(now);
    var ttl := if remaining < ACCESS_TOKEN_BLOCK_MAX then remaining else ACCESS_TOKEN_BLOCK_MAX;
    if ttl <= 0 then s else s.(blocked := s.blocked[access.jti := now + ttl * 1000])
  }

  function RevokeOne(s: Sessions, now: int, token: RefreshClaims, access: Option<AccessClaims>): Outcome {
    var claims := DecodeRefresh(s, token, now);
    if claims.Err? then Outcome(s, Err(claims.error))
    else
      var s' := s.(rows := s.rows - {token.jti});
      Outcome(if access.Some? && DecodeAccess(s, access.value, now) then BlockAccess(s', access.value, now) else s', Ok(None))
  }

  function OfUser(rows: map<Uuid, RefreshRow>, user: Uuid): set<Uuid> {
    set jti | jti in rows && rows[jti].user == user
  }

  function RevokeUser(cfg: Config, s: Sessions, now: int, user: Uuid): Outcome {
    var s' := s.(rows := s.rows - OfUser(s.rows, user));
    if cfg.accessTtlSecs <= 0 then Outcome(s', Err(Redis))
    else
      Outcome(s'.(userBlocks := s.userBlocks[user := UserBlock(Secs(now), now + cfg.accessTtlSecs * 1000)]), Ok(None))
  }

  function Expired(rows: map<Uuid, RefreshRow>, now: int): set<Uuid> {
    set jti | jti in rows && rows[jti].expiresAt < now
  }

  function Apply(cfg: Config, s: Sessions, e: Event): Outcome {
    match e
    case Issue(at, user, a, r) => IssuePair(cfg, s, at, user, a, r)
    case Rotate(at, token, a, r) => RotatePair(cfg, s, at, token, a, r)
    case Revoke(now, token, access) => RevokeOne(s, now, token, access)
    case RevokeAll(now, user) => RevokeUser(cfg, s, now, user)
    case Cleanup(now) => Outcome(s.(rows := s.rows - Expired(s.rows, now)), Ok(None))
  }

  predicate JtiBlocked(s: Sessions, jti: Uuid, now: int) {
    jti in s.blocked && now < s.blocked[jti]
  }

  predicate UserBlocked(s: Sessions, user: Uuid, issuedAt: int, now: int) {
    user in s.userBlocks && now < s.userBlocks[user].expiresAt && issuedAt < s.userBlocks[user].at
  }

  /** What the auth middleware lets through. */
  predicate Passes(s: Sessions, token: AccessClaims, now: int) {
    DecodeAccess(s, token, now) && !JtiBlocked(s, token.jti, now) && !UserBlocked(s, token.sub, token.iat, now)
  }

  // ---- serial histories with fresh ids ----

  function Start(users: set<Uuid>): Sessions {
    Sessions(map[], map[], map[], users, {}, {}, {})
  }

  lemma StartIsValid(cfg: Config, users: set<Uuid>)
    ensures Valid(cfg, Start(users))
  {
  }

  function TimeOf(e: Event): int {
    match e
    case Issue(at, _, _, _) => at.check
    case Rotate(at, _, _, _) => at.check
    case Revoke(now, _, _) => now
    case RevokeAll(now, _) => now
    case Cleanup(now) => now
  }

  predicate Fresh(s: Sessions, e: Event) {
    e.Issue? || e.Rotate? ==> e.accessJti !in s.used && e.refreshJti !in s.used && e.accessJti != e.refreshJti
  }

  /** Times do not go back, starting from `clock`, and new ids are new. */
  predicate Serial(cfg: Config, s: Sessions, clock: int, events: seq<Event>)
    decreases |events|
  {
    events == []
    || (clock <= TimeOf(events[0]) && Fresh(s, events[0])
        && Serial(cfg, Apply(cfg, s, events[0]).s, TimeOf(events[0]), events[1..]))
  }

  /** The state before event `i`. */
  function Before(cfg: Config, s: Sessions, events: seq<Event>, i: nat): Sessions
    requires i <= |events|
    decreases i
  {
    if i == 0 then s else Before(cfg, Apply(cfg, s, events[0]).s, events[1..], i - 1)
  }

  predicate Accepts(cfg: Config, s: Sessions, e: Event) {
    Apply(cfg, s, e).reply.Ok?
  }

  /** Signed tokens have the ids they were given, and lifetimes from the configuration. */
  ghost predicate Valid(cfg: Config, s: Sessions) {
    && (forall t | t in s.refreshSigned :: t.jti in s.used)
    && (forall t, t' | t in s.refreshSigned && t' in s.refreshSigned && t.jti == t'.jti :: t == t')
    && (forall jti | jti in s.rows :: jti in s.used)
    && (forall a | a in s.accessSigned :: a.jti in s.used && a.exp == a.iat + cfg.accessTtlSecs)
    && (forall a, b | a in s.accessSigned && b in s.accessSigned && a.jti == b.jti :: a == b)
  }

  lemma StepKeepsValid(cfg: Config, s: Sessions, e: Event)
    requires Valid(cfg, s) && Fresh(s, e)
    ensures Valid(cfg, Apply(cfg, s, e).s)
  {
  }

  // ---- refresh tokens are single-use ----

  /** The token's id is spent: no row of its user carries it. */
  ghost predicate Dead(s: Sessions, token: RefreshClaims) {
    token.jti in s.used && !(token.jti in s.rows && s.rows[token.jti].user == token.sub)
  }

  lemma StepKeepsDead(cfg: Config, s: Sessions, e: Event, token: RefreshClaims)
    requires Dead(s, token) && Fresh(s, e)
    ensures Dead(Apply(cfg, s, e).s, token)
    ensures e.Rotate? && e.token == token ==> !Accepts(cfg, s, e)
  {
  }

  /** Events that end a token: its own accepted rotation, its revocation, and a revocation of all its user's tokens. */
  predicate Ends(cfg: Config, s: Sessions, e: Event, token: RefreshClaims) {
    || (e.Rotate? && e.token == token && Accepts(cfg, s, e))
    || (e.Revoke? && e.token == token && Accepts(cfg, s, e))
    || (e.RevokeAll? && e.user == token.sub)
  }

  lemma EndingKills(cfg: Config, s: Sessions, e: Event, token: RefreshClaims)
    requires Valid(cfg, s) && Fresh(s, e) && token in s.refreshSigned && Ends(cfg, s, e, token)
    ensures Dead(Apply(cfg, s, e).s, token)
  {
  }

  lemma {:induction false} DeadStaysDead(cfg: Config, s: Sessions, clock: int, events: seq<Event>, token: RefreshClaims, j: nat)
    requires Dead(s, token) && Serial(cfg, s, clock, events) && j < |events|
    requires events[j].Rotate? && events[j].token == token
    ensures !Accepts(cfg, Before(cfg, s, events, j), events[j])
    decreases j
  {
    hide Dead, Apply, Fresh;
    StepKeepsDead(cfg, s, events[0], token);
    if j > 0 {
      DeadStaysDead(cfg, Apply(cfg, s, events[0]).s, TimeOf(events[0]), events[1..], token, j - 1);
    }
  }

  /** A refresh token is accepted by rotate at most once, and never after it or its user's tokens were revoked. */
  lemma {:induction false} RefreshTokensAreSingleUse(cfg: Config, s: Sessions, clock: int, events: seq<Event>,
                                                     token: RefreshClaims, i: nat, j: nat)
    requires Valid(cfg, s) && Serial(cfg, s, clock, events)
    requires i < j < |events| && events[j].Rotate? && events[j].token == token
    requires token in Before(cfg, s, events, i).refreshSigned
    requires Ends(cfg, Before(cfg, s, events, i), events[i], token)
    ensures !Accepts(cfg, Before(cfg, s, events, j), events[j])
    decreases i
  {
    hide Dead, Apply, Fresh, Valid, Ends;
    StepKeepsValid(cfg, s, events[0]);
    var s' := Apply(cfg, s, events[0]).s;
    if i == 0 {
      EndingKills(cfg, s, events[0], token);
      DeadStaysDead(cfg, s', TimeOf(events[0]), events[1..], token, j - 1);
    } else {
      RefreshTokensAreSingleUse(cfg, s', TimeOf(events[0]), events[1..], token, i - 1, j - 1);
    }
  }

  lemma {:induction false} RunsStayValid(cfg: Config, s: Sessions, clock: int, events: seq<Event>, i: nat)
    requires Valid(cfg, s) && Serial(cfg, s, clock, events) && i <= |events|
    ensures Valid(cfg, Before(cfg, s, events, i))
    decreases i
  {
    hide Apply, Valid, Fresh;
    if i > 0 {
      StepKeepsValid(cfg, s, events[0]);
      RunsStayValid(cfg, Apply(cfg, s, events[0]).s, TimeOf(events[0]), events[1..], i - 1);
    }
  }

  /** Every serial run from the empty tables: valid throughout, and each refresh token accepted at most once. */
  lemma SingleUseFromStart(cfg: Config, users: set<Uuid>, clock: int, events: seq<Event>, i: nat, j: nat)
    requires Serial(cfg, Start(users), clock, events) && i < j < |events|
    requires events[i].Rotate? && events[j].Rotate? && events[i].token == events[j].token
    ensures Valid(cfg, Before(cfg, Start(users), events, j))
    ensures !Accepts(cfg, Before(cfg, Start(users), events, i), events[i])
            || !Accepts(cfg, Before(cfg, Start(users), events, j), events[j])
  {
    StartIsValid(cfg, users);
    RunsStayValid(cfg, Start(users), clock, events, j);
    var s := Before(cfg, Start(users), events, i);
    if Accepts(cfg, s, events[i]) {
      AcceptedIsSigned(cfg, s, events[i]);
      hide Apply, Fresh, Valid, Start;
      RefreshTokensAreSingleUse(cfg, Start(users), clock, events, events[i].token, i, j);
    }
  }

  lemma AcceptedIsSigned(cfg: Config, s: Sessions, e: Event)
    requires e.Rotate? && Accepts(cfg, s, e)
    ensures e.token in s.refreshSigned
  {
  }

  /** An accepted rotation replaces one row by one: no user's number of sessions changes. */
  lemma RotationKeepsRowCount(cfg: Config, s: Sessions, e: Event, user: Uuid)
    requires Valid(cfg, s) && Fresh(s, e) && e.Rotate? && Accepts(cfg, s, e)
    ensures |OfUser(Apply(cfg, s, e).s.rows, user)| == |OfUser(s.rows, user)|
  {
    var rows := Apply(cfg, s, e).s.rows;
    if user == e.token.sub {
      assert OfUser(rows, user) == OfUser(s.rows, user) - {e.token.jti} + {e.refreshJti};
    } else {
      assert OfUser(rows, user) == OfUser(s.rows, user);
    }
  }

  // ---- cleanup is invisible ----

  /** `s'` is `s` short of some rows that expired before `clock`. */
  ghost predicate Cleaned(s: Sessions, s': Sessions, clock: int) {
    && s' == s.(rows := s'.rows)
    && (forall jti | jti in s'.rows :: jti in s.rows && s'.rows[jti] == s.rows[jti])
    && (forall jti | jti in s.rows && jti !in s'.rows :: s.rows[jti].expiresAt < clock)
  }

  lemma CleanupCleans(cfg: Config, s: Sessions, now: int)
    ensures Cleaned(s, Apply(cfg, s, Cleanup(now)).s, now)
  {
  }

  lemma IssueKeepsCleaned(cfg: Config, s: Sessions, s': Sessions, clock: int, at: Instants, user: Uuid, a: Uuid, r: Uuid)
    requires Valid(cfg, s) && Cleaned(s, s', clock) && r !in s.used
    ensures var o, o' := IssuePair(cfg, s, at, user, a, r), IssuePair(cfg, s', at, user, a, r);
            Cleaned(o.s, o'.s, clock) && o.reply == o'.reply
  {
  }

  /** A row that cleanup took would have been refused as expired. */
  lemma RotateKeepsCleaned(cfg: Config, s: Sessions, s': Sessions, clock: int, at: Instants, token: RefreshClaims, a: Uuid, r: Uuid)
    requires Valid(cfg, s) && Cleaned(s, s', clock) && r !in s.used && clock <= at.check
    ensures var o, o' := RotatePair(cfg, s, at, token, a, r), RotatePair(cfg, s', at, token, a, r);
            && Cleaned(o.s, o'.s, at.check) && (o.reply.Ok? <==> o'.reply.Ok?) && (o.reply.Ok? ==> o.reply == o'.reply)
  {
    if token.jti in s.rows && token.jti !in s'.rows {
      assert s.rows[token.jti].expiresAt < at.check;
    }
  }

  lemma RevokeKeepsCleaned(s: Sessions, s': Sessions, clock: int, now: int, token: RefreshClaims, access: Option<AccessClaims>)
    requires Cleaned(s, s', clock)
    ensures var o, o' := RevokeOne(s, now, token, access), RevokeOne(s', now, token, access);
            Cleaned(o.s, o'.s, clock) && o.reply == o'.reply
  {
  }

  lemma RevokeAllKeepsCleaned(cfg: Config, s: Sessions, s': Sessions, clock: int, now: int, user: Uuid)
    requires Cleaned(s, s', clock)
    ensures var o, o' := RevokeUser(cfg, s, now, user), RevokeUser(cfg, s', now, user);
            Cleaned(o.s, o'.s, clock) && o.reply == o'.reply
  {
  }

  lemma CleanedLater(s: Sessions, s': Sessions, clock: int, now: int)
    requires Cleaned(s, s', clock) && clock <= now
    ensures Cleaned(s, s', now)
    ensures Cleaned(s.(rows := s.rows - Expired(s.rows, now)), s'.(rows := s'.rows - Expired(s'.rows, now)), now)
  {
  }

  lemma StepKeepsCleaned(cfg: Config, s: Sessions, s': Sessions, clock: int, e: Event)
    requires Valid(cfg, s) && Cleaned(s, s', clock) && clock <= TimeOf(e) && Fresh(s, e)
    ensures Cleaned(Apply(cfg, s, e).s, Apply(cfg, s', e).s, TimeOf(e))
    ensures Fresh(s', e)
    ensures Accepts(cfg, s, e) <==> Accepts(cfg, s', e)
    ensures Accepts(cfg, s, e) ==> Apply(cfg, s, e).reply == Apply(cfg, s', e).reply
  {
    assert s'.used == s.used;
    hide Cleaned, IssuePair, RotatePair, RevokeOne, RevokeUser, Valid;
    CleanedLater(s, s', clock, TimeOf(e));
    match e {
      case Issue(at, user, a, r) => IssueKeepsCleaned(cfg, s, s', TimeOf(e), at, user, a, r);
      case Rotate(at, token, a, r) => RotateKeepsCleaned(cfg, s, s', TimeOf(e), at, token, a, r);
      case Revoke(now, token, access) => RevokeKeepsCleaned(s, s', now, now, token, access);
      case RevokeAll(now, user) => RevokeAllKeepsCleaned(cfg, s, s', now, now, user);
      case Cleanup(now) =>
    }
  }

  /** Deleting expired rows at any moment changes no later acceptance, nor any pair handed out. */
  lemma {:induction false} CleanupIsInvisible(cfg: Config, s: Sessions, s': Sessions, clock: int, events: seq<Event>, j: nat)
    requires Valid(cfg, s) && Cleaned(s, s', clock) && Serial(cfg, s, clock, events) && j < |events|
    ensures var a, b := Apply(cfg, Before(cfg, s, events, j), events[j]), Apply(cfg, Before(cfg, s', events, j), events[j]);
            (a.reply.Ok? <==> b.reply.Ok?) && (a.reply.Ok? ==> a.reply == b.reply)
    decreases j
  {
    hide Apply, Cleaned, Fresh, Valid;
    StepKeepsCleaned(cfg, s, s', clock, events[0]);
    StepKeepsValid(cfg, s, events[0]);
    if j > 0 {
      CleanupIsInvisible(cfg, Apply(cfg, s, events[0]).s, Apply(cfg, s', events[0]).s, TimeOf(events[0]), events[1..], j - 1);
    }
  }

  /** A cleanup inserted anywhere into a history leaves the answers of all later rotations as they were. */
  lemma CleanupCanRunAnytime(cfg: Config, s: Sessions, now: int, events: seq<Event>, j: nat)
    requires Valid(cfg, s) && Serial(cfg, s, now, events) && j < |events| && events[j].Rotate?
    ensures var cleaned := Apply(cfg, s, Cleanup(now)).s;
            Accepts(cfg, Before(cfg, s, events, j), events[j]) <==> Accepts(cfg, Before(cfg, cleaned, events, j), events[j])
  {
    CleanupCleans(cfg, s, now);
    CleanupIsInvisible(cfg, s, Apply(cfg, s, Cleanup(now)).s, now, events, j);
  }

  // ---- revocation covers the lifetime of access tokens ----

  /** A user block at or after second `at`, alive until every token issued before it has expired. */
  ghost predicate Shielded(cfg: Config, s: Sessions, user: Uuid, at: int) {
    && user in s.userBlocks && s.userBlocks[user].at >= at
    && s.userBlocks[user].expiresAt >= (s.userBlocks[user].at + cfg.accessTtlSecs) * 1000
  }

  lemma StepKeepsShield(cfg: Config, s: Sessions, e: Event, user: Uuid, at: int)
    requires Shielded(cfg, s, user, at) && at <= Secs(TimeOf(e))
    ensures Shielded(cfg, Apply(cfg, s, e).s, user, at)
  {
  }

  lemma ShieldStops(cfg: Config, s: Sessions, user: Uuid, at: int, token: AccessClaims, now: int)
    requires Valid(cfg, s) && token.sub == user && token.iat < at && at <= Secs(now)
    requires cfg.accessTtlSecs > 0 ==> Shielded(cfg, s, user, at)
    ensures !Passes(s, token, now)
  {
  }

  lemma {:induction false} ShieldLasts(cfg: Config, s: Sessions, clock: int, events: seq<Event>, user: Uuid, at: int)
    requires Valid(cfg, s) && Serial(cfg, s, clock, events) && at <= Secs(clock)
    requires cfg.accessTtlSecs > 0 ==> Shielded(cfg, s, user, at)
    ensures Valid(cfg, Before(cfg, s, events, |events|))
    ensures cfg.accessTtlSecs > 0 ==> Shielded(cfg, Before(cfg, s, events, |events|), user, at)
    decreases |events|
  {
    hide Apply, Shielded, Fresh, Valid;
    if events != [] {
      StepKeepsValid(cfg, s, events[0]);
      if cfg.accessTtlSecs > 0 {
        StepKeepsShield(cfg, s, events[0], user, at);
      }
      ShieldLasts(cfg, Apply(cfg, s, events[0]).s, TimeOf(events[0]), events[1..], user, at);
    }
  }

  /**
    After all tokens of a user are revoked at time T, no access token issued in an earlier second passes at any later time,
    whatever happens in between, further revocations included.
   */
  lemma RevokeAllCoversLifetimes(cfg: Config, s: Sessions, now: int, user: Uuid, events: seq<Event>, token: AccessClaims, later: int)
    requires Valid(cfg, s)
    requires Serial(cfg, Apply(cfg, s, RevokeAll(now, user)).s, now, events)
    requires token.sub == user && token.iat < Secs(now) && now <= later
    ensures !Passes(Before(cfg, Apply(cfg, s, RevokeAll(now, user)).s, events, |events|), token, later)
  {
    var s' := Apply(cfg, s, RevokeAll(now, user)).s;
    StepKeepsValid(cfg, s, RevokeAll(now, user));
    ShieldLasts(cfg, s', now, events, user, Secs(now));
    ShieldStops(cfg, Before(cfg, s', events, |events|), user, Secs(now), token, later);
  }

  /** The second of the revocation is the boundary: a token issued in it still passes, one issued before does not. */
  lemma RevokeAllBoundary(cfg: Config, s: Sessions, now: int, user: Uuid, token: AccessClaims)
    requires DecodeAccess(s, token, now) && !JtiBlocked(s, token.jti, now) && token.sub == user && cfg.accessTtlSecs > 0
    ensures Passes(Apply(cfg, s, RevokeAll(now, user)).s, token, now) <==> token.iat >= Secs(now)
  {
  }

  /** The block of a token reaches its expiry. */
  ghost predicate Covered(s: Sessions, token: AccessClaims) {
    token.jti in s.blocked && s.blocked[token.jti] >= token.exp * 1000
  }

  lemma StepKeepsCovered(cfg: Config, s: Sessions, e: Event, token: AccessClaims, clock: int)
    requires Valid(cfg, s) && token in s.accessSigned && Covered(s, token)
    requires token.exp - Secs(clock) <= ACCESS_TOKEN_BLOCK_MAX && clock <= TimeOf(e)
    ensures Covered(Apply(cfg, s, e).s, token) && token in Apply(cfg, s, e).s.accessSigned
  {
  }

  lemma {:induction false} CoverLasts(cfg: Config, s: Sessions, clock: int, events: seq<Event>, token: AccessClaims)
    requires Valid(cfg, s) && Serial(cfg, s, clock, events) && token in s.accessSigned && Covered(s, token)
    requires token.exp - Secs(clock) <= ACCESS_TOKEN_BLOCK_MAX
    ensures Covered(Before(cfg, s, events, |events|), token)
    decreases |events|
  {
    hide Apply, Covered, Fresh, Valid;
    if events != [] {
      StepKeepsValid(cfg, s, events[0]);
      StepKeepsCovered(cfg, s, events[0], token, clock);
      CoverLasts(cfg, Apply(cfg, s, events[0]).s, TimeOf(events[0]), events[1..], token);
    }
  }

  /** A revoked access token with at most 900 seconds left never passes again, whatever follows. */
  lemma RevokeCoversShortTokens(cfg: Config, s: Sessions, now: int, refresh: RefreshClaims, token: AccessClaims,
                                events: seq<Event>, later: int)
    requires Valid(cfg, s) && Accepts(cfg, s, Revoke(now, refresh, Some(token))) && DecodeAccess(s, token, now)
    requires token.exp - Secs(now) <= 900
    requires Serial(cfg, Apply(cfg, s, Revoke(now, refresh, Some(token))).s, now, events)
    ensures !Passes(Before(cfg, Apply(cfg, s, Revoke(now, refresh, Some(token))).s, events, |events|), token, later)
  {
    var s' := Apply(cfg, s, Revoke(now, refresh, Some(token))).s;
    StepKeepsValid(cfg, s, Revoke(now, refresh, Some(token)));
    assert Covered(s', token);
    CoverLasts(cfg, s', now, events, token);
  }

  /** The limit is exact: the block lasts as long as the token just when no more than 900 seconds are left. */
  lemma BlockReachesExpiryIffShort(s: Sessions, now: int, refresh: RefreshClaims, token: AccessClaims)
    requires RevokeOne(s, now, refresh, Some(token)).reply.Ok? && DecodeAccess(s, token, now)
    ensures var s' := RevokeOne(s, now, refresh, Some(token)).s;
            (forall t | now <= t && Secs(t) < token.exp :: JtiBlocked(s', token.jti, t))
            <==> token.exp - Secs(now) <= 900
  {
    var s' := RevokeOne(s, now, refresh, Some(token)).s;
    var end := now + ACCESS_TOKEN_BLOCK_MAX * 1000;
    if token.exp - Secs(now) > ACCESS_TOKEN_BLOCK_MAX {
      assert Secs(end) == Secs(now) + ACCESS_TOKEN_BLOCK_MAX;
      assert !JtiBlocked(s', token.jti, end);
    }
  }

  // ---- the service itself ----

  class TokenService {
    const cfg: Config
    const users: set<Uuid>
    var rows: map<Uuid, RefreshRow>
    var blocked: map<Uuid, int>
    var userBlocks: map<Uuid, UserBlock>
    ghost var refreshSigned: set<RefreshClaims>
    ghost var accessSigned: set<AccessClaims>
    ghost var used: set<Uuid>

    constructor (cfg: Config, users: set<Uuid>)
      ensures Abstract() == Start(users) && this.cfg == cfg
    {
      this.cfg, this.users := cfg, users;
      rows, blocked, userBlocks := map[], map[], map[];
      refreshSigned, accessSigned, used := {}, {}, {};
    }

    ghost function Abstract(): Sessions
      reads this
    {
      Sessions(rows, blocked, userBlocks, users, refreshSigned, accessSigned, used)
    }

    /** `rotate_refresh_token` and the new pair: delete the old row, insert the new one, sign. `signed` is the signature check. */
    method Rotate(at: Instants, token: RefreshClaims, signed: bool, accessJti: Uuid, refreshJti: Uuid)
      returns (r: Result<Pair, AuthError>)
      requires signed <==> token in refreshSigned
      modifies this
      ensures var o := RotatePair(cfg, old(Abstract()), at, token, accessJti, refreshJti);
              && Abstract() == o.s && (r.Ok? ==> o.reply == Ok(Some(r.value))) && (r.Err? ==> o.reply == Err(r.error))
    {
      if !signed {
        return Err(InvalidToken);
      }
      if Secs(at.check) >= token.exp {
        return Err(RefreshTokenExpired);
      }
      if token.jti !in rows || rows[token.jti].user != token.sub {
        return Err(RefreshTokenNotFound);
      }
      var stored := rows[token.jti];
      if stored.hash != token {
        return Err(InvalidToken);
      }
      if stored.expiresAt < at.check {
        rows := rows - {token.jti};
        return Err(RefreshTokenExpired);
      }
      if token.sub !in users {
        return Err(UserNotFound);
      }
      var refresh := SignRefresh(cfg, token.sub, refreshJti, at.sign);
      var left := rows - {token.jti};
      if refreshJti in left {
        return Err(Database);
      }
      rows := left[refreshJti := RefreshRow(token.sub, refresh, at.store + cfg.refreshTtlSecs * 1000)];
      var access := SignAccess(cfg, token.sub, accessJti, at.signAccess);
      refreshSigned := refreshSigned + {refresh};
      accessSigned := accessSigned + {access};
      used := used + {accessJti, refreshJti};
      r := Ok(Pair(access, refresh));
    }

    /** `revoke`: the row goes; an access token that still decodes is blocked for what is left of it, 900 seconds at most. */
    method Revoke(now: int, token: RefreshClaims, signed: bool, access: Option<AccessClaims>, accessOk: bool)
      returns (r: Result<(), AuthError>)
      requires signed <==> token in refreshSigned
      requires accessOk <==> access.Some? && access.value in accessSigned && Secs(now) < access.value.exp
      modifies this
      ensures var o := RevokeOne(old(Abstract()), now, token, access);
              && Abstract() == o.s && (r.Ok? <==> o.reply.Ok?) && (r.Err? ==> o.reply == Err(r.error))
    {
      if !signed {
        return Err(InvalidToken);
      }
      if Secs(now) >= token.exp {
        return Err(RefreshTokenExpired);
      }
      rows := rows - {token.jti};
      if accessOk {
        var remaining := access.value.exp - Secs(now);
        if remaining > 0 {
          var ttl := if remaining < ACCESS_TOKEN_BLOCK_MAX then remaining else ACCESS_TOKEN_BLOCK_MAX;
          if ttl > 0 {
            blocked := blocked[access.value.jti := now + ttl * 1000];
          }
        }
      }
      r := Ok(());
    }

    method RevokeAllForUser(now: int, user: Uuid) returns (r: Result<(), AuthError>)
      modifies this
      ensures var o := RevokeUser(cfg, old(Abstract()), now, user);
              && Abstract() == o.s && (r.Ok? <==> o.reply.Ok?) && (r.Err? ==> o.reply == Err(r.error))
    {
      rows := map jti | jti in rows && rows[jti].user != user :: rows[jti];
      assert rows == old(rows) - OfUser(old(rows), user);
      if cfg.accessTtlSecs <= 0 {
        return Err(Redis);
      }
      userBlocks := userBlocks[user := UserBlock(Secs(now), now + cfg.accessTtlSecs * 1000)];
      r := Ok(());
    }

    method IsAccessTokenBlocked(jti: Uuid, user: Uuid, issuedAt: int, now: int) returns (yes: bool)
      ensures yes <==> JtiBlocked(Abstract(), jti, now) || UserBlocked(Abstract(), user, issuedAt, now)
    {
      var jtiBlocked := jti in blocked && now < blocked[jti];
      var userBlocked := false;
      if user in userBlocks && now < userBlocks[user].expiresAt {
        userBlocked := issuedAt < userBlocks[user].at;
      }
      yes := jtiBlocked || userBlocked;
    }

    /** The batched cleanup, whose rounds read the clock anew: it amounts to one cleanup at the time of its last round. */
    method CleanupExpired(now: nat -> int) returns (total: nat, last: nat)
      requires forall k: nat :: now(k) <= now(k + 1)
      modifies this
      ensures Abstract() == Apply(cfg, old(Abstract()), Cleanup(now(last))).s
      ensures total == |Expired(old(rows), now(last))|
    {
      var stale := (k: nat, row: RefreshRow) => row.expiresAt < now(k);
      var left;
      left, total, last := BatchedDelete.DeleteInBatches(rows, stale);
      assert BatchedDelete.StaleAt(rows, stale, last) == Expired(rows, now(last));
      assert left == rows - Expired(rows, now(last));
      rows := left;
    }
  }
}
