/** When tokens are accepted: refresh tokens by rotate, access tokens by the auth middleware, over serial runs. */
module SessionLaws {
  import opened Wrappers
  import opened Types
  import opened Tokens

  predicate Grants(e: Event) {
    e.Issue? || e.Rotate?
  }

  function Handed(cfg: Config, s: Sessions, e: Event): Pair
    requires Grants(e) && Accepts(cfg, s, e)
  {
    Apply(cfg, s, e).reply.value.value
  }

  // ---- what is handed out ----

  /** The pair names the user and the new ids, and lasts for the configured times from the second it is signed. */
  lemma PairClaims(cfg: Config, s: Sessions, e: Event)
    requires Grants(e) && Accepts(cfg, s, e)
    ensures var pair, user := Handed(cfg, s, e), if e.Issue? then e.user else e.token.sub;
            && pair.access.sub == user && pair.refresh.sub == user && user in s.users
            && pair.access.jti == e.accessJti && pair.refresh.jti == e.refreshJti
            && pair.access.iat == e.at.signAccess / 1000 && pair.access.exp == e.at.signAccess / 1000 + cfg.accessTtlSecs
            && pair.refresh.iat == e.at.sign / 1000
            && pair.refresh.exp == e.at.sign / 1000 + cfg.refreshTtlSecs
  {
  }

  /** Issuing adds one row and rotating replaces one; all other rows and all blocks stay. */
  lemma GrantedRows(cfg: Config, s: Sessions, e: Event)
    requires Valid(cfg, s) && Fresh(s, e) && Grants(e) && Accepts(cfg, s, e)
    ensures var s', pair := Apply(cfg, s, e).s, Handed(cfg, s, e);
            && s'.rows.Keys == (if e.Rotate? then s.rows.Keys - {e.token.jti} else s.rows.Keys) + {pair.refresh.jti}
            && s'.rows[pair.refresh.jti] == RefreshRow(pair.refresh.sub, pair.refresh, e.at.store + cfg.refreshTtlSecs * 1000)
            && (forall jti | jti in s'.rows && jti != pair.refresh.jti :: s'.rows[jti] == s.rows[jti])
            && s'.blocked == s.blocked && s'.userBlocks == s.userBlocks && s'.users == s.users
  {
  }

  /** A refused rotation hands out nothing and takes at most its own row, if that has expired. */
  lemma RefusedRows(cfg: Config, s: Sessions, e: Event)
    requires Grants(e) && !Accepts(cfg, s, e)
    ensures var s' := Apply(cfg, s, e).s;
            && s' == s.(rows := s'.rows)
            && (s'.rows == s.rows
                || (e.Rotate? && e.token.jti in s.rows && s.rows[e.token.jti].expiresAt < e.at.check && s'.rows == s.rows - {e.token.jti}))
  {
  }

  /** What a rotation says when it is refused, in the order it checks. */
  lemma RefusedBecause(cfg: Config, s: Sessions, e: Event)
    requires e.Rotate? && !Accepts(cfg, s, e)
    ensures var t, error := e.token, Apply(cfg, s, e).reply.error;
            if t !in s.refreshSigned then error == InvalidToken
            else if e.at.check / 1000 >= t.exp then error == RefreshTokenExpired
            else if t.jti !in s.rows || s.rows[t.jti].user != t.sub then error == RefreshTokenNotFound
            else if s.rows[t.jti].hash != t then error == InvalidToken
            else if s.rows[t.jti].expiresAt < e.at.check then error == RefreshTokenExpired
            else if t.sub !in s.users then error == UserNotFound
            else error == Database
  {
  }

  /** Revoking one token takes its row alone, and no block but that of the access token given with it. */
  lemma RevokedRows(cfg: Config, s: Sessions, e: Event)
    requires e.Revoke?
    ensures var s' := Apply(cfg, s, e).s;
            && (Accepts(cfg, s, e) <==> e.token in s.refreshSigned && e.now / 1000 < e.token.exp)
            && (!Accepts(cfg, s, e) ==> s' == s)
            && (Accepts(cfg, s, e) ==> s'.rows.Keys == s.rows.Keys - {e.token.jti})
            && (forall jti | jti in s'.rows :: s'.rows[jti] == s.rows[jti])
            && (forall jti | (jti in s.blocked || jti in s'.blocked) && !(e.access.Some? && e.access.value.jti == jti) ::
                  jti in s.blocked && jti in s'.blocked && s'.blocked[jti] == s.blocked[jti])
            && s'.userBlocks == s.userBlocks && s'.users == s.users
  {
  }

  /** Revoking all of a user's tokens takes exactly that user's rows. */
  lemma RevokedUserRows(cfg: Config, s: Sessions, now: int, user: Uuid)
    ensures var s' := Apply(cfg, s, RevokeAll(now, user)).s;
            && (forall jti :: jti in s'.rows <==> jti in s.rows && s.rows[jti].user != user)
            && (forall jti | jti in s'.rows :: s'.rows[jti] == s.rows[jti])
            && s'.blocked == s.blocked
            && (forall u | u != user :: (u in s'.userBlocks <==> u in s.userBlocks)
                                        && (u in s.userBlocks ==> s'.userBlocks[u] == s.userBlocks[u]))
  {
  }

  /** Cleanup takes exactly the rows whose time is over. */
  lemma CleanedRows(cfg: Config, s: Sessions, now: int)
    ensures var s' := Apply(cfg, s, Cleanup(now)).s;
            && (forall jti :: jti in s'.rows <==> jti in s.rows && s.rows[jti].expiresAt >= now)
            && (forall jti | jti in s'.rows :: s'.rows[jti] == s.rows[jti])
            && s' == s.(rows := s'.rows)
  {
  }

  // ---- when a refresh token is accepted ----

  /** The token's row is there and lasts until `until`. */
  ghost predicate Standing(s: Sessions, t: RefreshClaims, until: int) {
    && t in s.refreshSigned && t.jti in s.used && t.sub in s.users
    && t.jti in s.rows && s.rows[t.jti] == RefreshRow(t.sub, t, until)
  }

  lemma GrantStands(cfg: Config, s: Sessions, e: Event)
    requires Valid(cfg, s) && Fresh(s, e) && Grants(e) && Accepts(cfg, s, e)
    ensures Standing(Apply(cfg, s, e).s, Handed(cfg, s, e).refresh, e.at.store + cfg.refreshTtlSecs * 1000)
  {
  }

  /** A standing token is accepted exactly until its claims and its row expire. */
  lemma StandingIsAccepted(cfg: Config, s: Sessions, e: Event, t: RefreshClaims, until: int)
    requires Valid(cfg, s) && Fresh(s, e) && Standing(s, t, until) && e.Rotate? && e.token == t
    ensures Accepts(cfg, s, e) <==> e.at.check / 1000 < t.exp && e.at.check <= until
  {
  }

  /** An event ends a standing token, or leaves it standing, or finds its row past its time. */
  lemma StandingOrEnded(cfg: Config, s: Sessions, e: Event, t: RefreshClaims, until: int)
    requires Valid(cfg, s) && Fresh(s, e) && Standing(s, t, until)
    ensures var s' := Apply(cfg, s, e).s;
            if Ends(cfg, s, e, t) then Dead(s', t)
            else Standing(s', t, until) || (Dead(s', t) && until < TimeOf(e))
  {
  }

  lemma {:induction false} TimesGrow(cfg: Config, s: Sessions, clock: int, events: seq<Event>, j: nat)
    requires Serial(cfg, s, clock, events) && j < |events|
    ensures clock <= TimeOf(events[j])
    decreases j
  {
    hide Apply, Fresh;
    if j > 0 {
      TimesGrow(cfg, Apply(cfg, s, events[0]).s, TimeOf(events[0]), events[1..], j - 1);
    }
  }

  ghost predicate EndedBefore(cfg: Config, s: Sessions, events: seq<Event>, t: RefreshClaims, i: nat, j: nat)
    requires j <= |events|
  {
    exists k :: i <= k < j && Ends(cfg, Before(cfg, s, events, k), events[k], t)
  }

  /** Shifting the start of a run by one event. */
  lemma EndedShift(cfg: Config, s: Sessions, events: seq<Event>, t: RefreshClaims, i: nat, j: nat)
    requires 0 < j <= |events| && 0 < i
    ensures EndedBefore(cfg, s, events, t, i, j) <==> EndedBefore(cfg, Apply(cfg, s, events[0]).s, events[1..], t, i - 1, j - 1)
  {
    hide Ends, Apply;
    var s', later := Apply(cfg, s, events[0]).s, events[1..];
    assert forall k | 0 < k < j :: Before(cfg, s, events, k) == Before(cfg, s', later, k - 1) && events[k] == later[k - 1];
    if EndedBefore(cfg, s, events, t, i, j) {
      var k :| i <= k < j && Ends(cfg, Before(cfg, s, events, k), events[k], t);
      assert Ends(cfg, Before(cfg, s', later, k - 1), later[k - 1], t);
    }
    if EndedBefore(cfg, s', later, t, i - 1, j - 1) {
      var k :| i - 1 <= k < j - 1 && Ends(cfg, Before(cfg, s', later, k), later[k], t);
      assert Ends(cfg, Before(cfg, s, events, k + 1), events[k + 1], t);
    }
  }

  lemma EndedFirst(cfg: Config, s: Sessions, events: seq<Event>, t: RefreshClaims, j: nat)
    requires 0 < j <= |events|
    ensures EndedBefore(cfg, s, events, t, 0, j) <==>
              Ends(cfg, s, events[0], t) || EndedBefore(cfg, Apply(cfg, s, events[0]).s, events[1..], t, 0, j - 1)
  {
    hide Ends, Apply;
    EndedShift(cfg, s, events, t, 1, j);
    assert Before(cfg, s, events, 0) == s;
  }

  lemma {:induction false} StandingAcceptedExactly(cfg: Config, s: Sessions, clock: int, events: seq<Event>, t: RefreshClaims,
                                                   until: int, j: nat)
    requires Valid(cfg, s) && Serial(cfg, s, clock, events) && Standing(s, t, until)
    requires j < |events| && events[j].Rotate? && events[j].token == t
    ensures Accepts(cfg, Before(cfg, s, events, j), events[j]) <==>
              && !EndedBefore(cfg, s, events, t, 0, j)
              && events[j].at.check / 1000 < t.exp && events[j].at.check <= until
    decreases j
  {
    hide Apply, Standing, Dead, Ends, Valid, Fresh, EndedBefore;
    if j == 0 {
      NothingEnded(cfg, s, events, t);
      StandingIsAccepted(cfg, s, events[0], t, until);
    } else {
      var s' := Apply(cfg, s, events[0]).s;
      StepKeepsValid(cfg, s, events[0]);
      StandingOrEnded(cfg, s, events[0], t, until);
      EndedFirst(cfg, s, events, t, j);
      TimesGrow(cfg, s', TimeOf(events[0]), events[1..], j - 1);
      if Ends(cfg, s, events[0], t) || !Standing(s', t, until) {
        DeadStaysDead(cfg, s', TimeOf(events[0]), events[1..], t, j - 1);
      } else {
        StandingAcceptedExactly(cfg, s', TimeOf(events[0]), events[1..], t, until, j - 1);
      }
    }
  }

  lemma NothingEnded(cfg: Config, s: Sessions, events: seq<Event>, t: RefreshClaims)
    ensures !EndedBefore(cfg, s, events, t, 0, 0)
  {
  }

  lemma {:induction false} HandedTokenAcceptedExactly(cfg: Config, s: Sessions, clock: int, events: seq<Event>, i: nat, j: nat)
    requires Valid(cfg, s) && Serial(cfg, s, clock, events) && i < j < |events|
    requires Grants(events[i]) && Accepts(cfg, Before(cfg, s, events, i), events[i])
    requires events[j].Rotate? && events[j].token == Handed(cfg, Before(cfg, s, events, i), events[i]).refresh
    ensures Accepts(cfg, Before(cfg, s, events, j), events[j]) <==>
              && !EndedBefore(cfg, s, events, events[j].token, i + 1, j)
              && events[j].at.check / 1000 < events[i].at.sign / 1000 + cfg.refreshTtlSecs
              && events[j].at.check <= events[i].at.store + cfg.refreshTtlSecs * 1000
    decreases i
  {
    hide Apply, Standing, Dead, Ends, Valid, Fresh, EndedBefore, Accepts, Handed;
    var s', t := Apply(cfg, s, events[0]).s, events[j].token;
    StepKeepsValid(cfg, s, events[0]);
    EndedShift(cfg, s, events, t, i + 1, j);
    if i == 0 {
      GrantStands(cfg, s, events[0]);
      PairClaims(cfg, s, events[0]);
      StandingAcceptedExactly(cfg, s', TimeOf(events[0]), events[1..], t, events[0].at.store + cfg.refreshTtlSecs * 1000, j - 1);
    } else {
      HandedTokenAcceptedExactly(cfg, s', TimeOf(events[0]), events[1..], i - 1, j - 1);
    }
  }

  /**
    Over every serial run from empty tables, a refresh token that was handed out is accepted by rotate exactly when nothing has
    ended it since and neither its claims nor its row have expired.
   */
  lemma RotationAcceptedExactly(cfg: Config, users: set<Uuid>, clock: int, events: seq<Event>, i: nat, j: nat)
    requires Serial(cfg, Start(users), clock, events) && i < j < |events|
    requires Grants(events[i]) && Accepts(cfg, Before(cfg, Start(users), events, i), events[i])
    requires events[j].Rotate? && events[j].token == Handed(cfg, Before(cfg, Start(users), events, i), events[i]).refresh
    ensures Accepts(cfg, Before(cfg, Start(users), events, j), events[j]) <==>
              && !EndedBefore(cfg, Start(users), events, events[j].token, i + 1, j)
              && events[j].at.check / 1000 < events[i].at.sign / 1000 + cfg.refreshTtlSecs
              && events[j].at.check <= events[i].at.store + cfg.refreshTtlSecs * 1000
  {
    StartIsValid(cfg, users);
    HandedTokenAcceptedExactly(cfg, Start(users), clock, events, i, j);
  }

  /** A user the service knows is always issued a pair. */
  lemma IssueAcceptedExactly(cfg: Config, s: Sessions, e: Event)
    requires Valid(cfg, s) && Fresh(s, e) && e.Issue?
    ensures Accepts(cfg, s, e) <==> e.user in s.users
  {
  }

  // ---- when an access token passes ----

  /** Blocks lie in the past and last at most 900 seconds; only known ids are blocked. */
  ghost predicate BlocksBounded(s: Sessions, clock: int) {
    && (forall jti | jti in s.blocked :: jti in s.used && s.blocked[jti] <= clock + 900_000)
    && (forall u | u in s.userBlocks :: s.userBlocks[u].at <= clock / 1000)
    && (forall a | a in s.accessSigned :: a.jti in s.used)
  }

  lemma StepKeepsBounded(cfg: Config, s: Sessions, clock: int, e: Event)
    requires Valid(cfg, s) && BlocksBounded(s, clock) && clock <= TimeOf(e)
    ensures BlocksBounded(Apply(cfg, s, e).s, TimeOf(e))
  {
  }

  /** An accepted revocation given with this access token, while it lives, blocks it for 900 seconds. */
  predicate BlocksToken(cfg: Config, s: Sessions, e: Event, token: AccessClaims, later: int) {
    && e.Revoke? && e.access == Some(token) && Accepts(cfg, s, e)
    && token in s.accessSigned && e.now / 1000 < token.exp && later < e.now + 900_000
  }

  /** A revocation of all the user's tokens blocks those of earlier seconds. */
  predicate BlocksUser(cfg: Config, e: Event, user: Uuid, iat: int) {
    e.RevokeAll? && e.user == user && cfg.accessTtlSecs > 0 && iat < e.now / 1000
  }

  lemma StepBlocksToken(cfg: Config, s: Sessions, clock: int, e: Event, token: AccessClaims, later: int)
    requires Valid(cfg, s) && BlocksBounded(s, clock) && clock <= TimeOf(e)
    requires token in s.accessSigned && later / 1000 < token.exp
    ensures JtiBlocked(Apply(cfg, s, e).s, token.jti, later) <==> BlocksToken(cfg, s, e, token, later) || JtiBlocked(s, token.jti, later)
  {
  }

  lemma StepBlocksUser(cfg: Config, s: Sessions, clock: int, e: Event, user: Uuid, iat: int, later: int)
    requires BlocksBounded(s, clock) && clock <= TimeOf(e) && later / 1000 < iat + cfg.accessTtlSecs
    ensures UserBlocked(Apply(cfg, s, e).s, user, iat, later) <==> BlocksUser(cfg, e, user, iat) || UserBlocked(s, user, iat, later)
  {
  }

  ghost predicate TokenBlockedBetween(cfg: Config, s: Sessions, events: seq<Event>, token: AccessClaims, later: int, i: nat, n: nat)
    requires n <= |events|
  {
    exists k :: i <= k < n && BlocksToken(cfg, Before(cfg, s, events, k), events[k], token, later)
  }

  ghost predicate UserBlockedBefore(cfg: Config, events: seq<Event>, user: Uuid, iat: int, n: nat)
    requires n <= |events|
  {
    exists k :: 0 <= k < n && BlocksUser(cfg, events[k], user, iat)
  }

  lemma TokenBlockedShift(cfg: Config, s: Sessions, events: seq<Event>, token: AccessClaims, later: int, i: nat, n: nat)
    requires 0 < n <= |events| && 0 < i
    ensures TokenBlockedBetween(cfg, s, events, token, later, i, n)
       <==> TokenBlockedBetween(cfg, Apply(cfg, s, events[0]).s, events[1..], token, later, i - 1, n - 1)
  {
    hide BlocksToken, Apply;
    var s', rest := Apply(cfg, s, events[0]).s, events[1..];
    assert forall k | 0 < k < n :: Before(cfg, s, events, k) == Before(cfg, s', rest, k - 1) && events[k] == rest[k - 1];
    if TokenBlockedBetween(cfg, s, events, token, later, i, n) {
      var k :| i <= k < n && BlocksToken(cfg, Before(cfg, s, events, k), events[k], token, later);
      assert BlocksToken(cfg, Before(cfg, s', rest, k - 1), rest[k - 1], token, later);
    }
    if TokenBlockedBetween(cfg, s', rest, token, later, i - 1, n - 1) {
      var k :| i - 1 <= k < n - 1 && BlocksToken(cfg, Before(cfg, s', rest, k), rest[k], token, later);
      assert BlocksToken(cfg, Before(cfg, s, events, k + 1), events[k + 1], token, later);
    }
  }

  lemma TokenBlockedFirst(cfg: Config, s: Sessions, events: seq<Event>, token: AccessClaims, later: int, n: nat)
    requires 0 < n <= |events|
    ensures TokenBlockedBetween(cfg, s, events, token, later, 0, n) <==>
              BlocksToken(cfg, s, events[0], token, later)
              || TokenBlockedBetween(cfg, Apply(cfg, s, events[0]).s, events[1..], token, later, 0, n - 1)
  {
    hide BlocksToken, Apply;
    TokenBlockedShift(cfg, s, events, token, later, 1, n);
    assert Before(cfg, s, events, 0) == s;
  }

  lemma {:induction false} JtiBlockedExactly(cfg: Config, s: Sessions, clock: int, events: seq<Event>, n: nat, token: AccessClaims, later: int)
    requires Valid(cfg, s) && Serial(cfg, s, clock, events) && BlocksBounded(s, clock) && n <= |events|
    requires token in s.accessSigned && later / 1000 < token.exp
    ensures JtiBlocked(Before(cfg, s, events, n), token.jti, later) <==>
              TokenBlockedBetween(cfg, s, events, token, later, 0, n) || JtiBlocked(s, token.jti, later)
    decreases n
  {
    hide Apply, Valid, Fresh, BlocksBounded, BlocksToken, JtiBlocked;
    if n > 0 {
      var s' := Apply(cfg, s, events[0]).s;
      StepKeepsValid(cfg, s, events[0]);
      StepKeepsBounded(cfg, s, clock, events[0]);
      StepBlocksToken(cfg, s, clock, events[0], token, later);
      SignedStays(cfg, s, events[0], token);
      TokenBlockedFirst(cfg, s, events, token, later, n);
      JtiBlockedExactly(cfg, s', TimeOf(events[0]), events[1..], n - 1, token, later);
    }
  }

  lemma SignedStays(cfg: Config, s: Sessions, e: Event, token: AccessClaims)
    requires token in s.accessSigned
    ensures token in Apply(cfg, s, e).s.accessSigned
  {
  }

  lemma {:induction false} UserBlockedExactly(cfg: Config, s: Sessions, clock: int, events: seq<Event>, n: nat, user: Uuid, iat: int, later: int)
    requires Valid(cfg, s) && Serial(cfg, s, clock, events) && BlocksBounded(s, clock) && n <= |events|
    requires later / 1000 < iat + cfg.accessTtlSecs
    ensures UserBlocked(Before(cfg, s, events, n), user, iat, later) <==>
              UserBlockedBefore(cfg, events, user, iat, n) || UserBlocked(s, user, iat, later)
    decreases n
  {
    hide Apply, Valid, Fresh, BlocksBounded, BlocksUser, UserBlocked;
    if n > 0 {
      StepKeepsValid(cfg, s, events[0]);
      StepKeepsBounded(cfg, s, clock, events[0]);
      StepBlocksUser(cfg, s, clock, events[0], user, iat, later);
      UserBlockedExactly(cfg, Apply(cfg, s, events[0]).s, TimeOf(events[0]), events[1..], n - 1, user, iat, later);
      assert forall k | 0 <= k < n - 1 :: events[1..][k] == events[k + 1];
      if UserBlockedBefore(cfg, events, user, iat, n) {
        var k :| 0 <= k < n && BlocksUser(cfg, events[k], user, iat);
        assert k > 0 ==> BlocksUser(cfg, events[1..][k - 1], user, iat);
      }
    }
  }

  lemma {:induction false} HandedAccessUnblocked(cfg: Config, s: Sessions, clock: int, events: seq<Event>, i: nat, n: nat, later: int)
    requires Valid(cfg, s) && Serial(cfg, s, clock, events) && BlocksBounded(s, clock) && i < n <= |events|
    requires Grants(events[i]) && Accepts(cfg, Before(cfg, s, events, i), events[i])
    requires later / 1000 < Handed(cfg, Before(cfg, s, events, i), events[i]).access.exp
    ensures var token := Handed(cfg, Before(cfg, s, events, i), events[i]).access;
            && token in Before(cfg, s, events, n).accessSigned
            && (JtiBlocked(Before(cfg, s, events, n), token.jti, later)
                <==> TokenBlockedBetween(cfg, s, events, token, later, i + 1, n))
    decreases i
  {
    hide Apply, Valid, Fresh, BlocksBounded, BlocksToken, JtiBlocked, Accepts, Handed;
    var s' := Apply(cfg, s, events[0]).s;
    var token := Handed(cfg, Before(cfg, s, events, i), events[i]).access;
    StepKeepsValid(cfg, s, events[0]);
    StepKeepsBounded(cfg, s, clock, events[0]);
    TokenBlockedShift(cfg, s, events, token, later, i + 1, n);
    if i == 0 {
      NewTokenIsUnblocked(cfg, s, clock, events[0], later);
      JtiBlockedExactly(cfg, s', TimeOf(events[0]), events[1..], n - 1, token, later);
      SignedStaysOn(cfg, s', events[1..], n - 1, token);
    } else {
      HandedAccessUnblocked(cfg, s', TimeOf(events[0]), events[1..], i - 1, n - 1, later);
    }
  }

  lemma {:induction false} SignedStaysOn(cfg: Config, s: Sessions, events: seq<Event>, n: nat, token: AccessClaims)
    requires token in s.accessSigned && n <= |events|
    ensures token in Before(cfg, s, events, n).accessSigned
    decreases n
  {
    hide Apply;
    if n > 0 {
      SignedStays(cfg, s, events[0], token);
      SignedStaysOn(cfg, Apply(cfg, s, events[0]).s, events[1..], n - 1, token);
    }
  }

  lemma NewTokenIsUnblocked(cfg: Config, s: Sessions, clock: int, e: Event, later: int)
    requires BlocksBounded(s, clock) && Fresh(s, e) && Grants(e) && Accepts(cfg, s, e)
    ensures var s', token := Apply(cfg, s, e).s, Handed(cfg, s, e).access;
            token in s'.accessSigned && !JtiBlocked(s', token.jti, later)
  {
  }

  lemma StartIsUnblocked(users: set<Uuid>, clock: int, user: Uuid, iat: int, later: int)
    ensures BlocksBounded(Start(users), clock) && !UserBlocked(Start(users), user, iat, later)
  {
  }

  /**
    Over every serial run from empty tables, an access token that was handed out passes at a later time exactly until it expires,
    unless a revocation within the last 900 seconds was given it, or all tokens of its user were revoked in a later second.
   */
  lemma AccessPassesExactly(cfg: Config, users: set<Uuid>, clock: int, events: seq<Event>, i: nat, n: nat, later: int)
    requires Serial(cfg, Start(users), clock, events) && i < n <= |events|
    requires Grants(events[i]) && Accepts(cfg, Before(cfg, Start(users), events, i), events[i])
    ensures var token := Handed(cfg, Before(cfg, Start(users), events, i), events[i]).access;
            Passes(Before(cfg, Start(users), events, n), token, later) <==>
              && later / 1000 < events[i].at.signAccess / 1000 + cfg.accessTtlSecs
              && !TokenBlockedBetween(cfg, Start(users), events, token, later, i + 1, n)
              && !UserBlockedBefore(cfg, events, token.sub, events[i].at.signAccess / 1000, n)
  {
    hide Apply, Valid, Fresh, BlocksBounded, BlocksToken, BlocksUser, JtiBlocked, UserBlocked, Accepts, Handed, Start;
    var s := Start(users);
    var token := Handed(cfg, Before(cfg, s, events, i), events[i]).access;
    StartIsValid(cfg, users);
    StartIsUnblocked(users, clock, token.sub, token.iat, later);
    PairClaims(cfg, Before(cfg, s, events, i), events[i]);
    if later / 1000 < token.exp {
      HandedAccessUnblocked(cfg, s, clock, events, i, n, later);
      UserBlockedExactly(cfg, s, clock, events, n, token.sub, token.iat, later);
    }
  }
}
