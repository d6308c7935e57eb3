/**
 The Shopify access token provider (src/integrations/shopify-access-token-provider.ts:11-33) and the
 token response parser (src/integrations/shopify-oauth.ts:21-28). Tokens are opaque numbers, times are
 milliseconds.
 */
module TokenProvider {

  type Token = nat

  datatype Option<T> = None | Some(value: T)

  /** A stored expiry: not there, not a date, or an instant. */
  datatype Expiry = Absent | Unparsable | At(ms: int)

  datatype Credentials = Credentials(accessToken: Token, accessExpires: Expiry, refreshToken: Option<Token>, refreshExpires: Expiry)

  datatype Status = Connected | Disconnected | ReauthRequired

  datatype Stored = Stored(status: Status, credentials: Credentials)

  predicate NeedsRefresh(c: Credentials, now: int, margin: nat) {
    match c.accessExpires
    case Absent => false
    case Unparsable => true
    case At(ms) => ms <= now + margin
  }

  datatype Decision = NoConnection | Use(token: Token) | MustReauth | MustRefresh(sent: Token)

  /** What a caller does with what it read; only the locked read goes past the first two lines. */
  function Decide(s: Stored, now: int, margin: nat): Decision {
    if s.status != Connected then NoConnection
    else if !NeedsRefresh(s.credentials, now, margin) then Use(s.credentials.accessToken)
    else if s.credentials.refreshToken.None? || !s.credentials.refreshExpires.At? || s.credentials.refreshExpires.ms <= now then MustReauth
    else MustRefresh(s.credentials.refreshToken.value)
  }

  /** More than the margin is left of the access token, or it does not expire. */
  predicate LivesOn(c: Credentials, now: int, margin: nat) {
    c.accessExpires == Absent || (c.accessExpires.At? && c.accessExpires.ms - now > margin)
  }

  /** The refresh token is there and has not expired. */
  predicate CanBeSent(c: Credentials, now: int) {
    c.refreshToken.Some? && c.refreshExpires.At? && now < c.refreshExpires.ms
  }

  /** Without a connection nothing is done; a token that lives on is used; otherwise the refresh token is sent if it can
      be, and if not the connection has to be authorised again. */
  lemma DecidedExactly(s: Stored, now: int, margin: nat)
    ensures var d := Decide(s, now, margin);
            && (d.NoConnection? <==> s.status != Connected)
            && (d.Use? <==> s.status == Connected && LivesOn(s.credentials, now, margin))
            && (d.MustRefresh? <==> s.status == Connected && !LivesOn(s.credentials, now, margin) && CanBeSent(s.credentials, now))
            && (d.MustReauth? <==> s.status == Connected && !LivesOn(s.credentials, now, margin) && !CanBeSent(s.credentials, now))
            && (d.Use? ==> d.token == s.credentials.accessToken)
            && (d.MustRefresh? ==> s.credentials.refreshToken == Some(d.sent))
  {
  }

  // ---- the provider's answer ----

  /** A field of the answer: left out, of the wrong kind, or usable. */
  datatype Field = Missing | Bad | Good(value: nat)

  datatype Body = Body(accessToken: Option<Token>, scopeGiven: bool, expiresIn: Field, refreshToken: Field, refreshExpiresIn: Field)

  predicate Positive(f: Field) { f.Good? && f.value > 0 }

  function ParseToken(body: Body, now: int): Option<Credentials> {
    if body.accessToken.None? || !body.scopeGiven then None
    else if body.expiresIn.Missing? && body.refreshToken.Missing? && body.refreshExpiresIn.Missing? then
      Some(Credentials(body.accessToken.value, Absent, None, Absent))
    else if !Positive(body.expiresIn) || !body.refreshToken.Good? || !Positive(body.refreshExpiresIn) then None
    else Some(Credentials(body.accessToken.value, At(now + body.expiresIn.value * 1000), Some(body.refreshToken.value),
                          At(now + body.refreshExpiresIn.value * 1000)))
  }

  /** Nothing half-expiring is ever accepted: both tokens and both lifetimes, or an access token alone. */
  lemma AllOrNoExpiry(body: Body, now: int)
    requires ParseToken(body, now).Some?
    ensures var c := ParseToken(body, now).value;
            && body.accessToken == Some(c.accessToken)
            && (c.refreshToken.Some? <==> !body.expiresIn.Missing? || !body.refreshToken.Missing? || !body.refreshExpiresIn.Missing?)
            && (c.refreshToken.Some? <==> c.accessExpires.At? && c.refreshExpires.At?)
            && (c.refreshToken.None? ==> c.accessExpires == Absent && c.refreshExpires == Absent)
            && (c.refreshToken.Some? ==> body.refreshToken == Good(c.refreshToken.value) && c.accessExpires.ms > now && c.refreshExpires.ms > now)
  {
  }

  /** An answer is read exactly if it has a token and a scope, and either neither lifetimes nor a refresh token or all
      three, with positive lifetimes; each token then lives for its lifetime in seconds from now on. */
  lemma ParsedExactly(body: Body, now: int, c: Credentials)
    ensures ParseToken(body, now) == Some(c) <==>
              && body.scopeGiven && body.accessToken == Some(c.accessToken)
              && if c.refreshToken.None?
                 then body.expiresIn == body.refreshToken == body.refreshExpiresIn == Missing && c.accessExpires == c.refreshExpires == Absent
                 else && body.refreshToken == Good(c.refreshToken.value) && body.expiresIn.Good? && body.refreshExpiresIn.Good?
                      && c.accessExpires.At? && c.refreshExpires.At? && c.accessExpires.ms > now && c.refreshExpires.ms > now
                      && c.accessExpires.ms - now == 1000 * body.expiresIn.value && c.refreshExpires.ms - now == 1000 * body.refreshExpiresIn.value
  {
  }

  datatype Answer = Unreachable | Refused | Inactive | Accepted(body: Body)

  datatype Outcome = Nothing | Access(token: Token) | Thrown

  /** The readings of the clock along one call: at the two freshness tests, before asking, and at the answer. */
  datatype Clock = Clock(first: int, second: int, asking: int, answered: int)

  /** Both freshness tests failed. */
  predicate Stale(c: Credentials, t: Clock, margin: nat) {
    NeedsRefresh(c, t.first, margin) && NeedsRefresh(c, t.second, margin)
  }

  /** The refresh token can still be sent. */
  predicate Sendable(c: Credentials, now: int) {
    c.refreshToken.Some? && c.refreshExpires.At? && c.refreshExpires.ms > now
  }

  /** The call gets as far as asking the provider. */
  predicate MustAsk(s: Stored, t: Clock, margin: nat) {
    s.status == Connected && Stale(s.credentials, t, margin) && Sendable(s.credentials, t.asking)
  }

  class ShopifyAccessTokenProvider {
    var stored: Stored
    var refreshFailures: nat     // failures recorded with the connection
    const margin: nat
    ghost var asked: seq<Token>

    constructor (initial: Stored, refreshBeforeSeconds: nat)
      ensures stored == initial && margin == refreshBeforeSeconds * 1000 && asked == [] && refreshFailures == 0
    {
      stored, margin, asked, refreshFailures := initial, refreshBeforeSeconds * 1000, [], 0;
    }

    /**
     The caller's whole path when nobody interferes: the unlocked read, then the read again under the lock.
     The provider is asked at most once, and only when both tests found the token stale.
     */
    method Resolve(t: Clock, ask: Token -> Answer) returns (r: Outcome)
      modifies this
      ensures asked == old(asked) + if MustAsk(old(stored), t, margin) then [old(stored).credentials.refreshToken.value] else []
      // a token is always the stored one: fresh at a test, or read out of the answer and stored
      ensures r.Access? ==> stored.status == Connected && r.token == stored.credentials.accessToken
      ensures r.Access? && !MustAsk(old(stored), t, margin) ==> stored == old(stored) && !Stale(stored.credentials, t, margin)
      ensures r.Access? && MustAsk(old(stored), t, margin) ==>
                var answer := ask(old(stored).credentials.refreshToken.value);
                answer.Accepted? && ParseToken(answer.body, t.answered) == Some(stored.credentials)
      // nothing: no connection, or one that has to be authorised again
      ensures r.Nothing? ==> old(stored).status == Connected ==>
                stored == old(stored).(status := ReauthRequired) && Stale(stored.credentials, t, margin)
      ensures r.Nothing? && MustAsk(old(stored), t, margin) ==> ask(old(stored).credentials.refreshToken.value).Inactive?
      ensures old(stored).status != Connected ==> r.Nothing? && stored == old(stored)
      // an error: asked in vain, and what is stored is untouched
      ensures r.Thrown? ==> stored == old(stored) && MustAsk(stored, t, margin)
      ensures r.Thrown? ==> var answer := ask(stored.credentials.refreshToken.value);
                            && !answer.Inactive? && (answer.Accepted? ==> ParseToken(answer.body, t.answered).None?)
                            && refreshFailures == old(refreshFailures) + if answer.Accepted? then 0 else 1
      ensures !r.Thrown? ==> refreshFailures == old(refreshFailures)
    {
      if stored.status != Connected { return Nothing; }
      if !NeedsRefresh(stored.credentials, t.first, margin) { return Access(stored.credentials.accessToken); }
      r := ResolveLocked(t, ask);
    }

    /** Under the rotation lock everything is read again. */
    method ResolveLocked(t: Clock, ask: Token -> Answer) returns (r: Outcome)
      modifies this
      ensures r.Nothing? <==>
                || old(stored).status != Connected
                || (&& NeedsRefresh(old(stored).credentials, t.second, margin)
                    && (|| !Sendable(old(stored).credentials, t.asking)
                        || ask(old(stored).credentials.refreshToken.value).Inactive?))
      ensures r.Nothing? ==> stored == if old(stored).status == Connected then old(stored).(status := ReauthRequired) else old(stored)
      ensures r.Access? ==> stored.status == Connected && r.token == stored.credentials.accessToken
      ensures r.Access? ==>
                if !NeedsRefresh(old(stored).credentials, t.second, margin) then stored == old(stored)
                else var answer := ask(old(stored).credentials.refreshToken.value);
                     answer.Accepted? && ParseToken(answer.body, t.answered) == Some(stored.credentials)
      ensures r.Thrown? ==> stored == old(stored) && NeedsRefresh(stored.credentials, t.second, margin) && Sendable(stored.credentials, t.asking)
      ensures r.Thrown? ==> var answer := ask(stored.credentials.refreshToken.value);
                            && !answer.Inactive? && (answer.Accepted? ==> ParseToken(answer.body, t.answered).None?)
                            && refreshFailures == old(refreshFailures) + if answer.Accepted? then 0 else 1
      ensures !r.Thrown? ==> refreshFailures == old(refreshFailures)
      ensures var sends := old(stored).status == Connected && NeedsRefresh(old(stored).credentials, t.second, margin)
                           && Sendable(old(stored).credentials, t.asking);
              asked == old(asked) + if sends then [old(stored).credentials.refreshToken.value] else []
    {
      if stored.status != Connected { return Nothing; }
      var credentials := stored.credentials;
      if !NeedsRefresh(credentials, t.second, margin) { return Access(credentials.accessToken); }
      if credentials.refreshToken.None? || !credentials.refreshExpires.At? || credentials.refreshExpires.ms <= t.asking {
        stored := stored.(status := ReauthRequired);
        return Nothing;
      }
      asked := asked + [credentials.refreshToken.value];
      var answer := ask(credentials.refreshToken.value);
      match answer {
        case Unreachable =>
          refreshFailures := refreshFailures + 1;
          return Thrown;
        case Refused =>
          refreshFailures := refreshFailures + 1;
          return Thrown;
        case Inactive =>
          stored := stored.(status := ReauthRequired);
          return Nothing;
        case Accepted(body) =>
          var token := ParseToken(body, t.answered);
          if token.None? { return Thrown; }
          stored := Stored(Connected, token.value);
          return Access(token.value.accessToken);
      }
    }
  }
}
