/**
 One caller's way through the rotation protocol when it is not disturbed, from any world (src/integrations/
 shopify-access-token-provider.ts:16-33): what it is handed, and what it leaves stored.
 */
module TokenRefresh {
  import opened TokenProvider
  import opened TokenRotation

  lemma AfterTwo(w: World, margin: nat, a: Action, b: Action)
    ensures After(w, margin, [a, b]) == Apply(Apply(w, margin, a), margin, b)
  {
    AfterNext(w, margin, [], a);
    AfterNext(w, margin, [a], b);
    assert [] + [a] == [a] && [a] + [b] == [a, b];
  }

  lemma AfterNext(w: World, margin: nat, run: seq<Action>, a: Action)
    ensures After(w, margin, run + [a]) == Apply(After(w, margin, run), margin, a)
  {
    assert (run + [a])[..|run|] == run;
  }

  lemma AfterThree(w: World, margin: nat, a: Action, b: Action, c: Action)
    ensures After(w, margin, [a, b, c]) == Apply(Apply(Apply(w, margin, a), margin, b), margin, c)
  {
    hide Apply;
    AfterTwo(w, margin, a, b);
    AfterNext(w, margin, [a, b], c);
    assert [a, b] + [c] == [a, b, c];
  }

  /** A token that lives on is handed out at the first read, and nothing else happens. */
  lemma FreshIsUsed(w: World, margin: nat, c: Caller)
    requires PcOf(w, c).Idle? && w.stored.status == Connected && LivesOn(w.stored.credentials, w.now, margin)
    ensures After(w, margin, [FirstRead(c)]) == w.(handed := w.handed + [Handed(w.stored.credentials.accessToken, w.stored.credentials, w.now)])
  {
    AfterNext(w, margin, [], FirstRead(c));
    assert [] + [FirstRead(c)] == [FirstRead(c)];
    DecidedExactly(w.stored, w.now, margin);
    hide Decide;
  }

  /** The caller can take the lock, and the stored token is about to end. */
  predicate Stale(w: World, margin: nat, c: Caller) {
    PcOf(w, c).Idle? && w.owner.None? && w.stored.status == Connected && !LivesOn(w.stored.credentials, w.now, margin)
  }

  lemma ReachesLock(w: World, margin: nat, c: Caller)
    requires Stale(w, margin, c)
    ensures Apply(Apply(w, margin, FirstRead(c)), margin, Acquire(c)) == w.(pcs := w.pcs[c := Locked], owner := Some(c))
  {
    DecidedExactly(w.stored, w.now, margin);
    hide Decide;
    assert w.pcs[c := Waiting][c := Locked] == w.pcs[c := Locked];
  }

  lemma Reads(w: World, margin: nat, c: Caller)
    requires PcOf(w, c).Locked? && w.stored.status == Connected && !LivesOn(w.stored.credentials, w.now, margin)
    ensures !CanBeSent(w.stored.credentials, w.now) ==>
              Apply(w, margin, SecondRead(c)) == w.(pcs := w.pcs[c := Idle], owner := None, stored := w.stored.(status := ReauthRequired))
    ensures CanBeSent(w.stored.credentials, w.now) ==>
              var r := Request(c, w.calls, w.stored.credentials.refreshToken.value);
              Apply(w, margin, SecondRead(c)) == w.(pcs := w.pcs[c := Sending(r, w.now, w.stored.credentials)],
                                                    outstanding := w.outstanding + {r}, calls := w.calls + 1)
  {
    DecidedExactly(w.stored, w.now, margin);
    hide Decide;
  }

  /** Without a refresh token that can be sent, the connection has to be authorised again, and nobody is asked. */
  lemma UnsendableIsReauthorised(w: World, margin: nat, c: Caller)
    requires Stale(w, margin, c) && !CanBeSent(w.stored.credentials, w.now)
    ensures var after := After(w, margin, [FirstRead(c), Acquire(c), SecondRead(c)]);
            after == w.(pcs := after.pcs, stored := w.stored.(status := ReauthRequired)) && PcOf(after, c) == Idle
  {
    AfterThree(w, margin, FirstRead(c), Acquire(c), SecondRead(c));
    ReachesLock(w, margin, c);
    var locked := w.(pcs := w.pcs[c := Locked], owner := Some(c));
    Reads(locked, margin, c);
    hide Apply, LivesOn, CanBeSent;
  }

  function Sent(w: World, c: Caller): Request
    requires w.stored.credentials.refreshToken.Some?
  {
    Request(c, w.calls, w.stored.credentials.refreshToken.value)
  }

  /** The lock is held, and the request is on its way. */
  function Asking(w: World, c: Caller): World
    requires w.stored.credentials.refreshToken.Some?
  {
    w.(pcs := w.pcs[c := Sending(Sent(w, c), w.now, w.stored.credentials)], owner := Some(c),
       outstanding := w.outstanding + {Sent(w, c)}, calls := w.calls + 1)
  }

  lemma Asks(w: World, margin: nat, c: Caller)
    requires Stale(w, margin, c) && CanBeSent(w.stored.credentials, w.now)
    ensures Apply(Apply(Apply(w, margin, FirstRead(c)), margin, Acquire(c)), margin, SecondRead(c)) == Asking(w, c)
  {
    ReachesLock(w, margin, c);
    var locked := w.(pcs := w.pcs[c := Locked], owner := Some(c));
    Reads(locked, margin, c);
    hide Apply, LivesOn;
    assert w.pcs[c := Locked][c := Sending(Sent(w, c), w.now, w.stored.credentials)] == w.pcs[c := Sending(Sent(w, c), w.now, w.stored.credentials)];
  }

  /** What a refresh that succeeds stores: the next pair, with its lifetimes from the time of the answer on. */
  predicate Renewed(c: Credentials, token: Token, life: Lifetime, now: int) {
    && c.accessToken == token + 1
    && match life
       case Forever => c.accessExpires == Absent && c.refreshToken == None && c.refreshExpires == Absent
       case Limited(access, refresh) =>
         && c.refreshToken == Some(token + 1) && c.accessExpires == Expiry.At(now + 1000 * access)
         && c.refreshExpires == Expiry.At(now + 1000 * refresh)
  }

  lemma AnswerArrives(w: World, margin: nat, c: Caller, life: Lifetime)
    requires w.stored.credentials.refreshToken == Some(w.current) && ValidLife(life)
    ensures var after := Apply(Apply(Apply(Asking(w, c), margin, Arrives(Sent(w, c), life)), margin, Received(c)), margin, Store(c));
            var pair := after.stored.credentials;
            && after.stored == Stored(Connected, pair) && Renewed(pair, w.current, life, w.now)
            && after.current == w.current + 1 && after.exchanges == w.exchanges + [Exchange(w.current, w.now, life)]
            && after.handed == w.handed + [Handed(w.current + 1, pair, w.now)] && after.stores == w.stores + [StoredAt(pair, w.now)]
            && after.owner == None && PcOf(after, c) == Idle && after.calls == w.calls + 1 && after.rejections == w.rejections
  {
    NewPairIs(life, w.current + 1, w.now);
    hide NewPair;
  }

  lemma NewPairIs(life: Lifetime, token: Token, now: int)
    requires ValidLife(life) && token > 0
    ensures Renewed(NewPair(life, token, now), token - 1, life, now)
  {
  }

  lemma AfterSix(w: World, margin: nat, a: Action, b: Action, c: Action, d: Action, e: Action, f: Action)
    ensures After(w, margin, [a, b, c, d, e, f])
         == Apply(Apply(Apply(After(w, margin, [a, b, c]), margin, d), margin, e), margin, f)
  {
    hide Apply, After;
    AfterNext(w, margin, [a, b, c], d);
    AfterNext(w, margin, [a, b, c, d], e);
    AfterNext(w, margin, [a, b, c, d, e], f);
    assert [a, b, c] + [d] == [a, b, c, d] && [a, b, c, d] + [e] == [a, b, c, d, e] && [a, b, c, d, e] + [f] == [a, b, c, d, e, f];
  }

  /** With the newest refresh token in store, the caller is handed the next pair, and it is stored. */
  lemma RefreshSucceeds(w: World, margin: nat, c: Caller, life: Lifetime)
    requires Stale(w, margin, c) && CanBeSent(w.stored.credentials, w.now)
    requires w.stored.credentials.refreshToken == Some(w.current) && ValidLife(life)
    ensures var r := Request(c, w.calls, w.current);
            var after := After(w, margin, [FirstRead(c), Acquire(c), SecondRead(c), Arrives(r, life), Received(c), Store(c)]);
            var pair := after.stored.credentials;
            && after.stored == Stored(Connected, pair) && Renewed(pair, w.current, life, w.now)
            && after.current == w.current + 1 && after.exchanges == w.exchanges + [Exchange(w.current, w.now, life)]
            && after.handed == w.handed + [Handed(w.current + 1, pair, w.now)] && after.stores == w.stores + [StoredAt(pair, w.now)]
            && after.owner == None && PcOf(after, c) == Idle && after.calls == w.calls + 1 && after.rejections == w.rejections
  {
    AfterSix(w, margin, FirstRead(c), Acquire(c), SecondRead(c), Arrives(Sent(w, c), life), Received(c), Store(c));
    AfterThree(w, margin, FirstRead(c), Acquire(c), SecondRead(c));
    Asks(w, margin, c);
    AnswerArrives(w, margin, c, life);
    hide Apply, After, Stale, CanBeSent, Renewed, Asking;
  }

  lemma AnswerRejects(w: World, margin: nat, c: Caller, life: Lifetime)
    requires w.stored.credentials.refreshToken.Some? && w.stored.credentials.refreshToken != Some(w.current) && ValidLife(life)
    ensures var after := Apply(Apply(Asking(w, c), margin, Arrives(Sent(w, c), life)), margin, GiveUp(c));
            && after.stored == w.stored.(status := ReauthRequired) && after.current == w.current && after.exchanges == w.exchanges
            && after.handed == w.handed && after.stores == w.stores && after.owner == None && PcOf(after, c) == Idle
            && after.calls == w.calls + 1 && after.rejections == w.rejections + 1
  {
  }

  lemma AfterFive(w: World, margin: nat, a: Action, b: Action, c: Action, d: Action, e: Action)
    ensures After(w, margin, [a, b, c, d, e]) == Apply(Apply(After(w, margin, [a, b, c]), margin, d), margin, e)
  {
    hide Apply, After;
    AfterNext(w, margin, [a, b, c], d);
    AfterNext(w, margin, [a, b, c, d], e);
    assert [a, b, c] + [d] == [a, b, c, d] && [a, b, c, d] + [e] == [a, b, c, d, e];
  }

  /** With an older one in store the provider refuses it, and the connection has to be authorised again. */
  lemma OldTokenIsRefused(w: World, margin: nat, c: Caller, life: Lifetime)
    requires Stale(w, margin, c) && CanBeSent(w.stored.credentials, w.now)
    requires w.stored.credentials.refreshToken != Some(w.current) && ValidLife(life)
    ensures var r := Request(c, w.calls, w.stored.credentials.refreshToken.value);
            var after := After(w, margin, [FirstRead(c), Acquire(c), SecondRead(c), Arrives(r, life), GiveUp(c)]);
            && after.stored == w.stored.(status := ReauthRequired) && after.current == w.current && after.exchanges == w.exchanges
            && after.handed == w.handed && after.stores == w.stores && after.owner == None && PcOf(after, c) == Idle
            && after.calls == w.calls + 1 && after.rejections == w.rejections + 1
  {
    AfterFive(w, margin, FirstRead(c), Acquire(c), SecondRead(c), Arrives(Sent(w, c), life), GiveUp(c));
    AfterThree(w, margin, FirstRead(c), Acquire(c), SecondRead(c));
    Asks(w, margin, c);
    AnswerRejects(w, margin, c, life);
    hide Apply, After, Stale, CanBeSent, Asking;
  }
}
