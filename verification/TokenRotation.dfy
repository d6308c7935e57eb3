/**
 Many callers refreshing one connection under the credential rotation lock
 (src/integrations/connection-repository.ts:49-53). The provider numbers the token pairs it issues, and
 accepts only the refresh token of the newest pair. A refresh request once sent stays on its way whatever
 happens to its caller, and may reach the provider later or never.
 */
module TokenRotation {
  import opened TokenProvider

  type Caller = nat

  /** How long the provider says a pair lives; a pair without lifetimes does not expire. */
  datatype Lifetime = Forever | Limited(access: nat, refresh: nat)

  /** A successful exchange: it spends token `sent` and issues token `sent + 1`. */
  datatype Exchange = Exchange(sent: Token, at: int, life: Lifetime)

  /** `no` tells apart two requests of one caller with the same token. */
  datatype Request = Request(caller: Caller, no: nat, sent: Token)

  /** Where a caller stands inside `resolve`. */
  datatype Pc =
    | Idle
    | Waiting                                                      // saw a stale token, wants the lock
    | Locked                                                       // holds the lock, has not read again
    | Sending(request: Request, readAt: int, read: Credentials)    // holds the lock, waits for the provider
    | Rejected                                                     // holds the lock, was told the token is inactive
    | Answered(exchange: Exchange)                                 // holds the lock, the answer is coming back
    | Storing(issued: Credentials)                                 // holds the lock and a new pair that is not stored yet

  /** A token handed to a caller, and the pair it was read from or stored in at that time. */
  datatype Handed = Handed(token: Token, read: Credentials, at: int)

  datatype StoredAt = StoredAt(pair: Credentials, at: int)

  datatype World = World(
    now: int,
    stored: Stored,
    owner: Option<Caller>,
    pcs: map<Caller, Pc>,
    current: Token,             // the provider's newest pair
    outstanding: set<Request>,  // requests on their way
    calls: nat,                 // requests so far
    exchanges: seq<Exchange>,   // successful exchanges, oldest first
    stores: seq<StoredAt>,      // pairs stored, oldest first
    rejections: nat,            // callers told that their token is not the current one
    handed: seq<Handed>)

  datatype Action =
    | Tick(ms: nat)
    | FirstRead(caller: Caller)
    | Acquire(caller: Caller)
    | SecondRead(caller: Caller)
    | Arrives(request: Request, life: Lifetime)
    | Received(caller: Caller)
    | GiveUp(caller: Caller)
    | Store(caller: Caller)
    | Dies(caller: Caller)      // it throws, or its process dies
    | Disconnect

  function PcOf(w: World, c: Caller): Pc { if c in w.pcs then w.pcs[c] else Idle }

  predicate Critical(pc: Pc) { !pc.Idle? && !pc.Waiting? }

  function At(w: World, c: Caller, pc: Pc): World { w.(pcs := w.pcs[c := pc]) }

  function Released(w: World, c: Caller): World { w.(pcs := w.pcs[c := Idle], owner := None) }

  predicate ValidLife(life: Lifetime) { life.Limited? ==> life.access > 0 && life.refresh > 0 }

  function Issued(life: Lifetime, token: Token): Body {
    match life
    case Forever => Body(Some(token), true, Missing, Missing, Missing)
    case Limited(access, refresh) => Body(Some(token), true, Good(access), Good(token), Good(refresh))
  }

  /** The pair the caller reads out of the provider's answer when it receives it. */
  function NewPair(life: Lifetime, token: Token, now: int): (c: Credentials)
    requires ValidLife(life)
    ensures c.accessToken == token && (c.refreshToken.Some? ==> c.refreshToken == Some(token))
    ensures life.Limited? ==> c.accessExpires == Expiry.At(now + life.access * 1000) && c.refreshToken == Some(token)
    ensures life.Forever? ==> c.accessExpires == Absent && c.refreshToken == None
  {
    ParseToken(Issued(life, token), now).value
  }

  /** The caller still waits for this very request. */
  predicate Heard(w: World, r: Request) { PcOf(w, r.caller).Sending? && PcOf(w, r.caller).request == r }

  predicate Enabled(w: World, a: Action) {
    match a
    case Tick(_) => true
    case FirstRead(c) => PcOf(w, c).Idle?
    case Acquire(c) => PcOf(w, c).Waiting? && w.owner.None?
    case SecondRead(c) => PcOf(w, c).Locked?
    case Arrives(r, life) => r in w.outstanding && ValidLife(life)
    case Received(c) => PcOf(w, c).Answered? && ValidLife(PcOf(w, c).exchange.life)
    case GiveUp(c) => PcOf(w, c).Rejected?
    case Store(c) => PcOf(w, c).Storing?
    case Dies(c) => true
    case Disconnect => true
  }

  function Arrive(w: World, r: Request, life: Lifetime): World {
    var rest := w.(outstanding := w.outstanding - {r});
    if r.sent != w.current then
      if Heard(w, r) then At(rest, r.caller, Rejected).(rejections := w.rejections + 1) else rest
    else
      var e := Exchange(r.sent, w.now, life);
      var done := rest.(current := w.current + 1, exchanges := w.exchanges + [e]);
      if Heard(w, r) then At(done, r.caller, Answered(e)) else done
  }

  function Step(w: World, margin: nat, a: Action): World
    requires Enabled(w, a)
  {
    match a
    case Tick(ms) => w.(now := w.now + ms)
    case FirstRead(c) => (
      match Decide(w.stored, w.now, margin)
      case NoConnection => w
      case Use(token) => w.(handed := w.handed + [Handed(token, w.stored.credentials, w.now)])
      case _ => At(w, c, Waiting))
    case Acquire(c) => At(w, c, Locked).(owner := Some(c))
    case SecondRead(c) => (
      match Decide(w.stored, w.now, margin)
      case NoConnection => Released(w, c)
      case Use(token) => Released(w, c).(handed := w.handed + [Handed(token, w.stored.credentials, w.now)])
      case MustReauth => Released(w, c).(stored := w.stored.(status := ReauthRequired))
      case MustRefresh(sent) =>
        var r := Request(c, w.calls, sent);
        At(w, c, Sending(r, w.now, w.stored.credentials)).(outstanding := w.outstanding + {r}, calls := w.calls + 1))
    case Arrives(r, life) => Arrive(w, r, life)
    case Received(c) =>
      var e := PcOf(w, c).exchange;
      At(w, c, Storing(NewPair(e.life, e.sent + 1, w.now)))
    case GiveUp(c) => Released(w, c).(stored := w.stored.(status := ReauthRequired))
    case Store(c) =>
      var pair := PcOf(w, c).issued;
      Released(w, c).(stored := Stored(Connected, pair), stores := w.stores + [StoredAt(pair, w.now)],
                      handed := w.handed + [Handed(pair.accessToken, pair, w.now)])
    case Dies(c) => if w.owner == Some(c) then Released(w, c) else At(w, c, Idle)
    case Disconnect => w.(stored := w.stored.(status := Disconnected))
  }

  /** An action that is not possible changes nothing. */
  function Apply(w: World, margin: nat, a: Action): World {
    if Enabled(w, a) then Step(w, margin, a) else w
  }

  function After(w: World, margin: nat, run: seq<Action>): World
    decreases |run|
  {
    if run == [] then w else Apply(After(w, margin, run[..|run| - 1]), margin, run[|run| - 1])
  }

  /** A new pair is lost: its call dies between the provider's exchange and the store, or had already died
      when the request was exchanged. */
  predicate LosesPair(w: World, a: Action) {
    || (a.Dies? && (PcOf(w, a.caller).Answered? || PcOf(w, a.caller).Storing?))
    || (a.Arrives? && Enabled(w, a) && a.request.sent == w.current && !Heard(w, a.request))
  }

  predicate LosesAt(w: World, margin: nat, run: seq<Action>, i: nat)
    requires i < |run|
  {
    LosesPair(After(w, margin, run[..i]), run[i])
  }

  /** No call of the run dies between exchange and store. */
  ghost predicate KeepsPairs(w: World, margin: nat, run: seq<Action>) {
    forall i: nat :: i < |run| ==> !LosesAt(w, margin, run, i)
  }

  /** Nobody is inside, nothing is on its way, and what is stored is what the provider issued last. */
  predicate Start(w: World) {
    && w.owner == None && w.pcs == map[] && w.outstanding == {}
    && w.exchanges == [] && w.stores == [] && w.rejections == 0 && w.handed == []
    && (w.stored.credentials.refreshToken.Some? ==> w.stored.credentials.refreshToken == Some(w.current))
  }

  // ---- the invariant of runs that keep their pairs ----

  predicate LockHeld(w: World) { forall c :: c in w.pcs && Critical(w.pcs[c]) ==> w.owner == Some(c) }

  predicate OwnerInside(w: World) { w.owner.Some? ==> Critical(PcOf(w, w.owner.value)) }

  /** The newest pair is in the lock owner's hands. */
  predicate InHand(w: World) { w.owner.Some? && (PcOf(w, w.owner.value).Answered? || PcOf(w, w.owner.value).Storing?) }

  /** The pair that this exchange issued, as some caller read it out of the answer then or later. */
  predicate IssuedBy(c: Credentials, e: Exchange) {
    && c.accessToken == e.sent + 1
    && (e.life.Forever? ==> c.accessExpires == Absent && c.refreshToken == None)
    && (e.life.Limited? ==> c.refreshToken == Some(e.sent + 1) && c.accessExpires.At? && c.accessExpires.ms >= e.at + e.life.access * 1000)
  }

  predicate NewestFrom(w: World, e: Exchange) {
    if !InHand(w) then IssuedBy(w.stored.credentials, e)
    else if PcOf(w, w.owner.value).Answered? then PcOf(w, w.owner.value).exchange == e && e.at <= w.now
    else IssuedBy(PcOf(w, w.owner.value).issued, e)
  }

  predicate LastIsNewest(w: World) {
    && (w.exchanges != [] ==> NewestFrom(w, w.exchanges[|w.exchanges| - 1]))
    && (w.exchanges == [] ==> !InHand(w))
  }

  predicate StoredIsCurrent(w: World) {
    && (!InHand(w) ==> (w.stored.credentials.refreshToken.Some? ==> w.stored.credentials.refreshToken == Some(w.current)))
    && (InHand(w) ==> w.stored.credentials.refreshToken != Some(w.current))
  }

  /** A request never carries a token that is still to be issued, nor one in the owner's hands. */
  predicate RequestsOld(w: World) {
    forall r :: r in w.outstanding ==> r.sent <= w.current && (InHand(w) ==> r.sent != w.current)
  }

  predicate SendsCurrent(w: World, margin: nat) {
    w.owner.Some? ==>
      && !PcOf(w, w.owner.value).Rejected?
      && (PcOf(w, w.owner.value).Sending? ==>
            var pc := PcOf(w, w.owner.value);
            && pc.request.sent == w.current && pc.read == w.stored.credentials && pc.readAt <= w.now
            && pc.read.refreshToken == Some(w.current) && NeedsRefresh(pc.read, pc.readAt, margin))
  }

  /** Each exchange spends the token that the one before issued, and not before it needed refreshing. */
  predicate Chain(first: Token, exchanges: seq<Exchange>, margin: nat) {
    && (forall i :: 0 <= i < |exchanges| ==> exchanges[i].sent == first + i)
    && (forall i :: 0 <= i < |exchanges| - 1 ==> Spaced(exchanges[i], exchanges[i + 1], margin))
  }

  predicate Spaced(e: Exchange, next: Exchange, margin: nat) {
    e.life.Limited? && e.at + e.life.access * 1000 - margin <= next.at
  }

  predicate Inv(w: World, margin: nat, first: Token) {
    && LockHeld(w) && OwnerInside(w)
    && StoredIsCurrent(w) && RequestsOld(w) && SendsCurrent(w, margin)
    && Chain(first, w.exchanges, margin) && w.current == first + |w.exchanges| && LastIsNewest(w)
    && w.rejections == 0
  }

  lemma StartInv(w: World, margin: nat)
    requires Start(w)
    ensures Inv(w, margin, w.current)
  {
  }

  lemma DecideUse(s: Stored, now: int, margin: nat)
    ensures Decide(s, now, margin).Use? ==>
              Decide(s, now, margin).token == s.credentials.accessToken && !NeedsRefresh(s.credentials, now, margin)
    ensures Decide(s, now, margin).MustRefresh? ==>
              s.credentials.refreshToken == Some(Decide(s, now, margin).sent) && NeedsRefresh(s.credentials, now, margin)
  {
  }

  /** Actions of callers outside the lock, of the clock and of the operator. */
  lemma OutsideKeeps(w: World, margin: nat, first: Token, a: Action)
    requires Inv(w, margin, first) && Enabled(w, a)
    requires a.Tick? || a.FirstRead? || a.Disconnect? || (a.Dies? && w.owner != Some(a.caller))
    ensures Inv(Step(w, margin, a), margin, first)
  {
    hide Chain, Decide, IssuedBy, NeedsRefresh;
  }

  lemma AcquireKeeps(w: World, margin: nat, first: Token, a: Action)
    requires Inv(w, margin, first) && Enabled(w, a) && a.Acquire?
    ensures Inv(Step(w, margin, a), margin, first)
  {
    hide Chain, NeedsRefresh, IssuedBy;
  }

  lemma SecondReadKeeps(w: World, margin: nat, first: Token, a: Action)
    requires Inv(w, margin, first) && Enabled(w, a) && a.SecondRead?
    ensures Inv(Step(w, margin, a), margin, first)
  {
    assert w.owner == Some(a.caller);
    DecideUse(w.stored, w.now, margin);
    hide Chain, Decide, NeedsRefresh, IssuedBy;
  }

  lemma ArrivesKeeps(w: World, margin: nat, first: Token, a: Action)
    requires Inv(w, margin, first) && Enabled(w, a) && a.Arrives? && !LosesPair(w, a)
    ensures Inv(Step(w, margin, a), margin, first)
  {
    var r := a.request;
    if r.sent == w.current {
      HeardIsOwner(w, margin, first, r);
      NextIsSpaced(w, margin, first, r, a.life);
      ChainGrows(first, w.exchanges, margin, Exchange(r.sent, w.now, a.life));
    } else {
      NotHeard(w, margin, first, r);
    }
    hide Chain, NeedsRefresh, IssuedBy;
  }

  lemma HeardIsOwner(w: World, margin: nat, first: Token, r: Request)
    requires Inv(w, margin, first) && Heard(w, r)
    ensures w.owner == Some(r.caller) && r.sent == w.current && !InHand(w)
  {
    hide Chain, NeedsRefresh, IssuedBy;
  }

  lemma NotHeard(w: World, margin: nat, first: Token, r: Request)
    requires Inv(w, margin, first) && r.sent != w.current
    ensures !Heard(w, r)
  {
    hide Inv;
    if Heard(w, r) { HeardIsOwner(w, margin, first, r); }
  }

  /** The stored pair needed refreshing when it was read, and still does. */
  lemma NextIsSpaced(w: World, margin: nat, first: Token, r: Request, life: Lifetime)
    requires Inv(w, margin, first) && Heard(w, r)
    ensures w.exchanges != [] ==> Spaced(w.exchanges[|w.exchanges| - 1], Exchange(r.sent, w.now, life), margin)
  {
    HeardIsOwner(w, margin, first, r);
    hide Chain;
  }

  lemma ChainGrows(first: Token, exchanges: seq<Exchange>, margin: nat, e: Exchange)
    requires Chain(first, exchanges, margin) && e.sent == first + |exchanges|
    requires exchanges != [] ==> Spaced(exchanges[|exchanges| - 1], e, margin)
    ensures Chain(first, exchanges + [e], margin)
  {
    hide Spaced;
  }

  lemma ReceivedKeeps(w: World, margin: nat, first: Token, a: Action)
    requires Inv(w, margin, first) && Enabled(w, a) && a.Received?
    ensures Inv(Step(w, margin, a), margin, first)
  {
    assert w.owner == Some(a.caller);
    var e := PcOf(w, a.caller).exchange;
    assert IssuedBy(NewPair(e.life, e.sent + 1, w.now), e) by { assert NewestFrom(w, w.exchanges[|w.exchanges| - 1]); }
    hide Chain, NeedsRefresh, NewPair, IssuedBy;
  }

  lemma StoreKeeps(w: World, margin: nat, first: Token, a: Action)
    requires Inv(w, margin, first) && Enabled(w, a) && a.Store?
    ensures Inv(Step(w, margin, a), margin, first)
  {
    assert w.owner == Some(a.caller);
    var last := w.exchanges[|w.exchanges| - 1];
    assert NewestFrom(w, last) && last.sent + 1 == w.current;
    hide Chain, NeedsRefresh;
  }

  /** The owner leaves without a new pair. */
  lemma LeaveKeeps(w: World, margin: nat, first: Token, a: Action)
    requires Inv(w, margin, first) && Enabled(w, a)
    requires a.GiveUp? || (a.Dies? && w.owner == Some(a.caller) && !LosesPair(w, a))
    ensures Inv(Step(w, margin, a), margin, first)
  {
    assert w.owner == Some(a.caller);
    hide Chain, NeedsRefresh, IssuedBy;
  }

  lemma StepKeeps(w: World, margin: nat, first: Token, a: Action)
    requires Inv(w, margin, first) && !LosesPair(w, a)
    ensures Inv(Apply(w, margin, a), margin, first)
  {
    hide Inv, Enabled, Step, LosesPair;
    if Enabled(w, a) {
      match a
      case Acquire(_) => AcquireKeeps(w, margin, first, a);
      case SecondRead(_) => SecondReadKeeps(w, margin, first, a);
      case Arrives(_, _) => ArrivesKeeps(w, margin, first, a);
      case Received(_) => ReceivedKeeps(w, margin, first, a);
      case Store(_) => StoreKeeps(w, margin, first, a);
      case GiveUp(_) => LeaveKeeps(w, margin, first, a);
      case Dies(c) => if w.owner == Some(c) { LeaveKeeps(w, margin, first, a); } else { OutsideKeeps(w, margin, first, a); }
      case _ => OutsideKeeps(w, margin, first, a);
    }
  }

  lemma {:induction false} RunKeeps(w: World, margin: nat, run: seq<Action>)
    requires Start(w) && KeepsPairs(w, margin, run)
    ensures Inv(After(w, margin, run), margin, w.current)
    decreases |run|
  {
    if run == [] {
      StartInv(w, margin);
    } else {
      var n := |run| - 1;
      forall i: nat | i < n ensures !LosesAt(w, margin, run[..n], i) {
        assert !LosesAt(w, margin, run, i);
        assert run[..n][..i] == run[..i];
      }
      RunKeeps(w, margin, run[..n]);
      assert !LosesAt(w, margin, run, n);
      hide Inv, Apply, LosesPair, KeepsPairs;
      StepKeeps(After(w, margin, run[..n]), margin, w.current, run[n]);
    }
  }

  // ---- what holds in every run without a loss ----

  /**
   Every exchange spends the token that the one before issued, every caller that asks sends the provider's
   current token, and none is ever turned down.
   */
  lemma NoTokenSpentTwice(w: World, margin: nat, run: seq<Action>)
    requires Start(w) && KeepsPairs(w, margin, run)
    ensures var t := After(w, margin, run);
            && t.rejections == 0
            && t.current == w.current + |t.exchanges|
            && (forall i :: 0 <= i < |t.exchanges| ==> t.exchanges[i].sent == w.current + i)
            && (forall c :: PcOf(t, c).Sending? ==> PcOf(t, c).request.sent == t.current)
  {
    RunKeeps(w, margin, run);
    hide After, KeepsPairs, NeedsRefresh, IssuedBy;
  }

  /** At most one caller is between its second read and its release. */
  lemma OneCallerInside(w: World, margin: nat, run: seq<Action>, c: Caller, d: Caller)
    requires Start(w)
    requires Critical(PcOf(After(w, margin, run), c)) && Critical(PcOf(After(w, margin, run), d))
    ensures c == d
  {
    RunLocks(w, margin, run);
    hide After;
  }

  lemma {:induction false} RunLocks(w: World, margin: nat, run: seq<Action>)
    requires Start(w)
    ensures LockHeld(After(w, margin, run)) && OwnerInside(After(w, margin, run))
    decreases |run|
  {
    if run != [] {
      RunLocks(w, margin, run[..|run| - 1]);
      hide After;
      StepLocks(After(w, margin, run[..|run| - 1]), margin, run[|run| - 1]);
    }
  }

  lemma StepLocks(w: World, margin: nat, a: Action)
    requires LockHeld(w) && OwnerInside(w)
    ensures LockHeld(Apply(w, margin, a)) && OwnerInside(Apply(w, margin, a))
  {
    hide Decide, NewPair;
  }

  /**
   After a pair with a lifetime was issued, nobody exchanges again before it is within the margin of its
   end; after a pair without one, never.
   */
  lemma ExchangesAreSpaced(w: World, margin: nat, run: seq<Action>, i: nat)
    requires Start(w) && KeepsPairs(w, margin, run)
    requires i + 1 < |After(w, margin, run).exchanges|
    ensures var e, next := After(w, margin, run).exchanges[i], After(w, margin, run).exchanges[i + 1];
            e.life.Limited? && e.at + e.life.access * 1000 - margin <= next.at
  {
    RunKeeps(w, margin, run);
    hide After, KeepsPairs, IssuedBy;
    assert Spaced(After(w, margin, run).exchanges[i], After(w, margin, run).exchanges[i + 1], margin);
  }

  // ---- what is handed out, in every run ----

  predicate OutlivesMargin(life: Lifetime, margin: nat) { life.Limited? ==> life.access * 1000 > margin }

  /** An exchange of the run, not after `now`, issued this pair; it was fresh then if its lifetime exceeds the margin. */
  ghost predicate FromExchange(exchanges: seq<Exchange>, now: int, margin: nat, c: Credentials) {
    exists i :: 0 <= i < |exchanges| && exchanges[i].at <= now && IssuedBy(c, exchanges[i])
                && (OutlivesMargin(exchanges[i].life, margin) ==> !NeedsRefresh(c, exchanges[i].at, margin))
  }

  /** Fresh when it was read, or stored at that moment from an exchange of the run. */
  ghost predicate HandedWell(w: World, margin: nat, h: Handed) {
    && h.token == h.read.accessToken
    && (!NeedsRefresh(h.read, h.at, margin) || (StoredAt(h.read, h.at) in w.stores && FromExchange(w.exchanges, h.at, margin, h.read)))
  }

  ghost predicate PcFrom(w: World, margin: nat, pc: Pc) {
    && (pc.Answered? ==> pc.exchange in w.exchanges && pc.exchange.at <= w.now)
    && (pc.Storing? ==> FromExchange(w.exchanges, w.now, margin, pc.issued))
  }

  ghost predicate HandsOk(w: World, margin: nat) {
    && (forall c :: c in w.pcs ==> PcFrom(w, margin, w.pcs[c]))
    && (forall h :: h in w.handed ==> HandedWell(w, margin, h))
  }

  lemma FromLater(exchanges: seq<Exchange>, more: seq<Exchange>, now: int, later: int, margin: nat, c: Credentials)
    requires FromExchange(exchanges, now, margin, c) && now <= later && exchanges <= more
    ensures FromExchange(more, later, margin, c)
  {
    hide IssuedBy, NeedsRefresh, OutlivesMargin;
    var i :| 0 <= i < |exchanges| && exchanges[i].at <= now && IssuedBy(c, exchanges[i])
             && (OutlivesMargin(exchanges[i].life, margin) ==> !NeedsRefresh(c, exchanges[i].at, margin));
    assert more[i] == exchanges[i];
  }

  /** The histories of exchanges and stores only grow. */
  predicate Grows(w: World, next: World) {
    w.now <= next.now && w.exchanges <= next.exchanges && w.stores <= next.stores
  }

  lemma StepGrows(w: World, margin: nat, a: Action)
    ensures Grows(w, Apply(w, margin, a))
  {
    hide Decide, NewPair;
  }

  lemma HandedStays(w: World, next: World, margin: nat, h: Handed)
    requires HandedWell(w, margin, h) && Grows(w, next)
    ensures HandedWell(next, margin, h)
  {
    hide NeedsRefresh, FromExchange;
    if FromExchange(w.exchanges, h.at, margin, h.read) { FromLater(w.exchanges, next.exchanges, h.at, h.at, margin, h.read); }
  }

  lemma PcStays(w: World, next: World, margin: nat, pc: Pc)
    requires PcFrom(w, margin, pc) && Grows(w, next)
    ensures PcFrom(next, margin, pc)
  {
    hide FromExchange;
    if pc.Storing? { FromLater(w.exchanges, next.exchanges, w.now, next.now, margin, pc.issued); }
  }

  lemma ReceivedFrom(w: World, margin: nat, e: Exchange)
    requires e in w.exchanges && e.at <= w.now && ValidLife(e.life)
    ensures FromExchange(w.exchanges, w.now, margin, NewPair(e.life, e.sent + 1, w.now))
  {
    var c := NewPair(e.life, e.sent + 1, w.now);
    var i :| 0 <= i < |w.exchanges| && w.exchanges[i] == e;
    hide NewPair;
    assert IssuedBy(c, e);
    assert OutlivesMargin(e.life, margin) ==> !NeedsRefresh(c, e.at, margin);
  }

  /** What the action itself hands out or puts into a caller's hands. */
  lemma NewHandsOk(w: World, margin: nat, a: Action)
    requires HandsOk(w, margin)
    ensures var next := Apply(w, margin, a);
            && (forall c :: c in next.pcs && !(c in w.pcs && next.pcs[c] == w.pcs[c]) ==> PcFrom(next, margin, next.pcs[c]))
            && (forall h :: h in next.handed && h !in w.handed ==> HandedWell(next, margin, h))
  {
    DecideUse(w.stored, w.now, margin);
    if a.Received? && Enabled(w, a) {
      var e := PcOf(w, a.caller).exchange;
      assert PcFrom(w, margin, w.pcs[a.caller]);
      ReceivedFrom(w, margin, e);
    }
    if a.Store? && Enabled(w, a) {
      var pair := PcOf(w, a.caller).issued;
      assert PcFrom(w, margin, w.pcs[a.caller]);
      assert StoredAt(pair, w.now) == Apply(w, margin, a).stores[|w.stores|];
    }
    hide Decide, NeedsRefresh, FromExchange, NewPair;
  }

  lemma HandsStep(w: World, margin: nat, a: Action)
    requires HandsOk(w, margin)
    ensures HandsOk(Apply(w, margin, a), margin)
  {
    var next := Apply(w, margin, a);
    NewHandsOk(w, margin, a);
    StepGrows(w, margin, a);
    hide Apply, HandedWell, PcFrom, Grows;
    forall c | c in next.pcs ensures PcFrom(next, margin, next.pcs[c]) {
      if c in w.pcs && next.pcs[c] == w.pcs[c] { PcStays(w, next, margin, w.pcs[c]); }
    }
    forall h | h in next.handed ensures HandedWell(next, margin, h) {
      if h in w.handed { HandedStays(w, next, margin, h); }
    }
  }

  lemma {:induction false} RunHands(w: World, margin: nat, run: seq<Action>)
    requires Start(w)
    ensures HandsOk(After(w, margin, run), margin)
    decreases |run|
  {
    if run != [] {
      RunHands(w, margin, run[..|run| - 1]);
      hide Apply;
      HandsStep(After(w, margin, run[..|run| - 1]), margin, run[|run| - 1]);
    }
  }

  /**
   A caller is handed the access token of the pair it read, and it was fresh then; or of a pair stored at
   that moment that an earlier exchange of the run issued, which was fresh at the exchange if its lifetime
   exceeds the margin.
   */
  lemma OnlyFreshTokens(w: World, margin: nat, run: seq<Action>, h: Handed)
    requires Start(w) && h in After(w, margin, run).handed
    ensures h.token == h.read.accessToken
    ensures var t := After(w, margin, run);
            || !NeedsRefresh(h.read, h.at, margin)
            || (&& StoredAt(h.read, h.at) in t.stores
                && exists i :: 0 <= i < |t.exchanges| && t.exchanges[i].at <= h.at && IssuedBy(h.read, t.exchanges[i])
                               && (OutlivesMargin(t.exchanges[i].life, margin) ==> !NeedsRefresh(h.read, t.exchanges[i].at, margin)))
  {
    RunHands(w, margin, run);
    hide After, NeedsRefresh, IssuedBy, OutlivesMargin;
    assert HandedWell(After(w, margin, run), margin, h);
  }

  // ---- without that assumption it fails, and exactly when ----

  /** The provider's newest pair is nobody's: not stored, not in a caller's hands, not being sent. */
  predicate Lost(w: World) {
    && w.stored.credentials.refreshToken != Some(w.current)
    && (forall c :: c in w.pcs ==> !w.pcs[c].Storing? && !w.pcs[c].Answered?)
    && (forall r :: r in w.outstanding ==> r.sent != w.current)
  }

  lemma LossLoses(w: World, margin: nat, first: Token, a: Action)
    requires Inv(w, margin, first) && LosesPair(w, a)
    ensures Lost(Apply(w, margin, a))
  {
    assert !InHand(w) ==> forall c :: c in w.pcs ==> !w.pcs[c].Storing? && !w.pcs[c].Answered?;
    if a.Arrives? { NotInHand(w, margin, first, a.request); }
    hide Chain, NeedsRefresh, IssuedBy;
  }

  lemma NotInHand(w: World, margin: nat, first: Token, r: Request)
    requires Inv(w, margin, first) && r in w.outstanding && r.sent == w.current
    ensures !InHand(w)
  {
    hide Chain, NeedsRefresh, IssuedBy;
  }

  lemma LostStays(w: World, margin: nat, a: Action)
    requires Lost(w)
    ensures Lost(Apply(w, margin, a)) && Apply(w, margin, a).exchanges == w.exchanges && !LosesPair(w, a)
  {
    DecideUse(w.stored, w.now, margin);
    hide Decide, NeedsRefresh;
  }

  /** At every moment of a run the invariant holds or the newest pair is lost. */
  lemma {:induction false} KeptOrLost(w: World, margin: nat, run: seq<Action>)
    requires Start(w)
    ensures Inv(After(w, margin, run), margin, w.current) || Lost(After(w, margin, run))
    decreases |run|
  {
    if run == [] {
      StartInv(w, margin);
    } else {
      var n := |run| - 1;
      var before := After(w, margin, run[..n]);
      KeptOrLost(w, margin, run[..n]);
      hide Inv, Lost, Apply, LosesPair;
      if Lost(before) {
        LostStays(before, margin, run[n]);
      } else if LosesPair(before, run[n]) {
        LossLoses(before, margin, w.current, run[n]);
      } else {
        StepKeeps(before, margin, w.current, run[n]);
      }
    }
  }

  lemma {:induction false} LostAfter(w: World, margin: nat, run: seq<Action>, i: nat, k: nat)
    requires Start(w) && i < k <= |run| && LosesAt(w, margin, run, i)
    ensures Lost(After(w, margin, run[..k])) && After(w, margin, run[..k]).exchanges == After(w, margin, run[..i + 1]).exchanges
    decreases k
  {
    var before := After(w, margin, run[..k - 1]);
    assert run[..k][..k - 1] == run[..k - 1];
    hide Inv, Lost, Apply, LosesPair;
    assert After(w, margin, run[..k]) == Apply(before, margin, run[k - 1]);
    if i < k - 1 {
      LostAfter(w, margin, run, i, k - 1);
      LostStays(before, margin, run[k - 1]);
    } else {
      KeptOrLost(w, margin, run[..i]);
      if Lost(before) { LostStays(before, margin, run[i]); }
      LossLoses(before, margin, w.current, run[i]);
    }
  }

  /** Once a pair is lost no exchange ever succeeds again, whatever the callers do later: the connection has
      to be authorised anew. */
  lemma LostForGood(w: World, margin: nat, run: seq<Action>, i: nat, k: nat)
    requires Start(w) && i < k <= |run| && LosesAt(w, margin, run, i)
    ensures After(w, margin, run[..k]).exchanges == After(w, margin, run[..i + 1]).exchanges
  {
    LostAfter(w, margin, run, i, k);
  }

  /** Action j is a request reaching the provider while its caller waits for it. */
  predicate AsksAt(w: World, margin: nat, run: seq<Action>, j: nat)
    requires j < |run|
  {
    var before := After(w, margin, run[..j]);
    run[j].Arrives? && Enabled(before, run[j]) && Heard(before, run[j].request)
  }

  ghost predicate AskedAfterLoss(w: World, margin: nat, run: seq<Action>) {
    exists i: nat, j: nat :: i < j < |run| && LosesAt(w, margin, run, i) && AsksAt(w, margin, run, j)
  }

  lemma RejectionStep(w: World, margin: nat, a: Action)
    ensures Apply(w, margin, a).rejections >= w.rejections
    ensures Apply(w, margin, a).rejections > w.rejections <==> a.Arrives? && Enabled(w, a) && Heard(w, a.request) && a.request.sent != w.current
  {
    hide Decide, NewPair;
  }

  lemma {:induction false} RejectionsGrow(w: World, margin: nat, run: seq<Action>, k: nat)
    requires k <= |run|
    ensures After(w, margin, run[..k]).rejections <= After(w, margin, run).rejections
    decreases |run|
  {
    if k == |run| {
      assert run[..k] == run;
    } else {
      var n := |run| - 1;
      RejectionsGrow(w, margin, run[..n], k);
      assert run[..n][..k] == run[..k];
      RejectionStep(After(w, margin, run[..n]), margin, run[n]);
    }
  }

  /** The first caller to be turned down. */
  lemma {:induction false} FirstRejection(w: World, margin: nat, run: seq<Action>) returns (j: nat)
    requires Start(w) && After(w, margin, run).rejections > 0
    ensures j < |run| && AsksAt(w, margin, run, j) && run[j].request.sent != After(w, margin, run[..j]).current
    decreases |run|
  {
    var n := |run| - 1;
    hide Apply, Enabled;
    RejectionStep(After(w, margin, run[..n]), margin, run[n]);
    if After(w, margin, run[..n]).rejections > 0 {
      j := FirstRejection(w, margin, run[..n]);
      assert run[..n][..j] == run[..j];
    } else {
      j := n;
    }
  }

  lemma RejectedAfterLoss(w: World, margin: nat, run: seq<Action>)
    requires Start(w) && After(w, margin, run).rejections > 0
    ensures AskedAfterLoss(w, margin, run)
  {
    var j := FirstRejection(w, margin, run);
    var r := run[j].request;
    if KeepsPairs(w, margin, run[..j]) {
      RunKeeps(w, margin, run[..j]);
      hide Inv, After, Enabled;
      HeardIsOwner(After(w, margin, run[..j]), margin, w.current, r);
    } else {
      var i: nat :| i < j && LosesAt(w, margin, run[..j], i);
      assert run[..j][..i] == run[..i];
      hide LosesPair, After, Enabled;
      assert LosesAt(w, margin, run, i) && AsksAt(w, margin, run, j);
    }
  }

  lemma LossRejects(w: World, margin: nat, run: seq<Action>, i: nat, j: nat)
    requires Start(w) && i < j < |run| && LosesAt(w, margin, run, i) && AsksAt(w, margin, run, j)
    ensures After(w, margin, run).rejections > 0
  {
    LostAfter(w, margin, run, i, j);
    RejectionStep(After(w, margin, run[..j]), margin, run[j]);
    assert run[..j + 1][..j] == run[..j];
    hide Apply;
    RejectionsGrow(w, margin, run, j + 1);
  }

  /** A caller is turned down exactly when some caller asks the provider after a pair was lost. */
  lemma TurnedDownExactly(w: World, margin: nat, run: seq<Action>)
    requires Start(w)
    ensures After(w, margin, run).rejections > 0 <==> AskedAfterLoss(w, margin, run)
  {
    if After(w, margin, run).rejections > 0 { RejectedAfterLoss(w, margin, run); }
    if AskedAfterLoss(w, margin, run) {
      var i: nat, j: nat :| i < j < |run| && LosesAt(w, margin, run, i) && AsksAt(w, margin, run, j);
      LossRejects(w, margin, run, i, j);
    }
  }

  // ---- such runs ----

  lemma RunStep(w: World, margin: nat, run: seq<Action>, a: Action)
    ensures After(w, margin, run + [a]) == Apply(After(w, margin, run), margin, a)
  {
    assert (run + [a])[..|run|] == run;
  }

  const HOUR := Limited(60, 60)

  /** A caller's steps up to its request. */
  function Asks(run: seq<Action>, c: Caller): seq<Action> { run + [FirstRead(c)] + [Acquire(c)] + [SecondRead(c)] }

  /** Stored is a pair that the provider may or may not still accept, expired at time 0. */
  predicate Idling(w: World, calls: nat) {
    && w.now == 0 && w.owner == None && w.calls == calls && w.outstanding == {} && w.rejections == 0
    && w.stored == Stored(Connected, Credentials(0, Expiry.At(0), Some(0), Expiry.At(1000)))
  }

  lemma AskingRun(w: World, run: seq<Action>, c: Caller, calls: nat)
    requires Idling(After(w, 0, run), calls) && PcOf(After(w, 0, run), c).Idle?
    ensures var t, r := After(w, 0, Asks(run, c)), Request(c, calls, 0);
            && t.now == 0 && t.owner == Some(c) && t.calls == calls + 1 && t.outstanding == {r} && t.rejections == 0
            && t.current == After(w, 0, run).current && t.stored == After(w, 0, run).stored
            && t.pcs == After(w, 0, run).pcs[c := Sending(r, 0, t.stored.credentials)]
  {
    var a1 := run + [FirstRead(c)];
    var a2 := a1 + [Acquire(c)];
    RunStep(w, 0, run, FirstRead(c));
    RunStep(w, 0, a1, Acquire(c));
    RunStep(w, 0, a2, SecondRead(c));
    hide After;
  }

  /**
   A call dies before its new pair is stored: after the exchange, or before its request is exchanged at all.
   The next caller, reading the old pair, sends a spent token; it is turned down and the connection has to
   be authorised again.
   */
  lemma DyingCallLosesConnection(afterExchange: bool) returns (w: World, run: seq<Action>)
    ensures Start(w) && After(w, 0, run).rejections == 1 && After(w, 0, run).stored.status == ReauthRequired
  {
    w := World(0, Stored(Connected, Credentials(0, Expiry.At(0), Some(0), Expiry.At(1000))), None, map[], 0, {}, 0, [], [], 0, []);
    assert After(w, 0, []) == w;
    AskingRun(w, [], 1, 0);
    var lost := PairLost(w, Asks([], 1), Request(1, 0, 0), afterExchange);
    AskingRun(w, lost, 2, 1);
    run := TurnedDown(w, Asks(lost, 2), Request(2, 1, 0));
  }

  /** The first caller waits for the provider, and its request is on its way. */
  predicate FirstAsks(t: World) {
    && t.now == 0 && t.owner == Some(1) && t.calls == 1 && t.outstanding == {Request(1, 0, 0)} && t.rejections == 0 && t.current == 0
    && t.stored == Stored(Connected, Credentials(0, Expiry.At(0), Some(0), Expiry.At(1000)))
    && t.pcs == map[1 := Sending(Request(1, 0, 0), 0, t.stored.credentials)]
  }

  predicate FirstGone(t: World) { Idling(t, 1) && t.current == 1 && t.pcs == map[1 := Idle] }

  lemma LostAfterExchange(t: World)
    requires FirstAsks(t)
    ensures FirstGone(Apply(Apply(t, 0, Arrives(Request(1, 0, 0), HOUR)), 0, Dies(1)))
  {
    var answered := Apply(t, 0, Arrives(Request(1, 0, 0), HOUR));
    assert answered.pcs == map[1 := Answered(Exchange(0, 0, HOUR))];
  }

  lemma LostBeforeExchange(t: World)
    requires FirstAsks(t)
    ensures FirstGone(Apply(Apply(t, 0, Dies(1)), 0, Arrives(Request(1, 0, 0), HOUR)))
  {
    var dead := Apply(t, 0, Dies(1));
    assert dead.pcs == map[1 := Idle];
  }

  lemma PairLost(w: World, run: seq<Action>, r: Request, afterExchange: bool) returns (lost: seq<Action>)
    requires r == Request(1, 0, 0) && FirstAsks(After(w, 0, run))
    ensures FirstGone(After(w, 0, lost))
  {
    var first, second := Arrives(r, HOUR), Dies(1);
    if afterExchange { LostAfterExchange(After(w, 0, run)); } else {
      LostBeforeExchange(After(w, 0, run));
      first, second := second, first;
    }
    RunStep(w, 0, run, first);
    RunStep(w, 0, run + [first], second);
    lost := run + [first] + [second];
    hide *;
  }

  lemma TurnedDown(w: World, run: seq<Action>, r: Request) returns (all: seq<Action>)
    requires r == Request(2, 1, 0)
    requires var t := After(w, 0, run);
             && t.owner == Some(2) && t.outstanding == {r} && t.rejections == 0 && t.current == 1
             && PcOf(t, 2).Sending? && PcOf(t, 2).request == r
    ensures After(w, 0, all).rejections == 1 && After(w, 0, all).stored.status == ReauthRequired
  {
    RunStep(w, 0, run, Arrives(r, HOUR));
    RunStep(w, 0, run + [Arrives(r, HOUR)], GiveUp(2));
    all := run + [Arrives(r, HOUR)] + [GiveUp(2)];
    hide After;
  }
}
