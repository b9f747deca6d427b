/** Bearer sessions (src/lib/auth/session_store.cpp), specified by the history of
    calls. The store sweeps lazily, on some calls and never by a timer; the history
    knows nothing of sweeping. Sessions are keyed by the token, which stands for
    its SHA-256. */
module Sessions {
  import opened Basics

  datatype Scope = User | Admin

  datatype Session = Session(user: string, scope: Scope, created: int, lastUsed: int, expiresAt: int)

  datatype Options = Options(ttl: int, idle: int, maxPerUser: nat, adminTtl: int, adminIdle: int)

  function Ttl(o: Options, scope: Scope): int {
    if scope == Admin then o.adminTtl else o.ttl
  }

  function Idle(o: Options, scope: Scope): int {
    if scope == Admin then o.adminIdle else o.idle
  }

  function Prefix(scope: Scope): string {
    if scope == Admin then "fta_" else "ftu_"
  }

  predicate Expired(o: Options, s: Session, now: int) {
    now >= s.expiresAt || now >= s.lastUsed + Idle(o, s.scope)
  }

  /** Tokens of the two scopes can be told apart, and neither kind looks like the other. */
  lemma PrefixesDiffer(token: string)
    ensures !(Prefix(User) <= token && Prefix(Admin) <= token)
  {
    assert Prefix(User)[2] == 'u' && Prefix(Admin)[2] == 'a';
  }

  // --- The store's table ----------------------------------------------------

  type Table = map<string, Session>

  function Swept(o: Options, m: Table, now: int): Table {
    map t | t in m && !Expired(o, m[t], now) :: m[t]
  }

  /** The tokens a user holds in one scope. */
  function Held(m: Table, user: string, scope: Scope): set<string> {
    set t | t in m && m[t].user == user && m[t].scope == scope
  }

  // --- Histories --------------------------------------------------------------

  /** The calls, with the clock at each. Issue names the token it evicted. */
  datatype Event =
    | Issue(now: int, token: string, user: string, scope: Scope, victim: Option<string>)
    | Verify(now: int, token: string, scope: Scope)
    | Revoke(now: int, token: string)
    | RevokeUser(now: int, user: string)
    | List(now: int)

  type History = seq<Event>

  predicate Ends(e: Event, issue: Event)
    requires issue.Issue?
  {
    match e
    case Issue(_, _, _, _, victim) => victim == Some(issue.token)
    case Revoke(_, token) => token == issue.token
    case RevokeUser(_, user) => user == issue.user
    case _ => false
  }

  predicate Presents(e: Event, issue: Event)
    requires issue.Issue?
  {
    e.Verify? && e.token == issue.token && e.scope == issue.scope
  }

  /** When the token issued by h[k] was last issued or presented, before h[j]. */
  function LastUse(h: History, k: nat, j: nat): int
    requires k < j <= |h| && h[k].Issue?
    decreases j
  {
    if j == k + 1 then h[k].now
    else if Presents(h[j - 1], h[k]) then h[j - 1].now
    else LastUse(h, k, j - 1)
  }

  ghost predicate NeverEnded(h: History, k: nat)
    requires k < |h| && h[k].Issue?
  {
    forall j :: k < j < |h| ==> !Ends(h[j], h[k])
  }

  ghost predicate NeverIdle(o: Options, h: History, k: nat)
    requires k < |h| && h[k].Issue?
  {
    forall j :: k < j < |h| && Presents(h[j], h[k]) ==> h[j].now < LastUse(h, k, j) + Idle(o, h[k].scope)
  }

  /** What a session is, without a table: the token issued by h[k] was not revoked
      or evicted since, has not reached its age limit at `now`, and no gap between
      its uses, up to `now`, reached the idle limit. */
  ghost predicate Alive(o: Options, h: History, k: nat, now: int) {
    && k < |h| && h[k].Issue?
    && NeverEnded(h, k)
    && NeverIdle(o, h, k)
    && now < h[k].now + Ttl(o, h[k].scope)
    && now < LastUse(h, k, |h|) + Idle(o, h[k].scope)
  }

  ghost predicate IsAlive(o: Options, h: History, token: string, user: string, scope: Scope, now: int) {
    exists k: nat :: Alive(o, h, k, now) && h[k].token == token && h[k].user == user && h[k].scope == scope
  }

  ghost function AliveTokens(o: Options, h: History, user: string, scope: Scope, now: int): set<string> {
    set k | 0 <= k < |h| && Alive(o, h, k, now) && h[k].user == user && h[k].scope == scope :: h[k].token
  }

  /** A login past the limit ends the oldest live session of that user and scope;
      among equally old ones any may go. */
  ghost predicate EvictsOldest(o: Options, h: History, e: Event)
    requires e.Issue?
  {
    var live := AliveTokens(o, h, e.user, e.scope, e.now);
    if |live| >= o.maxPerUser && live != {} then
      && e.victim.Some?
      && exists k: nat ::
           && Alive(o, h, k, e.now) && h[k].token == e.victim.value && h[k].user == e.user && h[k].scope == e.scope
           && forall i: nat :: Alive(o, h, i, e.now) && h[i].user == e.user && h[i].scope == e.scope ==> h[k].now <= h[i].now
    else e.victim == None
  }

  ghost predicate Allowed(o: Options, h: History, e: Event) {
    && (h != [] ==> h[|h| - 1].now <= e.now)
    && (e.Issue? ==>
          && Prefix(e.scope) <= e.token
          && (forall i :: 0 <= i < |h| && h[i].Issue? ==> h[i].token != e.token)
          && EvictsOldest(o, h, e))
  }

  /** The clock never goes back, tokens are fresh, evictions follow the rule. */
  ghost predicate Sound(o: Options, h: History) {
    forall n :: 0 <= n < |h| ==> Allowed(o, h[..n], h[n])
  }

  // --- What the store does ------------------------------------------------------

  function Applied(o: Options, m: Table, e: Event): Table {
    match e
    case Issue(now, token, user, scope, victim) =>
      var swept := Swept(o, m, now);
      var left := if victim.Some? then swept - {victim.value} else swept;
      left[token := Session(user, scope, now, now, now + Ttl(o, scope))]
    case Verify(now, token, scope) =>
      if !(Prefix(scope) <= token) || token !in m || m[token].scope != scope then m
      else if Expired(o, m[token], now) then m - {token}
      else m[token := m[token].(lastUsed := now)]
    case Revoke(_, token) => m - {token}
    case RevokeUser(_, user) => map t | t in m && m[t].user != user :: m[t]
    case List(now) => Swept(o, m, now)
  }

  function Replayed(o: Options, h: History): Table {
    if h == [] then map[] else Applied(o, Replayed(o, h[..|h| - 1]), h[|h| - 1])
  }

  /** The session that the token issued by h[k] has after h. */
  ghost function SessionOf(o: Options, h: History, k: nat): Session
    requires k < |h| && h[k].Issue?
  {
    Session(h[k].user, h[k].scope, h[k].now, LastUse(h, k, |h|), h[k].now + Ttl(o, h[k].scope))
  }

  ghost predicate Backed(o: Options, h: History, m: Table, t: string, k: nat)
    requires t in m
  {
    && k < |h| && h[k].Issue? && h[k].token == t
    && NeverEnded(h, k) && NeverIdle(o, h, k)
    && m[t] == SessionOf(o, h, k)
  }

  /** The table and the history agree: every entry stands for an issued token that
      was neither ended nor left idle, and every live token has its entry. */
  ghost predicate Agrees(o: Options, h: History, m: Table) {
    && (forall t :: t in m ==> exists k: nat :: Backed(o, h, m, t, k))
    && (forall k: nat :: k < |h| && Alive(o, h, k, h[|h| - 1].now) ==> h[k].token in m)
  }

  lemma {:induction false} LastUsePrefix(h: History, e: Event, k: nat, j: nat)
    requires k < j <= |h| && h[k].Issue?
    ensures (h + [e])[k] == h[k] && LastUse(h + [e], k, j) == LastUse(h, k, j)
    decreases j
  {
    if j > k + 1 {
      LastUsePrefix(h, e, k, j - 1);
      assert (h + [e])[j - 1] == h[j - 1];
    }
  }

  /** One more event, seen from a token issued before it. */
  lemma OneMore(o: Options, h: History, e: Event, k: nat)
    requires k < |h| && h[k].Issue?
    ensures var h' := h + [e];
            && h'[k] == h[k]
            && (NeverEnded(h', k) <==> NeverEnded(h, k) && !Ends(e, h[k]))
            && (NeverIdle(o, h', k) <==>
                NeverIdle(o, h, k) && (Presents(e, h[k]) ==> e.now < LastUse(h, k, |h|) + Idle(o, h[k].scope)))
            && LastUse(h', k, |h'|) == if Presents(e, h[k]) then e.now else LastUse(h, k, |h|)
  {
    var h' := h + [e];
    assert h'[|h|] == e;
    assert forall j :: 0 <= j < |h| ==> h'[j] == h[j];
    forall j | k < j <= |h| ensures LastUse(h', k, j) == LastUse(h, k, j) {
      LastUsePrefix(h, e, k, j);
    }
    assert NeverEnded(h', k) ==> !Ends(h'[|h|], h'[k]);
    assert NeverEnded(h', k) ==> NeverEnded(h, k) by {
      if NeverEnded(h', k) {
        forall j | k < j < |h| ensures !Ends(h[j], h[k]) { assert !Ends(h'[j], h'[k]); }
      }
    }
    if NeverIdle(o, h', k) {
      forall j | k < j < |h| && Presents(h[j], h[k]) ensures h[j].now < LastUse(h, k, j) + Idle(o, h[k].scope) {
        assert Presents(h'[j], h'[k]);
      }
      assert Presents(e, h[k]) ==> Presents(h'[|h|], h'[k]);
    }
  }

  lemma JustIssued(o: Options, h: History, e: Event)
    requires e.Issue?
    ensures var h' := h + [e];
            && h'[|h|] == e && NeverEnded(h', |h|) && NeverIdle(o, h', |h|) && LastUse(h', |h|, |h'|) == e.now
  {}

  lemma TokensDiffer(o: Options, h: History, i: nat, k: nat)
    requires Sound(o, h) && i < |h| && k < |h| && h[i].Issue? && h[k].Issue? && h[i].token == h[k].token
    ensures i == k
  {
    var a, b := Min(i, k), Max(i, k);
    assert Allowed(o, h[..b], h[b]);
    if a < b {
      assert h[..b][a] == h[a];
    }
  }

  lemma SoundPrefix(o: Options, h: History, e: Event)
    requires Sound(o, h + [e])
    ensures Sound(o, h) && Allowed(o, h, e)
  {
    var h' := h + [e];
    forall n | 0 <= n < |h| ensures Allowed(o, h[..n], h[n]) {
      assert h'[..n] == h[..n] && h'[n] == h[n];
      assert Allowed(o, h'[..n], h'[n]);
    }
    assert h'[..|h|] == h && h'[|h|] == e;
    assert Allowed(o, h'[..|h|], h'[|h|]);
  }

  lemma SoundMore(o: Options, h: History, e: Event)
    requires Sound(o, h) && Allowed(o, h, e)
    ensures Sound(o, h + [e])
  {
    var h' := h + [e];
    forall n | 0 <= n < |h'| ensures Allowed(o, h'[..n], h'[n]) {
      assert h'[..|h|] == h;
      if n < |h| {
        assert h'[..n] == h[..n] && h'[n] == h[n];
        assert Allowed(o, h[..n], h[n]);
      }
    }
  }

  lemma AliveBefore(o: Options, h: History, e: Event, k: nat)
    requires Sound(o, h) && Allowed(o, h, e) && k < |h| && Alive(o, h + [e], k, e.now)
    ensures Alive(o, h, k, e.now) && Alive(o, h, k, h[|h| - 1].now) && !Ends(e, h[k])
  {
    OneMore(o, h, e, k);
  }

  /** A table that agrees with the history, read at any later time: an entry that
      has not expired is exactly a live token. */
  lemma EntryIsAlive(o: Options, h: History, m: Table, k: nat, now: int)
    requires Sound(o, h) && Agrees(o, h, m) && k < |h| && h[k].Issue? && h[|h| - 1].now <= now
    ensures Alive(o, h, k, now) <==> (h[k].token in m && !Expired(o, m[h[k].token], now))
    ensures h[k].token in m ==> Backed(o, h, m, h[k].token, k)
  {
    hide Sound, NeverEnded, NeverIdle;
    var t := h[k].token;
    if t in m {
      var i: nat :| Backed(o, h, m, t, i);
      TokensDiffer(o, h, i, k);
    }
    if Alive(o, h, k, now) {
      assert Alive(o, h, k, h[|h| - 1].now);
    }
  }

  /** Why an entry of the new table was there before, and is backed by the history
      with the new event. */
  lemma StaysBacked(o: Options, h: History, m: Table, e: Event, t: string)
    requires Sound(o, h) && Allowed(o, h, e) && Agrees(o, h, m) && t in Applied(o, m, e)
    requires !(e.Issue? && e.token == t)
    ensures exists k: nat :: Backed(o, h + [e], Applied(o, m, e), t, k)
  {
    hide Sound, NeverEnded, NeverIdle, EvictsOldest, LastUse, Alive;
    var k: nat :| Backed(o, h, m, t, k);
    OneMore(o, h, e, k);
    TokenHasPrefix(o, h, k);
    assert !Ends(e, h[k]);
    assert Backed(o, h + [e], Applied(o, m, e), t, k);
  }

  lemma TokenHasPrefix(o: Options, h: History, k: nat)
    requires Sound(o, h) && k < |h| && h[k].Issue?
    ensures Prefix(h[k].scope) <= h[k].token
  {
    assert Allowed(o, h[..k], h[k]);
  }

  lemma StaysPresent(o: Options, h: History, m: Table, e: Event, k: nat)
    requires Sound(o, h) && Allowed(o, h, e) && Agrees(o, h, m) && k < |h| && Alive(o, h + [e], k, e.now)
    ensures h[k].token in Applied(o, m, e)
  {
    hide Sound, Agrees, NeverEnded, NeverIdle, LastUse, EvictsOldest, Alive, Prefix;
    AliveBefore(o, h, e, k);
    EntryIsAlive(o, h, m, k, e.now);
  }

  lemma EventKeeps(o: Options, h: History, m: Table, e: Event)
    requires Sound(o, h) && Allowed(o, h, e) && Agrees(o, h, m)
    ensures Agrees(o, h + [e], Applied(o, m, e))
  {
    hide Sound, Allowed, NeverEnded, NeverIdle, Applied, LastUse, Backed;
    var h', m' := h + [e], Applied(o, m, e);
    assert h'[|h'| - 1] == e;
    if e.Issue? {
      IssueBacked(o, h, m, e);
    }
    forall t | t in m' ensures exists k: nat :: Backed(o, h', m', t, k) {
      if !(e.Issue? && e.token == t) {
        StaysBacked(o, h, m, e, t);
      }
    }
    forall k: nat | k < |h'| && Alive(o, h', k, e.now) ensures h'[k].token in m' {
      if k < |h| {
        StaysPresent(o, h, m, e, k);
      }
    }
  }

  lemma IssueBacked(o: Options, h: History, m: Table, e: Event)
    requires e.Issue?
    ensures e.token in Applied(o, m, e) && Backed(o, h + [e], Applied(o, m, e), e.token, |h|)
  {
    JustIssued(o, h, e);
  }

  lemma {:induction false} ReplayAgrees(o: Options, h: History)
    requires Sound(o, h)
    ensures Agrees(o, h, Replayed(o, h))
  {
    hide Sound, Allowed, Alive, Applied, Backed;
    if h != [] {
      var front, e := h[..|h| - 1], h[|h| - 1];
      assert h == front + [e];
      SoundPrefix(o, front, e);
      ReplayAgrees(o, front);
      EventKeeps(o, front, Replayed(o, front), e);
    }
  }

  /** The store refines its history: after any sound run of calls, presenting a token
      succeeds exactly when the history says the session is alive, and names the
      user it was issued to. When the store swept, and what, cannot be seen. */
  lemma VerifyRefinesHistory(o: Options, h: History, token: string, user: string, scope: Scope, now: int)
    requires Sound(o, h) && (h != [] ==> h[|h| - 1].now <= now)
    ensures var m := Replayed(o, h);
            (token in m && m[token].scope == scope && m[token].user == user && !Expired(o, m[token], now))
            <==> IsAlive(o, h, token, user, scope, now)
  {
    hide Sound, NeverEnded, NeverIdle, LastUse, Replayed;
    ReplayAgrees(o, h);
    var m := Replayed(o, h);
    if token in m {
      var k: nat :| Backed(o, h, m, token, k);
      EntryIsAlive(o, h, m, k, now);
      forall i: nat | Alive(o, h, i, now) && h[i].token == token ensures i == k {
        TokensDiffer(o, h, i, k);
      }
    }
    forall k: nat | Alive(o, h, k, now) && h[k].token == token ensures token in m {
      EntryIsAlive(o, h, m, k, now);
    }
  }

  /** How long a token lives that nobody has used, revoked or evicted since its login: each
      scope has its own lifetime and its own idle limit. */
  lemma LifetimeByScope(o: Options, h: History, e: Event, now: int)
    requires e.Issue?
    ensures e.scope == User ==>
              (Alive(o, h + [e], |h|, now) <==> now < e.now + o.ttl && now < e.now + o.idle)
    ensures e.scope == Admin ==>
              (Alive(o, h + [e], |h|, now) <==> now < e.now + o.adminTtl && now < e.now + o.adminIdle)
  {
    JustIssued(o, h, e);
  }

  /** Live tokens of a user are what is left in the table after a sweep. */
  lemma AliveIsHeld(o: Options, h: History, user: string, scope: Scope, now: int)
    requires Sound(o, h) && (h != [] ==> h[|h| - 1].now <= now)
    ensures AliveTokens(o, h, user, scope, now) == Held(Swept(o, Replayed(o, h), now), user, scope)
  {
    hide Sound, NeverEnded, NeverIdle, LastUse, Replayed, Expired;
    forall t ensures t in AliveTokens(o, h, user, scope, now) <==> t in Held(Swept(o, Replayed(o, h), now), user, scope) {
      VerifyRefinesHistory(o, h, t, user, scope, now);
    }
  }

  lemma Smaller(a: set<string>, b: set<string>)
    requires a <= b
    ensures |a| <= |b|
  {
    assert b == a + (b - a);
  }

  lemma IssueBounds(o: Options, h: History, m: Table, e: Event)
    requires e.Issue? && EvictsOldest(o, h, e)
    requires AliveTokens(o, h, e.user, e.scope, e.now) == Held(Swept(o, m, e.now), e.user, e.scope)
    requires |Held(m, e.user, e.scope)| <= Max(o.maxPerUser, 1)
    ensures |Held(Applied(o, m, e), e.user, e.scope)| <= Max(o.maxPerUser, 1)
  {
    hide Expired, NeverEnded, NeverIdle, LastUse;
    var swept, after := Held(Swept(o, m, e.now), e.user, e.scope), Held(Applied(o, m, e), e.user, e.scope);
    Smaller(swept, Held(m, e.user, e.scope));
    if e.victim.Some? {
      assert e.victim.value in swept;
      Smaller(after, swept - {e.victim.value} + {e.token});
    } else {
      Smaller(after, swept + {e.token});
    }
  }

  lemma OthersBound(o: Options, m: Table, e: Event, user: string, scope: Scope)
    requires !(e.Issue? && e.user == user && e.scope == scope)
    ensures |Held(Applied(o, m, e), user, scope)| <= |Held(m, user, scope)|
  {
    Smaller(Held(Applied(o, m, e), user, scope), Held(m, user, scope));
  }

  /** However the calls come, nobody holds more than the limit, and at least one. */
  lemma {:induction false} HeldIsBounded(o: Options, h: History, user: string, scope: Scope)
    requires Sound(o, h)
    ensures |Held(Replayed(o, h), user, scope)| <= Max(o.maxPerUser, 1)
  {
    hide Sound, Applied, AliveTokens, EvictsOldest;
    if h != [] {
      var front, e := h[..|h| - 1], h[|h| - 1];
      assert h == front + [e];
      SoundPrefix(o, front, e);
      HeldIsBounded(o, front, user, scope);
      var m := Replayed(o, front);
      if e.Issue? && e.user == user && e.scope == scope {
        AliveIsHeld(o, front, user, scope, e.now);
        IssueBounds(o, front, m, e);
      } else {
        OthersBound(o, m, e, user, scope);
      }
    }
  }

  // --- The store --------------------------------------------------------------

  ghost predicate IsOldest(m: Table, among: set<string>, oldest: Option<string>) {
    if among == {} then oldest == None
    else
      && oldest.Some? && oldest.value in among && oldest.value in m
      && forall t :: t in among && t in m ==> m[oldest.value].created <= m[t].created
  }

  /** What drop_oldest_of picks: the oldest of those held, if they are too many. */
  ghost predicate Chosen(o: Options, m: Table, user: string, scope: Scope, oldest: Option<string>) {
    var held := Held(m, user, scope);
    if |held| >= o.maxPerUser then IsOldest(m, held, oldest) else oldest == None
  }

  ghost predicate HeldSoFar(m: Table, rest: set<string>, user: string, scope: Scope, seen: set<string>) {
    seen == Held(m, user, scope) - rest
  }

  lemma NothingSeen(m: Table, user: string, scope: Scope)
    ensures IsOldest(m, {}, None) && HeldSoFar(m, m.Keys, user, scope, {})
  {}

  lemma SeenOneMore(m: Table, rest: set<string>, user: string, scope: Scope, seen: set<string>,
                    oldest: Option<string>, t: string)
    requires HeldSoFar(m, rest, user, scope, seen) && IsOldest(m, seen, oldest) && t in rest && t in m
    ensures oldest.Some? ==> oldest.value in m
    ensures if m[t].user == user && m[t].scope == scope then
              && HeldSoFar(m, rest - {t}, user, scope, seen + {t}) && |seen + {t}| == |seen| + 1
              && IsOldest(m, seen + {t},
                          if oldest.None? || m[t].created < m[oldest.value].created then Some(t) else oldest)
            else HeldSoFar(m, rest - {t}, user, scope, seen)
  {}

  lemma AllSeen(m: Table, user: string, scope: Scope, seen: set<string>, oldest: Option<string>)
    requires HeldSoFar(m, {}, user, scope, seen) && IsOldest(m, seen, oldest)
    ensures seen == Held(m, user, scope)
  {}

  class SessionStore {
    const options: Options
    var sessions: Table
    ghost var history: History

    ghost predicate Valid()
      reads this
    {
      Sound(options, history) && sessions == Replayed(options, history)
    }

    ghost predicate ClockAt(now: int)
      reads this
    {
      history != [] ==> history[|history| - 1].now <= now
    }

    constructor (options: Options)
      ensures Valid() && this.options == options && history == [] && sessions == map[]
    {
      this.options := options;
      sessions := map[];
      history := [];
    }

    ghost method Log(e: Event)
      requires Sound(options, history) && Allowed(options, history, e)
      requires sessions == Applied(options, Replayed(options, history), e)
      modifies `history
      ensures Valid() && history == old(history) + [e]
    {
      SoundMore(options, history, e);
      history := history + [e];
      assert history[..|history| - 1] == old(history);
    }

    /** drop_oldest_of (session_store.cpp:51-66). The loop meets the entries in any
        order. */
    method OldestOf(user: string, scope: Scope) returns (oldest: Option<string>)
      ensures Chosen(options, sessions, user, scope, oldest)
    {
      hide IsOldest, Held;
      var m := sessions;
      var rest := m.Keys;
      ghost var seen := {};
      var count := 0;
      oldest := None;
      assert IsOldest(m, {}, None) && HeldSoFar(m, rest, user, scope, {}) by {
        NothingSeen(m, user, scope);
      }
      while rest != {}
        invariant rest <= m.Keys && m == sessions
        invariant HeldSoFar(m, rest, user, scope, seen) && count == |seen|
        invariant IsOldest(m, seen, oldest)
        decreases |rest|
      {
        var t :| t in rest;
        SeenOneMore(m, rest, user, scope, seen, oldest, t);
        rest := rest - {t};
        if m[t].user == user && m[t].scope == scope {
          count := count + 1;
          if oldest.None? || m[t].created < m[oldest.value].created {
            oldest := Some(t);
          }
          seen := seen + {t};
        }
      }
      AllSeen(m, user, scope, seen, oldest);
      if count < options.maxPerUser {
        oldest := None;
      }
    }

    /** SessionStore::issue (session_store.cpp:68-89). `token` is the prefix and 32
        fresh random bytes in hex. */
    method Issue(token: string, user: string, scope: Scope, now: int) returns (expiresAt: int)
      requires Valid() && ClockAt(now) && Prefix(scope) <= token
      requires forall i :: 0 <= i < |history| && history[i].Issue? ==> history[i].token != token
      modifies this
      ensures Valid()
      ensures exists victim :: history == old(history) + [Event.Issue(now, token, user, scope, victim)]
      ensures expiresAt == now + Ttl(options, scope)
      ensures |Held(sessions, user, scope)| <= Max(options.maxPerUser, 1)
    {
      hide Sound, Replayed, EvictsOldest, Chosen, Held, HeldSoFar, IsOldest, Swept;
      sessions := Swept(options, sessions, now);
      var oldest := OldestOf(user, scope);
      ghost var e := Event.Issue(now, token, user, scope, oldest);
      ChoiceIsOldest(options, history, e);
      if oldest.Some? {
        sessions := sessions - {oldest.value};
      }
      expiresAt := now + Ttl(options, scope);
      sessions := sessions[token := Session(user, scope, now, now, expiresAt)];
      Log(e);
      HeldIsBounded(options, history, user, scope);
    }

    /** SessionStore::verify (session_store.cpp:91-110): succeeds exactly for a live
        session of that scope. */
    method Verify(token: string, scope: Scope, now: int) returns (r: Result<string>)
      requires Valid() && ClockAt(now)
      modifies this
      ensures Valid() && history == old(history) + [Event.Verify(now, token, scope)]
      ensures r.Ok? ==> IsAlive(options, old(history), token, r.value, scope, now)
      ensures r.Err? ==> r.code == Auth && forall user :: !IsAlive(options, old(history), token, user, scope, now)
    {
      ghost var h := history;
      forall user
        ensures (token in sessions && sessions[token].scope == scope && sessions[token].user == user
                 && !Expired(options, sessions[token], now))
                <==> IsAlive(options, h, token, user, scope, now)
      {
        VerifyRefinesHistory(options, h, token, user, scope, now);
      }
      ghost var e := Event.Verify(now, token, scope);
      if !(Prefix(scope) <= token) {
        forall user ensures !IsAlive(options, h, token, user, scope, now) {
          WrongPrefix(options, h, token, user, scope, now);
        }
        Log(e);
        return Err(Auth);
      }
      if token !in sessions || sessions[token].scope != scope {
        Log(e);
        return Err(Auth);
      }
      if Expired(options, sessions[token], now) {
        sessions := sessions - {token};
        Log(e);
        return Err(Auth);
      }
      sessions := sessions[token := sessions[token].(lastUsed := now)];
      r := Ok(sessions[token].user);
      Log(e);
    }

    /** SessionStore::revoke (session_store.cpp:112-119). */
    method Revoke(token: string, ghost now: int)
      requires Valid() && ClockAt(now)
      modifies this
      ensures Valid() && history == old(history) + [Event.Revoke(now, token)]
      ensures token !in sessions
    {
      sessions := sessions - {token};
      Log(Event.Revoke(now, token));
    }

    /** SessionStore::revoke_user (session_store.cpp:121-124). */
    method RevokeUser(user: string, ghost now: int) returns (count: nat)
      requires Valid() && ClockAt(now)
      modifies this
      ensures Valid() && history == old(history) + [Event.RevokeUser(now, user)]
      ensures forall scope :: Held(sessions, user, scope) == {}
      ensures count == |Held(old(sessions), user, User)| + |Held(old(sessions), user, Admin)|
    {
      var mine := set t | t in sessions && sessions[t].user == user;
      assert mine == Held(sessions, user, User) + Held(sessions, user, Admin);
      count := |mine|;
      sessions := map t | t in sessions && sessions[t].user != user :: sessions[t];
      Log(Event.RevokeUser(now, user));
    }

    /** SessionStore::list (session_store.cpp:126-140): exactly the live sessions, each once,
        oldest login first. */
    method List(now: int) returns (infos: seq<Session>, ghost shown: seq<(string, Session)>)
      requires Valid() && ClockAt(now)
      modifies this
      ensures Valid() && history == old(history) + [Event.List(now)]
      ensures forall user, scope :: Held(sessions, user, scope) == AliveTokens(options, old(history), user, scope, now)
      ensures multiset(shown) == multiset(sessions.Items) && ByLogin(shown)
      ensures |infos| == |shown| && forall i :: 0 <= i < |infos| ==> infos[i] == shown[i].1
    {
      forall user, scope
        ensures AliveTokens(options, history, user, scope, now) == Held(Swept(options, sessions, now), user, scope)
      {
        AliveIsHeld(options, history, user, scope, now);
      }
      sessions := Swept(options, sessions, now);
      Log(Event.List(now));
      var found := Collect(sessions);
      SortSorts(found);
      var sorted := Sort(found);
      shown := sorted;
      infos := seq(|sorted|, i requires 0 <= i < |sorted| => sorted[i].1);
    }
  }

  // --- The order of a listing ------------------------------------------------------------

  ghost predicate ByLogin(shown: seq<(string, Session)>) {
    forall i, j :: 0 <= i < j < |shown| ==> shown[i].1.created <= shown[j].1.created
  }

  /** std::ranges::sort by login time; among equal times any order will do. */
  function Insert(sorted: seq<(string, Session)>, x: (string, Session)): seq<(string, Session)> {
    if sorted == [] || x.1.created <= sorted[0].1.created then [x] + sorted
    else [sorted[0]] + Insert(sorted[1..], x)
  }

  function Sort(found: seq<(string, Session)>): seq<(string, Session)> {
    if found == [] then [] else Insert(Sort(found[1..]), found[0])
  }

  lemma {:induction false} InsertSorts(sorted: seq<(string, Session)>, x: (string, Session))
    requires ByLogin(sorted)
    ensures ByLogin(Insert(sorted, x))
  {
    if sorted != [] && x.1.created > sorted[0].1.created {
      var rest := Insert(sorted[1..], x);
      InsertSorts(sorted[1..], x);
      InsertAdds(sorted[1..], x);
      forall j | 0 <= j < |rest| ensures sorted[0].1.created <= rest[j].1.created {
        assert rest[j] in multiset(rest);
        assert rest[j] == x || rest[j] in sorted[1..];
      }
    }
  }

  lemma {:induction false} InsertAdds(sorted: seq<(string, Session)>, x: (string, Session))
    ensures multiset(Insert(sorted, x)) == multiset(sorted) + multiset{x}
  {
    if sorted != [] {
      InsertAdds(sorted[1..], x);
      assert sorted == [sorted[0]] + sorted[1..];
    }
  }

  lemma {:induction false} SortSorts(found: seq<(string, Session)>)
    ensures ByLogin(Sort(found)) && multiset(Sort(found)) == multiset(found)
  {
    if found != [] {
      SortSorts(found[1..]);
      InsertSorts(Sort(found[1..]), found[0]);
      InsertAdds(Sort(found[1..]), found[0]);
      assert found == [found[0]] + found[1..];
    }
  }

  /** The loop over the table, in any order. */
  method Collect(m: Table) returns (found: seq<(string, Session)>)
    ensures multiset(found) == multiset(m.Items)
  {
    var rest := m.Items;
    found := [];
    while rest != {}
      invariant rest <= m.Items && multiset(found) + multiset(rest) == multiset(m.Items)
      decreases |rest|
    {
      var x :| x in rest;
      assert multiset(rest) == multiset(rest - {x}) + multiset{x};
      found := found + [x];
      rest := rest - {x};
    }
  }

  /** The oldest entry left after the sweep is the oldest live session. */
  lemma ChoiceIsOldest(o: Options, h: History, e: Event)
    requires Sound(o, h) && (h != [] ==> h[|h| - 1].now <= e.now) && e.Issue?
    requires Chosen(o, Swept(o, Replayed(o, h), e.now), e.user, e.scope, e.victim)
    ensures EvictsOldest(o, h, e)
  {
    var m := Replayed(o, h);
    var swept := Swept(o, m, e.now);
    hide Sound, NeverEnded, NeverIdle, LastUse, Replayed;
    AliveIsHeld(o, h, e.user, e.scope, e.now);
    if e.victim.Some? {
      ReplayAgrees(o, h);
      var held, v := Held(swept, e.user, e.scope), e.victim.value;
      var k: nat :| Backed(o, h, m, v, k);
      EntryIsAlive(o, h, m, k, e.now);
      forall i: nat | Alive(o, h, i, e.now) && h[i].user == e.user && h[i].scope == e.scope
        ensures h[k].now <= h[i].now
      {
        EntryIsAlive(o, h, m, i, e.now);
        assert h[i].token in held;
      }
    }
  }

  lemma WrongPrefix(o: Options, h: History, token: string, user: string, scope: Scope, now: int)
    requires Sound(o, h) && !(Prefix(scope) <= token)
    ensures !IsAlive(o, h, token, user, scope, now)
  {
    forall k: nat | Alive(o, h, k, now) && h[k].scope == scope ensures h[k].token != token {
      TokenHasPrefix(o, h, k);
    }
  }
}
