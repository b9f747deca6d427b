/** Slowing down password guesses (src/lib/auth/login_limiter.cpp) and the order in
    which the authenticator asks the limiter and the directory
    (src/lib/auth/authenticator.cpp:83-113). Times are whole seconds, 0 is the epoch. */
module Limiter {
  import opened Basics

  const UINT32 := 0x1_0000_0000

  datatype Options = Options(freePerPair: nat, freePerSource: nat, freePerUser: nat,
                             baseDelay: nat, maxDelay: nat, maxKeys: nat)

  datatype Entry = Entry(failures: nat, lastFailure: int, blockedUntil: int)

  type Entries = map<string, Entry>

  // --- Keys ----------------------------------------------------------------------

  function LowerChar(c: char): char {
    if 'A' <= c <= 'Z' then (c as int + 32) as char else c
  }

  function Lower(s: string): (r: string)
    ensures |r| == |s| && forall i :: 0 <= i < |s| ==> r[i] == LowerChar(s[i])
  {
    if s == [] then [] else [LowerChar(s[0])] + Lower(s[1..])
  }

  function UserKey(user: string): string {
    "u:" + Lower(user)
  }

  function SourceKey(source: string): string {
    "s:" + source
  }

  function PairKey(user: string, source: string): string {
    "p:" + Lower(user) + ":" + source
  }

  function Keys(user: string, source: string): seq<string> {
    [PairKey(user, source), SourceKey(source), UserKey(user)]
  }

  /** The failures a key has for free, by its kind. */
  function Free(o: Options, key: string): nat {
    if key == [] then 0
    else if key[0] == 'p' then o.freePerPair
    else if key[0] == 's' then o.freePerSource
    else o.freePerUser
  }

  lemma KindsDiffer(user: string, source: string, user': string, source': string)
    ensures PairKey(user, source) != SourceKey(source') && PairKey(user, source) != UserKey(user')
    ensures SourceKey(source) != UserKey(user')
    ensures PairKey(user, source) != [] && SourceKey(source) != [] && UserKey(user) != []
    ensures PairKey(user, source)[0] == 'p' && SourceKey(source)[0] == 's' && UserKey(user)[0] == 'u'
  {
    assert SourceKey(source')[0] == 's' && UserKey(user')[0] == 'u';
  }

  /** Two pairs share a key only if they are the same pair, up to the case of the
      user, when no user name holds a colon. */
  lemma PairKeysAreApart(u: string, s: string, u': string, s': string)
    requires ':' !in u && ':' !in u'
    ensures PairKey(u, s) == PairKey(u', s') <==> Lower(u) == Lower(u') && s == s'
  {
    hide Lower;
    NoColon(u);
    NoColon(u');
    var a, b := Lower(u) + ":" + s, Lower(u') + ":" + s';
    assert PairKey(u, s) == "p:" + a && PairKey(u', s') == "p:" + b;
    assert ("p:" + a)[2..] == a && ("p:" + b)[2..] == b;
    if a == b {
      ColonSplits(Lower(u), s, Lower(u'), s');
    }
  }

  lemma ColonSplits(a: string, s: string, b: string, t: string)
    requires ':' !in a && ':' !in b && a + ":" + s == b + ":" + t
    ensures a == b && s == t
  {
    var x := a + ":" + s;
    assert x[|a|] == ':' && x[|b|] == ':';
    assert a == x[..|a|] && b == x[..|b|];
    assert s == x[|a| + 1..] && t == x[|b| + 1..];
  }

  lemma NoColon(u: string)
    requires ':' !in u
    ensures ':' !in Lower(u)
  {
    forall i | 0 <= i < |u| ensures Lower(u)[i] != ':' {
      assert u[i] != ':';
    }
  }

  /** With a colon in the user name they could: the split at the first colon is what
      keeps pairs apart. */
  lemma ColonWouldMix()
    ensures PairKey("a:b", "c") == PairKey("a", "b:c")
  {
    assert Lower("a:b") == "a:b" && Lower("a") == "a";
  }

  // --- The limiter's steps --------------------------------------------------------

  function Until(m: Entries, keys: seq<string>): int {
    if keys == [] then 0
    else
      var rest := Until(m, keys[..|keys| - 1]);
      var key := keys[|keys| - 1];
      if key in m then Max(rest, m[key].blockedUntil) else rest
  }

  /** LoginLimiter::check: how long to wait, if the attempt is refused. */
  function Refused(m: Entries, user: string, source: string, now: int): Option<int> {
    var until := Until(m, Keys(user, source));
    if until > now then Some(until - now) else None
  }

  function Delay(o: Options, free: nat, failures: nat): nat
    requires failures > free
  {
    Min(o.baseDelay * Pow2(Min(failures - free - 1, 20)), o.maxDelay)
  }

  function Bumped(o: Options, m: Entries, key: string, free: nat, now: int): Entries {
    var was := if key in m then m[key] else Entry(0, 0, 0);
    var failures := (was.failures + 1) % UINT32;
    var until := if failures <= free then was.blockedUntil else now + Delay(o, free, failures);
    m[key := Entry(failures, now, until)]
  }

  predicate IsIdle(o: Options, e: Entry, now: int) {
    e.blockedUntil <= now && e.lastFailure + o.maxDelay <= now
  }

  function DropIdle(o: Options, m: Entries, now: int): Entries {
    map key | key in m && !IsIdle(o, m[key], now) :: m[key]
  }

  function Failed(o: Options, m: Entries, user: string, source: string, now: int): Entries {
    var m0 := if |m| >= o.maxKeys then DropIdle(o, m, now) else m;
    var m1 := Bumped(o, m0, PairKey(user, source), o.freePerPair, now);
    var m2 := Bumped(o, m1, SourceKey(source), o.freePerSource, now);
    Bumped(o, m2, UserKey(user), o.freePerUser, now)
  }

  function Succeeded(m: Entries, user: string, source: string): Entries {
    m - {PairKey(user, source)} - {UserKey(user)}
  }

  lemma UntilIsMax(m: Entries, user: string, source: string)
    ensures var until := Until(m, Keys(user, source));
            && until >= 0
            && (forall key :: key in Keys(user, source) && key in m ==> until >= m[key].blockedUntil)
            && (until == 0 || exists key :: key in Keys(user, source) && key in m && until == m[key].blockedUntil)
  {
    var keys := Keys(user, source);
    var p, s, u := keys[0], keys[1], keys[2];
    assert keys[..2] == [p, s] && [p, s][..1] == [p] && [p][..0] == [];
    assert Until(m, []) == 0;
    assert Until(m, [p]) == if p in m then Max(0, m[p].blockedUntil) else 0;
    assert Until(m, [p, s]) == if s in m then Max(Until(m, [p]), m[s].blockedUntil) else Until(m, [p]);
    assert u in keys && p in keys && s in keys;
  }

  /** An attempt is refused exactly while one of its three keys is blocked. */
  lemma RefusedExactly(m: Entries, user: string, source: string, now: int)
    requires now >= 0
    ensures Refused(m, user, source, now).Some?
            <==> exists key :: key in Keys(user, source) && key in m && m[key].blockedUntil > now
  {
    UntilIsMax(m, user, source);
  }

  /** Dropping idle keys changes no answer of check, then or later, not even how long
      it says to wait. */
  lemma DroppingIsUnseen(o: Options, m: Entries, user: string, source: string, now: int, later: int)
    requires 0 <= now <= later
    ensures Refused(DropIdle(o, m, now), user, source, later) == Refused(m, user, source, later)
  {
    UntilIsMax(m, user, source);
    UntilIsMax(DropIdle(o, m, now), user, source);
  }

  // --- Runs of attempts -------------------------------------------------------------

  /** What the directory says, if it is asked. */
  datatype Outcome = Accepted | Denied | OtherError

  /** One login: checked at `at`, and settled at `done`, with what the directory
      would say. */
  datatype Attempt = Attempt(user: string, source: string, at: int, done: int, outcome: Outcome)

  function After(o: Options, m: Entries, a: Attempt): Entries {
    if Refused(m, a.user, a.source, a.at).Some? then m
    else match a.outcome
      case Accepted => Succeeded(m, a.user, a.source)
      case Denied => Failed(o, m, a.user, a.source, a.done)
      case OtherError => m
  }

  function Table(o: Options, h: seq<Attempt>): Entries {
    if h == [] then map[] else After(o, Table(o, h[..|h| - 1]), h[|h| - 1])
  }

  /** The directory is asked only by attempts that check lets through. */
  predicate Asks(o: Options, h: seq<Attempt>, a: Attempt) {
    Refused(Table(o, h), a.user, a.source, a.at).None?
  }

  predicate Fails(o: Options, h: seq<Attempt>, a: Attempt) {
    Asks(o, h, a) && a.outcome == Denied
  }

  /** Logins one after the other, on a clock that does not go back. */
  predicate Sequential(h: seq<Attempt>) {
    && |h| < UINT32
    && (forall i :: 0 <= i < |h| ==> 0 <= h[i].at <= h[i].done && ':' !in h[i].user)
    && (forall i :: 0 < i < |h| ==> h[i - 1].done <= h[i].at)
  }

  predicate Forgives(a: Attempt, key: string) {
    key == PairKey(a.user, a.source) || key == UserKey(a.user)
  }

  /** When the key last had a failure. */
  function LastFailure(o: Options, h: seq<Attempt>, key: string): int {
    if h == [] then 0
    else
      var front, a := h[..|h| - 1], h[|h| - 1];
      if Fails(o, front, a) && key in Keys(a.user, a.source) then a.done else LastFailure(o, front, key)
  }

  /** The failed attempt a makes the limiter tidy up, and the key has been quiet for the
      longest delay, so its failures are forgotten. */
  predicate Tidied(o: Options, h: seq<Attempt>, a: Attempt, key: string) {
    |Table(o, h)| >= o.maxKeys && LastFailure(o, h, key) + o.maxDelay <= a.done
  }

  /** How many failures count against the key: all since the last success that forgives it
      and the last time it was tidied away. */
  function Row(o: Options, h: seq<Attempt>, key: string): nat {
    if h == [] then 0
    else
      var front, a := h[..|h| - 1], h[|h| - 1];
      if Fails(o, front, a) then
        (if Tidied(o, front, a, key) then 0 else Row(o, front, key))
        + (if key in Keys(a.user, a.source) then 1 else 0)
      else if Asks(o, front, a) && a.outcome == Accepted && Forgives(a, key) then 0
      else Row(o, front, key)
  }

  /** Until when the key is blocked, told from the history alone. */
  function BlockedUntil(o: Options, h: seq<Attempt>, key: string): int {
    var n := Row(o, h, key);
    if n > Free(o, key) then LastFailure(o, h, key) + Delay(o, Free(o, key), n) else 0
  }

  /** The table is exactly what the history says. */
  ghost predicate Remembers(o: Options, h: seq<Attempt>, m: Entries, key: string) {
    && Row(o, h, key) <= |h|
    && (key in m <==> Row(o, h, key) > 0)
    && (key in m ==> m[key] == Entry(Row(o, h, key), LastFailure(o, h, key), BlockedUntil(o, h, key)))
  }

  lemma DelayIsCapped(o: Options, free: nat, failures: nat)
    requires failures > free
    ensures 0 <= Delay(o, free, failures) <= o.maxDelay
  {}

  /** failed() bumps each of the three keys once and touches no other. */
  lemma FailedEntry(o: Options, m: Entries, user: string, source: string, now: int, key: string)
    ensures var m0 := if |m| >= o.maxKeys then DropIdle(o, m, now) else m;
            var m' := Failed(o, m, user, source, now);
            if key in Keys(user, source) then key in m' && m'[key] == Bumped(o, m0, key, Free(o, key), now)[key]
            else (key in m' <==> key in m0) && (key in m0 ==> m'[key] == m0[key])
  {
    hide Delay, DropIdle, Lower, PairKey, SourceKey, UserKey, Bumped;
    KindsDiffer(user, source, user, source);
    var m0 := if |m| >= o.maxKeys then DropIdle(o, m, now) else m;
    var m1 := Bumped(o, m0, PairKey(user, source), o.freePerPair, now);
    var m2 := Bumped(o, m1, SourceKey(source), o.freePerSource, now);
    BumpsOne(o, m0, PairKey(user, source), o.freePerPair, now, key);
    BumpsOne(o, m1, SourceKey(source), o.freePerSource, now, key);
    BumpsOne(o, m2, UserKey(user), o.freePerUser, now, key);
    if key == PairKey(user, source) {
      assert Free(o, key) == o.freePerPair;
    } else if key == SourceKey(source) {
      BumpReadsOne(o, m0, m1, key, Free(o, key), now);
    } else if key == UserKey(user) {
      BumpReadsOne(o, m0, m2, key, Free(o, key), now);
    }
  }

  lemma BumpsOne(o: Options, m: Entries, bumped: string, free: nat, now: int, key: string)
    ensures var m' := Bumped(o, m, bumped, free, now);
            && bumped in m'
            && (key != bumped ==> (key in m' <==> key in m) && (key in m ==> m'[key] == m[key]))
  {
    hide Delay;
  }

  lemma BumpReadsOne(o: Options, m: Entries, m': Entries, key: string, free: nat, now: int)
    requires (key in m <==> key in m') && (key in m ==> m[key] == m'[key])
    ensures key in Bumped(o, m, key, free, now) && key in Bumped(o, m', key, free, now)
    ensures Bumped(o, m, key, free, now)[key] == Bumped(o, m', key, free, now)[key]
  {
    hide Delay;
  }

  lemma KeyFails(o: Options, m: Entries, a: Attempt, key: string)
    requires Refused(m, a.user, a.source, a.at).None? && a.outcome == Denied && key in Keys(a.user, a.source)
    ensures var m0 := if |m| >= o.maxKeys then DropIdle(o, m, a.done) else m;
            var m' := After(o, m, a);
            key in m' && m'[key] == Bumped(o, m0, key, Free(o, key), a.done)[key]
  {
    hide Delay, Keys, Free, Failed, Refused, DropIdle;
    FailedEntry(o, m, a.user, a.source, a.done, key);
  }

  lemma KeyRests(o: Options, m: Entries, a: Attempt, key: string)
    requires Refused(m, a.user, a.source, a.at).None? && a.outcome == Denied && key !in Keys(a.user, a.source)
    ensures var m0 := if |m| >= o.maxKeys then DropIdle(o, m, a.done) else m;
            var m' := After(o, m, a);
            (key in m' <==> key in m0) && (key in m0 ==> m'[key] == m0[key])
  {
    hide Keys, Failed, Refused, DropIdle;
    FailedEntry(o, m, a.user, a.source, a.done, key);
  }

  /** A remembered key is dropped exactly when it is tidied away. */
  lemma DroppedIsTidied(o: Options, h: seq<Attempt>, m: Entries, a: Attempt, key: string)
    requires m == Table(o, h) && Remembers(o, h, m, key) && 0 <= a.done
    ensures var m0 := if |m| >= o.maxKeys then DropIdle(o, m, a.done) else m;
            && (key in m0 <==> Row(o, h, key) > 0 && !Tidied(o, h, a, key))
            && (key in m0 ==> m0[key] == m[key])
  {
    hide Row, LastFailure, Table, Delay;
    if Row(o, h, key) > Free(o, key) {
      DelayIsCapped(o, Free(o, key), Row(o, h, key));
    }
  }

  /** What one more attempt adds to the history of a key. */
  lemma OneMore(o: Options, front: seq<Attempt>, a: Attempt, key: string)
    ensures var h, base := front + [a], if Tidied(o, front, a, key) then 0 else Row(o, front, key);
            && (Fails(o, front, a) && key in Keys(a.user, a.source) ==>
                  Row(o, h, key) == base + 1 && LastFailure(o, h, key) == a.done)
            && (Fails(o, front, a) && key !in Keys(a.user, a.source) ==>
                  Row(o, h, key) == base && LastFailure(o, h, key) == LastFailure(o, front, key))
            && (!Fails(o, front, a) ==>
                  && LastFailure(o, h, key) == LastFailure(o, front, key)
                  && Row(o, h, key) == if Asks(o, front, a) && a.outcome == Accepted && Forgives(a, key) then 0
                                       else Row(o, front, key))
  {
    hide Keys, Fails, Asks, Forgives, Tidied;
    var h := front + [a];
    assert h[..|h| - 1] == front && h[|h| - 1] == a;
  }

  lemma StepRemembers(o: Options, front: seq<Attempt>, a: Attempt, m: Entries, key: string)
    requires m == Table(o, front) && Remembers(o, front, m, key) && |front| + 1 < UINT32 && 0 <= a.done
    ensures Remembers(o, front + [a], After(o, m, a), key)
  {
    hide Keys, After, Refused, Forgives, Tidied, Free, Delay, DropIdle, Row, LastFailure, Bumped, Table;
    OneMore(o, front, a, key);
    if Fails(o, front, a) && key in Keys(a.user, a.source) {
      DroppedIsTidied(o, front, m, a, key);
      KeyFails(o, m, a, key);
      BumpRemembers(o, front, a, if |m| >= o.maxKeys then DropIdle(o, m, a.done) else m, key);
    } else if Fails(o, front, a) {
      DroppedIsTidied(o, front, m, a, key);
      KeyRests(o, m, a, key);
    } else {
      NoFailure(o, m, a, key);
    }
  }

  lemma BumpRemembers(o: Options, front: seq<Attempt>, a: Attempt, m0: Entries, key: string)
    requires var base := if Tidied(o, front, a, key) then 0 else Row(o, front, key);
             && base + 1 < UINT32 && Row(o, front + [a], key) == base + 1 && LastFailure(o, front + [a], key) == a.done
             && (key in m0 <==> base > 0)
             && (key in m0 ==> m0[key] == Entry(base, LastFailure(o, front, key), BlockedUntil(o, front, key)))
    ensures Bumped(o, m0, key, Free(o, key), a.done)[key]
            == Entry(Row(o, front + [a], key), a.done, BlockedUntil(o, front + [a], key))
  {
    hide Tidied, Free, Delay, Row, LastFailure;
  }

  lemma NoFailure(o: Options, m: Entries, a: Attempt, key: string)
    requires Refused(m, a.user, a.source, a.at).Some? || a.outcome != Denied
    ensures var m' := After(o, m, a);
            if Refused(m, a.user, a.source, a.at).None? && a.outcome == Accepted && Forgives(a, key) then key !in m'
            else (key in m' <==> key in m) && (key in m ==> m'[key] == m[key])
  {
    hide Refused, PairKey, UserKey;
  }

  lemma SequentialFront(h: seq<Attempt>, n: nat)
    requires Sequential(h) && n <= |h|
    ensures Sequential(h[..n])
  {}

  lemma {:induction false} TableRemembers(o: Options, h: seq<Attempt>, key: string)
    requires Sequential(h)
    ensures Remembers(o, h, Table(o, h), key)
  {
    hide Remembers, After;
    if h == [] {
      NothingToRemember(o, key);
    } else {
      var front, a := h[..|h| - 1], h[|h| - 1];
      assert h == front + [a];
      TableRemembers(o, front, key);
      StepRemembers(o, front, a, Table(o, front), key);
    }
  }

  lemma NothingToRemember(o: Options, key: string)
    ensures Remembers(o, [], map[], key)
  {}

  /** The limiter forgets and blocks exactly as the history says: an attempt is put to the
      directory if and only if none of its keys is blocked by its failures. */
  lemma AsksExactly(o: Options, h: seq<Attempt>, a: Attempt)
    requires Sequential(h) && 0 <= a.at
    ensures Asks(o, h, a) <==> forall key :: key in Keys(a.user, a.source) ==> BlockedUntil(o, h, key) <= a.at
  {
    hide Keys, Refused, Table, BlockedUntil, Row, LastFailure;
    var m := Table(o, h);
    RefusedExactly(m, a.user, a.source, a.at);
    forall key ensures key in m && m[key].blockedUntil > a.at <==> BlockedUntil(o, h, key) > a.at {
      TableRemembers(o, h, key);
      NotBlocked(o, h, key);
    }
  }

  lemma NotBlocked(o: Options, h: seq<Attempt>, key: string)
    ensures Row(o, h, key) == 0 ==> BlockedUntil(o, h, key) == 0
  {}

  /** The n-th failure that counts against a key, beyond its free ones, blocks it for exactly
      the n-th delay. */
  lemma FailureBlocks(o: Options, h: seq<Attempt>, a: Attempt, key: string)
    requires Sequential(h + [a]) && Fails(o, h, a) && key in Keys(a.user, a.source)
    ensures var n, m := Row(o, h + [a], key), Table(o, h + [a]);
            && n > 0 && key in m && m[key].failures == n && m[key].lastFailure == a.done
            && (n > Free(o, key) ==>
                  m[key].blockedUntil == a.done + Min(o.baseDelay * Pow2(Min(n - Free(o, key) - 1, 20)), o.maxDelay))
  {
    hide Keys, After, Refused, Free, Tidied, Pow2;
    var h' := h + [a];
    assert h'[..|h|] == h && h'[|h|] == a;
    TableRemembers(o, h', key);
  }

  /** How blocks grow: the first failure past the free ones blocks for the base delay, each
      further one for twice as long, never longer than the maximum, and after twenty doublings
      no longer. h and h' are any two histories whose last attempts failed. */
  lemma BlocksDouble(o: Options, h: seq<Attempt>, a: Attempt, h': seq<Attempt>, a': Attempt, key: string)
    requires Sequential(h + [a]) && Fails(o, h, a) && key in Keys(a.user, a.source)
    requires Sequential(h' + [a']) && Fails(o, h', a') && key in Keys(a'.user, a'.source)
    requires Row(o, h + [a], key) > Free(o, key) && Row(o, h' + [a'], key) == Row(o, h + [a], key) + 1
    ensures key in Table(o, h + [a]) && key in Table(o, h' + [a'])
    ensures var past := Row(o, h + [a], key) - Free(o, key);
            var block := Table(o, h + [a])[key].blockedUntil - a.done;
            var block' := Table(o, h' + [a'])[key].blockedUntil - a'.done;
            && (past == 1 ==> block == Min(o.baseDelay, o.maxDelay))
            && (past <= 20 ==> block' == Min(2 * block, o.maxDelay))
            && (past > 20 ==> block' == block)
  {
    hide Keys, Table, Fails, Free, Row, Pow2;
    FailureBlocks(o, h, a, key);
    FailureBlocks(o, h', a', key);
    var steps := Row(o, h + [a], key) - Free(o, key) - 1;
    if steps < 20 {
      DoubleCapped(o.baseDelay, o.maxDelay, steps);
    }
    OneIsFirst();
  }

  lemma OneIsFirst()
    ensures Pow2(0) == 1
  {}

  lemma DoubleCapped(base: nat, max: nat, n: nat)
    ensures Min(base * Pow2(n + 1), max) == Min(2 * Min(base * Pow2(n), max), max)
  {
    assert base * Pow2(n + 1) == 2 * (base * Pow2(n));
  }

  /** While its time has not come, nothing changes what counts against a blocked key. */
  lemma {:induction false} StaysBlocked(o: Options, h: seq<Attempt>, key: string, i: nat, k: nat)
    requires Sequential(h) && i <= k < |h| && Row(o, h[..i], key) > Free(o, key)
    requires h[k].at < BlockedUntil(o, h[..i], key)
    ensures BlockedUntil(o, h[..k], key) == BlockedUntil(o, h[..i], key)
    decreases k - i
  {
    hide Keys, Forgives, Row, LastFailure, Asks, Delay;
    if i < k {
      TimesGrow(h, i, k);
      SequentialFront(h, i);
      BlockedStep(o, h[..i], h[i], key);
      assert h[..i + 1] == h[..i] + [h[i]];
      StaysBlocked(o, h, key, i + 1, k);
    }
  }

  lemma BlockedStep(o: Options, h: seq<Attempt>, a: Attempt, key: string)
    requires Sequential(h) && 0 <= a.at <= a.done && Row(o, h, key) > Free(o, key)
    requires a.done < BlockedUntil(o, h, key)
    ensures Row(o, h + [a], key) == Row(o, h, key) && BlockedUntil(o, h + [a], key) == BlockedUntil(o, h, key)
  {
    hide Keys, Asks, Delay, Free, Table;
    var h' := h + [a];
    assert h'[..|h|] == h && h'[|h|] == a;
    DelayIsCapped(o, Free(o, key), Row(o, h, key));
    AsksExactly(o, h, a);
    if Forgives(a, key) {
      KeysOfForgives(a, key);
    }
  }

  lemma KeysOfForgives(a: Attempt, key: string)
    requires Forgives(a, key)
    ensures key in Keys(a.user, a.source)
  {
    var keys := Keys(a.user, a.source);
    assert keys[0] in keys && keys[2] in keys;
  }

  lemma {:induction false} TimesGrow(h: seq<Attempt>, i: nat, k: nat)
    requires Sequential(h) && i < k < |h|
    ensures h[i].done <= h[k].at
  {
    if i + 1 < k {
      TimesGrow(h, i, k - 1);
      assert h[k - 1].done <= h[k].at;
    }
  }

  /** The throttling bound: after the n-th failure that counts against a key (a pair, an
      address or a user name), with n beyond the free ones, no later attempt naming that key
      is put to the directory before the n-th delay is over. */
  lemma ThrottlingBound(o: Options, h: seq<Attempt>, i: nat, k: nat, key: string)
    requires Sequential(h) && i < k < |h|
    requires key in Keys(h[i].user, h[i].source) && key in Keys(h[k].user, h[k].source)
    requires Fails(o, h[..i], h[i]) && Row(o, h[..i + 1], key) > Free(o, key)
    requires var n := Row(o, h[..i + 1], key) - Free(o, key);
             h[k].at < h[i].done + Min(o.baseDelay * Pow2(Min(n - 1, 20)), o.maxDelay)
    ensures !Asks(o, h[..k], h[k])
  {
    hide Keys, Free, Row, Asks, Fails, Pow2;
    assert h[..i + 1] == h[..i] + [h[i]];
    JustFailed(o, h[..i], h[i], key);
    StaysBlocked(o, h, key, i + 1, k);
    SequentialFront(h, k);
    AsksExactly(o, h[..k], h[k]);
  }

  lemma JustFailed(o: Options, h: seq<Attempt>, a: Attempt, key: string)
    requires Fails(o, h, a) && key in Keys(a.user, a.source)
    ensures LastFailure(o, h + [a], key) == a.done
  {
    hide Fails, Keys;
    assert (h + [a])[..|h|] == h && (h + [a])[|h|] == a;
  }

  /** The same for a pair: a later attempt by that user, in any case of letters, from
      that address. */
  lemma PairIsThrottled(o: Options, h: seq<Attempt>, i: nat, k: nat)
    requires Sequential(h) && i < k < |h|
    requires Lower(h[k].user) == Lower(h[i].user) && h[k].source == h[i].source
    requires Fails(o, h[..i], h[i])
    requires var n := Row(o, h[..i + 1], PairKey(h[i].user, h[i].source));
             && n > o.freePerPair
             && h[k].at < h[i].done + Min(o.baseDelay * Pow2(Min(n - o.freePerPair - 1, 20)), o.maxDelay)
    ensures !Asks(o, h[..k], h[k])
  {
    hide Row, Asks, Fails, Lower, Pow2;
    var key := PairKey(h[i].user, h[i].source);
    assert Keys(h[i].user, h[i].source)[0] == key && Keys(h[k].user, h[k].source)[0] == key;
    assert Free(o, key) == o.freePerPair;
    ThrottlingBound(o, h, i, k, key);
  }

  /** The same for an address, whoever tries from it, and for a user, wherever from; each kind
      of key has its own number of free failures. */
  lemma SourceAndUserAreThrottled(o: Options, h: seq<Attempt>, i: nat, k: nat)
    requires Sequential(h) && i < k < |h| && Fails(o, h[..i], h[i])
    ensures var n := Row(o, h[..i + 1], SourceKey(h[i].source));
            && h[k].source == h[i].source && n > o.freePerSource
            && h[k].at < h[i].done + Min(o.baseDelay * Pow2(Min(n - o.freePerSource - 1, 20)), o.maxDelay)
            ==> !Asks(o, h[..k], h[k])
    ensures var n := Row(o, h[..i + 1], UserKey(h[i].user));
            && Lower(h[k].user) == Lower(h[i].user) && n > o.freePerUser
            && h[k].at < h[i].done + Min(o.baseDelay * Pow2(Min(n - o.freePerUser - 1, 20)), o.maxDelay)
            ==> !Asks(o, h[..k], h[k])
  {
    hide Row, Asks, Fails, Lower, Pow2;
    var address, name := SourceKey(h[i].source), UserKey(h[i].user);
    assert Keys(h[i].user, h[i].source)[1] == address && Keys(h[i].user, h[i].source)[2] == name;
    assert Keys(h[k].user, h[k].source)[1] == SourceKey(h[k].source);
    assert Keys(h[k].user, h[k].source)[2] == UserKey(h[k].user);
    assert Free(o, address) == o.freePerSource && Free(o, name) == o.freePerUser;
    if && h[k].source == h[i].source && Row(o, h[..i + 1], address) > o.freePerSource
       && h[k].at < h[i].done + Min(o.baseDelay * Pow2(Min(Row(o, h[..i + 1], address) - o.freePerSource - 1, 20)), o.maxDelay) {
      ThrottlingBound(o, h, i, k, address);
    }
    if && Lower(h[k].user) == Lower(h[i].user) && Row(o, h[..i + 1], name) > o.freePerUser
       && h[k].at < h[i].done + Min(o.baseDelay * Pow2(Min(Row(o, h[..i + 1], name) - o.freePerUser - 1, 20)), o.maxDelay) {
      ThrottlingBound(o, h, i, k, name);
    }
  }

  /** A login that succeeds clears the pair and the user, and leaves the address its count. */
  lemma SuccessForgives(o: Options, h: seq<Attempt>, a: Attempt)
    requires Asks(o, h, a) && a.outcome == Accepted
    ensures Row(o, h + [a], PairKey(a.user, a.source)) == 0 && Row(o, h + [a], UserKey(a.user)) == 0
    ensures Row(o, h + [a], SourceKey(a.source)) == Row(o, h, SourceKey(a.source))
  {
    hide Asks, PairKey, SourceKey, UserKey, Keys;
    var h' := h + [a];
    assert h'[..|h|] == h && h'[|h|] == a;
    KindsDiffer(a.user, a.source, a.user, a.source);
  }

  predicate SameButCase(c: char, d: char) {
    || ('A' <= c <= 'Z' && d as int - c as int == 'a' as int - 'A' as int)
    || ('A' <= d <= 'Z' && c as int - d as int == 'a' as int - 'A' as int)
  }

  /** User names are the same to the limiter exactly if they are equal up to the case of ASCII
      letters. */
  lemma CaseDoesNotMatter(u: string, v: string, source: string)
    ensures UserKey(u) == UserKey(v) <==>
              |u| == |v| && forall i :: 0 <= i < |u| ==> u[i] == v[i] || SameButCase(u[i], v[i])
    ensures UserKey(u) == UserKey(v) ==> PairKey(u, source) == PairKey(v, source)
  {
    var a, b := Lower(u), Lower(v);
    assert ("u:" + a)[2..] == a && ("u:" + b)[2..] == b;
    assert |u| == |v| && (forall i :: 0 <= i < |u| ==> a[i] == b[i]) ==> a == b;
    forall i | 0 <= i < |u| && i < |v| ensures a[i] == b[i] <==> u[i] == v[i] || SameButCase(u[i], v[i]) {
      assert a[i] == LowerChar(u[i]) && b[i] == LowerChar(v[i]);
    }
  }

  /** An attempt of another pair never adds to what counts against a pair, and forgives
      nothing; it can only set off the tidying. */
  lemma OtherPairsDoNotCount(o: Options, h: seq<Attempt>, a: Attempt, user: string, source: string)
    requires ':' !in user && ':' !in a.user && !(Lower(a.user) == Lower(user) && a.source == source)
    ensures var key := PairKey(user, source);
            Row(o, h + [a], key) == if Fails(o, h, a) && Tidied(o, h, a, key) then 0 else Row(o, h, key)
  {
    hide Lower, Fails, Asks, Tidied;
    var h' := h + [a];
    assert h'[..|h|] == h && h'[|h|] == a;
    PairKeysAreApart(user, source, a.user, a.source);
    KindsDiffer(user, source, a.user, a.source);
  }

  // --- The limiter and the authenticator ------------------------------------------------

  class LoginLimiter {
    const options: Options
    var entries: Entries

    constructor (options: Options)
      ensures this.options == options && entries == map[]
    {
      this.options := options;
      entries := map[];
    }

    /** LoginLimiter::check (login_limiter.cpp:39-56). */
    method Check(user: string, source: string, now: int) returns (wait: Option<int>)
      ensures wait == Refused(entries, user, source, now)
    {
      var keys := Keys(user, source);
      var until := 0;
      for i := 0 to |keys|
        invariant until == Until(entries, keys[..i])
      {
        assert keys[..i + 1][..i] == keys[..i];
        if keys[i] in entries {
          until := Max(until, entries[keys[i]].blockedUntil);
        }
      }
      assert keys[..|keys|] == keys;
      wait := if until > now then Some(until - now) else None;
    }

    /** LoginLimiter::bump (login_limiter.cpp:58-68). */
    method Bump(key: string, free: nat, now: int)
      modifies this
      ensures entries == Bumped(options, old(entries), key, free, now)
      ensures key in entries && entries == old(entries)[key := entries[key]]
      ensures var was, e := if key in old(entries) then old(entries[key]) else Entry(0, 0, 0), entries[key];
              && e.failures == (was.failures + 1) % 0x1_0000_0000 && e.lastFailure == now
              && e.blockedUntil == if e.failures <= free then was.blockedUntil
                                   else now + Min(options.baseDelay * Pow2(Min(e.failures - free - 1, 20)), options.maxDelay)
    {
      hide Pow2;
      if key !in entries {
        entries := entries[key := Entry(0, 0, 0)];
      }
      var failures := (entries[key].failures + 1) % UINT32;
      entries := entries[key := entries[key].(failures := failures, lastFailure := now)];
      if failures <= free {
        return;
      }
      var steps := Min(failures - free - 1, 20);
      var delay := Min(options.baseDelay * Pow2(steps), options.maxDelay);
      entries := entries[key := entries[key].(blockedUntil := now + delay)];
    }

    /** LoginLimiter::failed (login_limiter.cpp:76-85). */
    method Fail(user: string, source: string, now: int)
      modifies this
      ensures entries == Failed(options, old(entries), user, source, now)
    {
      hide Bumped;
      if |entries| >= options.maxKeys {
        entries := DropIdle(options, entries, now);
      }
      Bump(PairKey(user, source), options.freePerPair, now);
      Bump(SourceKey(source), options.freePerSource, now);
      Bump(UserKey(user), options.freePerUser, now);
    }

    /** LoginLimiter::succeeded (login_limiter.cpp:87-91). */
    method Succeed(user: string, source: string)
      modifies this
      ensures entries == Succeeded(old(entries), user, source)
    {
      entries := entries - {PairKey(user, source)};
      entries := entries - {UserKey(user)};
    }
  }

  /** The end of Authenticator::authenticate_password (authenticator.cpp:97-113), on the
      decoded credentials: one attempt of a run, by the user before the first colon. The
      directory is asked if and only if the attempt is not refused. */
  method AuthenticatePassword(limiter: LoginLimiter, credentials: string, source: string, at: int, done: int,
                              directory: (string, string) -> Result<string>)
    returns (r: Result<string>, ghost user: string, ghost asked: bool)
    modifies limiter
    ensures ':' !in credentials ==> r == Err(Auth) && limiter.entries == old(limiter.entries) && !asked
    ensures ':' in credentials ==>
              && ':' !in user && |user| < |credentials| && credentials[..|user| + 1] == user + ":"
              && var answer := directory(user, credentials[|user| + 1..]);
                 var outcome := if answer.Ok? then Accepted else if answer.code == Auth then Denied else OtherError;
                 && limiter.entries == After(limiter.options, old(limiter.entries), Attempt(user, source, at, done, outcome))
                 && asked == Refused(old(limiter.entries), user, source, at).None?
                 && r == if asked then answer else Err(Throttled)
  {
    hide Refused, Succeeded, Failed;
    var colon := 0;
    user, asked := "", false;
    while colon < |credentials| && credentials[colon] != ':'
      invariant 0 <= colon <= |credentials| && ':' !in credentials[..colon]
    {
      colon := colon + 1;
    }
    if colon == |credentials| {
      assert credentials[..colon] == credentials;
      return Err(Auth), "", false;
    }
    var name, password := credentials[..colon], credentials[colon + 1..];
    user := name;
    assert credentials[..colon + 1] == name + ":";
    var wait := limiter.Check(name, source, at);
    if wait.Some? {
      return Err(Throttled), user, false;
    }
    asked := true;
    r := directory(name, password);
    if r.Ok? {
      limiter.Succeed(name, source);
    } else if r.code == Auth {
      limiter.Fail(name, source, done);
    }
  }
}
