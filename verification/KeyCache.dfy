/** The identity service's keys, cached, and fetched no more than once a cooldown (crates/tam-api/src/auth.rs). */
module KeyCache {
  import opened Saturating
  import opened Wrappers

  const JWKS_REFETCH_COOLDOWN_MS: int := 60_000

  type Instant = t: int | I64_MIN <= t <= I64_MAX witness 0

  datatype Jwk = Jwk(kid: string, usable: bool)

  type KeySet = seq<Jwk>

  datatype Cache = Cache(keys: Option<KeySet>, lastFetchAt: Option<Instant>)

  predicate MayRefetch(c: Cache, now: Instant) {
    c.lastFetchAt.Some? ==> Saturate(now - c.lastFetchAt.value) >= JWKS_REFETCH_COOLDOWN_MS
  }

  /** The first key of a set under an identifier, where it can be decoded with. */
  function Find(keys: KeySet, kid: string): (found: Option<Jwk>)
    ensures found.Some? ==> found.value in keys && found.value.kid == kid && found.value.usable
  {
    if keys == [] then None
    else if keys[0].kid == kid then (if keys[0].usable then Some(keys[0]) else None)
    else Find(keys[1..], kid)
  }

  function Cached(c: Cache, kid: string): Option<Jwk> {
    if c.keys.None? then None else Find(c.keys.value, kid)
  }

  datatype Lookup = Lookup(kid: string, now: Instant, answer: Option<KeySet>)

  predicate Fetches(c: Cache, l: Lookup) { Cached(c, l.kid).None? && MayRefetch(c, l.now) }

  function After(c: Cache, l: Lookup): Cache {
    if !Fetches(c, l) then c else Cache(if l.answer.Some? then l.answer else c.keys, Some(l.now))
  }

  function Answer(c: Cache, l: Lookup): Option<Jwk> {
    if !Fetches(c, l) then Cached(c, l.kid) else if l.answer.None? then None else Find(l.answer.value, l.kid)
  }

  class AuthBridge {
    var keys: Option<KeySet>
    var lastFetchAt: Option<Instant>

    constructor ()
      ensures Value() == Cache(None, None)
    {
      keys, lastFetchAt := None, None;
    }

    ghost function Value(): Cache
      reads this
    {
      Cache(keys, lastFetchAt)
    }

    /** The lock is held across the fetch, so lookups come one at a time; `answer` is what a fetch would bring. */
    method KeyFor(kid: string, now: Instant, answer: Option<KeySet>) returns (key: Option<Jwk>)
      modifies this
      ensures Value() == After(old(Value()), Lookup(kid, now, answer))
      ensures key == Answer(old(Value()), Lookup(kid, now, answer))
    {
      if keys.Some? {
        var cached := Find(keys.value, kid);
        if cached.Some? { return cached; }
      }
      if lastFetchAt.Some? {
        var since := Saturate(now - lastFetchAt.value);
        if since < JWKS_REFETCH_COOLDOWN_MS { return None; }
      }
      lastFetchAt := Some(now);
      if answer.None? { return None; }
      key := Find(answer.value, kid);
      keys := answer;
    }
  }

  /** A key is answered only out of the cached or the just-fetched set, under the identifier asked for. */
  lemma KeyIsHeld(c: Cache, l: Lookup)
    requires Answer(c, l).Some?
    ensures var key := Answer(c, l).value;
            && key.kid == l.kid && key.usable
            && (if Fetches(c, l) then l.answer.Some? && key in l.answer.value else c.keys.Some? && key in c.keys.value)
  {
  }

  ghost predicate FirstUnder(keys: KeySet, kid: string, i: nat)
    requires i < |keys|
  {
    keys[i].kid == kid && forall j | 0 <= j < i :: keys[j].kid != kid
  }

  /** The first key under an identifier decides: it is the one, if it can be decoded with. */
  ghost predicate IsKeyOf(keys: KeySet, kid: string, key: Jwk) {
    key.usable && exists i | 0 <= i < |keys| :: FirstUnder(keys, kid, i) && keys[i] == key
  }

  lemma FirstOfRest(first: Jwk, rest: KeySet, kid: string, i: nat)
    requires i <= |rest|
    ensures FirstUnder([first] + rest, kid, i)
            <==> if i == 0 then first.kid == kid else first.kid != kid && FirstUnder(rest, kid, i - 1)
  {
    var keys := [first] + rest;
    assert keys[0] == first && forall j | 0 <= j < |rest| :: keys[j + 1] == rest[j];
    if FirstUnder(keys, kid, i) && i > 0 {
      forall j | 0 <= j < i - 1 ensures rest[j].kid != kid { assert keys[j + 1] == rest[j]; }
    }
  }

  lemma IsKeyOfRest(first: Jwk, rest: KeySet, kid: string, key: Jwk)
    ensures IsKeyOf([first] + rest, kid, key)
            <==> if first.kid == kid then first == key && key.usable else IsKeyOf(rest, kid, key)
  {
    hide FirstUnder;
    var keys := [first] + rest;
    assert keys[0] == first && forall j | 0 <= j < |rest| :: keys[j + 1] == rest[j];
    forall i | 0 <= i < |keys|
      ensures FirstUnder(keys, kid, i)
              <==> if i == 0 then first.kid == kid else first.kid != kid && FirstUnder(rest, kid, i - 1)
    {
      FirstOfRest(first, rest, kid, i);
    }
    if i :| 0 <= i < |rest| && FirstUnder(rest, kid, i) && rest[i] == key { assert keys[i + 1] == key; }
  }

  lemma NoKeyOfNone(kid: string, key: Jwk)
    ensures !IsKeyOf([], kid, key)
  {
  }

  lemma {:induction false} FindIff(keys: KeySet, kid: string, key: Jwk)
    ensures Find(keys, kid) == Some(key) <==> IsKeyOf(keys, kid, key)
  {
    hide IsKeyOf;
    if keys == [] {
      NoKeyOfNone(kid, key);
    } else {
      assert keys == [keys[0]] + keys[1..];
      IsKeyOfRest(keys[0], keys[1..], kid, key);
      FindIff(keys[1..], kid, key);
    }
  }

  /** A fetch is due when the cache answers nothing and the last one is a minute past, if there was one. */
  ghost predicate Due(c: Cache, l: Lookup) {
    && (c.keys.Some? ==> forall key :: !IsKeyOf(c.keys.value, l.kid, key))
    && (c.lastFetchAt.Some? ==> l.now - c.lastFetchAt.value >= 60_000)
  }

  /**
   A lookup answers the cached key if there is one; if not, and a fetch is due,
   the fetched one. Due, the fetch is stamped whatever it brings, and the
   cached keys are replaced only by keys brought; not due, nothing changes.
   */
  lemma AnsweredIff(c: Cache, l: Lookup, key: Jwk)
    ensures Answer(c, l) == Some(key)
            <==> (c.keys.Some? && IsKeyOf(c.keys.value, l.kid, key))
                 || (Due(c, l) && l.answer.Some? && IsKeyOf(l.answer.value, l.kid, key))
    ensures !Due(c, l) ==> After(c, l) == c
    ensures Due(c, l) ==> After(c, l).lastFetchAt == Some(l.now)
                          && After(c, l).keys == if l.answer.Some? then l.answer else c.keys
  {
    hide Find, IsKeyOf;
    if c.keys.Some? {
      forall other ensures Find(c.keys.value, l.kid) == Some(other) <==> IsKeyOf(c.keys.value, l.kid, other) {
        FindIff(c.keys.value, l.kid, other);
      }
      if Find(c.keys.value, l.kid).Some? {
        assert IsKeyOf(c.keys.value, l.kid, Find(c.keys.value, l.kid).value);
      }
    }
    if l.answer.Some? { FindIff(l.answer.value, l.kid, key); }
  }

  // ------------------------------------------------------------ runs of lookups

  function Run(c: Cache, lookups: seq<Lookup>): Cache {
    if lookups == [] then c else After(Run(c, lookups[..|lookups| - 1]), lookups[|lookups| - 1])
  }

  /** The instants fetches were made at, failed ones included. */
  function Stamps(c: Cache, lookups: seq<Lookup>): seq<Instant> {
    if lookups == [] then []
    else
      var front := lookups[..|lookups| - 1];
      var last := lookups[|lookups| - 1];
      Stamps(c, front) + (if Fetches(Run(c, front), last) then [last.now] else [])
  }

  /** Whether a lookup of a run fetches keys and is brought some. */
  ghost predicate Brings(c: Cache, lookups: seq<Lookup>, i: nat)
    requires i < |lookups|
  {
    Due(Run(c, lookups[..i]), lookups[i]) && lookups[i].answer.Some?
  }

  ghost predicate BringsNone(c: Cache, lookups: seq<Lookup>, from: nat) {
    forall i | from <= i < |lookups| :: !Brings(c, lookups, i)
  }

  ghost predicate BringsLast(c: Cache, lookups: seq<Lookup>, i: nat)
    requires i < |lookups|
  {
    Brings(c, lookups, i) && BringsNone(c, lookups, i + 1)
  }

  lemma BringsAgain(c: Cache, front: seq<Lookup>, last: Lookup, i: nat)
    requires i < |front|
    ensures Brings(c, front + [last], i) <==> Brings(c, front, i)
  {
    assert (front + [last])[..i] == front[..i] && (front + [last])[i] == front[i];
  }

  lemma BringsIff(c: Cache, lookups: seq<Lookup>)
    requires lookups != []
    ensures var (front, last) := (lookups[..|lookups| - 1], lookups[|lookups| - 1]);
            Run(c, lookups).keys == if Brings(c, lookups, |lookups| - 1) then last.answer else Run(c, front).keys
  {
    hide Due;
    AnsweredIff(Run(c, lookups[..|lookups| - 1]), lookups[|lookups| - 1], Jwk("", true));
  }

  /** After any run the cached keys are those the last fetch to bring any brought, or those it began with. */
  lemma {:induction false} LastBrought(c: Cache, lookups: seq<Lookup>)
    ensures var keys := Run(c, lookups).keys;
            (BringsNone(c, lookups, 0) && keys == c.keys)
            || exists i | 0 <= i < |lookups| :: BringsLast(c, lookups, i) && keys == lookups[i].answer
  {
    hide Due, Brings, After;
    if lookups != [] {
      var (front, last, n) := (lookups[..|lookups| - 1], lookups[|lookups| - 1], |lookups| - 1);
      assert lookups == front + [last] && lookups[n] == last && lookups[..n] == front;
      LastBrought(c, front);
      BringsIff(c, lookups);
      forall i | 0 <= i < n ensures Brings(c, front, i) <==> Brings(c, lookups, i) { BringsAgain(c, front, last, i); }
      if Brings(c, lookups, n) {
        assert BringsLast(c, lookups, n);
      } else if i :| 0 <= i < n && BringsLast(c, front, i) && Run(c, front).keys == front[i].answer {
        assert BringsLast(c, lookups, i);
      }
    }
  }

  ghost predicate Spaced(stamps: seq<Instant>) {
    forall i | 0 < i < |stamps| :: stamps[i - 1] + JWKS_REFETCH_COOLDOWN_MS <= stamps[i]
  }

  /** Whatever the clock reads, backwards included, each fetch is a cooldown or more after the one before it. */
  lemma {:induction false} StampsAreSpaced(c: Cache, lookups: seq<Lookup>)
    requires c.lastFetchAt.None?
    ensures var stamps := Stamps(c, lookups);
            && Spaced(stamps)
            && Run(c, lookups).lastFetchAt == if stamps == [] then None else Some(stamps[|stamps| - 1])
  {
    hide Cached;
    if lookups != [] { StampsAreSpaced(c, lookups[..|lookups| - 1]); }
  }

  lemma {:induction false} SpacedApart(stamps: seq<Instant>, i: nat, j: nat)
    requires Spaced(stamps) && i <= j < |stamps|
    ensures stamps[i] + (j - i) * JWKS_REFETCH_COOLDOWN_MS <= stamps[j]
    decreases j
  {
    if i < j { SpacedApart(stamps, i, j - 1); }
  }

  function Within(stamps: seq<Instant>, from: int, to: int): nat {
    if stamps == [] then 0
    else Within(stamps[..|stamps| - 1], from, to) + if from <= stamps[|stamps| - 1] <= to then 1 else 0
  }

  lemma Quotient(length: nat, n: nat)
    requires n * JWKS_REFETCH_COOLDOWN_MS <= length
    ensures n <= length / JWKS_REFETCH_COOLDOWN_MS
  {
  }

  /** Spaced stamps inside an interval stand side by side, so counting them is measuring them. */
  lemma {:induction false} WithinIsBounded(stamps: seq<Instant>, from: int, to: int)
    requires Spaced(stamps) && from <= to
    ensures Within(stamps, from, to) <= (to - from) / JWKS_REFETCH_COOLDOWN_MS + 1
    ensures Within(stamps, from, to) > 0 ==>
              exists j | 0 <= j < |stamps| ::
                stamps[j] <= to && from + (Within(stamps, from, to) - 1) * JWKS_REFETCH_COOLDOWN_MS <= stamps[j]
  {
    if stamps != [] {
      var front := stamps[..|stamps| - 1];
      var last := |stamps| - 1;
      assert Spaced(front);
      WithinIsBounded(front, from, to);
      var n := Within(front, from, to);
      if from <= stamps[last] <= to {
        if n > 0 {
          var j :| 0 <= j < |front| && front[j] <= to && from + (n - 1) * JWKS_REFETCH_COOLDOWN_MS <= front[j];
          SpacedApart(stamps, j, last);
        }
        assert from + n * JWKS_REFETCH_COOLDOWN_MS <= stamps[last] <= to;
        Quotient(to - from, n);
      } else if n > 0 {
        var j :| 0 <= j < |front| && front[j] <= to && from + (n - 1) * JWKS_REFETCH_COOLDOWN_MS <= front[j];
        assert stamps[j] == front[j];
      }
    }
  }

  /** So however lookups come, any interval holds at most one fetch a cooldown and one more. */
  lemma FetchesAreBounded(lookups: seq<Lookup>, from: int, to: int)
    requires from <= to
    ensures Within(Stamps(Cache(None, None), lookups), from, to) <= (to - from) / JWKS_REFETCH_COOLDOWN_MS + 1
  {
    StampsAreSpaced(Cache(None, None), lookups);
    WithinIsBounded(Stamps(Cache(None, None), lookups), from, to);
  }

  /**
   The price of never trusting an earlier reading: after one reading from the
   future nothing is fetched, whatever is asked, exactly until an uncached key
   is asked for a cooldown past it.
   */
  lemma {:induction false} FutureStampShutsOut(c: Cache, lookups: seq<Lookup>)
    requires c.lastFetchAt.Some?
    ensures Stamps(c, lookups) == []
            <==> forall l <- lookups ::
                   Cached(c, l.kid).None? ==> l.now < c.lastFetchAt.value + JWKS_REFETCH_COOLDOWN_MS
    ensures Stamps(c, lookups) == [] ==> Run(c, lookups) == c
  {
    hide Cached;
    if lookups != [] {
      var (front, last) := (lookups[..|lookups| - 1], lookups[|lookups| - 1]);
      assert lookups == front + [last];
      FutureStampShutsOut(c, front);
    }
  }

  /** A key the service does hold goes unanswered at the hour, for one earlier reading a day ahead. */
  lemma OneReadingAhead(key: Jwk, hour: Instant)
    requires key.usable && 0 <= hour <= 86_400_000
    ensures var ahead := Lookup(key.kid, 86_400_000, None);
            var asked := Lookup(key.kid, hour, Some([key]));
            && Answer(Run(Cache(None, None), [ahead]), asked) == None
            && Answer(Cache(None, None), asked) == Some(key)
  {
    var ahead := Lookup(key.kid, 86_400_000, None);
    assert [ahead][..0] == [];
  }
}
