/** Password recovery: minute buckets that limit requests, a cap on self-service tokens, and
    the single completion that ends every live token of the user. Times are in seconds. */
module PasswordReset {
  import opened Basics

  const QUARTER_HOUR := 900

  const DAY := 86400

  const MAX_RECENT_TOKENS := 3

  datatype Kind = Global | Source | Identifier

  /** A limiter key; the keyed hash stands for what it is taken over. */
  datatype Key = Key(kind: Kind, text: string)

  /** One minute of one key. */
  datatype Bucket = Bucket(key: Key, start: Time, attempts: nat)

  /** What a request did to a key, in order; passed says it stayed within the limit. No
      code reads this history. */
  datatype Hit = Hit(key: Key, at: Time, passed: bool)

  datatype Token = Token(user: Id, selfService: bool, created: Time, expires: Time, used: bool, revoked: bool)

  /** cleaned is the latest horizon of the clean-up so far. */
  datatype World = World(buckets: seq<Bucket>, hits: seq<Hit>, cleaned: Time, tokens: seq<Token>, completed: seq<nat>)

  function Limit(kind: Kind): nat {
    match kind
    case Global => 300
    case Source => 20
    case Identifier => 3
  }

  function Minute(t: Time): (m: Time)
    ensures m <= t < m + 60 && m % 60 == 0
  {
    t - t % 60
  }

  // ---------------------------------------------------------------------------
  // Buckets
  // ---------------------------------------------------------------------------

  /** Attempts on the key in buckets that start after an instant. */
  function Recent(buckets: seq<Bucket>, key: Key, since: Time): nat {
    if buckets == [] then 0
    else
      Recent(buckets[..|buckets| - 1], key, since) +
      var b := buckets[|buckets| - 1];
      if b.key == key && b.start > since then b.attempts else 0
  }

  /** Insert, or count one more attempt on the key's bucket of this minute. */
  function Upserted(buckets: seq<Bucket>, key: Key, start: Time): seq<Bucket> {
    if buckets == [] then [Bucket(key, start, 1)]
    else
      var front, b := buckets[..|buckets| - 1], buckets[|buckets| - 1];
      if b.key == key && b.start == start then front + [b.(attempts := b.attempts + 1)]
      else Upserted(front, key, start) + [b]
  }

  /** Drops the chosen buckets that are more than a day old. */
  function Swept(buckets: seq<Bucket>, horizon: Time, chosen: set<Bucket>): seq<Bucket> {
    if buckets == [] then []
    else
      var b := buckets[|buckets| - 1];
      Swept(buckets[..|buckets| - 1], horizon, chosen) + if b in chosen && b.start < horizon then [] else [b]
  }

  /** The attempts of the key's bucket of this minute. */
  function Current(buckets: seq<Bucket>, key: Key, start: Time): nat {
    if buckets == [] then 0
    else
      var b := buckets[|buckets| - 1];
      if b.key == key && b.start == start then b.attempts else Current(buckets[..|buckets| - 1], key, start)
  }

  function Consume(w: World, key: Key, now: Time): World {
    var buckets := Upserted(w.buckets, key, Minute(now));
    var passed := Recent(buckets, key, now - QUARTER_HOUR) <= Limit(key.kind);
    w.(buckets := buckets, hits := w.hits + [Hit(key, now, passed)])
  }

  predicate LastPassed(w: World) {
    w.hits != [] && w.hits[|w.hits| - 1].passed
  }

  function CleanUp(w: World, now: Time, chosen: set<Bucket>): World {
    w.(buckets := Swept(w.buckets, now - DAY, chosen), cleaned := if w.cleaned < now - DAY then now - DAY else w.cleaned)
  }

  // ---------------------------------------------------------------------------
  // Tokens
  // ---------------------------------------------------------------------------

  predicate Live(t: Token) {
    !t.used && !t.revoked
  }

  /** Self-service tokens of the user created after an instant. */
  function RecentTokens(tokens: seq<Token>, user: Id, since: Time): nat {
    if tokens == [] then 0
    else
      var t := tokens[|tokens| - 1];
      RecentTokens(tokens[..|tokens| - 1], user, since) + if t.selfService && t.user == user && t.created > since then 1 else 0
  }

  function RevokedLive(tokens: seq<Token>, user: Id): seq<Token> {
    seq(|tokens|, i requires 0 <= i < |tokens| =>
      if tokens[i].user == user && Live(tokens[i]) then tokens[i].(revoked := true) else tokens[i])
  }

  /** The presented token is used, every other unused one of the user is revoked. */
  function Spent(tokens: seq<Token>, n: nat): seq<Token>
    requires n < |tokens|
  {
    seq(|tokens|, i requires 0 <= i < |tokens| =>
      if tokens[i].user != tokens[n].user || tokens[i].used then tokens[i]
      else if i == n then tokens[i].(used := true)
      else tokens[i].(revoked := true))
  }

  // ---------------------------------------------------------------------------
  // Transactions
  // ---------------------------------------------------------------------------

  datatype Step =
    | Request(now: Time, source: string, identifier: string, candidate: Option<Id>, stale: set<Bucket>)
    | AdminIssue(now: Time, user: Id, hours: nat)
    | Complete(now: Time, token: nat, eligible: bool)

  const GLOBAL_KEY := Key(Global, "all")

  /** The request up to the token cap; candidate is the one active user it names, if any. */
  function Limited(w: World, now: Time, source: string, identifier: string, stale: set<Bucket>): World {
    var w1 := Consume(w, GLOBAL_KEY, now);
    var w2 := if Current(w1.buckets, GLOBAL_KEY, Minute(now)) == 1 then CleanUp(w1, now, stale) else w1;
    if !LastPassed(w1) then w2
    else
      var w3 := Consume(w2, Key(Source, source), now);
      if !LastPassed(w3) then w3 else Consume(w3, Key(Identifier, identifier), now)
  }

  predicate PassedAll(w: World, w': World) {
    |w'.hits| == |w.hits| + 3 && LastPassed(w')
  }

  function WithToken(w: World, t: Token): World {
    w.(tokens := w.tokens + [t])
  }

  function Apply(w: World, step: Step): World {
    match step
    case Request(now, source, identifier, candidate, stale) =>
      var w1 := Limited(w, now, source, identifier, stale);
      if !PassedAll(w, w1) || candidate.None? then w1
      else if RecentTokens(w1.tokens, candidate.value, now - QUARTER_HOUR) >= MAX_RECENT_TOKENS then w1
      else WithToken(w1, Token(candidate.value, true, now, now + 3600, false, false))
    case AdminIssue(now, user, hours) =>
      WithToken(w.(tokens := RevokedLive(w.tokens, user)), Token(user, false, now, now + 3600 * hours, false, false))
    case Complete(now, n, eligible) =>
      if n >= |w.tokens| || !Live(w.tokens[n]) || w.tokens[n].expires <= now || !eligible then w
      else w.(tokens := Spent(w.tokens, n), completed := w.completed + [n])
  }

  function Run(w: World, steps: seq<Step>): World
    decreases |steps|
  {
    if steps == [] then w else Run(Apply(w, steps[0]), steps[1..])
  }

  // ---------------------------------------------------------------------------
  // Counting the history
  // ---------------------------------------------------------------------------

  /** Requests on the key whose minute starts after an instant, within the limit or not. */
  function HitsSince(hits: seq<Hit>, key: Key, since: Time): nat {
    if hits == [] then 0
    else
      var h := hits[|hits| - 1];
      HitsSince(hits[..|hits| - 1], key, since) + if h.key == key && Minute(h.at) > since then 1 else 0
  }

  /** Requests on the key that passed at an instant of a closed window. */
  function PassesWithin(hits: seq<Hit>, key: Key, from: Time, to: Time): nat {
    if hits == [] then 0
    else
      var h := hits[|hits| - 1];
      PassesWithin(hits[..|hits| - 1], key, from, to) + if h.key == key && h.passed && from <= h.at <= to then 1 else 0
  }

  /** Self-service tokens of the user created in a half-open window. */
  function TokensWithin(tokens: seq<Token>, user: Id, from: Time, to: Time): nat {
    if tokens == [] then 0
    else
      var t := tokens[|tokens| - 1];
      TokensWithin(tokens[..|tokens| - 1], user, from, to) +
      if t.selfService && t.user == user && from <= t.created < to then 1 else 0
  }

  // ---------------------------------------------------------------------------
  // The invariant
  // ---------------------------------------------------------------------------

  /** Above the clean-up horizon the buckets count exactly the history. */
  ghost predicate BucketsCount(w: World) {
    forall key, since :: since >= w.cleaned ==> Recent(w.buckets, key, since) == HitsSince(w.hits, key, since)
  }

  /** Each request that passed found no more than the limit, itself included. */
  ghost predicate PassesAreLimited(hits: seq<Hit>) {
    forall i :: 0 <= i < |hits| && hits[i].passed ==>
      HitsSince(hits[..i + 1], hits[i].key, hits[i].at - QUARTER_HOUR) <= Limit(hits[i].key.kind)
  }

  ghost predicate TokensAreLimited(tokens: seq<Token>) {
    forall i :: 0 <= i < |tokens| && tokens[i].selfService ==>
      RecentTokens(tokens[..i], tokens[i].user, tokens[i].created - QUARTER_HOUR) < MAX_RECENT_TOKENS
  }

  ghost predicate CompletedOnce(w: World) {
    && (forall k :: 0 <= k < |w.completed| ==> w.completed[k] < |w.tokens| && w.tokens[w.completed[k]].used)
    && (forall j, k :: 0 <= j < k < |w.completed| ==> w.completed[j] != w.completed[k])
  }

  ghost predicate Inv(w: World) {
    BucketsCount(w) && PassesAreLimited(w.hits) && TokensAreLimited(w.tokens) && CompletedOnce(w)
  }

  /** No request is stamped before the clean-up has passed it by. */
  predicate ClockOk(w: World, step: Step) {
    step.Request? ==> w.cleaned <= step.now - QUARTER_HOUR
  }

  // ---------------------------------------------------------------------------
  // Buckets against the history
  // ---------------------------------------------------------------------------

  lemma {:induction false} UpsertCounts(buckets: seq<Bucket>, key: Key, start: Time, other: Key, since: Time)
    ensures Recent(Upserted(buckets, key, start), other, since)
      == Recent(buckets, other, since) + if other == key && start > since then 1 else 0
  {
    var after := Upserted(buckets, key, start);
    if buckets == [] {
      assert after[..0] == [];
    } else {
      var front, b := buckets[..|buckets| - 1], buckets[|buckets| - 1];
      if b.key == key && b.start == start {
        assert after[..|after| - 1] == front;
      } else {
        UpsertCounts(front, key, start, other, since);
        assert after[..|after| - 1] == Upserted(front, key, start);
      }
    }
  }

  lemma {:induction false} SweepKeepsRecent(buckets: seq<Bucket>, horizon: Time, chosen: set<Bucket>, key: Key, since: Time)
    requires since >= horizon
    ensures Recent(Swept(buckets, horizon, chosen), key, since) == Recent(buckets, key, since)
  {
    if buckets != [] {
      var front, b := buckets[..|buckets| - 1], buckets[|buckets| - 1];
      var kept := Swept(front, horizon, chosen);
      SweepKeepsRecent(front, horizon, chosen, key, since);
      if b in chosen && b.start < horizon {
        assert Swept(buckets, horizon, chosen) == kept;
      } else {
        assert (kept + [b])[..|kept|] == kept;
      }
    }
  }

  ghost predicate LimiterOk(w: World) {
    BucketsCount(w) && PassesAreLimited(w.hits)
  }

  lemma ConsumeKeepsCount(w: World, key: Key, now: Time)
    requires BucketsCount(w)
    ensures BucketsCount(Consume(w, key, now))
  {
    hide Upserted, Recent, Minute;
    var w' := Consume(w, key, now);
    assert w'.hits[..|w.hits|] == w.hits;
    forall other, since | since >= w'.cleaned
      ensures Recent(w'.buckets, other, since) == HitsSince(w'.hits, other, since)
    {
      UpsertCounts(w.buckets, key, Minute(now), other, since);
    }
  }

  lemma OneMoreHit(hits: seq<Hit>, h: Hit)
    requires PassesAreLimited(hits)
    requires h.passed ==> HitsSince(hits + [h], h.key, h.at - QUARTER_HOUR) <= Limit(h.key.kind)
    ensures PassesAreLimited(hits + [h])
  {
    hide HitsSince, Limit;
    var more := hits + [h];
    forall i | 0 <= i < |more| && more[i].passed
      ensures HitsSince(more[..i + 1], more[i].key, more[i].at - QUARTER_HOUR) <= Limit(more[i].key.kind)
    {
      if i < |hits| {
        assert more[..i + 1] == hits[..i + 1];
      } else {
        assert more[..i + 1] == more;
      }
    }
  }

  lemma ConsumeKeepsLimiter(w: World, key: Key, now: Time)
    requires LimiterOk(w) && w.cleaned <= now - QUARTER_HOUR
    ensures LimiterOk(Consume(w, key, now))
  {
    hide Upserted, Recent, Minute, HitsSince, PassesAreLimited, Limit;
    ConsumeKeepsCount(w, key, now);
    var w' := Consume(w, key, now);
    OneMoreHit(w.hits, w'.hits[|w.hits|]);
  }

  lemma CleanUpKeepsLimiter(w: World, now: Time, chosen: set<Bucket>)
    requires LimiterOk(w)
    ensures LimiterOk(CleanUp(w, now, chosen))
  {
    hide PassesAreLimited;
    var w' := CleanUp(w, now, chosen);
    forall key, since | since >= w'.cleaned
      ensures Recent(w'.buckets, key, since) == HitsSince(w'.hits, key, since)
    {
      SweepKeepsRecent(w.buckets, now - DAY, chosen, key, since);
    }
  }

  lemma LimitedKeepsLimiter(w: World, now: Time, source: string, identifier: string, stale: set<Bucket>)
    requires LimiterOk(w) && w.cleaned <= now - QUARTER_HOUR
    ensures LimiterOk(Limited(w, now, source, identifier, stale))
    ensures Limited(w, now, source, identifier, stale).tokens == w.tokens
    ensures Limited(w, now, source, identifier, stale).completed == w.completed
  {
    hide LimiterOk, Current, LastPassed, Minute, Upserted, Swept, Recent;
    var w1 := Consume(w, GLOBAL_KEY, now);
    ConsumeKeepsLimiter(w, GLOBAL_KEY, now);
    CleanUpKeepsLimiter(w1, now, stale);
    var w2 := if Current(w1.buckets, GLOBAL_KEY, Minute(now)) == 1 then CleanUp(w1, now, stale) else w1;
    assert w2.cleaned <= now - QUARTER_HOUR;
    ConsumeKeepsLimiter(w2, Key(Source, source), now);
    ConsumeKeepsLimiter(Consume(w2, Key(Source, source), now), Key(Identifier, identifier), now);
  }

  // ---------------------------------------------------------------------------
  // Tokens
  // ---------------------------------------------------------------------------

  /** Tokens change only by being used or revoked. */
  ghost predicate SameIssue(tokens: seq<Token>, tokens': seq<Token>) {
    && |tokens'| == |tokens|
    && forall i :: 0 <= i < |tokens| ==> tokens'[i] == tokens[i].(used := tokens'[i].used, revoked := tokens'[i].revoked)
  }

  lemma {:induction false} SameIssueSameCount(tokens: seq<Token>, tokens': seq<Token>, user: Id, since: Time)
    requires SameIssue(tokens, tokens')
    ensures RecentTokens(tokens', user, since) == RecentTokens(tokens, user, since)
  {
    if tokens != [] {
      SameIssueSameCount(tokens[..|tokens| - 1], tokens'[..|tokens| - 1], user, since);
    }
  }

  lemma SameIssueStaysLimited(tokens: seq<Token>, tokens': seq<Token>)
    requires TokensAreLimited(tokens) && SameIssue(tokens, tokens')
    ensures TokensAreLimited(tokens')
  {
    forall i | 0 <= i < |tokens'| && tokens'[i].selfService
      ensures RecentTokens(tokens'[..i], tokens'[i].user, tokens'[i].created - QUARTER_HOUR) < MAX_RECENT_TOKENS
    {
      SameIssueSameCount(tokens[..i], tokens'[..i], tokens[i].user, tokens[i].created - QUARTER_HOUR);
    }
  }

  lemma OneMoreToken(tokens: seq<Token>, t: Token)
    requires TokensAreLimited(tokens)
    requires t.selfService ==> RecentTokens(tokens, t.user, t.created - QUARTER_HOUR) < MAX_RECENT_TOKENS
    ensures TokensAreLimited(tokens + [t])
  {
    hide RecentTokens;
    var more := tokens + [t];
    forall i | 0 <= i < |more| && more[i].selfService
      ensures RecentTokens(more[..i], more[i].user, more[i].created - QUARTER_HOUR) < MAX_RECENT_TOKENS
    {
      assert more[..i] == tokens[..i];
      if i == |tokens| { assert tokens[..i] == tokens; }
    }
  }

  lemma StepKeepsInv(w: World, step: Step)
    requires Inv(w) && ClockOk(w, step)
    ensures Inv(Apply(w, step))
  {
    hide BucketsCount, PassesAreLimited, TokensAreLimited, Limited, PassedAll, RecentTokens;
    match step
    case Request(now, source, identifier, candidate, stale) =>
      var w1 := Limited(w, now, source, identifier, stale);
      LimitedKeepsLimiter(w, now, source, identifier, stale);
      if candidate.Some? && RecentTokens(w1.tokens, candidate.value, now - QUARTER_HOUR) < MAX_RECENT_TOKENS {
        OneMoreToken(w1.tokens, Token(candidate.value, true, now, now + 3600, false, false));
      }
      SameBuckets(w1, Apply(w, step));
    case AdminIssue(now, user, hours) =>
      SameIssueStaysLimited(w.tokens, RevokedLive(w.tokens, user));
      OneMoreToken(RevokedLive(w.tokens, user), Token(user, false, now, now + 3600 * hours, false, false));
      SameBuckets(w, Apply(w, step));
    case Complete(now, n, eligible) =>
      if n < |w.tokens| {
        SameIssueStaysLimited(w.tokens, Spent(w.tokens, n));
      }
      SameBuckets(w, Apply(w, step));
  }

  lemma SameBuckets(w: World, w': World)
    requires w'.buckets == w.buckets && w'.hits == w.hits && w'.cleaned == w.cleaned
    ensures BucketsCount(w) ==> BucketsCount(w')
  {
  }

  // ---------------------------------------------------------------------------
  // Sliding windows
  // ---------------------------------------------------------------------------

  lemma {:induction false} PassesAreHits(hits: seq<Hit>, key: Key, from: Time, to: Time, since: Time)
    requires since < Minute(from)
    ensures PassesWithin(hits, key, from, to) <= HitsSince(hits, key, since)
  {
    if hits != [] {
      PassesAreHits(hits[..|hits| - 1], key, from, to, since);
    }
  }

  /** The window touches at most fifteen minute buckets. */
  predicate FifteenMinutes(from: Time, to: Time) {
    Minute(to) < Minute(from) + QUARTER_HOUR
  }

  /** No more than the limit pass in any such window; every closed span of fourteen minutes
      and every quarter of an hour that starts on a minute is one. */
  lemma {:induction false} PassesPerWindow(hits: seq<Hit>, key: Key, from: Time, to: Time)
    requires PassesAreLimited(hits) && FifteenMinutes(from, to)
    ensures PassesWithin(hits, key, from, to) <= Limit(key.kind)
  {
    hide PassesAreLimited, HitsSince, Limit;
    if hits != [] {
      var front, h := hits[..|hits| - 1], hits[|hits| - 1];
      EarlierPassesAreLimited(hits);
      PassesPerWindow(front, key, from, to);
      if h.key == key && h.passed && from <= h.at <= to {
        PassesAreHits(hits, key, from, to, h.at - QUARTER_HOUR);
      }
    }
  }

  lemma EarlierPassesAreLimited(hits: seq<Hit>)
    requires PassesAreLimited(hits) && hits != []
    ensures PassesAreLimited(hits[..|hits| - 1])
    ensures var h := hits[|hits| - 1]; h.passed ==> HitsSince(hits, h.key, h.at - QUARTER_HOUR) <= Limit(h.key.kind)
  {
    hide HitsSince, Limit;
    var front := hits[..|hits| - 1];
    assert hits[..|hits| - 1 + 1] == hits;
    forall i | 0 <= i < |front| && front[i].passed
      ensures HitsSince(front[..i + 1], front[i].key, front[i].at - QUARTER_HOUR) <= Limit(front[i].key.kind)
    {
      assert front[..i + 1] == hits[..i + 1];
    }
  }

  lemma {:induction false} WindowIsRecent(tokens: seq<Token>, user: Id, from: Time, to: Time, since: Time)
    requires since < from
    ensures TokensWithin(tokens, user, from, to) <= RecentTokens(tokens, user, since)
  {
    if tokens != [] {
      WindowIsRecent(tokens[..|tokens| - 1], user, from, to, since);
    }
  }

  /** No more than three self-service tokens of a user fall in any half-open quarter of an
      hour, even if transactions commit in another order than they are stamped. */
  lemma {:induction false} TokensPerWindow(tokens: seq<Token>, user: Id, from: Time)
    requires TokensAreLimited(tokens)
    ensures TokensWithin(tokens, user, from, from + QUARTER_HOUR) <= MAX_RECENT_TOKENS
  {
    if tokens != [] {
      var front, t := tokens[..|tokens| - 1], tokens[|tokens| - 1];
      forall i | 0 <= i < |front| && front[i].selfService
        ensures RecentTokens(front[..i], front[i].user, front[i].created - QUARTER_HOUR) < MAX_RECENT_TOKENS
      {
        assert front[..i] == tokens[..i];
      }
      TokensPerWindow(front, user, from);
      if t.selfService && t.user == user && from <= t.created < from + QUARTER_HOUR {
        WindowIsRecent(front, user, from, from + QUARTER_HOUR, t.created - QUARTER_HOUR);
      }
    }
  }

  // ---------------------------------------------------------------------------
  // Over whole runs
  // ---------------------------------------------------------------------------

  predicate ClockRun(w: World, steps: seq<Step>)
    decreases |steps|
  {
    steps == [] || (ClockOk(w, steps[0]) && ClockRun(Apply(w, steps[0]), steps[1..]))
  }

  lemma {:induction false} RunKeepsInv(w: World, steps: seq<Step>)
    requires Inv(w) && ClockRun(w, steps)
    ensures Inv(Run(w, steps))
    decreases |steps|
  {
    hide Inv, Apply;
    if steps != [] {
      StepKeepsInv(w, steps[0]);
      RunKeepsInv(Apply(w, steps[0]), steps[1..]);
    }
  }

  /** The two sliding limits, and no token is completed twice, in every reachable state. */
  lemma ResetLimitsHold(w: World, steps: seq<Step>, user: Id, key: Key, from: Time, to: Time)
    requires Inv(w) && ClockRun(w, steps)
    ensures TokensWithin(Run(w, steps).tokens, user, from, from + QUARTER_HOUR) <= MAX_RECENT_TOKENS
    ensures FifteenMinutes(from, to) ==> PassesWithin(Run(w, steps).hits, key, from, to) <= Limit(key.kind)
    ensures CompletedOnce(Run(w, steps))
  {
    hide Run, BucketsCount, PassesAreLimited, TokensAreLimited;
    RunKeepsInv(w, steps);
    TokensPerWindow(Run(w, steps).tokens, user, from);
    if FifteenMinutes(from, to) { PassesPerWindow(Run(w, steps).hits, key, from, to); }
  }

  /** Completing a reset takes a live, unexpired token, leaves its user no live token, and
      touches nobody else's. */
  lemma CompletionLeavesNoLiveToken(w: World, now: Time, n: nat, eligible: bool, i: nat)
    requires Apply(w, Complete(now, n, eligible)) != w
    requires i < |w.tokens|
    ensures n < |w.tokens| && Live(w.tokens[n]) && now < w.tokens[n].expires
    ensures var tokens := Apply(w, Complete(now, n, eligible)).tokens;
            && tokens[n].used && !tokens[n].revoked
            && (w.tokens[i].user == w.tokens[n].user ==> !Live(tokens[i]))
            && (w.tokens[i].user != w.tokens[n].user ==> tokens[i] == w.tokens[i])
  {
  }

  /** After an administrator issues one, it is the user's only live token. */
  lemma AdminTokenIsTheOnlyLiveOne(w: World, now: Time, user: Id, hours: nat, i: nat)
    requires i < |Apply(w, AdminIssue(now, user, hours)).tokens|
    ensures var tokens := Apply(w, AdminIssue(now, user, hours)).tokens;
            && (tokens[i].user == user && Live(tokens[i]) <==> i == |w.tokens|)
            && (i < |w.tokens| && w.tokens[i].user != user ==> tokens[i] == w.tokens[i])
  {
  }

  /** A token that is used or revoked never becomes live again. */
  lemma {:induction false} DeadTokensStayDead(w: World, steps: seq<Step>, i: nat)
    requires i < |w.tokens| && !Live(w.tokens[i])
    ensures i < |Run(w, steps).tokens| && !Live(Run(w, steps).tokens[i])
    decreases |steps|
  {
    if steps != [] {
      LimiterKeepsTokens(w, steps[0]);
      DeadTokensStayDead(Apply(w, steps[0]), steps[1..], i);
    }
  }

  lemma LimiterKeepsTokens(w: World, step: Step)
    ensures step.Request? ==> w.tokens <= Apply(w, step).tokens
  {
  }

  // ---------------------------------------------------------------------------
  // Which windows are limited
  // ---------------------------------------------------------------------------

  predicate TouchedBy(key: Key, source: string, identifier: string) {
    key == GLOBAL_KEY || key == Key(Source, source) || key == Key(Identifier, identifier)
  }

  /** What the limiter counts against the key at an instant. */
  function RecentAt(w: World, key: Key, now: Time): nat {
    Recent(w.buckets, key, now - QUARTER_HOUR)
  }

  predicate BelowLimit(w: World, key: Key, now: Time) {
    RecentAt(w, key, now) < Limit(key.kind)
  }

  /** A request below all three limits passes, and counts once against each. */
  lemma RequestBelowLimitsPasses(w: World, now: Time, source: string, identifier: string)
    requires BelowLimit(w, GLOBAL_KEY, now)
    requires BelowLimit(w, Key(Source, source), now) && BelowLimit(w, Key(Identifier, identifier), now)
    ensures var w' := Limited(w, now, source, identifier, {});
            && w'.hits == w.hits + [Hit(GLOBAL_KEY, now, true), Hit(Key(Source, source), now, true),
                                    Hit(Key(Identifier, identifier), now, true)]
            && forall key, since :: since >= now - DAY ==>
                 Recent(w'.buckets, key, since) == Recent(w.buckets, key, since) +
                 if TouchedBy(key, source, identifier) && Minute(now) > since then 1 else 0
  {
    hide Upserted, Swept, Recent, Minute, Current;
    var w1 := Consume(w, GLOBAL_KEY, now);
    var w2 := if Current(w1.buckets, GLOBAL_KEY, Minute(now)) == 1 then CleanUp(w1, now, {}) else w1;
    var w3 := Consume(w2, Key(Source, source), now);
    var w4 := Consume(w3, Key(Identifier, identifier), now);
    forall key, since | since >= now - DAY
      ensures Recent(w1.buckets, key, since)
        == Recent(w.buckets, key, since) + if key == GLOBAL_KEY && Minute(now) > since then 1 else 0
      ensures Recent(w2.buckets, key, since) == Recent(w1.buckets, key, since)
      ensures Recent(w3.buckets, key, since)
        == Recent(w2.buckets, key, since) + if key == Key(Source, source) && Minute(now) > since then 1 else 0
      ensures Recent(w4.buckets, key, since)
        == Recent(w3.buckets, key, since) + if key == Key(Identifier, identifier) && Minute(now) > since then 1 else 0
    {
      UpsertCounts(w.buckets, GLOBAL_KEY, Minute(now), key, since);
      SweepKeepsRecent(w1.buckets, now - DAY, {}, key, since);
      UpsertCounts(w2.buckets, Key(Source, source), Minute(now), key, since);
      UpsertCounts(w3.buckets, Key(Identifier, identifier), Minute(now), key, since);
    }
  }

  lemma OneHitMore(hits: seq<Hit>, h: Hit, key: Key, from: Time, to: Time)
    ensures PassesWithin(hits + [h], key, from, to)
      == PassesWithin(hits, key, from, to) + if h.key == key && h.passed && from <= h.at <= to then 1 else 0
  {
  }

  /** The n-th request of a crowd: it counts against the key, and otherwise against keys of
      its own. */
  function RequestFor(key: Key, n: nat, now: Time): Step {
    var own := seq(n, _ => 'x');
    Request(now, if key.kind.Source? then key.text else own, if key.kind.Identifier? then key.text else own, None, {})
  }

  /** As many as may pass, all at the first instant; and one more as soon as their minute is
      a quarter of an hour back. */
  function Crowd(key: Key, from: Time, n: nat): seq<Step>
    requires n <= Limit(key.kind)
    decreases Limit(key.kind) - n
  {
    if n == Limit(key.kind) then [RequestFor(key, n, Minute(from) + QUARTER_HOUR)]
    else [RequestFor(key, n, from)] + Crowd(key, from, n + 1)
  }

  /** Nothing has been asked before the window, and n requests of the crowd have passed. */
  ghost predicate Crowded(w: World, key: Key, from: Time, to: Time, n: nat) {
    && w.cleaned <= from - DAY
    && PassesWithin(w.hits, key, from, to) == n
    && (forall k :: RecentAt(w, k, from) <= n)
    && (forall k :: Recent(w.buckets, k, Minute(from)) == 0)
    && (forall k :: k != key && k != GLOBAL_KEY && |k.text| >= n ==> RecentAt(w, k, from) == 0)
  }

  /** A key the limiter uses: there is one global key. */
  predicate IsKey(key: Key) {
    key.kind.Global? ==> key == GLOBAL_KEY
  }

  lemma OneRequestMore(w: World, key: Key, n: nat, now: Time, from: Time, to: Time)
    requires IsKey(key) && from <= now <= to && w.cleaned <= now - DAY
    requires forall k :: k == key || k == GLOBAL_KEY || |k.text| == n ==> BelowLimit(w, k, now)
    ensures var w' := Apply(w, RequestFor(key, n, now));
            && ClockOk(w, RequestFor(key, n, now)) && w'.cleaned <= now - DAY
            && PassesWithin(w'.hits, key, from, to) == PassesWithin(w.hits, key, from, to) + 1
            && (forall k, since :: since >= now - DAY ==>
                 && Recent(w'.buckets, k, since) <= Recent(w.buckets, k, since) + 1
                 && (since >= Minute(now) || (k != key && k != GLOBAL_KEY && |k.text| != n) ==>
                      Recent(w'.buckets, k, since) == Recent(w.buckets, k, since)))
  {
    hide Recent, PassesWithin, Consume, CleanUp, Minute, Current;
    var Request(_, source, identifier, _, _) := RequestFor(key, n, now);
    var w' := Limited(w, now, source, identifier, {});
    RequestBelowLimitsPasses(w, now, source, identifier);
    ThreeHitsMore(w.hits, key, source, identifier, now, from, to);
    LimitedCleans(w, now, source, identifier);
  }

  lemma LimitedCleans(w: World, now: Time, source: string, identifier: string)
    requires w.cleaned <= now - DAY
    ensures Limited(w, now, source, identifier, {}).cleaned <= now - DAY
  {
    hide Upserted, Recent, Swept, Current, Minute;
  }

  lemma ThreeHitsMore(hits: seq<Hit>, key: Key, source: string, identifier: string, now: Time, from: Time, to: Time)
    requires IsKey(key) && TouchedBy(key, source, identifier) && from <= now <= to
    ensures PassesWithin(hits + [Hit(GLOBAL_KEY, now, true), Hit(Key(Source, source), now, true),
                                 Hit(Key(Identifier, identifier), now, true)], key, from, to)
      == PassesWithin(hits, key, from, to) + 1
  {
    var g, s, i := Hit(GLOBAL_KEY, now, true), Hit(Key(Source, source), now, true), Hit(Key(Identifier, identifier), now, true);
    assert hits + [g, s, i] == hits + [g] + [s] + [i];
    OneHitMore(hits, g, key, from, to);
    OneHitMore(hits + [g], s, key, from, to);
    OneHitMore(hits + [g] + [s], i, key, from, to);
  }

  lemma {:induction false} CrowdPasses(w: World, key: Key, from: Time, to: Time, n: nat)
    requires IsKey(key) && !FifteenMinutes(from, to) && n <= Limit(key.kind) && Crowded(w, key, from, to, n)
    ensures ClockRun(w, Crowd(key, from, n))
    ensures PassesWithin(Run(w, Crowd(key, from, n)).hits, key, from, to) == Limit(key.kind) + 1
    decreases Limit(key.kind) - n
  {
    hide Recent, PassesWithin, Apply, ClockOk;
    var crowd := Crowd(key, from, n);
    if n == Limit(key.kind) {
      OneRequestMore(w, key, n, Minute(from) + QUARTER_HOUR, from, to);
      assert Run(Apply(w, crowd[0]), crowd[1..]) == Apply(w, crowd[0]);
    } else {
      forall k | k == key || k == GLOBAL_KEY || |k.text| == n ensures BelowLimit(w, k, from) {
        assert RecentAt(w, k, from) <= n;
      }
      OneRequestMore(w, key, n, from, from, to);
      assert crowd[1..] == Crowd(key, from, n + 1);
      forall k ensures RecentAt(Apply(w, crowd[0]), k, from) <= RecentAt(w, k, from) + 1 {}
      CrowdPasses(Apply(w, crowd[0]), key, from, to, n + 1);
    }
  }

  lemma QuietIsCrowdedByNone(key: Key, from: Time, to: Time)
    ensures Inv(World([], [], from - DAY, [], [])) && Crowded(World([], [], from - DAY, [], []), key, from, to, 0)
  {
  }

  /** The limit holds in a window over every run exactly when the window touches at most
      fifteen minute buckets: in any longer one, whatever the key, one request too many
      can pass. */
  lemma WindowIsLimitedIff(key: Key, from: Time, to: Time)
    requires IsKey(key)
    ensures FifteenMinutes(from, to) <==>
            forall w, steps :: Inv(w) && ClockRun(w, steps) ==> PassesWithin(Run(w, steps).hits, key, from, to) <= Limit(key.kind)
  {
    hide Run, Inv, ClockRun, PassesWithin, Limit;
    if FifteenMinutes(from, to) {
      forall w, steps | Inv(w) && ClockRun(w, steps) ensures PassesWithin(Run(w, steps).hits, key, from, to) <= Limit(key.kind) {
        ResetLimitsHold(w, steps, 0, key, from, to);
      }
    } else {
      QuietIsCrowdedByNone(key, from, to);
      CrowdPasses(World([], [], from - DAY, [], []), key, from, to, 0);
    }
  }
}
