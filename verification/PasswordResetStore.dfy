/** Password recovery as it runs on its tables. */
module PasswordResetStore {
  import opened Basics
  import opened PasswordReset

  class Store {
    var buckets: seq<Bucket>
    var hits: seq<Hit>
    var cleaned: Time
    var tokens: seq<Token>
    var completed: seq<nat>

    function View(): World
      reads this
    {
      World(buckets, hits, cleaned, tokens, completed)
    }

    constructor (w: World)
      ensures View() == w
    {
      buckets, hits, cleaned, tokens, completed := w.buckets, w.hits, w.cleaned, w.tokens, w.completed;
    }

    /** Counts the request on the key's bucket of this minute, and reads what is recent: every
        request of the quarter of an hour, however many clean-ups there have been. */
    method ConsumeBucket(key: Key, now: Time) returns (current: nat, recent: nat)
      modifies this`buckets, this`hits
      ensures View() == Consume(old(View()), key, now)
      ensures current == Current(buckets, key, Minute(now))
      ensures recent == Recent(buckets, key, now - QUARTER_HOUR)
      ensures LimiterOk(old(View())) && cleaned <= now - QUARTER_HOUR ==>
                LimiterOk(View()) && recent == HitsSince(hits, key, now - QUARTER_HOUR)
    {
      if LimiterOk(View()) && cleaned <= now - QUARTER_HOUR { ConsumeKeepsLimiter(View(), key, now); }
      buckets := Upserted(buckets, key, Minute(now));
      current := Current(buckets, key, Minute(now));
      recent := Recent(buckets, key, now - QUARTER_HOUR);
      hits := hits + [Hit(key, now, recent <= Limit(key.kind))];
    }

    /** The three limits in turn; the first request of a minute also cleans up. */
    method PassLimits(now: Time, source: string, identifier: string, stale: set<Bucket>) returns (passed: bool)
      modifies this`buckets, this`hits, this`cleaned
      ensures View() == Limited(old(View()), now, source, identifier, stale)
      ensures passed <==> PassedAll(old(View()), View())
    {
      hide Recent, Current, Upserted, Swept, Minute, LimiterOk, HitsSince;
      var current, recent := ConsumeBucket(GLOBAL_KEY, now);
      if current == 1 {
        buckets := Swept(buckets, now - DAY, stale);
        cleaned := if cleaned < now - DAY then now - DAY else cleaned;
      }
      if recent > 300 { return false; }
      current, recent := ConsumeBucket(Key(Source, source), now);
      if recent > 20 { return false; }
      current, recent := ConsumeBucket(Key(Identifier, identifier), now);
      passed := recent <= 3;
    }

    method RequestPasswordReset(now: Time, source: string, identifier: string, candidate: Option<Id>, stale: set<Bucket>)
      modifies this
      ensures View() == Apply(old(View()), Request(now, source, identifier, candidate, stale))
    {
      hide Limited, PassedAll, RecentTokens;
      var passed := PassLimits(now, source, identifier, stale);
      if !passed || candidate.None? { return; }
      var issued := CountRecent(candidate.value, now - QUARTER_HOUR);
      if issued >= 3 { return; }
      tokens := tokens + [Token(candidate.value, true, now, now + 3600, false, false)];
    }

    method CountRecent(user: Id, since: Time) returns (n: nat)
      ensures n == RecentTokens(tokens, user, since)
    {
      n := 0;
      for i := 0 to |tokens|
        invariant n == RecentTokens(tokens[..i], user, since)
      {
        assert tokens[..i + 1][..i] == tokens[..i];
        if tokens[i].selfService && tokens[i].user == user && tokens[i].created > since { n := n + 1; }
      }
      assert tokens[..|tokens|] == tokens;
    }

    /** An administrator's token replaces every live token of the user. */
    method IssueByAdmin(now: Time, user: Id, hours: nat)
      modifies this`tokens
      ensures View() == Apply(old(View()), AdminIssue(now, user, hours))
    {
      tokens := RevokedLive(tokens, user) + [Token(user, false, now, now + 3600 * hours, false, false)];
    }

    /** eligible stands for the user, membership and tenant being active, and for an
        administrator's token the user having this one membership still. */
    method CompletePasswordReset(now: Time, n: nat, eligible: bool) returns (ok: bool)
      modifies this`tokens, this`completed
      ensures View() == Apply(old(View()), Complete(now, n, eligible))
      ensures ok <==> n < |old(tokens)| && Live(old(tokens)[n]) && now < old(tokens)[n].expires && eligible
      ensures if ok then completed == old(completed) + [n] && |tokens| == |old(tokens)| && tokens[n].used
              else View() == old(View())
      ensures ok ==> forall i :: 0 <= i < |tokens| ==>
                if old(tokens)[i].user == tokens[n].user then !Live(tokens[i]) else tokens[i] == old(tokens)[i]
      ensures CompletedOnce(old(View())) ==> CompletedOnce(View())
    {
      if n >= |tokens| || tokens[n].used || tokens[n].revoked || tokens[n].expires <= now || !eligible { return false; }
      tokens := Spent(tokens, n);
      completed := completed + [n];
      ok := true;
    }
  }
}
