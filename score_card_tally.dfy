/** The tally handler: given a team, sums the weights of the flags whose
    claims currently count, behind a per-team score cache and a flag-list
    cache, each with a lifetime that a request may overwrite. */
module ScoreCardTally {
  import opened PyValue
  import opened ScoreTables

  // ---------------------------------------------------------------------------
  // Flag validity

  /** The validity regime a flag row selects. */
  datatype Regime =
    | Unweighted
    | Durable
    | RevocableAlive(timeout: real)
    | RevocableDead(timeout: real)

  function RegimeOf(flag: Flag): Regime {
    if flag.weight.None? then Unweighted
    else if flag.timeout.None? then Durable
    else if flag.yes.None? || flag.yes.value then RevocableAlive(flag.timeout.value)
    else RevocableDead(flag.timeout.value)
  }

  /** Whether a claim last seen at `lastSeen` counts at time `now`: durable
      claims always, revocable-alive ones while fresh, revocable-dead ones
      once they have aged past the timeout. */
  predicate CountsAt(regime: Regime, lastSeen: real, now: real) {
    match regime
    case Unweighted => false
    case Durable => true
    case RevocableAlive(t) => lastSeen >= now - t
    case RevocableDead(t) => lastSeen <= now - t
  }

  /** `score_flag`: the flag's weight when the team's claim on it currently counts. */
  function ScoreFlag(claims: map<ClaimKey, real>, team: int, flag: Flag, now: real): (r: Option<real>)
    ensures r.Some? <==> (team, flag.name) in claims && CountsAt(RegimeOf(flag), claims[(team, flag.name)], now)
    ensures r.Some? ==> flag.weight == Some(r.value)
  {
    var key := (team, flag.name);
    if key in claims then
      if flag.weight.None? then None
      else
        var weight := flag.weight.value;
        if flag.timeout.Some? then
          var timeout := flag.timeout.value;
          var lastSeen := claims[key];
          if flag.yes.None? || flag.yes.value then
            if lastSeen < now - timeout then None else Some(weight)
          else
            if lastSeen > now - timeout then None else Some(weight)
        else Some(weight)
    else None
  }

  function Contribution(s: Option<real>): real {
    if s.Some? then s.value else 0.0
  }

  /** The score the handler's loop accumulates over a flag list. */
  function TeamScore(claims: map<ClaimKey, real>, team: int, flags: seq<Flag>, now: real): real {
    if flags == [] then 0.0
    else TeamScore(claims, team, flags[..|flags| - 1], now)
         + Contribution(ScoreFlag(claims, team, flags[|flags| - 1], now))
  }

  /** The flags with a `weight` attribute, in order. */
  function Weighted(flags: seq<Flag>): (r: seq<Flag>)
    ensures forall i :: 0 <= i < |r| ==> r[i].weight.Some?
    ensures forall f :: f in r <==> f in flags && f.weight.Some?
    ensures |r| <= |flags|
  {
    if flags == [] then []
    else Weighted(flags[..|flags| - 1])
         + (if flags[|flags| - 1].weight.Some? then [flags[|flags| - 1]] else [])
  }

  /** Filtering keeps the order: the weighted flags of a concatenation are
      those of the first part followed by those of the second. */
  lemma {:induction false} WeightedDistributes(a: seq<Flag>, b: seq<Flag>)
    ensures Weighted(a + b) == Weighted(a) + Weighted(b)
  {
    if b != [] {
      var n := |b| - 1;
      assert (a + b)[..|a + b| - 1] == a + b[..n];
      WeightedDistributes(a, b[..n]);
    } else {
      assert a + b == a;
    }
  }

  // ---------------------------------------------------------------------------
  // The four regimes, one lemma each

  /** A flag the team never claimed scores nothing. */
  lemma UnclaimedScoresNothing(claims: map<ClaimKey, real>, team: int, flag: Flag, now: real)
    requires (team, flag.name) !in claims
    ensures ScoreFlag(claims, team, flag, now) == None
  {
  }

  /** A claimed flag without a weight scores nothing, whatever its timeout or claim time. */
  lemma UnweightedScoresNothing(claims: map<ClaimKey, real>, team: int, flag: Flag, now: real)
    requires flag.weight.None?
    ensures ScoreFlag(claims, team, flag, now) == None
  {
  }

  /** A weighted flag without a timeout scores its weight once claimed, at any time. */
  lemma DurableScoresWeight(claims: map<ClaimKey, real>, team: int, flag: Flag, now: real)
    requires flag.weight.Some? && flag.timeout.None? && (team, flag.name) in claims
    ensures ScoreFlag(claims, team, flag, now) == flag.weight
  {
  }

  /** Revocable-alive: scores exactly while `last_seen >= now - timeout`. */
  lemma AliveScoresWhileFresh(claims: map<ClaimKey, real>, team: int, flag: Flag, now: real)
    requires flag.weight.Some? && flag.timeout.Some? && flag.yes != Some(false)
    requires (team, flag.name) in claims
    ensures ScoreFlag(claims, team, flag, now) == flag.weight
            <==> claims[(team, flag.name)] >= now - flag.timeout.value
  {
  }

  /** Revocable-dead: scores exactly once `last_seen <= now - timeout`. */
  lemma DeadScoresOnceAged(claims: map<ClaimKey, real>, team: int, flag: Flag, now: real)
    requires flag.weight.Some? && flag.timeout.Some? && flag.yes == Some(false)
    requires (team, flag.name) in claims
    ensures ScoreFlag(claims, team, flag, now) == flag.weight
            <==> claims[(team, flag.name)] <= now - flag.timeout.value
  {
  }

  /** A claim made at `claimed` and read at `later`: an alive flag counts up
      to and including the moment its timeout has elapsed, a dead flag from
      that moment on. */
  lemma ClaimOverTime(claims: map<ClaimKey, real>, team: int, flag: Flag, claimed: real, later: real)
    requires flag.weight.Some? && flag.timeout.Some?
    ensures var c := claims[(team, flag.name) := claimed];
            var t := flag.timeout.value;
            && (flag.yes != Some(false) ==> (ScoreFlag(c, team, flag, later).Some? <==> later <= claimed + t))
            && (flag.yes == Some(false) ==> (ScoreFlag(c, team, flag, later).Some? <==> later >= claimed + t))
  {
  }

  // ---------------------------------------------------------------------------
  // The summation

  lemma TeamScoreSnoc(claims: map<ClaimKey, real>, team: int, flags: seq<Flag>, f: Flag, now: real)
    ensures TeamScore(claims, team, flags + [f], now)
            == TeamScore(claims, team, flags, now) + Contribution(ScoreFlag(claims, team, f, now))
  {
    assert (flags + [f])[..|flags|] == flags;
  }

  /** A team with no claims on any listed flag scores 0.0. */
  lemma {:induction false} NothingClaimedScoresZero(claims: map<ClaimKey, real>, team: int, flags: seq<Flag>, now: real)
    requires forall i :: 0 <= i < |flags| ==> (team, flags[i].name) !in claims
    ensures TeamScore(claims, team, flags, now) == 0.0
  {
    if flags != [] {
      NothingClaimedScoresZero(claims, team, flags[..|flags| - 1], now);
    }
  }

  /** Only flags with a weight ever contribute to the score. */
  lemma {:induction false} OnlyWeightedFlagsCount(claims: map<ClaimKey, real>, team: int, flags: seq<Flag>, now: real)
    ensures TeamScore(claims, team, flags, now) == TeamScore(claims, team, Weighted(flags), now)
  {
    if flags != [] {
      var init, last := flags[..|flags| - 1], flags[|flags| - 1];
      OnlyWeightedFlagsCount(claims, team, init, now);
      if last.weight.Some? {
        TeamScoreSnoc(claims, team, Weighted(init), last, now);
      } else {
        assert Weighted(flags) == Weighted(init) + [];
        assert Weighted(init) + [] == Weighted(init);
      }
    }
  }

  /** When every flag is durable or unweighted, the score does not depend on the time. */
  lemma {:induction false} DurableScoreIsTimeless(claims: map<ClaimKey, real>, team: int, flags: seq<Flag>, now: real, now': real)
    requires forall i :: 0 <= i < |flags| ==> flags[i].timeout.None?
    ensures TeamScore(claims, team, flags, now) == TeamScore(claims, team, flags, now')
  {
    if flags != [] {
      DurableScoreIsTimeless(claims, team, flags[..|flags| - 1], now, now');
    }
  }

  /** Claims of other teams, and on flags not listed, do not affect a team's score. */
  lemma {:induction false} ScoreReadsOnlyOwnClaims(c1: map<ClaimKey, real>, c2: map<ClaimKey, real>, team: int, flags: seq<Flag>, now: real)
    requires forall i :: 0 <= i < |flags| ==>
      ((team, flags[i].name) in c1 <==> (team, flags[i].name) in c2)
      && ((team, flags[i].name) in c1 ==> c1[(team, flags[i].name)] == c2[(team, flags[i].name)])
    ensures TeamScore(c1, team, flags, now) == TeamScore(c2, team, flags, now)
  {
    if flags != [] {
      ScoreReadsOnlyOwnClaims(c1, c2, team, flags[..|flags| - 1], now);
    }
  }

  /** Recording a claim on flag `k` of a list with distinct names changes the
      team's score by exactly the change in that one flag's contribution. */
  lemma {:induction false} ClaimChangesOneTerm(claims: map<ClaimKey, real>, team: int, flags: seq<Flag>, k: nat, t: real, now: real)
    requires k < |flags| && DistinctNames(flags)
    ensures var c := claims[(team, flags[k].name) := t];
            TeamScore(c, team, flags, now)
            == TeamScore(claims, team, flags, now)
               + Contribution(ScoreFlag(c, team, flags[k], now))
               - Contribution(ScoreFlag(claims, team, flags[k], now))
  {
    var c := claims[(team, flags[k].name) := t];
    var init := flags[..|flags| - 1];
    if k == |flags| - 1 {
      ScoreReadsOnlyOwnClaims(c, claims, team, init, now);
    } else {
      assert DistinctNames(init);
      assert flags[|flags| - 1].name != flags[k].name;
      ClaimChangesOneTerm(claims, team, init, k, t, now);
    }
  }

  /** Claiming an unclaimed durable flag raises the team's score by its weight. */
  lemma DurableClaimAddsWeight(claims: map<ClaimKey, real>, team: int, flags: seq<Flag>, k: nat, t: real, now: real)
    requires k < |flags| && DistinctNames(flags)
    requires flags[k].weight.Some? && flags[k].timeout.None? && (team, flags[k].name) !in claims
    ensures TeamScore(claims[(team, flags[k].name) := t], team, flags, now)
            == TeamScore(claims, team, flags, now) + flags[k].weight.value
  {
    ClaimChangesOneTerm(claims, team, flags, k, t, now);
  }

  /** The handler's loop: adds up the flag scores over the cached flag list. */
  method SumScores(claims: map<ClaimKey, real>, team: int, flags: seq<Flag>, now: real) returns (score: real)
    ensures score == TeamScore(claims, team, flags, now)
  {
    score := 0.0;
    var i := 0;
    while i < |flags|
      invariant 0 <= i <= |flags|
      invariant score == TeamScore(claims, team, flags[..i], now)
    {
      var flagScore := ScoreFlag(claims, team, flags[i], now);
      if flagScore.Some? {
        score := score + flagScore.value;
      }
      assert flags[..i + 1] == flags[..i] + [flags[i]];
      TeamScoreSnoc(claims, team, flags[..i], flags[i], now);
      i := i + 1;
    }
    assert flags[..i] == flags;
  }

  // ---------------------------------------------------------------------------
  // The handler and its caches

  datatype CacheEntry = CacheEntry(score: real, time: real)

  datatype TallyResponse =
    | Score(team: int, score: real)
    | ClientError(messages: seq<string>)
    | Raised(exc: Exception)

  /** A cached score is served while its time is later than `now - timeout`. */
  predicate CacheFresh(cache: map<int, CacheEntry>, timeout: real, team: int, now: real) {
    team in cache && cache[team].time > now - timeout
  }

  /** The module state of the tally handler: `TEAM_SCORE_CACHE`, `FLAGS_DATA`
      and whether the table handles exist. */
  class TallyService {
    var tablesReady: bool
    var scoreCacheTimeout: real
    var scoreCache: map<int, CacheEntry>
    var checkInterval: real
    var checkTime: real
    var flags: seq<Flag>

    constructor ()
      ensures !tablesReady && scoreCacheTimeout == 30.0 && scoreCache == map[]
      ensures checkInterval == 30.0 && flags == []
    {
      tablesReady := false;
      scoreCacheTimeout := 30.0;
      scoreCache := map[];
      checkInterval := 30.0;
      checkTime := 0.0;
      flags := [];
    }

    /** `__module_init`: on first use, open the tables and prime the flag cache
        with a scan taken at `now`. The backend is read only then, so a later
        change of `KeyValueBackend` is not noticed. */
    method ModuleInit(event: map<string, Value>, flagStore: seq<Flag>, now: real) returns (ok: bool)
      modifies this
      ensures ok == (old(tablesReady) || "KeyValueBackend" in event)
      ensures tablesReady == (old(tablesReady) || ok)
      ensures if !old(tablesReady) && ok then checkTime == now && flags == flagStore
              else checkTime == old(checkTime) && flags == old(flags)
      ensures scoreCacheTimeout == old(scoreCacheTimeout) && scoreCache == old(scoreCache)
      ensures checkInterval == old(checkInterval)
    {
      if tablesReady {
        return true;
      }
      if "KeyValueBackend" !in event {
        return false;
      }
      tablesReady := true;
      checkTime := now;
      flags := flagStore;
      ok := true;
    }

    /** `update_flag_data`: rescan when the cache is due, then return the cached list. */
    method UpdateFlagData(flagStore: seq<Flag>, now: real) returns (current: seq<Flag>)
      modifies this`flags, this`checkTime
      ensures if RescanDue(old(checkTime), checkInterval, now)
              then flags == flagStore && checkTime == now
              else flags == old(flags) && checkTime == old(checkTime)
      ensures current == flags
    {
      if now > checkTime + checkInterval {
        flags := flagStore;
        checkTime := now;
      }
      current := flags;
    }

    /** `lambda_handler`: `flagStore` is what a scan of the flags table returns,
        `scores` the claims table, `now` the clock. */
    method LambdaHandler(event: map<string, Value>, flagStore: seq<Flag>, scores: ScoresTable, now: real)
      returns (r: TallyResponse)
      modifies this
      ensures scoreCacheTimeout == Overridden(old(scoreCacheTimeout), FloatField(event, "ScoreCacheLifetime"))
      ensures checkInterval == Overridden(old(checkInterval), FloatField(event, "FlagCacheLifetime"))
      // a first call without a backend fails before anything is read
      ensures !old(tablesReady) && "KeyValueBackend" !in event ==>
        r == Raised(KeyError) && !tablesReady && flags == old(flags) && scoreCache == old(scoreCache)
        && checkTime == old(checkTime)
      // otherwise the flag cache is primed or refreshed first, whatever the team
      ensures old(tablesReady) || "KeyValueBackend" in event ==>
        tablesReady &&
        (if !old(tablesReady) then flags == flagStore && checkTime == now
         else if RescanDue(old(checkTime), checkInterval, now) then flags == flagStore && checkTime == now
         else flags == old(flags) && checkTime == old(checkTime))
      ensures (old(tablesReady) || "KeyValueBackend" in event) && ParseTeam(event).IntRaises? ==>
        scoreCache == old(scoreCache) &&
        r == (if ParseTeam(event).exc == TypeError then Raised(TypeError) else ClientError([TeamMessage]))
      ensures (old(tablesReady) || "KeyValueBackend" in event) && ParseTeam(event).IntOk? ==>
        var team := ParseTeam(event).n;
        if CacheFresh(old(scoreCache), scoreCacheTimeout, team, now) then
          r == Score(team, old(scoreCache)[team].score) && scoreCache == old(scoreCache)
        else
          var score := TeamScore(scores.claims, team, flags, now);
          r == Score(team, score) && scoreCache == old(scoreCache)[team := CacheEntry(score, now)]
    {
      var lifetime := FloatField(event, "ScoreCacheLifetime");
      if lifetime.Some? {
        scoreCacheTimeout := lifetime.value;
      }
      var interval := FloatField(event, "FlagCacheLifetime");
      if interval.Some? {
        checkInterval := interval.value;
      }

      var ok := ModuleInit(event, flagStore, now);
      if !ok {
        return Raised(KeyError);
      }
      var flagData := UpdateFlagData(flagStore, now);

      var parsed := ParseTeam(event);
      if parsed.IntRaises? {
        if parsed.exc == TypeError {
          return Raised(TypeError);
        }
        return ClientError([TeamMessage]);
      }
      var team := parsed.n;

      if team in scoreCache && scoreCache[team].time > now - scoreCacheTimeout {
        return Score(team, scoreCache[team].score);
      }

      var score := SumScores(scores.claims, team, flagData, now);
      scoreCache := scoreCache[team := CacheEntry(score, now)];
      r := Score(team, score);
    }
  }
}
