/** The submission handler: validates a claim of a flag by a team, looks the
    flag up in the cached flag list, checks the per-team `auth_key`, and on
    success records the claim time. */
module ScoreCardSubmit {
  import opened PyValue
  import opened ScoreTables

  /** Appended after the team message when both checks fail. */
  const FlagMessage := "\"flag\" key must exist"
  /** The message when only the flag is missing (the source's text lacks one quote). */
  const LoneFlagMessage := "\"flag key must exist"

  datatype SubmitResponse =
    | ClientError(messages: seq<string>)
    | ValidFlag(valid: bool)
    | Raised(exc: Exception)

  /** What the handler concludes from the event and the cached flag list. */
  datatype Decision =
    | Invalid(messages: seq<string>)
    | Crash(exc: Exception)
    | Unknown
    | Denied
    | Accepted(team: int, flag: string)

  // ---------------------------------------------------------------------------
  // Validation

  /** The `client_error` list: a team message if `team` is missing or not
      integral, then a flag message if `flag` is missing. */
  function ValidationErrors(event: map<string, Value>): seq<string> {
    var teamBad := ParseTeam(event).IntRaises?;
    var flagMissing := "flag" !in event;
    (if teamBad then [TeamMessage] else [])
    + (if flagMissing then (if teamBad then [FlagMessage] else [LoneFlagMessage]) else [])
  }

  /** Errors are collected, not short-circuited: one entry per failed check. */
  lemma ErrorsAreCollected(event: map<string, Value>)
    ensures |ValidationErrors(event)|
            == (if ParseTeam(event).IntRaises? then 1 else 0) + (if "flag" !in event then 1 else 0)
  {
  }

  /** The event as the handler leaves it: `event['team']` replaced by the
      parsed integer, or by `None` when it was missing or unparseable. */
  function WithParsedTeam(event: map<string, Value>): (e: map<string, Value>)
    requires ParseTeam(event).IntOk? || ParseTeam(event).exc != TypeError
    ensures e.Keys == event.Keys + {"team"}
    ensures forall k :: k in event && k != "team" ==> e[k] == event[k]
    ensures e["team"] == if ParseTeam(event).IntOk? then VInt(ParseTeam(event).n) else VNone
  {
    match ParseTeam(event)
    case IntOk(n) => event["team" := VInt(n)]
    case IntRaises(_) => event["team" := VNone]
  }

  /** An integer team and its decimal string are accepted alike and both
      leave the integer in the event. */
  lemma IntegralTeamsAccepted(event: map<string, Value>, n: int)
    ensures ParseTeam(event["team" := VInt(n)]) == IntOk(n)
    ensures ParseTeam(event["team" := VStr(IntToStr(n))]) == IntOk(n)
    ensures WithParsedTeam(event["team" := VStr(IntToStr(n))])["team"] == VInt(n)
  {
    IntToStrRoundTrip(n);
    TeamParsedFrom(event, VInt(n));
    TeamParsedFrom(event, VStr(IntToStr(n)));
  }

  lemma TeamParsedFrom(event: map<string, Value>, v: Value)
    ensures ParseTeam(event["team" := v]) == IntOf(v)
  {
  }

  // ---------------------------------------------------------------------------
  // Lookup and authorisation

  /** The first flag of the list whose name is exactly `name`. */
  function FirstNamed(flags: seq<Flag>, name: string): (r: Option<nat>)
    ensures r.None? <==> forall i :: 0 <= i < |flags| ==> flags[i].name != name
    ensures r.Some? ==> r.value < |flags| && flags[r.value].name == name
                        && forall i :: 0 <= i < r.value ==> flags[i].name != name
  {
    if flags == [] then None
    else if flags[0].name == name then Some(0)
    else match FirstNamed(flags[1..], name)
      case None => None
      case Some(k) => Some(k + 1)
  }

  /** A flag with an `auth_key` map is claimable only by a team listed in it
      (under the team's decimal form) that presents exactly the listed key. */
  predicate Authorised(flag: Flag, event: map<string, Value>, team: int) {
    flag.authKey.Some? ==>
      "auth_key" in event
      && IntToStr(team) in flag.authKey.value
      && event["auth_key"] == flag.authKey.value[IntToStr(team)]
  }

  /** The decision the handler takes, from validation to the auth check. */
  function Decide(event: map<string, Value>, flags: seq<Flag>): (d: Decision)
    ensures d.Invalid? <==> ParseTeam(event) != IntRaises(TypeError) && ValidationErrors(event) != []
    ensures d.Invalid? ==> d.messages == ValidationErrors(event)
    ensures d.Crash? <==> ParseTeam(event) == IntRaises(TypeError)
    ensures d.Accepted? <==>
      && ParseTeam(event).IntOk?
      && "flag" in event
      && StrOf(event["flag"]).Some?
      && FirstNamed(flags, StrOf(event["flag"]).value).Some?
      && Authorised(flags[FirstNamed(flags, StrOf(event["flag"]).value).value], event, ParseTeam(event).n)
    ensures d.Accepted? ==> d.team == ParseTeam(event).n && d.flag == StrOf(event["flag"]).value
  {
    var parsed := ParseTeam(event);
    if parsed == IntRaises(TypeError) then Crash(TypeError)
    else
      var errors := ValidationErrors(event);
      if errors != [] then Invalid(errors)
      else
        var team := parsed.n;
        match StrOf(event["flag"])
        case None => Unknown
        case Some(name) =>
          match FirstNamed(flags, name)
          case None => Unknown
          case Some(k) =>
            if Authorised(flags[k], event, team) then Accepted(team, name) else Denied
  }

  /** Any validation failure is reported together and is never accepted. */
  lemma InvalidNeverAccepted(event: map<string, Value>, flags: seq<Flag>)
    requires ParseTeam(event).IntRaises? || "flag" !in event
    ensures !Decide(event, flags).Accepted?
    ensures ParseTeam(event) != IntRaises(TypeError) ==>
      Decide(event, flags) == Invalid(ValidationErrors(event))
  {
  }

  /** A flag name with no exact match in the list is reported as not valid. */
  lemma UnknownFlagRejected(event: map<string, Value>, flags: seq<Flag>)
    requires ParseTeam(event).IntOk? && "flag" in event && event["flag"].VStr?
    requires forall i :: 0 <= i < |flags| ==> flags[i].name != event["flag"].s
    ensures Decide(event, flags) == Unknown
  {
  }

  /** For an auth-gated flag, the claim is accepted exactly when the request
      carries `auth_key`, the team is listed, and the key matches its entry. */
  lemma AuthGateExact(event: map<string, Value>, flags: seq<Flag>, k: nat)
    requires ParseTeam(event).IntOk? && "flag" in event && event["flag"].VStr?
    requires k < |flags| && flags[k].name == event["flag"].s
    requires forall i :: 0 <= i < k ==> flags[i].name != event["flag"].s
    requires flags[k].authKey.Some?
    ensures var team := IntToStr(ParseTeam(event).n);
            var keys := flags[k].authKey.value;
            Decide(event, flags).Accepted?
            <==> "auth_key" in event && team in keys && event["auth_key"] == keys[team]
    ensures !Decide(event, flags).Accepted? ==> Decide(event, flags) == Denied
  {
    var r := FirstNamed(flags, event["flag"].s);
    assert r == Some(k);
  }

  /** A team not listed in a flag's `auth_key` map can never claim it, whatever key it sends. */
  lemma UnlistedTeamDenied(event: map<string, Value>, flags: seq<Flag>, k: nat, key: Value)
    requires ParseTeam(event).IntOk? && "flag" in event && event["flag"].VStr?
    requires k < |flags| && flags[k].name == event["flag"].s
    requires forall i :: 0 <= i < k ==> flags[i].name != event["flag"].s
    requires flags[k].authKey.Some? && IntToStr(ParseTeam(event).n) !in flags[k].authKey.value
    ensures Decide(event["auth_key" := key], flags) == Denied
  {
    var e := event["auth_key" := key];
    assert ParseTeam(e) == ParseTeam(event);
    AuthGateExact(e, flags, k);
  }

  // ---------------------------------------------------------------------------
  // The write

  /** The response to a decision. The update is issued on the scores table
      only when the backend is DynamoDB: the S3 table has no `update_item`. */
  function Respond(d: Decision, backend: Value): SubmitResponse {
    match d
    case Invalid(messages) => ClientError(messages)
    case Crash(exc) => Raised(exc)
    case Unknown => ValidFlag(false)
    case Denied => ValidFlag(false)
    case Accepted(_, _) => if backend == VStr("DynamoDB") then ValidFlag(true) else Raised(AttributeError)
  }

  /** The claims after the decision: one upsert of `last_seen := now` when accepted. */
  function ClaimsAfter(claims: map<ClaimKey, real>, d: Decision, backend: Value, now: real): (c: map<ClaimKey, real>)
    ensures c.Keys <= claims.Keys + (if d.Accepted? then {(d.team, d.flag)} else {})
    ensures forall k :: k in claims && (!d.Accepted? || k != (d.team, d.flag)) ==> k in c && c[k] == claims[k]
  {
    if d.Accepted? && backend == VStr("DynamoDB") then claims[(d.team, d.flag) := now] else claims
  }

  /** Exactly one claim is written on success, setting its `last_seen` to
      `now`, and nothing is written otherwise. */
  lemma WriteIffAccepted(claims: map<ClaimKey, real>, d: Decision, backend: Value, now: real)
    ensures Respond(d, backend) == ValidFlag(true)
            ==> ClaimsAfter(claims, d, backend, now) == claims[(d.team, d.flag) := now]
    ensures Respond(d, backend) != ValidFlag(true) ==> ClaimsAfter(claims, d, backend, now) == claims
  {
  }

  /** A repeated successful claim overwrites `last_seen`: the later time wins. */
  lemma RepeatedClaimOverwrites(claims: map<ClaimKey, real>, d: Decision, backend: Value, t1: real, t2: real)
    requires Respond(d, backend) == ValidFlag(true)
    ensures ClaimsAfter(ClaimsAfter(claims, d, backend, t1), d, backend, t2)
            == ClaimsAfter(claims, d, backend, t2)
    ensures ClaimsAfter(claims, d, backend, t2)[(d.team, d.flag)] == t2
  {
  }

  // ---------------------------------------------------------------------------
  // The handler and its module state

  /** The module state of the submission handler: `BACKEND_TYPE`, whether the
      table handles exist, and `FLAGS_DATA`. */
  class SubmitService {
    var backendType: Value
    var tablesReady: bool
    var checkInterval: real
    var checkTime: real
    var flags: seq<Flag>

    constructor ()
      ensures backendType == VNone && !tablesReady && checkInterval == 30.0 && flags == []
    {
      backendType := VNone;
      tablesReady := false;
      checkInterval := 30.0;
      checkTime := 0.0;
      flags := [];
    }

    /** `__module_init`: a change of backend drops the table handles; missing
        handles are reopened, the backend recorded, and the flag cache
        primed with a scan taken at `now`. */
    method ModuleInit(backend: Value, flagStore: seq<Flag>, now: real)
      modifies this
      ensures backendType == backend && tablesReady
      ensures if old(backendType) != backend || !old(tablesReady)
              then flags == flagStore && checkTime == now
              else flags == old(flags) && checkTime == old(checkTime)
      ensures checkInterval == old(checkInterval)
    {
      if backendType != backend {
        tablesReady := false;
      }
      if !tablesReady {
        backendType := backend;
        tablesReady := true;
        checkTime := now;
        flags := flagStore;
      }
    }

    /** `update_flag_data`: rescan when the cache is due, then return the cached list. */
    method UpdateFlagData(flagStore: seq<Flag>, now: real) returns (current: seq<Flag>)
      modifies this`flags, this`checkTime
      ensures if RescanDue(old(checkTime), checkInterval, now)
              then flags == flagStore && checkTime == now
              else flags == old(flags) && checkTime == old(checkTime)
      ensures current == flags
    {
      if now > checkTime + checkInterval {
        flags := flagStore;
        checkTime := now;
      }
      current := flags;
    }

    /** `lambda_handler`: `flagStore` is what a scan of the flags table returns,
        `scores` the scores table of the active backend, `now` the clock.
        Also returns the event as the handler leaves it. */
    method LambdaHandler(event: map<string, Value>, flagStore: seq<Flag>, scores: ScoresTable, now: real)
      returns (r: SubmitResponse, event': map<string, Value>)
      modifies this, scores
      ensures checkInterval == Overridden(old(checkInterval), FloatField(event, "FlagCacheLifetime"))
      // without a backend selector the handler fails before touching anything else
      ensures "KeyValueBackend" !in event ==>
        r == Raised(KeyError) && event' == event && scores.claims == old(scores.claims)
        && backendType == old(backendType) && tablesReady == old(tablesReady) && flags == old(flags)
        && checkTime == old(checkTime)
      ensures "KeyValueBackend" in event ==>
        && backendType == event["KeyValueBackend"] && tablesReady
        // a backend switch (or a first call) re-primes the flag cache at `now`
        && (old(backendType) != event["KeyValueBackend"] || !old(tablesReady) ==>
              flags == flagStore && checkTime == now)
        // otherwise the cached list is rescanned only when due
        && (old(backendType) == event["KeyValueBackend"] && old(tablesReady) ==>
              if RescanDue(old(checkTime), checkInterval, now)
              then flags == flagStore && checkTime == now
              else flags == old(flags) && checkTime == old(checkTime))
        && r == Respond(Decide(event, flags), backendType)
        && scores.claims == ClaimsAfter(old(scores.claims), Decide(event, flags), backendType, now)
        && event' == (if Decide(event, flags).Crash? then event else WithParsedTeam(event))
    {
      var interval := FloatField(event, "FlagCacheLifetime");
      if interval.Some? {
        checkInterval := interval.value;
      }
      event' := event;
      if "KeyValueBackend" !in event {
        return Raised(KeyError), event';
      }
      ModuleInit(event["KeyValueBackend"], flagStore, now);
      var flagData := UpdateFlagData(flagStore, now);
      r, event' := ClaimFlag(event, flagData, scores, now);
    }

    /** The body of `lambda_handler` after the caches are refreshed:
        validation, lookup, the auth check and the write. */
    method ClaimFlag(event: map<string, Value>, flagData: seq<Flag>, scores: ScoresTable, now: real)
      returns (r: SubmitResponse, event': map<string, Value>)
      modifies scores
      ensures r == Respond(Decide(event, flagData), backendType)
      ensures scores.claims == ClaimsAfter(old(scores.claims), Decide(event, flagData), backendType, now)
      ensures event' == (if Decide(event, flagData).Crash? then event else WithParsedTeam(event))
    {
      event' := event;

      // Validate input format, collecting every error.
      var parsed := ParseTeam(event);
      if parsed == IntRaises(TypeError) {
        return Raised(TypeError), event';
      }
      event' := WithParsedTeam(event);
      var errors: seq<string> := [];
      if parsed.IntRaises? {
        errors := [TeamMessage];
      }
      if "flag" !in event {
        if errors != [] {
          errors := errors + [FlagMessage];
        } else {
          errors := [LoneFlagMessage];
        }
      }
      if errors != [] {
        return ClientError(errors), event';
      }

      // Look for the flag among the cached flags.
      var team := parsed.n;
      var name := StrOf(event["flag"]);
      if name.None? {
        return ValidFlag(false), event';
      }
      var k := FirstNamed(flagData, name.value);
      if k.None? {
        return ValidFlag(false), event';
      }
      var flagItem := flagData[k.value];
      if flagItem.authKey.Some? {
        if "auth_key" !in event {
          return ValidFlag(false), event';
        }
        var keys := flagItem.authKey.value;
        if IntToStr(team) !in keys || event["auth_key"] != keys[IntToStr(team)] {
          return ValidFlag(false), event';
        }
      }

      if backendType != VStr("DynamoDB") {
        return Raised(AttributeError), event';
      }
      scores.claims := scores.claims[(team, name.value) := now];
      r := ValidFlag(true);
    }
  }
}
