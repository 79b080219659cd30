/** The records the submission and tally handlers share: rows of the flags
    table, and the claims a team has recorded against flags. */
module ScoreTables {
  import opened PyValue

  /** A row of the flags table. Only `name` (the `flag` attribute, the table's
      hash key) is always present; `auth_key` maps a team's decimal id to the
      key that team must present when claiming. */
  datatype Flag = Flag(
    name: string,
    weight: Option<real>,
    timeout: Option<real>,
    yes: Option<bool>,
    authKey: Option<map<string, Value>>)

  /** A claim is keyed by (team, flag name); its value is `last_seen`. */
  type ClaimKey = (int, string)

  /** Flag names are unique in a scan of the flags table, whose hash key is the name. */
  ghost predicate DistinctNames(flags: seq<Flag>) {
    forall i, j :: 0 <= i < j < |flags| ==> flags[i].name != flags[j].name
  }

  const TeamMessage := "\"team\" key must exist and be integeral or parsable as integral"

  /** `int(event['team'])`, with a missing key reported as `KeyError`. */
  function ParseTeam(event: map<string, Value>): IntResult {
    if "team" in event then IntOf(event["team"]) else IntRaises(KeyError)
  }

  /** An override of a lifetime: a float-parseable field replaces it, anything else leaves it. */
  function Overridden(current: real, field: Option<real>): real {
    if field.Some? then field.value else current
  }

  /** The flag list is rescanned only once `now` is past `checkTime + interval`. */
  predicate RescanDue(checkTime: real, interval: real, now: real) {
    now > checkTime + interval
  }

  /** The scores table, seen as the claims it records. */
  class ScoresTable {
    var claims: map<ClaimKey, real>

    constructor ()
      ensures claims == map[]
    {
      claims := map[];
    }
  }
}
