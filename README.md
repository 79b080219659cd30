# Scorecard: a Dafny model of the CTF flag-scoring engine

Scorecard is the serverless back end of a capture-the-flag game. Teams
submit flags to a **submission** handler, which checks the flag against a
cached copy of the flags table. A flag may carry a per-team `auth_key`. When
the claim is accepted, the handler records the claim time (`last_seen`) in
the scores table. A **tally** handler sums, for one team, the weights of
the flags whose claims still count. Three regimes decide whether a claim
counts:

- a durable flag (no `timeout`) counts forever once claimed;
- a revocable-alive flag counts while it was seen within the last `timeout` seconds;
- a revocable-dead flag (`yes` false) counts only once `timeout` seconds have passed without a sighting.

Both handlers keep a module-level cache of the flag list, and the tally
handler also caches per-team scores; an event may override the lifetime
of each cache. The scores table is either
DynamoDB or an **S3 key-value store**: a bucket whose object names are the
SHA-256 digest of an item's key fields.

Around the core, the project models:

- the **replay tool**, which turns an exported flags CSV into items,
  collects the teams named in recorded submissions, and decides when to
  tally and which snapshots to write;
- the **trace chain**, which buffers trace segments and flushes them in
  batches;
- the **registration** handler, which validates sign-ups and signs the
  confirmation token.

Layout, one module per file:

| file | module | models |
|---|---|---|
| `py_value.dfy` | `PyValue` | Python values, exceptions, and Python 2 `int()`, `float()`, `str()` on event fields |
| `score_tables.dfy` | `ScoreTables` | flag rows, the claims store, the rescan rule shared by both handlers |
| `score_card_tally.dfy` | `ScoreCardTally` | `score_flag`, the score sum, the tally handler and its caches |
| `score_card_submit.dfy` | `ScoreCardSubmit` | validation, lookup, the auth gate, the write, the submission handler |
| `s3_key_value_store.dfy` | `S3KeyValueStore` | the S3-backed `Table` with `get_item` and `put_item` |
| `log_replay.dfy` | `LogReplay` | CSV header and cell parsing, team collection, the tally schedule, snapshots |
| `xray_chain.dfy` | `XrayChain` | segment documents, the batching buffer, `log`, `log_start`, `log_end`, forks |
| `register.dfy` | `Register` | token signing and validation, the email and username checks, `post`, dispatch |

State the source changes in place becomes a `class`: the module globals of
each handler, the S3 table's bucket, and the trace chain. The contracts of
these methods use `old`. The rules those methods follow are pure functions
(`ScoreFlag`, `TeamScore`, `Decide`, `GetOutcome`, `Recorded`, `Pushed`,
`Post`), and the lemmas beside them prove the properties.

Where the specification and the code differ, the model follows the code:

- **Claims do not line up between the handlers.** Submission issues
  `update_item` with key `{team}` and sets an attribute named after the
  flag. Tally reads an item keyed `{team, flag}` and takes its
  `last_seen`. The model keeps one claims map from (team, flag name) to
  `last_seen`. Submission writes it and tally reads it. This is the
  evident intent, and it makes the two handlers composable.
- **Submission on the S3 backend fails.** The S3 `Table` has no
  `update_item`, so an accepted claim raises `AttributeError` there. The
  model raises `AttributeError` and writes nothing.
- **Tally returns no bitmask.** It returns only `{Team, Score}`. The
  per-flag list it builds is never returned.
- **Replay snapshots are always empty with this tally.** Replay keys its
  snapshots on a lower-case `team` field, which tally never returns (lemma
  `LogReplay.TallyResponsesGiveEmptySnapshots`).
- **Tally never switches backend.** It opens its tables once and never
  reopens them on a backend change. On S3 it reads `S3Bucket` and
  `S3Prefix`, where submission reads `KeyValueS3Bucket` and
  `KeyValueS3Prefix`.
- **The flag cache rescans strictly after its interval.** The test is
  `now > check_time + interval`.
- **The typo in the submit error is kept.** The lone missing-flag message is
  `"flag key must exist`, with one quote missing.

One place departs from the code on purpose: the registration handler's
username check. The regular expression as written also accepts a name
followed by one newline. `Register.Post` uses the corrected rule, and
the written rule is modelled beside it (see Findings).

## Model

| member | source | states |
|---|---|---|
| PyValue.IntOf | ScoreCardTally.py:132-137 | `int(v)` raises `ValueError` exactly for strings that are not integer literals and `TypeError` exactly for None, lists and dicts; a bool gives 1 or 0, an int itself, a float its truncation, an integer literal its value, where a literal may have whitespace around it and between its sign and its digits |
| PyValue.SpaceAfterSignAccepted | ScoreCardSubmit.py:111-114 | a sign followed by whitespace and then digits parses as the signed value of those digits, so `int("- 12") == -12` |
| PyValue.IntToStrRoundTrip | ScoreCardSubmit.py:155-156 | `int(str(n)) == n`, so the decimal key `str(team)` that the auth map uses names the parsed team |
| PyValue.IntToStrInjective | ScoreCardSubmit.py:155-156 | distinct teams have distinct decimal keys in a flag's `auth_key` map |
| PyValue.FloatField | ScoreCardTally.py:119-127 | an absent lifetime field gives no override; a bool, int or float overrides with its value, a string with its parse as a float literal, and None, a list or a dict give no override |
| PyValue.DecimalParsesAsFloat | ScoreCardTally.py:119-127 | a lifetime string `whole.frac` of digit runs parses as the number it denotes |
| PyValue.IntStringParsesAsFloat | LogReplay.py:179 | a lifetime written as a non-negative decimal integer string, as the replay passes `"1"`, parses as that number |
| ScoreCardTally.ScoreFlag | ScoreCardTally.py:64-99 | a flag scores a value exactly when the team has a claim on it that counts under the flag's regime at `now`, and that value is the flag's weight |
| ScoreCardTally.UnclaimedScoresNothing | ScoreCardTally.py:68-69 | with no claim item for (team, flag), the flag scores nothing |
| ScoreCardTally.UnweightedScoresNothing | ScoreCardTally.py:73-74 | a claimed flag with no `weight` scores nothing, whatever its timeout |
| ScoreCardTally.DurableScoresWeight | ScoreCardTally.py:79-97 | a weighted flag with no `timeout` scores its weight at any time once claimed |
| ScoreCardTally.AliveScoresWhileFresh | ScoreCardTally.py:86-90 | an alive flag scores exactly when `last_seen >= now - timeout` |
| ScoreCardTally.DeadScoresOnceAged | ScoreCardTally.py:91-95 | a dead flag (`yes` false) scores exactly when `last_seen <= now - timeout` |
| ScoreCardTally.ClaimOverTime | ScoreCardTally.py:84-95 | a claim made at `claimed`: an alive flag counts at `later` iff `later <= claimed + timeout`, a dead flag iff `later >= claimed + timeout` |
| ScoreCardTally.Weighted | ScoreCardTally.py:73-74 | a flag is kept exactly when it is listed and has a weight; no more flags than listed |
| ScoreCardTally.WeightedDistributes | ScoreCardTally.py:73-74 | the filter keeps the order of the list: the weighted flags of a concatenation are those of each part in turn |
| ScoreCardTally.TeamScoreSnoc | ScoreCardTally.py:155-160 | appending a flag adds exactly that flag's contribution to the score |
| ScoreCardTally.NothingClaimedScoresZero | ScoreCardTally.py:152-160 | a team with no claims on any listed flag scores 0.0 |
| ScoreCardTally.OnlyWeightedFlagsCount | ScoreCardTally.py:73-76 | dropping the unweighted flags from the list does not change any score |
| ScoreCardTally.DurableScoreIsTimeless | ScoreCardTally.py:79-97 | when no listed flag has a timeout, a team's score is the same at every time |
| ScoreCardTally.ScoreReadsOnlyOwnClaims | ScoreCardTally.py:68 | claims of other teams, and claims on unlisted flags, do not affect a team's score |
| ScoreCardTally.ClaimChangesOneTerm | ScoreCardTally.py:155-160 | over distinct flag names, recording one claim changes only that flag's contribution to the score |
| ScoreCardTally.DurableClaimAddsWeight | ScoreCardTally.py:155-160 | claiming an unclaimed durable flag raises the team's score by exactly its weight |
| ScoreCardTally.SumScores | ScoreCardTally.py:152-160 | the handler's loop returns the sum of the flag scores over the cached list |
| ScoreCardTally.TallyService.ModuleInit | ScoreCardTally.py:29-46 | on first use the tables open and the flag cache is primed at `now`; a missing backend raises; later calls change nothing |
| ScoreCardTally.TallyService.UpdateFlagData | ScoreCardTally.py:49-61 | the flag list is replaced by a fresh scan exactly when `now > check_time + interval`, and the cached list is returned |
| ScoreCardTally.TallyService.LambdaHandler | ScoreCardTally.py:102-163 | lifetime overrides, then init and refresh (the flag list and `check_time` primed or rescanned at `now` when due, else kept), then the team check; a fresh cache entry is served as is, otherwise the score is computed and cached at `now`; a first call without a backend changes no cache |
| ScoreCardSubmit.ErrorsAreCollected | ScoreCardSubmit.py:119-131 | validation reports one message per failed check, not only the first |
| ScoreCardSubmit.WithParsedTeam | ScoreCardSubmit.py:112-117 | the event keeps every other field; `team` becomes the parsed integer, or `None` when it is missing or not a literal |
| ScoreCardSubmit.IntegralTeamsAccepted | ScoreCardSubmit.py:112-117 | an integer team and its decimal string are accepted alike, and both leave the integer in the event |
| ScoreCardSubmit.FirstNamed | ScoreCardSubmit.py:135-148 | finds the first listed flag with the given name, and finds none iff no flag has that name |
| ScoreCardSubmit.Decide | ScoreCardSubmit.py:112-157 | a claim is accepted iff the team parses, the flag is present and listed, and the first flag of that name authorises the team |
| ScoreCardSubmit.InvalidNeverAccepted | ScoreCardSubmit.py:119-131 | a request missing the team or the flag is never accepted and gets the collected messages |
| ScoreCardSubmit.UnknownFlagRejected | ScoreCardSubmit.py:139-140 | a flag name not in the list is answered `valid_flag: False` |
| ScoreCardSubmit.AuthGateExact | ScoreCardSubmit.py:149-157 | an auth-gated flag is accepted iff the request has `auth_key`, the team is listed, and the keys match; otherwise it is denied |
| ScoreCardSubmit.UnlistedTeamDenied | ScoreCardSubmit.py:145-157 | a team missing from a flag's `auth_key` map cannot claim it with any key |
| ScoreCardSubmit.ClaimsAfter | ScoreCardSubmit.py:159-168 | the write touches only the accepted (team, flag) claim; every other claim keeps its value |
| ScoreCardSubmit.WriteIffAccepted | ScoreCardSubmit.py:159-169 | `valid_flag: True` comes with exactly one write of `last_seen := now`; every other response writes nothing |
| ScoreCardSubmit.RepeatedClaimOverwrites | ScoreCardSubmit.py:159-168 | claiming again overwrites `last_seen`: the later claim time wins |
| ScoreCardSubmit.SubmitService.ModuleInit | ScoreCardSubmit.py:26-57 | a backend change drops the tables; missing tables are reopened, the backend is recorded, and the flag cache is primed at `now` |
| ScoreCardSubmit.SubmitService.UpdateFlagData | ScoreCardSubmit.py:60-74 | a rescan happens exactly when due, and the cached list is returned |
| ScoreCardSubmit.SubmitService.ClaimFlag | ScoreCardSubmit.py:108-169 | after the caches are refreshed, the response, the claims written and the event left behind are exactly those `Decide` prescribes |
| ScoreCardSubmit.SubmitService.LambdaHandler | ScoreCardSubmit.py:78-169 | the response and the new claims are those of `Decide` on the refreshed flag list; with no backend selector it raises `KeyError` and changes nothing but the lifetime override, `check_time` included |
| S3KeyValueStore.StripSlashes | S3KeyValueStore.py:27 | the stored prefix neither starts nor ends with `/`, and a prefix without `/` is kept as is |
| S3KeyValueStore.StripSlashesKeepsMiddle | S3KeyValueStore.py:27 | the stored prefix is a contiguous middle part of the given one, and only `/` characters were removed on either side |
| S3KeyValueStore.StripSlashesIdempotent | S3KeyValueStore.py:27 | normalising an already normalised prefix changes nothing |
| S3KeyValueStore.ItemArg | S3KeyValueStore.py:36-42 | a missing `Item`/`Key` argument raises `KeyError`, and a non-dict one `TypeError` |
| S3KeyValueStore.KeyFieldsOf | S3KeyValueStore.py:44-51 | the digested map holds exactly the declared key fields, with the item's values |
| S3KeyValueStore.Locate | S3KeyValueStore.py:36-54 | an object name exists iff the argument is a dict holding every key field; a missing key field raises `ValueError` |
| S3KeyValueStore.NameDependsOnlyOnKeyFields | S3KeyValueStore.py:44-54 | two items map to the same object iff they agree on every key field |
| S3KeyValueStore.GetOutcome | S3KeyValueStore.py:31-71 | validation errors propagate; after validation a `NoSuchKey` answer gives an empty response and any other error code raises it; otherwise the response holds an item exactly when an object exists at the item's name, and that item is the stored object |
| S3KeyValueStore.PutOutcome | S3KeyValueStore.py:73-103 | validation errors propagate; a put leaves every other object as it was |
| S3KeyValueStore.PutThenGet | S3KeyValueStore.py:31-103 | a get with the same key fields returns the whole stored item, non-key fields included |
| S3KeyValueStore.LastWriteWins | S3KeyValueStore.py:73-103 | a second put with equal key fields replaces the first |
| S3KeyValueStore.NeverWrittenIsEmpty | S3KeyValueStore.py:56-71 | a get for an object never written is an empty response, not an error |
| S3KeyValueStore.ValidationPrecedesStorage | S3KeyValueStore.py:36-54 | a malformed request fails the same way whatever the bucket holds and however storage would answer |
| S3KeyValueStore.Table.constructor | S3KeyValueStore.py:20-29 | the table keeps the bucket, the slash-stripped prefix and the set of key names |
| S3KeyValueStore.Table.GetItem | S3KeyValueStore.py:31-71 | the method returns the outcome `GetOutcome` specifies and changes nothing |
| S3KeyValueStore.Table.PutItem | S3KeyValueStore.py:73-103 | on success the bucket becomes `PutOutcome` and `{}` is returned; on error the bucket is unchanged |
| LogReplay.JoinSplit | LogReplay.py:81 | joining the pieces of `split(" ")` with single spaces rebuilds the header |
| LogReplay.SplitJoin | LogReplay.py:81-88 | splitting space-free pieces joined by single spaces gives the pieces back |
| LogReplay.DdbName | LogReplay.py:77-81 | the name is the header's text before its first space, and it holds no space |
| LogReplay.Unwrap | LogReplay.py:88 | `t[1:-1]` drops the first and last character, and is empty below two characters |
| LogReplay.DdbType | LogReplay.py:84-88 | a header with no space raises `IndexError`; otherwise the type is the second token, unwrapped |
| LogReplay.HeaderRoundTrip | LogReplay.py:77-88 | a header written as `<name> (<type>)` parses back to that name and type |
| LogReplay.DdbValue | LogReplay.py:91-103 | `M` cells are JSON-decoded (empty gives `{}`), `BOOL` cells are true exactly for `TRUE`, and others are kept as text |
| LogReplay.ReadRowSucceeds | LogReplay.py:114-117 | a row converts iff every non-empty cell converts |
| LogReplay.ReadRowContents | LogReplay.py:114-117 | item keys are names of non-empty cells; each such name is present and holds its last cell's `{type: value}` |
| LogReplay.ReadFlagsTable | LogReplay.py:106-121 | one item per row |
| LogReplay.ReadFlagsTableRows | LogReplay.py:106-121 | the read succeeds exactly when every row converts, and item `i` is row `i` converted, in order |
| LogReplay.CollectTeams | LogReplay.py:302-314 | every collected team is the canonical decimal form of an integer |
| LogReplay.CollectTeamsExact | LogReplay.py:307-314 | a team is collected iff some event's `team` converts with `int` to it |
| LogReplay.PreprocessTeams | LogReplay.py:302-314 | the loop returns the collected teams and the event count, or the `KeyError` of an event without `team` |
| LogReplay.BadPrefixFails | LogReplay.py:307-314 | once an event without `team` is reached, the whole scan fails with that error |
| LogReplay.Tallied | LogReplay.py:166-168 | tally indices increase, the first event always tallies, and the last tally time is the last tallied timestamp |
| LogReplay.TalliesSpaced | LogReplay.py:166-168 | consecutive tallies are at least the tally interval apart |
| LogReplay.SkippedEventsAreEarly | LogReplay.py:166-168 | an event between two tallies is less than an interval after the earlier one |
| LogReplay.ZipList | LogReplay.py:194 | `dict(zip(keys, values))` has keys the first `min(len)` flag keys |
| LogReplay.ZipListLastPairWins | LogReplay.py:194 | each key maps to the value of the last zipped pair naming it |
| LogReplay.BitmaskByFlag | LogReplay.py:192-194 | a list bitmask zips its items with the flag keys, a string bitmask its characters; it raises `TypeError` exactly for the other kinds |
| LogReplay.SnapshotEntry | LogReplay.py:192-196 | an entry without a bitmask is kept as is; with one, it fails exactly when the bitmask cannot be zipped, its bitmask becomes the per-flag map, `team` is dropped and every other field keeps its value |
| LogReplay.ByTeam | LogReplay.py:187-188 | the snapshot keys are the `team` values of the responses that have one, and each entry carries its own team |
| LogReplay.ByTeamFailsIffUnhashable | LogReplay.py:187-188 | grouping raises exactly when some response's `team` is a list or dict |
| LogReplay.ByTeamLastWins | LogReplay.py:187-188 | each team's entry is the last response naming that team |
| LogReplay.Snapshot | LogReplay.py:171-196 | the snapshot has the same teams as the grouped responses, each entry is that team's response converted by `SnapshotEntry`, and an entry keeps `team` iff it has no bitmask |
| LogReplay.SnapshotFailsIff | LogReplay.py:171-196 | a snapshot fails exactly when grouping fails or some team's entry cannot be converted |
| LogReplay.TallyResponsesGiveEmptySnapshots | LogReplay.py:187-188 | responses from the tally handler never carry `team`, so every snapshot is empty |
| LogReplay.NoTeamNoEntries | LogReplay.py:187-188 | responses without `team` give an empty snapshot |
| LogReplay.Recorded | LogReplay.py:166-204 | one record per tallied event, stamped with that event's timestamp; any failure is `TypeError` |
| LogReplay.RecordedSnapshots | LogReplay.py:166-204 | record `k` holds the snapshot of the tally taken after the `k`-th tallied event |
| LogReplay.RecordedFailsIff | LogReplay.py:166-204 | the replay fails exactly when the snapshot of some tallied event's responses fails |
| LogReplay.AfterFirst | LogReplay.py:218 | `records[1:]`: all but the first record, in order, and nothing when there are none |
| LogReplay.ProcessEvents | LogReplay.py:144-218 | the replay loop writes every record but the first, or fails with `TypeError` |
| LogReplay.RecordedErrPersists | LogReplay.py:192-194 | a snapshot that fails part-way aborts the replay whatever events follow |
| XrayChain.SegmentIdFor | XrayChain.py:179 | a truthy given id is kept; otherwise a fresh one is used |
| XrayChain.BuildSegment | XrayChain.py:179-204 | name, id, trace id and start are always written; `end_time` iff an end is given, otherwise `in_progress`; parent, type, metadata, annotations and http iff set |
| XrayChain.Flushed | XrayChain.py:284-306 | the buffer is emptied, and a non-empty one is sent as one batch when a client exists |
| XrayChain.PushBounded | XrayChain.py:206-212 | after `log`, the buffer holds fewer than `backlog` segments |
| XrayChain.PushConserves | XrayChain.py:206-212 | with a client, no segment is lost, duplicated or reordered between the buffer and the sent batches |
| XrayChain.FlushConserves | XrayChain.py:284-306 | flushing moves the pending segments, in order, to the sent ones |
| XrayChain.Chain.constructor | XrayChain.py:45-102 | a new chain has an empty buffer, no last segment, and the given or a derived trace id |
| XrayChain.Chain.Flush | XrayChain.py:284-306 | returns how many segments were pending, and the buffer becomes `Flushed` |
| XrayChain.Chain.Log | XrayChain.py:149-212 | without a name it raises `ValueError` and changes nothing; otherwise it pushes the segment document, records its id and keeps the buffer bounded |
| XrayChain.Chain.LogStart | XrayChain.py:214-225 | logs an in-progress segment and remembers its name and start under its fresh id |
| XrayChain.Chain.LogEnd | XrayChain.py:227-241 | a list or dict id raises `TypeError`, an id not in progress raises `KeyError`, and a started one is forgotten and logged as completed |
| XrayChain.Chain.StartThenEnd | XrayChain.py:264-282 | a start and an end push an in-progress segment, then a completed one, under the same id and start time; the in-progress set ends as it began |
| XrayChain.Chain.Fork | XrayChain.py:124-147 | a subsegment fork before any segment raises `RuntimeError`; otherwise the child shares trace id, backlog and client, and its parent defaults to the last logged segment |
| XrayChain.Chain.ForkSubsegment | XrayChain.py:111-115 | raises `RuntimeError` exactly when nothing has been logged yet; otherwise a fresh, empty subsegment chain on the same trace, backlog, mock flag and client, whose parent defaults to the last logged segment |
| XrayChain.Chain.ForkRoot | XrayChain.py:117-122 | always succeeds with a fresh, empty root chain on the same trace, backlog, mock flag and client, whose parent defaults to the last logged segment |
| Register.Validate | Register.py:32-45 | a token is accepted iff it decodes to a document whose `sig` is the MAC of its `data`, and the result is that data |
| Register.SignValidateRoundTrip | Register.py:22-45 | `validate_payload(sign_payload(d)) == d` for every string `d` |
| Register.ForgedSignatureRejected | Register.py:32-45 | a document with any signature but the data's MAC is rejected |
| Register.EmailOkMatchesPattern | Register.py:66 | the computed email check accepts exactly what `^[^@]+@[^@]+\.[^@]+$` matches |
| Register.TrailingNewlineAccepted | Register.py:69 | the check as written accepts `"abcd\n"`, which the intended rule rejects |
| Register.ValidUsernameIsWrittenWithoutNewline | Register.py:69 | the intended rule is the written one minus the names that end in a newline |
| Register.Post | Register.py:48-144 | a missing field gives `failure`, a malformed one (by the corrected username rule) `failure_parse`, a missing table `KeyError`, an assigned registrant `failed_duplicate`; a well-formed request with the table present succeeds exactly when the email has no assigned team; mail is sent iff `success`, to the given address with a token signing the registration |
| Register.MailedTokenValidates | Register.py:87-144 | the token mailed on success validates back to the signed registration document |
| Register.ConfirmedRegistrantIsDuplicate | Register.py:84-85 | a registrant already given a team id is refused whatever the team id drawn or the time |
| Register.Dispatch | Register.py:246-258 | POST goes to `post`; a GET goes to `get_confirm` exactly when it has a non-empty token and to `get` exactly when the token is absent or empty; a missing `Method` raises `KeyError`, and other methods reach no handler |

## Left out

- Network and cloud services are parameters. The flags-table scan is `flagStore`. The scores table is `ScoresTable.claims`. The clock is `now`, one value per handler call. Storage faults are `fault`. The bucket is the `objects` map.
- Floating-point arithmetic is modelled with `real`. `float("inf")` and `float("nan")` are treated as unparseable because `real` cannot hold them.
- `str()` of a float, list or dict is not computed. Such a flag value is modelled as an unknown flag.
- Python's cross-type equality (`1 == 1.0 == True`) is not modelled for `auth_key` comparison and claim keys. Values compare structurally.
- Flag rows are taken with numeric `weight` and `timeout` and a boolean `yes`. A row whose `float(...)` raises is not modelled. A claim item missing `last_seen` is not modelled either.
- ScoreCardTally.TallyService.ModuleInit: opens no S3 table. The S3 path's `S3Bucket` and `S3Prefix` reads are not modelled. Only whether the backend key is present decides failure.
- ScoreCardSubmit.SubmitService.LambdaHandler: the trace segments it logs (`ModuleInit`, `FlagDataUpdate`, `FlagSubmit`) are not modelled. The reads of `ScoresTable`, `FlagsTable` and the S3 fields during init are not modelled either.
- Tally's per-flag `scores` list is not modelled, because it is never returned.
- The SHA-256 digest of the sorted-key JSON is modelled as injective in the key-field map. Hash collisions are out of scope.
- The S3 object body's `cPickle` encoding (`cPickle.dumps` at S3KeyValueStore.py:101, `cPickle.loads` at S3KeyValueStore.py:67) is not modelled. The item is stored and returned as a value.
- LogReplay.ProcessEvents: the tally responses for each tallied event are a parameter. The submission and tally handler calls are not composed into the replay. Sorting by `score` is not modelled: no response has `score`, and the sort is stable. File reading, timestamp parsing and progress output are not modelled.
- LogReplay.BitmaskByFlag: a string bitmask zips one character per flag. A dict bitmask, whose iteration order the model does not know, is modelled as `TypeError`.
- LogReplay.ReadFlagsTable: CSV parsing (quoting, short rows) is not modelled. A row is a sequence of header and cell pairs.
- Mock table setup, default-flag priming and the sorted flag-key scan in the replay's `__main__` are not modelled. They only call the table service.
- XrayChain: segment ids, the trace-id digest and the HMAC key come from `uuid`, `random` and `hashlib`, and are parameters. XrayChain.TraceIdFor has no contract of its own.
- XrayChain.Chain.Flush: errors from the tracing service are not modelled. An error would leave the lock held. The lock and threads are not modelled.
- XrayChain.Chain.StartThenEnd: the `trace` and `trace_associated` decorators are modelled only as the start and end around the wrapped call. The call itself is not modelled.
- Register: `get_confirm` and `get` are routed by `Dispatch`, but their bodies (table writes, listing) are not modelled. The email body text, `print(json.dumps(event))`, and the random team id (a parameter) are not modelled either.
- Register.Post: it checks the username with the corrected rule `ValidUsername`. As written, the regular expression also accepts a username followed by one newline (see Findings). `Register.UsernameMatchesAsWritten` models that rule.
- PyValue.IntOf: Python 2's `int()` of a unicode string also accepts non-ASCII decimal digits and Unicode spaces. The model accepts only ASCII digits and the six ASCII whitespace characters.
- PyValue.StrOf: Python 2's `str()` of a unicode string with non-ASCII characters raises `UnicodeEncodeError`. The model returns the text unchanged.
- Register: HMAC-SHA256, JSON and base32 are parameters of `Codecs`. Decoding is assumed to undo encoding, and the MAC comparison is plain equality.

## Findings

| source | as written | input that shows it | evidently intended | confidence | as-written member | corrected member |
|---|---|---|---|---|---|---|
| Register.py:69 | `re.match("^[a-z0-9A-Z]{4,64}$", username)` also matches when a single newline follows the run, because `$` matches before a trailing newline | username `"abcd\n"` | a username of exactly 4 to 64 ASCII letters and digits | not executed | Register.UsernameMatchesAsWritten (Register.TrailingNewlineAccepted) | Register.ValidUsername (Register.ValidUsernameIsWrittenWithoutNewline; used by Register.Post) |
