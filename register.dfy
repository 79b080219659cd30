/** Registration: validating a sign-up request, the signed confirmation token
    mailed to the registrant, and routing requests by HTTP method. HMAC-SHA256,
    JSON and base32 are parameters (`Codecs`); the registrants table is the
    map of items keyed by email that a lookup would read. */
module Register {
  import opened PyValue

  // ---------------------------------------------------------------------------
  // Codecs

  /** `mac(d)`: hex HMAC-SHA256 of `d` under the deployment's secret;
      `dumps`/`loads`: JSON text (loads failing with None); `b32encode` /
      `b32decode`: base32 of the UTF-8 text (decode failing with None). */
  datatype Codecs = Codecs(
    mac: string -> string,
    dumps: Value -> string,
    loads: string -> Option<Value>,
    b32encode: string -> string,
    b32decode: string -> Option<string>)

  /** Decoding undoes encoding, for base32 and for JSON. */
  ghost predicate RoundTrips(c: Codecs) {
    && (forall s :: c.b32decode(c.b32encode(s)) == Some(s))
    && (forall v :: c.loads(c.dumps(v)) == Some(v))
  }

  /** The signed document: the data and its signature. */
  function SignedDoc(c: Codecs, data: string): Value {
    VDict(map["data" := VStr(data), "sig" := VStr(c.mac(data))])
  }

  /** `sign_payload(data)`. */
  function Sign(c: Codecs, data: string): string {
    c.b32encode(c.dumps(SignedDoc(c, data)))
  }

  /** `validate_payload(token)`: the data when the token decodes to a
      document whose `sig` is the MAC of its string `data`; None on any
      mismatch, decoding or parsing failure. */
  function Validate(c: Codecs, token: string): (r: Option<string>)
    ensures r.Some? <==>
      && c.b32decode(token).Some?
      && c.loads(c.b32decode(token).value).Some?
      && var doc := c.loads(c.b32decode(token).value).value;
         && doc.VDict? && "data" in doc.fields && "sig" in doc.fields
         && doc.fields["data"].VStr?
         && doc.fields["sig"] == VStr(c.mac(doc.fields["data"].s))
    ensures r.Some? ==> c.loads(c.b32decode(token).value).value.fields["data"] == VStr(r.value)
  {
    match c.b32decode(token)
    case None => None
    case Some(text) =>
      match c.loads(text)
      case None => None
      case Some(doc) =>
        if doc.VDict? && "data" in doc.fields && "sig" in doc.fields && doc.fields["data"].VStr? then
          var data := doc.fields["data"].s;
          if doc.fields["sig"] == VStr(c.mac(data)) then Some(data) else None
        else None
  }

  /** `validate_payload(sign_payload(d)) == d` for every string `d`. */
  lemma SignValidateRoundTrip(c: Codecs, data: string)
    requires RoundTrips(c)
    ensures Validate(c, Sign(c, data)) == Some(data)
  {
    assert c.b32decode(c.b32encode(c.dumps(SignedDoc(c, data)))) == Some(c.dumps(SignedDoc(c, data)));
    assert c.loads(c.dumps(SignedDoc(c, data))) == Some(SignedDoc(c, data));
  }

  /** A token whose document carries any signature other than the data's MAC is rejected. */
  lemma ForgedSignatureRejected(c: Codecs, data: string, sig: Value)
    requires RoundTrips(c)
    requires sig != VStr(c.mac(data))
    ensures Validate(c, c.b32encode(c.dumps(VDict(map["data" := VStr(data), "sig" := sig])))) == None
  {
    var doc := VDict(map["data" := VStr(data), "sig" := sig]);
    assert c.b32decode(c.b32encode(c.dumps(doc))) == Some(c.dumps(doc));
    assert c.loads(c.dumps(doc)) == Some(doc);
  }

  // ---------------------------------------------------------------------------
  // Email addresses

  predicate NoAt(s: string) {
    '@' !in s
  }

  /** `^[^@]+@[^@]+\.[^@]+$`: three non-empty runs without `@`, the first two
      joined by `@` and the last two by `.`. (`[^@]` also matches a newline,
      so the end anchor admits nothing more.) */
  ghost predicate EmailPattern(s: string) {
    exists i, j :: 0 < i && i + 1 < j && j + 1 < |s| && s[i] == '@' && s[j] == '.'
                   && NoAt(s[..i]) && NoAt(s[i + 1..j]) && NoAt(s[j + 1..])
  }

  /** The email check, computed: exactly one `@`, not first, followed by a
      part with a `.` that is neither its first nor its last character. */
  predicate EmailOk(s: string) {
    var a := IndexOf(s, '@');
    0 < a < |s| && NoAt(s[a + 1..]) &&
    var rest := s[a + 1..];
    |rest| >= 2 && 1 + IndexOf(rest[1..], '.') < |rest| - 1
  }

  /** A slice of a string without `@` has none either. */
  lemma NoAtSlice(s: string, lo: int, hi: int)
    requires NoAt(s) && 0 <= lo <= hi <= |s|
    ensures NoAt(s[lo..hi])
  {
  }

  lemma EmailOkHasPattern(s: string)
    requires EmailOk(s)
    ensures EmailPattern(s)
  {
    var i := IndexOf(s, '@');
    var rest := s[i + 1..];
    var j := i + 2 + IndexOf(rest[1..], '.');
    assert s[j] == rest[1..][j - i - 2];
    assert s[i + 1..j] == rest[..j - i - 1];
    assert s[j + 1..] == rest[j - i..];
    NoAtSlice(rest, 0, j - i - 1);
    NoAtSlice(rest, j - i, |rest|);
  }

  /** An occurrence bounds the first occurrence. */
  lemma IndexOfAtMost(s: string, c: char, k: int)
    requires 0 <= k < |s| && s[k] == c
    ensures IndexOf(s, c) <= k
  {
  }

  lemma PatternIsEmailOk(s: string)
    requires EmailPattern(s)
    ensures EmailOk(s)
  {
    var i, j :| 0 < i && i + 1 < j && j + 1 < |s| && s[i] == '@' && s[j] == '.'
                && NoAt(s[..i]) && NoAt(s[i + 1..j]) && NoAt(s[j + 1..]);
    IndexOfAtMost(s, '@', i);
    var rest := s[i + 1..];
    RestHasNoAt(s, i, j);
    var tail := rest[1..];
    assert tail[j - i - 2] == '.';
    IndexOfAtMost(tail, '.', j - i - 2);
  }

  lemma RestHasNoAt(s: string, i: int, j: int)
    requires 0 < i && i + 1 < j && j + 1 < |s| && s[j] == '.'
    requires NoAt(s[i + 1..j]) && NoAt(s[j + 1..])
    ensures NoAt(s[i + 1..])
  {
    assert s[i + 1..] == s[i + 1..j] + [s[j]] + s[j + 1..];
  }

  /** The computed check accepts exactly the strings the pattern matches. */
  lemma EmailOkMatchesPattern(s: string)
    ensures EmailOk(s) <==> EmailPattern(s)
  {
    if EmailOk(s) {
      EmailOkHasPattern(s);
    }
    if EmailPattern(s) {
      PatternIsEmailOk(s);
    }
  }

  // ---------------------------------------------------------------------------
  // Usernames

  predicate IsAsciiAlnum(c: char) {
    ('a' <= c <= 'z') || ('A' <= c <= 'Z') || ('0' <= c <= '9')
  }

  /** 4 to 64 ASCII letters and digits, and nothing else. */
  predicate AlnumRun(s: string) {
    4 <= |s| <= 64 && forall k :: 0 <= k < |s| ==> IsAsciiAlnum(s[k])
  }

  /** `re.match("^[a-z0-9A-Z]{4,64}$", s)` as Python evaluates it: `$` also
      matches just before a final newline, so one trailing newline passes. */
  predicate UsernameMatchesAsWritten(s: string) {
    AlnumRun(s) || (|s| > 0 && s[|s| - 1] == '\n' && AlnumRun(s[..|s| - 1]))
  }

  /** The username rule as intended: exactly 4 to 64 ASCII letters and digits. */
  predicate ValidUsername(s: string) {
    AlnumRun(s)
  }

  /** The check as written lets a username end in a newline. */
  lemma TrailingNewlineAccepted()
    ensures UsernameMatchesAsWritten("abcd\n") && !ValidUsername("abcd\n")
  {
    assert "abcd\n"[..4] == "abcd";
    assert !IsAsciiAlnum("abcd\n"[4]);
  }

  /** The intended rule is the written one without the trailing-newline case. */
  lemma ValidUsernameIsWrittenWithoutNewline(s: string)
    ensures ValidUsername(s) <==> UsernameMatchesAsWritten(s) && (s == [] || s[|s| - 1] != '\n')
  {
    if ValidUsername(s) {
      assert IsAsciiAlnum(s[|s| - 1]);
    }
  }

  // ---------------------------------------------------------------------------
  // The POST handler

  /** The confirmation mail: recipient and the token its link carries. */
  datatype Confirmation = Confirmation(to: string, token: string)

  datatype PostOutcome =
    | Replied(result: string, mail: Option<Confirmation>)
    | PostRaised(exc: Exception)

  /** Both fields are present and not None. */
  predicate HasFields(event: map<string, Value>) {
    "email" in event && "username" in event && event["email"] != VNone && event["username"] != VNone
  }

  /** Both fields are strings of the accepted shapes. */
  predicate WellFormed(event: map<string, Value>)
    requires HasFields(event)
  {
    event["email"].VStr? && EmailOk(event["email"].s) &&
    event["username"].VStr? && ValidUsername(event["username"].s)
  }

  /** The document the confirmation token signs (as JSON text). */
  function ConfirmationPayload(email: string, username: string, teamId: int, now: real): Value {
    VDict(map["email" := VStr(email), "username" := VStr(username),
              "teamId" := VInt(teamId), "registrationTime" := VFloat(now)])
  }

  /** `post(event)`: `registrants` is the registrants table keyed by email,
      `teamId` the random team id drawn and `now` the clock. */
  function Post(event: map<string, Value>, registrants: map<string, map<string, Value>>,
                teamId: int, now: real, c: Codecs): (r: PostOutcome)
    ensures !HasFields(event) ==> r == Replied("failure", None)
    ensures HasFields(event) && !WellFormed(event) ==> r == Replied("failure_parse", None)
    ensures r.PostRaised? <==> HasFields(event) && WellFormed(event) && "RegistrantsTable" !in event
    ensures r.PostRaised? ==> r.exc == KeyError
    ensures r.Replied? ==> (r.mail.Some? <==> r.result == "success")
    ensures r.Replied? && r.result == "success" ==>
              && HasFields(event) && WellFormed(event)
              && var email := event["email"].s;
                 && !(email in registrants && "teamId" in registrants[email])
                 && r.mail == Some(Confirmation(email, Sign(c, c.dumps(ConfirmationPayload(email, event["username"].s, teamId, now)))))
    ensures HasFields(event) && WellFormed(event) && "RegistrantsTable" in event ==>
              var email := event["email"].s;
              r.Replied? && (r.result == "success" <==> !(email in registrants && "teamId" in registrants[email]))
    ensures r.Replied? && r.result == "failed_duplicate" ==>
              HasFields(event) && event["email"].VStr? && event["email"].s in registrants
              && "teamId" in registrants[event["email"].s]
  {
    if !HasFields(event) then Replied("failure", None)
    else if !WellFormed(event) then Replied("failure_parse", None)
    else if "RegistrantsTable" !in event then PostRaised(KeyError)
    else
      var email, username := event["email"].s, event["username"].s;
      if email in registrants && "teamId" in registrants[email] then Replied("failed_duplicate", None)
      else
        var token := Sign(c, c.dumps(ConfirmationPayload(email, username, teamId, now)));
        Replied("success", Some(Confirmation(email, token)))
  }

  /** The mailed token validates back to the registration document. */
  lemma MailedTokenValidates(event: map<string, Value>, registrants: map<string, map<string, Value>>,
                             teamId: int, now: real, c: Codecs)
    requires RoundTrips(c)
    requires Post(event, registrants, teamId, now, c).Replied?
    requires Post(event, registrants, teamId, now, c).result == "success"
    ensures var mail := Post(event, registrants, teamId, now, c).mail.value;
            && Validate(c, mail.token).Some?
            && c.loads(Validate(c, mail.token).value)
               == Some(ConfirmationPayload(mail.to, event["username"].s, teamId, now))
  {
    var mail := Post(event, registrants, teamId, now, c).mail.value;
    var doc := ConfirmationPayload(mail.to, event["username"].s, teamId, now);
    SignValidateRoundTrip(c, c.dumps(doc));
  }

  /** An already-confirmed registrant is refused whatever the other inputs,
      and no mail is built. */
  lemma ConfirmedRegistrantIsDuplicate(event: map<string, Value>, registrants: map<string, map<string, Value>>,
                                       t1: int, t2: int, n1: real, n2: real, c: Codecs)
    requires HasFields(event) && WellFormed(event) && "RegistrantsTable" in event
    requires event["email"].s in registrants && "teamId" in registrants[event["email"].s]
    ensures Post(event, registrants, t1, n1, c) == Post(event, registrants, t2, n2, c) == Replied("failed_duplicate", None)
  {
  }

  // ---------------------------------------------------------------------------
  // Dispatch

  datatype Route = ToPost | ToConfirm | ToList | NoHandler | RouteRaised(exc: Exception)

  /** `lambda_handler`: routes on `Method`; a GET with a non-empty
      `confirmation_token` confirms, any other GET lists; other methods get
      None; a missing `Method` raises `KeyError`. */
  function Dispatch(event: map<string, Value>): (r: Route)
    ensures r == RouteRaised(KeyError) <==> "Method" !in event
    ensures r == ToPost <==> "Method" in event && event["Method"] == VStr("POST")
    ensures r == ToConfirm <==>
              "Method" in event && event["Method"] == VStr("GET")
              && "confirmation_token" in event && event["confirmation_token"] != VStr("")
    ensures r == ToList <==>
              "Method" in event && event["Method"] == VStr("GET")
              && ("confirmation_token" !in event || event["confirmation_token"] == VStr(""))
    ensures r == NoHandler <==> "Method" in event && event["Method"] != VStr("POST") && event["Method"] != VStr("GET")
  {
    if "Method" !in event then RouteRaised(KeyError)
    else if event["Method"] == VStr("POST") then ToPost
    else if event["Method"] == VStr("GET") then
      var token := if "confirmation_token" in event then event["confirmation_token"] else VStr("");
      if token != VStr("") then ToConfirm else ToList
    else NoHandler
  }
}
