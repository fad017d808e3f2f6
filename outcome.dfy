/**
 * One simulated call and its outcome record: the catalog fetch (GET /activities)
 * and the signup attempt (POST /activities/{name}/signup?email=...), with the
 * network replaced by the reply it produced.
 */
module Outcome {
  import opened Wrappers
  import opened Text

  /** One entry of the run's result list. `status` 0 means the call raised before a reply;
      `isBusinessSuccess` is false on catalog records (the key is absent and read with default False);
      `error` and `body` are present only where the source sets those keys. */
  datatype Record = Record(
    userId: nat,
    endpoint: string,
    status: nat,
    responseTime: real,
    isBusinessSuccess: bool,
    error: Option<string>,
    body: Option<string>)

  /** What the catalog request produced: a reply with its status and, for a parsed 200 body, the
      activity names (the keys of the JSON object, in order); or an exception with its text. */
  datatype CatalogReply =
    | CatalogResponse(status: nat, names: seq<string>)
    | CatalogFailure(reason: string)

  /** What the signup request produced: a reply with status and body text, or an exception. */
  datatype SignupReply =
    | SignupResponse(status: nat, body: string)
    | SignupFailure(reason: string)

  const CatalogEndpoint: string := "/activities"
  const FallbackActivity: string := "Chess Club"
  const AlreadySignedUp: string := "already signed up"
  const EmailPrefix: string := "loadtest"
  const EmailDomain: string := "@mergington.edu"

  /** The signup business rule: exactly status 200, or status 400 whose body says "already signed up". */
  function ClassifySignup(status: nat, body: string): (ok: bool)
    ensures ok <==> status == 200 || (status == 400 && exists i :: OccursAt(body, AlreadySignedUp, i))
  {
    ContainsIffOccurs(body, AlreadySignedUp);
    status == 200 || (status == 400 && Contains(body, AlreadySignedUp))
  }

  /** The outcomes named for the signup endpoint: an "already signed up" 400 counts, any other
      400 does not, and neither does a 2xx other than 200. */
  lemma ClassifySignupExamples()
    ensures ClassifySignup(400, "Student " + AlreadySignedUp + " for this activity")
    ensures !ClassifySignup(400, "Activity not found")
    ensures ClassifySignup(200, "Signed up")
    ensures !ClassifySignup(201, "Signed up")
    ensures !ClassifySignup(500, "already signed up")
  {
    PhraseInAlreadyEnrolledReply();
    NotContainsByFirstChar("Activity not found", AlreadySignedUp);
  }

  lemma PhraseInAlreadyEnrolledReply()
    ensures Contains("Student " + AlreadySignedUp + " for this activity", AlreadySignedUp)
  {
    var pre, post := "Student ", " for this activity";
    var s := pre + AlreadySignedUp + post;
    assert s[|pre|..|pre| + |AlreadySignedUp|] == AlreadySignedUp;
    ContainsAt(s, AlreadySignedUp, |pre|);
  }

  /** Round-robin choice over the cached catalog, or the fixed fallback when nothing is cached. */
  function SelectActivity(activities: seq<string>, userId: nat): (name: string)
    ensures activities == [] ==> name == FallbackActivity
    ensures activities != [] ==> name in activities
  {
    if activities != [] then activities[userId % |activities|] else FallbackActivity
  }

  /** Users that are fewer than a catalog length apart pick different activities, and a user
      a whole catalog length later picks the same one: each round of users covers the catalog. */
  lemma {:induction false} SelectActivityRoundRobin(activities: seq<string>, u: nat, v: nat)
    requires activities != []
    requires forall i, j :: 0 <= i < j < |activities| ==> activities[i] != activities[j]
    ensures SelectActivity(activities, u + |activities|) == SelectActivity(activities, u)
    ensures u < v < u + |activities| ==> SelectActivity(activities, u) != SelectActivity(activities, v)
  {
    var m := |activities|;
    ModShift(u, m);
    if u < v < u + m {
      ModDistinct(u, v, m);
    }
  }

  lemma MulAtLeast(x: int, m: int)
    requires x >= 1 && m > 0
    ensures x * m >= m
  {
    assert x * m == (x - 1) * m + m;
    assert (x - 1) * m >= 0;
  }

  /** Two quotient-remainder decompositions of one number by `m` have the same remainder. */
  lemma RemainderUnique(q: int, r: int, q': int, r': int, m: int)
    requires m > 0 && 0 <= r < m && 0 <= r' < m
    requires q * m + r == q' * m + r'
    ensures r == r'
  {
    assert (q - q') * m == r' - r;
    if q > q' {
      MulAtLeast(q - q', m);
    } else if q' > q {
      MulAtLeast(q' - q, m);
    }
  }

  lemma ModShift(u: nat, m: nat)
    requires m > 0
    ensures (u + m) % m == u % m
  {
    var q, r := (u + m) / m, (u + m) % m;
    assert u + m == q * m + r;
    assert u == (q - 1) * m + r;
    RemainderUnique(u / m, u % m, q - 1, r, m);
  }

  lemma ModDistinct(u: nat, v: nat, m: nat)
    requires m > 0 && u < v < u + m
    ensures u % m != v % m
  {
    var q, r := u / m, u % m;
    var q', r' := v / m, v % m;
    assert u == q * m + r && v == q' * m + r';
    if r == r' {
      assert v - u == (q' - q) * m;
      if q' - q <= 0 {
        MulAtLeast(q - q' + 1, m);
      } else {
        MulAtLeast(q' - q, m);
      }
    }
  }

  /** The identity `loadtest{user_id}_{TEST_RUN_ID}@mergington.edu`. */
  function Email(userId: nat, runId: nat): string
  {
    EmailPrefix + NatToDecimal(userId) + "_" + NatToDecimal(runId) + EmailDomain
  }

  /** Index of the first `c` in `s`, or `|s|`. */
  function IndexOf(s: string, c: char): (k: nat)
    ensures k <= |s|
    ensures forall i :: 0 <= i < k ==> s[i] != c
    ensures k < |s| ==> s[k] == c
  {
    if s == [] then 0 else if s[0] == c then 0 else 1 + IndexOf(s[1..], c)
  }

  /** Reads back the user and run identifiers from an identity (the inverse of `Email`). */
  function ParseEmail(s: string): Option<(nat, nat)>
  {
    var p, d := |EmailPrefix|, |EmailDomain|;
    if |s| < p + d || s[..p] != EmailPrefix || s[|s| - d..] != EmailDomain then None
    else
      var core := s[p..|s| - d];
      var k := IndexOf(core, '_');
      if k == |core| then None
      else Some((DecimalToNat(core[..k]), DecimalToNat(core[k + 1..])))
  }

  lemma EmailRoundTrip(userId: nat, runId: nat)
    ensures ParseEmail(Email(userId, runId)) == Some((userId, runId))
  {
    var a, b := NatToDecimal(userId), NatToDecimal(runId);
    var core := a + "_" + b;
    assert Email(userId, runId) == EmailPrefix + core + EmailDomain;
    StripAffixes(core);
    SplitAtSeparator(a, b);
    DecimalRoundTrip(userId);
    DecimalRoundTrip(runId);
  }

  /** The prefix and the domain of an identity are recognised and cut off exactly. */
  lemma StripAffixes(core: string)
    ensures var s := EmailPrefix + core + EmailDomain;
      |s| >= |EmailPrefix| + |EmailDomain| && s[..|EmailPrefix|] == EmailPrefix &&
      s[|s| - |EmailDomain|..] == EmailDomain && s[|EmailPrefix|..|s| - |EmailDomain|] == core
  {
  }

  /** The first `_` after a decimal number is the separator the number was joined with. */
  lemma SplitAtSeparator(a: string, b: string)
    requires AllDigits(a)
    ensures IndexOf(a + "_" + b, '_') == |a|
    ensures (a + "_" + b)[..|a|] == a && (a + "_" + b)[|a| + 1..] == b
  {
    var core := a + "_" + b;
    forall i | 0 <= i < |a| ensures core[i] != '_' {
      assert core[i] == a[i] && IsDigit(a[i]);
    }
    assert core[|a|] == '_';
  }

  /** Users with distinct (user id, run id) pairs never share an identity. Within one process the
      run id is fixed, so the same user id in two load tests posts the same e-mail. */
  lemma EmailUnique(u1: nat, r1: nat, u2: nat, r2: nat)
    requires (u1, r1) != (u2, r2)
    ensures Email(u1, r1) != Email(u2, r2)
  {
    EmailRoundTrip(u1, r1);
    EmailRoundTrip(u2, r2);
  }

  /** The name under which a signup record is grouped (the activity name is NOT encoded here). */
  function SignupEndpoint(activity: string): string
  {
    "/activities/" + activity + "/signup"
  }

  /** The request path actually posted: the activity name with spaces encoded. */
  function SignupPath(activity: string): (path: string)
    ensures |path| == |EncodeSpaces(activity)| + 19
    ensures path[..12] == "/activities/" && path[|path| - 7..] == "/signup"
    ensures path[12..|path| - 7] == EncodeSpaces(activity)
    ensures ' ' !in path[12..|path| - 7]
  {
    var e := EncodeSpaces(activity);
    var path := "/activities/" + e + "/signup";
    assert path[..12] == "/activities/" && path[|path| - 7..] == "/signup";
    assert path[12..|path| - 7] == e;
    path
  }

  /** Percent-decoding the name part of the posted path gives the activity name back, provided
      the name holds no literal `%`. */
  lemma SignupPathDecodes(activity: string)
    requires '%' !in activity
    ensures var path := SignupPath(activity); DecodeSpaces(path[12..|path| - 7]) == activity
  {
    EncodeSpacesRoundTrip(activity);
  }

  /** Python's `"signup" in endpoint` separates the two kinds of record: every signup record's
      endpoint mentions "signup", the catalog endpoint does not, and the two never coincide. */
  lemma SignupEndpointMentionsSignup(activity: string)
    ensures Contains(SignupEndpoint(activity), "signup")
    ensures !Contains(CatalogEndpoint, "signup")
    ensures SignupEndpoint(activity) != CatalogEndpoint
  {
    var e := SignupEndpoint(activity);
    assert e[|e| - 6..] == "signup";
    ContainsAt(e, "signup", |e| - 6);
    NotContainsByFirstChar(CatalogEndpoint, "signup");
    assert |e| > |CatalogEndpoint|;
  }

  /** 2xx: the HTTP notion of success. */
  predicate IsHttpSuccess(r: Record)
  {
    200 <= r.status < 300
  }

  /** The rule of the overall success rate: 2xx, or flagged as a business success. */
  predicate CountsAsSuccess(r: Record)
  {
    IsHttpSuccess(r) || r.isBusinessSuccess
  }

  /** The record of one catalog fetch (user `userId`, measured duration `elapsed`). */
  function FetchRecord(userId: nat, reply: CatalogReply, elapsed: real): (r: Record)
    ensures r.userId == userId && r.endpoint == CatalogEndpoint && r.responseTime == elapsed
    ensures !r.isBusinessSuccess && r.body == None
    ensures reply.CatalogFailure? ==> r.status == 0 && r.error == Some(reply.reason)
    ensures reply.CatalogResponse? ==> r.status == reply.status
    ensures reply.CatalogResponse? ==> (r.error == None <==> reply.status == 200)
    ensures reply.CatalogResponse? && reply.status != 200 ==>
      r.error == Some("Failed with status " + NatToDecimal(reply.status))
  {
    match reply
    case CatalogFailure(reason) =>
      Record(userId, CatalogEndpoint, 0, elapsed, false, Some(reason), None)
    case CatalogResponse(status, _) =>
      if status == 200 then Record(userId, CatalogEndpoint, status, elapsed, false, None, None)
      else Record(userId, CatalogEndpoint, status, elapsed, false,
                  Some("Failed with status " + NatToDecimal(status)), None)
  }

  /** The record of one signup attempt for `activity`. A non-success status is NOT given an
      error text; only an exception is. */
  function SignupRecord(activity: string, userId: nat, reply: SignupReply, elapsed: real): (r: Record)
    ensures r.userId == userId && r.endpoint == SignupEndpoint(activity) && r.responseTime == elapsed
    ensures reply.SignupFailure? ==>
      r.status == 0 && r.error == Some(reply.reason) && !r.isBusinessSuccess && r.body == None
    ensures reply.SignupResponse? ==>
      r.status == reply.status && r.error == None && r.body == Some(PreviewBody(reply.body))
    ensures reply.SignupResponse? ==> (r.isBusinessSuccess <==> ClassifySignup(reply.status, reply.body))
  {
    match reply
    case SignupFailure(reason) =>
      Record(userId, SignupEndpoint(activity), 0, elapsed, false, Some(reason), None)
    case SignupResponse(status, body) =>
      Record(userId, SignupEndpoint(activity), status, elapsed,
             ClassifySignup(status, body), None, Some(PreviewBody(body)))
  }

  /** Under the overall rule a replied signup counts exactly when it is 2xx or an "already signed
      up" 400; a failed call never counts. This is wider than the signup endpoint's own business
      count, which leaves out 201..299. */
  lemma SignupCountsAsSuccess(activity: string, userId: nat, reply: SignupReply, elapsed: real)
    ensures var r := SignupRecord(activity, userId, reply, elapsed);
      CountsAsSuccess(r) <==>
        reply.SignupResponse? &&
        (200 <= reply.status < 300 || (reply.status == 400 && Contains(reply.body, AlreadySignedUp)))
  {
  }

  /** A catalog fetch counts exactly when it got a 2xx reply. */
  lemma FetchCountsAsSuccess(userId: nat, reply: CatalogReply, elapsed: real)
    ensures CountsAsSuccess(FetchRecord(userId, reply, elapsed)) <==>
      reply.CatalogResponse? && 200 <= reply.status < 300
  {
  }
}
