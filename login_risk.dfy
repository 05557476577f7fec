/** The risk decision of the login endpoint: the classifier's most likely class
    gives a baseline verdict, a fixed rule escalates night-time logins from a new
    device in a new country, a brute-force rule blocks once the attempt counter
    reaches its threshold, and a reason text lists the factors that were seen.
    The classifier itself is not modelled: its arg-max class index is an input. */
module LoginRisk {
  import opened Strings

  /** Attempt count at which a client is blocked. */
  const MaxAttemptsBlock := 5
  /** Logins before this hour of the day are unusual. */
  const UnusualHourLimit := 7
  /** The feature value that marks a device or a country as new. */
  const NewFlag := 1

  const NormalBehavior := "Login behavior appears normal"
  const Separator := ", "

  datatype RiskLevel = Low | Medium | High
  datatype Action = Allow | RequireOtp | Block

  /** A login attempt as the endpoint receives it. */
  datatype LoginRequest = LoginRequest(loginHour: int, country: int, device: int) {
    /** The field bounds a request must meet before the decision runs. */
    predicate Valid() {
      0 <= loginHour <= 23 && country >= 0 && device >= 0
    }
  }

  /** The outcome of checking a request body's fields: the request, or a
      rejection that the endpoint answers with a validation error. */
  datatype Validated = Rejected | Accepted(req: LoginRequest)

  /** Field validation of a request body: an hour of the day from 0 to 23 and
      non-negative country and device features are accepted unchanged, anything
      else is rejected before the decision runs. */
  function Validate(loginHour: int, country: int, device: int): (r: Validated)
    ensures r.Accepted? ==> r.req == LoginRequest(loginHour, country, device) && r.req.Valid()
    ensures LoginRequest(loginHour, country, device).Valid() ==> r.Accepted?
    ensures loginHour < 0 || loginHour > 23 || country < 0 || device < 0 ==> r == Rejected
  {
    if 0 <= loginHour <= 23 && country >= 0 && device >= 0 then
      Accepted(LoginRequest(loginHour, country, device))
    else
      Rejected
  }

  /** Risk level, action and suspicion flag, decided together. */
  datatype Verdict = Verdict(level: RiskLevel, action: Action, suspicious: bool)

  /** The endpoint's answer. */
  datatype LoginResponse = LoginResponse(isSuspicious: bool, riskLevel: RiskLevel, action: Action, reason: string)

  function LevelRank(l: RiskLevel): nat {
    match l
    case Low => 0
    case Medium => 1
    case High => 2
  }

  function ActionRank(a: Action): nat {
    match a
    case Allow => 0
    case RequireOtp => 1
    case Block => 2
  }

  /** A verdict is suspicious exactly when its level is not LOW, and exactly when
      its action is not ALLOW. */
  predicate Consistent(v: Verdict) {
    v.suspicious == (v.level != Low) && v.suspicious == (v.action != Allow)
  }

  /** The verdict the classifier's class index alone gives. */
  function Baseline(riskIndex: int): (v: Verdict)
    ensures Consistent(v)
    ensures v.level == Low <==> riskIndex == 0
    ensures v.level == Medium <==> riskIndex == 1
    ensures v.action != Block
  {
    if riskIndex == 0 then Verdict(Low, Allow, false)
    else if riskIndex == 1 then Verdict(Medium, RequireOtp, true)
    else Verdict(High, RequireOtp, true)
  }

  /** The fixed rule: an unusual hour, a new device and a new country together. */
  predicate StaticOverride(req: LoginRequest)
    ensures req.Valid() ==>
      (StaticOverride(req) <==> GenerateReasons(req) == [UnusualHour, NewDevice, NewCountry])
  {
    req.loginHour < UnusualHourLimit && req.device == NewFlag && req.country == NewFlag
  }

  /** The brute-force rule. The count 1 that a failing store falls back to never
      meets it. */
  predicate BruteForce(attemptCount: int)
    ensures BruteForce(attemptCount) ==> attemptCount > 1
  {
    attemptCount >= MaxAttemptsBlock
  }

  /** Once a count meets the brute-force rule, every higher count does too. */
  lemma BruteForceMonotone(m: int, n: int)
    requires m <= n && BruteForce(m)
    ensures BruteForce(n)
  {
  }

  /** A factor that the reason text reports. */
  datatype Factor = UnusualHour | NewDevice | NewCountry | ManyAttempts

  /** The fragment of the reason text that reports a factor. */
  function FactorText(f: Factor): (r: string)
    ensures Separator[0] !in r
    ensures r != NormalBehavior
  {
    match f
    case UnusualHour => "Login at unusual hour"
    case NewDevice => "Login from new device"
    case NewCountry => "Login from new country"
    case ManyAttempts => "Multiple failed login attempts detected"
  }

  /** Distinct factors are reported by distinct fragments. */
  lemma FactorTextInjective(f: Factor, g: Factor)
    requires f != g
    ensures FactorText(f) != FactorText(g)
  {
    match f
    case UnusualHour => assert FactorText(f)[6] == 'a';
    case NewDevice => assert FactorText(f)[15] == 'd';
    case NewCountry => assert FactorText(f)[15] == 'c';
    case ManyAttempts => assert FactorText(f)[0] == 'M';
  }

  /** Position of a factor in the fixed order of the reason text. */
  function FactorRank(f: Factor): nat {
    match f
    case UnusualHour => 0
    case NewDevice => 1
    case NewCountry => 2
    case ManyAttempts => 3
  }

  /** The factors stand in their fixed order, each at most once. */
  predicate InFactorOrder(fs: seq<Factor>) {
    forall i, j :: 0 <= i < j < |fs| ==> FactorRank(fs[i]) < FactorRank(fs[j])
  }

  /** Two lists in factor order, every factor of the first ranked before every
      factor of the second, concatenate to a list in factor order. */
  lemma InFactorOrderAppend(a: seq<Factor>, b: seq<Factor>)
    requires InFactorOrder(a) && InFactorOrder(b)
    requires forall i, j :: 0 <= i < |a| && 0 <= j < |b| ==> FactorRank(a[i]) < FactorRank(b[j])
    ensures InFactorOrder(a + b)
  {
  }

  /** Membership in a concatenation of three lists. */
  lemma InConcat3(f: Factor, a: seq<Factor>, b: seq<Factor>, c: seq<Factor>)
    ensures f in a + b + c <==> f in a || f in b || f in c
  {
  }

  /** The factors that the request alone justifies, in the reason text's order. */
  function GenerateReasons(req: LoginRequest): (r: seq<Factor>)
    requires req.Valid()
    ensures UnusualHour in r <==> req.loginHour < UnusualHourLimit
    ensures NewDevice in r <==> req.device == NewFlag
    ensures NewCountry in r <==> req.country == NewFlag
    ensures ManyAttempts !in r
    ensures InFactorOrder(r)
  {
    var hour := if req.loginHour < UnusualHourLimit then [UnusualHour] else [];
    var device := if req.device == NewFlag then [NewDevice] else [];
    var country := if req.country == NewFlag then [NewCountry] else [];
    InFactorOrderAppend(hour, device);
    InFactorOrderAppend(hour + device, country);
    InConcat3(UnusualHour, hour, device, country);
    InConcat3(NewDevice, hour, device, country);
    InConcat3(NewCountry, hour, device, country);
    InConcat3(ManyAttempts, hour, device, country);
    hour + device + country
  }

  /** The request's factors, followed by the brute-force factor when the attempt
      count reached the threshold. */
  function ReasonFactors(req: LoginRequest, attemptCount: int): (r: seq<Factor>)
    requires req.Valid()
    ensures UnusualHour in r <==> req.loginHour < UnusualHourLimit
    ensures NewDevice in r <==> req.device == NewFlag
    ensures NewCountry in r <==> req.country == NewFlag
    ensures ManyAttempts in r <==> BruteForce(attemptCount)
    ensures InFactorOrder(r)
  {
    var base := GenerateReasons(req);
    var attempts := if BruteForce(attemptCount) then [ManyAttempts] else [];
    assert forall i :: 0 <= i < |base| ==> base[i] != ManyAttempts;
    InFactorOrderAppend(base, attempts);
    base + attempts
  }

  /** The fragments of a list of factors, in the same order. */
  function Fragments(fs: seq<Factor>): (r: seq<string>)
    ensures |r| == |fs|
    ensures forall i :: 0 <= i < |fs| ==> r[i] == FactorText(fs[i])
  {
    seq(|fs|, i requires 0 <= i < |fs| => FactorText(fs[i]))
  }

  /** The joined fragments of a non-empty list of factors split back into those
      fragments, and are never the normal-behaviour text. */
  lemma JoinedFragmentsShape(fs: seq<Factor>)
    requires fs != []
    ensures Split(Join(Fragments(fs), Separator), Separator) == Fragments(fs)
    ensures Join(Fragments(fs), Separator) != NormalBehavior
  {
    var texts := Fragments(fs);
    SplitJoin(texts, Separator);
    assert ',' !in NormalBehavior;
    SplitNoSeparator(NormalBehavior, Separator);
    assert texts != [NormalBehavior];
  }

  /** The reason text: the factors' fragments joined with ", ", or the
      normal-behaviour text when there are none. It is the normal-behaviour text
      exactly when there is no factor; otherwise splitting it at ", " gives the
      factors' fragments back, in order. */
  function ReasonText(fs: seq<Factor>): (r: string)
    ensures r == NormalBehavior <==> fs == []
    ensures fs != [] ==> Split(r, Separator) == Fragments(fs)
  {
    if fs == [] then NormalBehavior
    else
      JoinedFragmentsShape(fs);
      Join(Fragments(fs), Separator)
  }

  /** The whole decision of one request, given the classifier's class index and
      the attempt count the counter reported. */
  function Assess(req: LoginRequest, riskIndex: int, attemptCount: int): (r: LoginResponse)
    requires req.Valid()
    ensures Consistent(Verdict(r.riskLevel, r.action, r.isSuspicious))
    ensures r.action == Block <==> BruteForce(attemptCount)
    ensures BruteForce(attemptCount) ==> r.riskLevel == High
    ensures StaticOverride(req) ==> r.riskLevel == High && r.isSuspicious
    ensures StaticOverride(req) && !BruteForce(attemptCount) ==> r.action == RequireOtp
    ensures !StaticOverride(req) && !BruteForce(attemptCount) ==>
      Verdict(r.riskLevel, r.action, r.isSuspicious) == Baseline(riskIndex)
    ensures LevelRank(r.riskLevel) >= LevelRank(Baseline(riskIndex).level)
    ensures ActionRank(r.action) >= ActionRank(Baseline(riskIndex).action)
  {
    var baseline := Baseline(riskIndex);
    var overridden := if StaticOverride(req) then Verdict(High, RequireOtp, true) else baseline;
    var final := if BruteForce(attemptCount) then Verdict(High, Block, true) else overridden;
    LoginResponse(final.suspicious, final.level, final.action, ReasonText(ReasonFactors(req, attemptCount)))
  }

  /** The reason of a decision: the normal-behaviour text exactly when no factor
      applies, and otherwise the factors' fragments in their fixed order,
      separated by ", ". */
  lemma AssessReason(req: LoginRequest, riskIndex: int, attemptCount: int)
    requires req.Valid()
    ensures var r := Assess(req, riskIndex, attemptCount);
      (r.reason == NormalBehavior) <==>
        (req.loginHour >= UnusualHourLimit && req.device != NewFlag && req.country != NewFlag
         && !BruteForce(attemptCount))
    ensures var r := Assess(req, riskIndex, attemptCount);
      r.reason != NormalBehavior ==>
        Split(r.reason, Separator) == Fragments(ReasonFactors(req, attemptCount))
  {
    var fs := ReasonFactors(req, attemptCount);
    if fs != [] {
      assert fs[0] in fs;
    }
  }

  /** The reason never depends on the classifier's output. */
  lemma ReasonIgnoresClassIndex(req: LoginRequest, i: int, j: int, attemptCount: int)
    requires req.Valid()
    ensures Assess(req, i, attemptCount).reason == Assess(req, j, attemptCount).reason
  {
  }

  /** A night-time login from a new device in a new country, first attempt: the
      three request factors are reported, in order. */
  lemma ExampleNightNewDeviceNewCountry(riskIndex: int)
    ensures Assess(LoginRequest(3, 1, 1), riskIndex, 1)
      == LoginResponse(true, High, RequireOtp,
                       Join(["Login at unusual hour", "Login from new device", "Login from new country"], ", "))
  {
    var fs := ReasonFactors(LoginRequest(3, 1, 1), 1);
    assert fs == [UnusualHour, NewDevice, NewCountry];
    assert Fragments(fs) == ["Login at unusual hour", "Login from new device", "Login from new country"];
  }

  /** A daytime login from a known device and country, classed as low risk. */
  lemma ExampleNormalLogin()
    ensures Assess(LoginRequest(10, 0, 0), 0, 1)
      == LoginResponse(false, Low, Allow, "Login behavior appears normal")
  {
  }
}
