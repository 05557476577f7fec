/** The login-prediction endpoint: record the client's attempt in the counter
    store, then decide. The classifier's arg-max class index and the clock are
    inputs; the HTTP layer and the audit log are not modelled. */
module LoginEndpoint {
  import opened LoginRisk
  import opened AttemptCounter

  /** One request: the decision, and the attempt count it was based on (the
      value the audit record carries). */
  method PredictLogin(store: RedisStore, req: LoginRequest, riskIndex: int, clientIp: string, now: int, fault: Fault)
    returns (response: LoginResponse, attempts: nat)
    requires store.Valid() && req.Valid()
    modifies store
    ensures store.Valid()
    ensures response == Assess(req, riskIndex, attempts)
    ensures fault == NoFault || (fault == ExpireRaises && old(Live(store.entries, AttemptKey(clientIp), now))) ==>
      Reply(store.entries, attempts) == Attempt(old(store.entries), AttemptKey(clientIp), now)
    ensures fault == IncrRaises ==>
      attempts == 1 && response.action != Block && store.entries == old(store.entries)
    ensures fault == IncrReplyLost ==>
      attempts == 1 && response.action != Block
      && store.entries == IncrOn(old(store.entries), AttemptKey(clientIp), now).store
    ensures fault == ExpireRaises && !old(Live(store.entries, AttemptKey(clientIp), now)) ==>
      attempts == 1 && response.action != Block
      && store.entries == old(store.entries)[AttemptKey(clientIp) := Entry(1, None)]
  {
    attempts := RecordAttempt(store, clientIp, now, fault);
    response := Assess(req, riskIndex, attempts);
  }

  /** A burst of requests from one client with no live counter, all within 60
      seconds of the first and with the store answering: the first four are
      never blocked, and from the fifth on every one is blocked at HIGH risk,
      whatever the requests and the classifier say, and their reasons report the
      repeated attempts from the fifth on. */
  lemma BurstBlocksFromFifth(s: Store, clientIp: string, times: seq<int>,
                             reqs: seq<LoginRequest>, riskIndexes: seq<int>)
    requires times != [] && |reqs| == |times| && |riskIndexes| == |times|
    requires forall i :: 0 <= i < |reqs| ==> reqs[i].Valid()
    requires !Live(s, AttemptKey(clientIp), times[0])
    requires forall i :: 0 <= i < |times| ==> times[i] < times[0] + LoginWindowSeconds
    ensures forall i :: 0 <= i < |times| ==>
      var r := Assess(reqs[i], riskIndexes[i], Replay(s, AttemptKey(clientIp), times).counts[i]);
      (r.action == Block <==> i >= MaxAttemptsBlock - 1) && (r.action == Block ==> r.riskLevel == High)
    ensures forall i :: 0 <= i < |times| ==>
      var counts := Replay(s, AttemptKey(clientIp), times).counts;
      ManyAttempts in ReasonFactors(reqs[i], counts[i]) <==> i >= MaxAttemptsBlock - 1
  {
    BurstCounts(s, AttemptKey(clientIp), times);
  }
}
