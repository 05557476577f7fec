# Suspicious login detection: decision and attempt counter

A Dafny model of the login-risk endpoint of the Suspicious Login Detection
backend (`backend/app.py`). For each login attempt the endpoint:

1. takes the class index that the pre-trained classifier rates most likely.
   Index 0 gives LOW/ALLOW, index 1 gives MEDIUM/REQUIRE_OTP, and any other
   index gives HIGH/REQUIRE_OTP;
2. escalates to HIGH/REQUIRE_OTP when the login hour is before 7 and both the
   device and the country are new (feature value 1);
3. counts the client's attempts in Redis under `login_attempts:<ip>`: an `INCR`,
   then `EXPIRE 60` when the `INCR` replied 1. It counts 1 when the store raises;
4. blocks (HIGH/BLOCK) once the count reaches 5;
5. builds a reason text. The fragments for the unusual hour, the new device, the
   new country and, from 5 attempts on, the repeated attempts are joined with
   ", ". When no fragment applies the text is "Login behavior appears normal".

Files and modules:

- `strings.dfy`, module `Strings`: Python's `", ".join` as `Join`. `Split` is
  its inverse and serves as the reference for the reason text's layout. Both
  round trips are proved.
- `login_risk.dfy`, module `LoginRisk`: the enumerations, request validation (`Validate`) and the bounds
  (`LoginRequest.Valid`). Also the baseline mapping, the fixed override, the
  reason factors and the pure decision `Assess`. A reason fragment is
  represented by a `Factor` value; `FactorText` gives its text.
- `attempt_counter.dfy`, module `AttemptCounter`: a key-value store with
  per-key expiry. `IncrOn` and `ExpireOn` state the semantics of `INCR` and
  `EXPIRE`. Class `RedisStore` holds the map and updates it in place.
  `RecordAttempt` is the endpoint's counting step, and `Attempt` is the window
  it is meant to keep. A `Fault` parameter says where the store raises.
- `login_endpoint.dfy`, module `LoginEndpoint`: `PredictLogin` records the
  attempt and then decides.

A key counts as absent once `now` reaches its expiry. The endpoint counts 1
(fail-open) in two cases:

- the `EXPIRE` that follows a key-creating `INCR` raises;
- a key-creating `INCR` is applied by the store but its reply is lost.

In both cases the key then stays in the store without a time-to-live, and
`ReplayWithoutExpiry` shows that such a counter never resets. Every later
answered attempt from that client counts on, however far apart the attempts are.
Once the count reaches 5, every further request from that client whose `INCR` is
answered is blocked until something outside the endpoint removes the key. A
request whose `INCR` raises still counts 1 and is not blocked.

## Model

| member | source | states |
|---|---|---|
| LoginRisk.Baseline | backend/app.py:134-145 | the class index alone gives a consistent verdict: LOW exactly for index 0, MEDIUM exactly for index 1, HIGH otherwise, never BLOCK |
| LoginRisk.GenerateReasons | backend/app.py:100-112 | the unusual-hour, new-device and new-country factors each appear exactly when their condition holds, in that fixed order, each once; never the brute-force factor |
| LoginRisk.ReasonFactors | backend/app.py:180-183 | the request's factors are followed by the brute-force factor exactly when the attempt count is at least 5, with order and uniqueness kept |
| LoginRisk.Validate | backend/app.py:85-88 | a body with hour 0..23 and non-negative country and device is accepted as that request, which meets `LoginRequest.Valid`; any other body is rejected |
| LoginRisk.StaticOverride | backend/app.py:150-154 | for a valid request the override applies exactly when all three request factors (unusual hour, new device, new country) are reported, in that order |
| LoginRisk.BruteForce | backend/app.py:172 | the brute-force rule never holds for the fallback count 1 |
| LoginRisk.FactorText | backend/app.py:100-112 | no reason fragment contains a comma or equals the normal-behaviour text |
| LoginRisk.FactorTextInjective | backend/app.py:100-112 | distinct factors have distinct fragments |
| LoginRisk.ReasonText | backend/app.py:185 | the reason text is "Login behavior appears normal" exactly when there is no factor; otherwise splitting it at ", " gives the factors' fragments back in order |
| LoginRisk.Assess | backend/app.py:134-175 | suspicious iff level is not LOW iff action is not ALLOW; BLOCK iff attempts >= 5, and then HIGH; the override forces HIGH and suspicious, and REQUIRE_OTP unless blocked; with neither rule the baseline stands; level and action never fall below the baseline |
| LoginRisk.AssessReason | backend/app.py:180-185 | a decision's reason is the normal-behaviour text exactly when no factor applies (hour >= 7, device and country not new, fewer than 5 attempts); otherwise it lists the factors' fragments in order, separated by ", " |
| LoginRisk.ReasonIgnoresClassIndex | backend/app.py:180-185 | the reason text does not depend on the classifier's class index |
| LoginRisk.ExampleNightNewDeviceNewCountry | backend/app.py:134-185 | hour 3, new device, new country, first attempt: suspicious, HIGH, REQUIRE_OTP for any class index, with the three request fragments in order |
| LoginRisk.ExampleNormalLogin | backend/app.py:134-185 | hour 10, known device and country, class 0, first attempt: not suspicious, LOW, ALLOW, "Login behavior appears normal" |
| Strings.Join | backend/app.py:185 | the joined text is empty for no parts and starts with the first part |
| Strings.SplitJoin | backend/app.py:185 | splitting a ", "-joined list at ", " gives the list back when no part contains a comma |
| Strings.JoinSplit | backend/app.py:185 | joining the pieces of a split gives the original text back |
| AttemptCounter.IncrOn | backend/app.py:166 | INCR replies the visible count plus one; a live key keeps its expiry, and an absent or expired key is created with no expiry; other keys are untouched |
| AttemptCounter.ExpireOn | backend/app.py:168 | EXPIRE makes a live key live exactly until now + seconds with its value kept, deletes it for a non-positive time, and leaves absent keys and other keys alone |
| AttemptCounter.Attempt | backend/app.py:165-168 | the intended window: the first attempt after absence or expiry counts 1 and expires at now + 60; an attempt on a live key counts one more and leaves the expiry unchanged; other keys are untouched |
| AttemptCounter.IncrThenExpireIsAttempt | backend/app.py:165-168 | INCR, then EXPIRE 60 only when INCR replied 1, produces exactly the intended window, on any store whose counters are positive |
| AttemptCounter.AttemptKey | backend/app.py:163 | the counter key is "login_attempts:" followed by the client address |
| AttemptCounter.RedisStore.Incr | backend/app.py:166 | the stored map becomes the INCR result and the reply is its value; counters stay positive |
| AttemptCounter.RedisStore.Expire | backend/app.py:168 | the stored map becomes the EXPIRE result; counters stay positive |
| AttemptCounter.RecordAttempt | backend/app.py:162-170 | an INCR that never reaches the store counts 1 and changes nothing; an INCR applied but unanswered counts 1 and leaves the store as INCR made it; an answering store gives the intended window; a raising EXPIRE counts 1 and leaves the new key at 1 with no expiry |
| AttemptCounter.ReplayWithinWindow | backend/app.py:165-168 | inside an open window each further attempt counts one more than the previous one, and the window's end stays where it was |
| AttemptCounter.BurstCounts | backend/app.py:165-168 | attempts from a client with no live counter, all within 60 seconds of the first, count 1, 2, 3, ... |
| AttemptCounter.ReplayWithoutExpiry | backend/app.py:165-170 | a counter left without expiry never resets, however far apart later attempts are, and stays without expiry |
| LoginEndpoint.PredictLogin | backend/app.py:117-210 | the response is the decision for the recorded count; an answering store, or a raising EXPIRE that is never sent because the key was live, updates the counter as the window says; an INCR that raises, whether or not the store applied it, or a raising EXPIRE after the key was created, yields count 1 and never BLOCK, with the store left exactly as the commands that reached it made it |
| LoginEndpoint.BurstBlocksFromFifth | backend/app.py:165-175 | in a burst within 60 seconds from a client with no live counter, a request is blocked exactly when it is the fifth or later, and then at HIGH risk, for any payload and class index; its reason reports the repeated attempts exactly from the fifth on |

## Left out

- The classifier: loading the model file, building the feature frame, `predict_proba` and the arg-max over floating-point probabilities. The arg-max class index is an input of `Assess`.
- Request validation is `Validate`, and its bounds are `LoginRequest.Valid`, which `Assess` requires. The HTTP error reply that follows a rejection is not modelled.
- The HTTP framework, the routes, CORS and the root endpoint: plumbing.
- The Redis client's construction and its network connection: `RedisStore` holds only the map. The client address comes from the HTTP connection and is a parameter, and so is the clock (`now`, in seconds).
- Whether the store raises, and whether a raising `INCR` was applied, is the `Fault` parameter, not a network event. Redis's own errors, such as an `INCR` on a non-integer value or past 64 bits, are not modelled: the endpoint only ever increments the key.
- Concurrency: `INCR` and `EXPIRE` are separate calls, and interleavings between requests are not modelled. Each request runs alone against the store.
- The audit log record and its file handler: file output. `PredictLogin` returns the attempt count that the record would carry.
- The React front end and its duplicate input checks, and the offline dataset generator and trainer: these are not part of this model.
- ExampleNightNewDeviceNewCountry: states the reason as the `Join` of the three fragments rather than as one literal string.
