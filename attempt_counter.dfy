/** The brute-force counter of the login endpoint: a key-value store with
    per-key expiry (the subset of Redis the endpoint uses: INCR and EXPIRE),
    and the endpoint's attempt recording, which increments the client's key and
    opens a 60-second window when the increment created the key. The store may
    raise instead of answering; the endpoint then counts the attempt as the first. */
module AttemptCounter {

  /** Length of the counting window, in seconds. */
  const LoginWindowSeconds := 60
  /** Prefix of the counter key; the client's address follows it. */
  const KeyPrefix := "login_attempts:"

  datatype Option<T> = None | Some(value: T)

  /** A stored counter: its value and, when a time-to-live is set, the instant
      at which the key disappears. */
  datatype Entry = Entry(count: nat, expiry: Option<int>)

  type Store = map<string, Entry>

  /** A key is present at `now` when it is stored and its expiry, if any, has
      not been reached. */
  predicate Live(s: Store, key: string, now: int) {
    key in s && (s[key].expiry.None? || now < s[key].expiry.value)
  }

  /** The counter value a reader sees at `now`: 0 for an absent or expired key. */
  function CountAt(s: Store, key: string, now: int): nat {
    if Live(s, key, now) then s[key].count else 0
  }

  /** Every stored counter is at least 1, as INCR is the only writer. */
  predicate Positive(s: Store) {
    forall k :: k in s ==> s[k].count >= 1
  }

  /** Only `key` may differ between the two stores. */
  ghost predicate SameElsewhere(s: Store, s': Store, key: string) {
    forall k :: k != key ==> (k in s' <==> k in s) && (k in s ==> s'[k] == s[k])
  }

  /** A store after a command, with the integer the command replied. */
  datatype Reply = Reply(store: Store, value: nat)

  /** INCR: a present key goes up by one and keeps its time-to-live; an absent
      or expired key is created at 1 with no time-to-live. The reply is the new
      value. */
  function IncrOn(s: Store, key: string, now: int): (r: Reply)
    ensures r.value == CountAt(s, key, now) + 1
    ensures Live(r.store, key, now) && r.store[key].count == r.value
    ensures r.store[key].expiry == if Live(s, key, now) then s[key].expiry else None
    ensures SameElsewhere(s, r.store, key)
    ensures Positive(s) ==> Positive(r.store)
  {
    if Live(s, key, now) then
      Reply(s[key := s[key].(count := s[key].count + 1)], s[key].count + 1)
    else
      Reply(s[key := Entry(1, None)], 1)
  }

  /** EXPIRE: a present key lives exactly until `seconds` after `now`, with its
      value unchanged (a non-positive time-to-live deletes it at once); an absent
      or expired key is not touched. */
  function ExpireOn(s: Store, key: string, seconds: int, now: int): (r: Store)
    ensures !Live(s, key, now) ==> r == s
    ensures Live(s, key, now) && seconds > 0 ==>
      key in r && r[key].count == s[key].count &&
      forall t :: Live(r, key, t) <==> t < now + seconds
    ensures Live(s, key, now) && seconds <= 0 ==> forall t :: !Live(r, key, t)
    ensures SameElsewhere(s, r, key)
    ensures Positive(s) ==> Positive(r)
  {
    if !Live(s, key, now) then s
    else if seconds <= 0 then s - {key}
    else s[key := s[key].(expiry := Some(now + seconds))]
  }

  /** The counting window the endpoint means to keep: the first attempt after
      absence or expiry counts 1 and opens a window ending 60 seconds later;
      later attempts inside the window count on and do not extend it. */
  function Attempt(s: Store, key: string, now: int): (r: Reply)
    ensures r.value == CountAt(s, key, now) + 1
    ensures key in r.store && r.store[key].count == r.value
    ensures !Live(s, key, now) ==> r.value == 1 && r.store[key].expiry == Some(now + LoginWindowSeconds)
    ensures Live(s, key, now) ==> r.store[key].expiry == s[key].expiry
    ensures Live(r.store, key, now)
    ensures SameElsewhere(s, r.store, key)
  {
    if Live(s, key, now) then
      Reply(s[key := s[key].(count := s[key].count + 1)], s[key].count + 1)
    else
      Reply(s[key := Entry(1, Some(now + LoginWindowSeconds))], 1)
  }

  /** INCR followed, when it replied 1, by EXPIRE of 60 seconds keeps exactly the
      intended window, on any store whose counters are positive. */
  lemma IncrThenExpireIsAttempt(s: Store, key: string, now: int)
    requires Positive(s)
    ensures var i := IncrOn(s, key, now);
      var after := if i.value == 1 then ExpireOn(i.store, key, LoginWindowSeconds, now) else i.store;
      Reply(after, i.value) == Attempt(s, key, now)
  {
  }

  /** The key under which a client's attempts are counted. */
  function AttemptKey(clientIp: string): (key: string)
    ensures KeyPrefix <= key && key[|KeyPrefix|..] == clientIp
  {
    KeyPrefix + clientIp
  }

  /** The store as the endpoint sees it: a mutable map from keys to counters. */
  class RedisStore {
    var entries: Store

    ghost predicate Valid()
      reads this
    {
      Positive(entries)
    }

    constructor ()
      ensures Valid() && entries == map[]
    {
      entries := map[];
    }

    /** INCR key */
    method Incr(key: string, now: int) returns (value: nat)
      requires Valid()
      modifies this
      ensures Valid()
      ensures Reply(entries, value) == IncrOn(old(entries), key, now)
    {
      var r := IncrOn(entries, key, now);
      entries, value := r.store, r.value;
    }

    /** EXPIRE key seconds */
    method Expire(key: string, seconds: int, now: int)
      requires Valid()
      modifies this
      ensures Valid()
      ensures entries == ExpireOn(old(entries), key, seconds, now)
    {
      entries := ExpireOn(entries, key, seconds, now);
    }
  }

  /** Where the store raises, if it does: nowhere; on an INCR that never reached
      the store; on an INCR the store applied but whose reply was lost; or on
      EXPIRE (which is only sent after an INCR that replied 1). */
  datatype Fault = NoFault | IncrRaises | IncrReplyLost | ExpireRaises

  /** The endpoint's attempt recording: INCR the client's key, EXPIRE it for the
      window when the INCR replied 1, and count 1 if the store raised. */
  method RecordAttempt(store: RedisStore, clientIp: string, now: int, fault: Fault) returns (attemptCount: nat)
    requires store.Valid()
    modifies store
    ensures store.Valid()
    ensures fault == IncrRaises ==> attemptCount == 1 && store.entries == old(store.entries)
    ensures fault == IncrReplyLost ==>
      attemptCount == 1 && store.entries == IncrOn(old(store.entries), AttemptKey(clientIp), now).store
    ensures fault == NoFault || (fault == ExpireRaises && old(Live(store.entries, AttemptKey(clientIp), now))) ==>
      Reply(store.entries, attemptCount) == Attempt(old(store.entries), AttemptKey(clientIp), now)
    ensures fault == ExpireRaises && !old(Live(store.entries, AttemptKey(clientIp), now)) ==>
      attemptCount == 1 && store.entries == old(store.entries)[AttemptKey(clientIp) := Entry(1, None)]
  {
    var key := AttemptKey(clientIp);
    IncrThenExpireIsAttempt(store.entries, key, now);
    if fault == IncrRaises {
      attemptCount := 1;
      return;
    }
    if fault == IncrReplyLost {
      var lost := store.Incr(key, now);
      attemptCount := 1;
      return;
    }
    var value := store.Incr(key, now);
    attemptCount := value;
    if value == 1 {
      if fault == ExpireRaises {
        attemptCount := 1;
      } else {
        store.Expire(key, LoginWindowSeconds, now);
      }
    }
  }

  /** The final store after a sequence of attempts, and the count each returned. */
  datatype Trace = Trace(store: Store, counts: seq<nat>)

  /** A sequence of successful attempts on one key, at the given instants: the
      final store and the count each attempt returned. */
  function Replay(s: Store, key: string, times: seq<int>): (r: Trace)
    ensures |r.counts| == |times|
    decreases |times|
  {
    if times == [] then Trace(s, [])
    else
      var first := Attempt(s, key, times[0]);
      var rest := Replay(first.store, key, times[1..]);
      Trace(rest.store, [first.value] + rest.counts)
  }

  /** Inside an open window, every further attempt counts one more than the one
      before, and the window's end does not move. */
  lemma {:induction false} ReplayWithinWindow(s: Store, key: string, times: seq<int>, end: int)
    requires key in s && s[key].expiry == Some(end)
    requires forall i :: 0 <= i < |times| ==> times[i] < end
    ensures forall i :: 0 <= i < |times| ==> Replay(s, key, times).counts[i] == s[key].count + i + 1
    ensures key in Replay(s, key, times).store && Replay(s, key, times).store[key].expiry == Some(end)
    decreases |times|
  {
    if times != [] {
      var first := Attempt(s, key, times[0]);
      assert Live(s, key, times[0]);
      ReplayWithinWindow(first.store, key, times[1..], end);
      var counts := Replay(s, key, times).counts;
      forall i | 0 <= i < |times| ensures counts[i] == s[key].count + i + 1 {
        if i > 0 {
          assert counts[i] == Replay(first.store, key, times[1..]).counts[i - 1];
        }
      }
    }
  }

  /** A burst of attempts from a client with no live counter, all within 60
      seconds of the first: the i-th attempt (from 0) counts i + 1. */
  lemma BurstCounts(s: Store, key: string, times: seq<int>)
    requires times != [] && !Live(s, key, times[0])
    requires forall i :: 0 <= i < |times| ==> times[i] < times[0] + LoginWindowSeconds
    ensures forall i :: 0 <= i < |times| ==> Replay(s, key, times).counts[i] == i + 1
  {
    var first := Attempt(s, key, times[0]);
    var rest := times[1..];
    forall i | 0 <= i < |rest| ensures rest[i] < times[0] + LoginWindowSeconds {
      assert rest[i] == times[i + 1];
    }
    ReplayWithinWindow(first.store, key, rest, times[0] + LoginWindowSeconds);
    var counts := Replay(s, key, times).counts;
    forall i | 0 <= i < |times| ensures counts[i] == i + 1 {
      if i > 0 {
        assert counts[i] == Replay(first.store, key, rest).counts[i - 1];
      }
    }
  }

  /** A counter left without a time-to-live (an EXPIRE that raised, or an INCR
      whose reply was lost, after the INCR created the key) never resets: every later attempt counts one
      more than the one before, however far apart the attempts are. */
  lemma {:induction false} ReplayWithoutExpiry(s: Store, key: string, times: seq<int>)
    requires key in s && s[key].expiry == None
    ensures forall i :: 0 <= i < |times| ==> Replay(s, key, times).counts[i] == s[key].count + i + 1
    ensures key in Replay(s, key, times).store && Replay(s, key, times).store[key].expiry == None
    decreases |times|
  {
    if times != [] {
      var first := Attempt(s, key, times[0]);
      ReplayWithoutExpiry(first.store, key, times[1..]);
      var counts := Replay(s, key, times).counts;
      forall i | 0 <= i < |times| ensures counts[i] == s[key].count + i + 1 {
        if i > 0 {
          assert counts[i] == Replay(first.store, key, times[1..]).counts[i - 1];
        }
      }
    }
  }
}
