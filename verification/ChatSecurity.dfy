/** The per-conversation token bucket, which bounds how much decryption a counterparty can force
    (src/util/chat_security.rs). */
module TokenBucket {

  import opened Wrappers

  const RATE_PER_MINUTE: real := 30.0
  const BURST: real := 60.0

  /** The state of one limiter. Time is the monotonic clock, in seconds. */
  datatype Bucket = Bucket(tokens: real, last: real)

  /** A limiter as created at `now`: full. */
  function Fresh(now: real): Bucket {
    Bucket(BURST, now)
  }

  /** Tokens after refilling up to `now`. A clock reading before `last` counts as no time at all. */
  function Refilled(b: Bucket, now: real): real {
    var elapsed := if now < b.last then 0.0 else now - b.last;
    var raw := b.tokens + elapsed * 0.5;
    if raw < BURST then raw else BURST
  }

  /** The bucket after one request at `now`. */
  function Next(b: Bucket, now: real): Bucket {
    var r := Refilled(b, now);
    Bucket(if r >= 1.0 then r - 1.0 else r, now)
  }

  /** Whether a request at `now` is let through. */
  predicate Allows(b: Bucket, now: real) {
    Refilled(b, now) >= 1.0
  }

  /** The limiter as the program updates it in place. */
  class ChatRateLimiter {
    var tokens: real
    var last: real

    function Value(): Bucket
      reads this
    {
      Bucket(tokens, last)
    }

    constructor (b: Bucket)
      ensures Value() == b
    {
      tokens, last := b.tokens, b.last;
    }

    method AllowAt(now: real) returns (allowed: bool)
      modifies this
      ensures allowed == Allows(old(Value()), now)
      ensures Value() == Next(old(Value()), now)
    {
      var elapsed := if now < last then 0.0 else now - last;
      last := now;
      var refilled := tokens + elapsed * (RATE_PER_MINUTE / 60.0);
      tokens := if refilled < BURST then refilled else BURST;
      if tokens >= 1.0 {
        tokens := tokens - 1.0;
        allowed := true;
      } else {
        allowed := false;
      }
    }
  }

  /** One limiter per conversation. */
  class ChatRateLimiters<K(==)> {
    var buckets: map<K, Bucket>

    constructor ()
      ensures buckets == map[]
    {
      buckets := map[];
    }

    method Allow(key: K, now: real) returns (allowed: bool)
      modifies this
      ensures allowed == Allows(BucketOf(old(buckets), key, now), now)
      ensures buckets == old(buckets)[key := Next(BucketOf(old(buckets), key, now), now)]
    {
      var limiter := new ChatRateLimiter(if key in buckets then buckets[key] else Fresh(now));
      allowed := limiter.AllowAt(now);
      buckets := buckets[key := limiter.Value()];
    }

    method Remove(key: K)
      modifies this
      ensures buckets == old(buckets) - {key}
    {
      buckets := buckets - {key};
    }
  }

  /** The bucket a request for `key` meets: a fresh one the first time. */
  function BucketOf<K>(buckets: map<K, Bucket>, key: K, now: real): Bucket {
    if key in buckets then buckets[key] else Fresh(now)
  }

  // ----- Runs of one limiter -----

  /** The bucket after serving requests at `times`, in order. */
  function After(b: Bucket, times: seq<real>): Bucket {
    if times == [] then b else Next(After(b, times[..|times| - 1]), times[|times| - 1])
  }

  /** The answer given to the `k`-th request. */
  predicate Answer(b: Bucket, times: seq<real>, k: nat)
    requires k < |times|
  {
    Allows(After(b, times[..k]), times[k])
  }

  /** How many of the requests `i`, ..., `j - 1` are let through. */
  function Admitted(b: Bucket, times: seq<real>, i: nat, j: nat): nat
    requires i <= j <= |times|
    decreases j
  {
    if i == j then 0
    else Admitted(b, times, i, j - 1) + if Answer(b, times, j - 1) then 1 else 0
  }

  predicate Monotone(times: seq<real>) {
    forall i, j :: 0 <= i <= j < |times| ==> times[i] <= times[j]
  }

  /** What the window opened by request `i` still allows when request `n` arrives: the burst, plus
      half a token a second since then, minus what was let through in between. */
  function Headroom(b: Bucket, times: seq<real>, i: nat, n: nat): real
    requires i <= n < |times|
  {
    BURST + (times[n] - times[i]) * 0.5 - Admitted(b, times, i, n) as real
  }

  lemma AfterStep(b: Bucket, times: seq<real>, n: nat)
    requires 0 < n <= |times|
    ensures After(b, times[..n]) == Next(After(b, times[..n - 1]), times[n - 1])
  {
    assert times[..n][..n - 1] == times[..n - 1];
  }

  lemma {:induction false} TokensInRange(b: Bucket, times: seq<real>)
    requires 0.0 <= b.tokens <= BURST
    ensures 0.0 <= After(b, times).tokens <= BURST
  {
    if times != [] {
      TokensInRange(b, times[..|times| - 1]);
    }
  }

  /** No window is ever overdrawn: the refilled bucket never exceeds the headroom of any window. */
  lemma {:induction false} RefilledBelowHeadroom(b: Bucket, times: seq<real>, i: nat, n: nat)
    requires Monotone(times)
    requires i <= n < |times|
    ensures Refilled(After(b, times[..n]), times[n]) <= Headroom(b, times, i, n)
    decreases n
  {
    if i < n {
      RefilledBelowHeadroom(b, times, i, n - 1);
      AfterStep(b, times, n);
    }
  }

  /** A bucket that started full is exactly as full as its tightest window allows. */
  lemma {:induction false} SomeWindowIsTight(times: seq<real>, start: real, n: nat) returns (i: nat)
    requires Monotone(times) && n < |times| && start <= times[0]
    ensures i <= n
    ensures Refilled(After(Fresh(start), times[..n]), times[n]) == Headroom(Fresh(start), times, i, n)
    decreases n
  {
    var b := Fresh(start);
    if n == 0 {
      i := 0;
    } else {
      i := SomeWindowIsTight(times, start, n - 1);
      AfterStep(b, times, n);
      if Refilled(After(b, times[..n]), times[n]) == BURST {
        i := n;
      }
    }
  }

  /** One more event at request `n` keeps the window opened by request `i` within a burst of 60 plus
      one event every two seconds. */
  ghost predicate HasRoom(b: Bucket, times: seq<real>, i: nat, n: nat)
    requires i <= n < |times|
  {
    Admitted(b, times, i, n) as real + 1.0 <= 60.0 + (times[n] - times[i]) / 2.0
  }

  lemma HasRoomIffHeadroom(b: Bucket, times: seq<real>, i: nat, n: nat)
    requires i <= n < |times|
    ensures HasRoom(b, times, i, n) <==> Headroom(b, times, i, n) >= 1.0
  {
  }

  /** The token bucket is a sliding-window limit: a request is let through exactly when every earlier
      request, taken as the start of a window, leaves room for it. */
  lemma AllowedIffEveryWindowHasRoom(times: seq<real>, start: real, n: nat)
    requires Monotone(times) && n < |times| && start <= times[0]
    ensures Answer(Fresh(start), times, n) <==> forall i: nat | i <= n :: HasRoom(Fresh(start), times, i, n)
  {
    var b := Fresh(start);
    forall i: nat | i <= n
      ensures Answer(b, times, n) ==> HasRoom(b, times, i, n)
    {
      RefilledBelowHeadroom(b, times, i, n);
      HasRoomIffHeadroom(b, times, i, n);
    }
    var tight := SomeWindowIsTight(times, start, n);
    HasRoomIffHeadroom(b, times, tight, n);
  }

  /** From any reachable bucket, the requests `i`, ..., `j` admit at most `60 + (t - s) / 2` events. */
  lemma WindowBound(b: Bucket, times: seq<real>, i: nat, j: nat)
    requires Monotone(times) && 0.0 <= b.tokens <= BURST
    requires i <= j < |times|
    ensures Admitted(b, times, i, j + 1) as real <= 60.0 + (times[j] - times[i]) / 2.0
  {
    RefilledBelowHeadroom(b, times, i, j);
    TokensInRange(b, times[..j]);
  }

  /** Requests at least two seconds apart are never refused. */
  lemma SpacedRequestsAllowed(b: Bucket, times: seq<real>, k: nat)
    requires 0.0 <= b.tokens <= BURST
    requires k < |times|
    requires if k == 0 then b.last + 2.0 <= times[0] || b.tokens >= 1.0 else times[k - 1] + 2.0 <= times[k]
    ensures Answer(b, times, k)
  {
    TokensInRange(b, times[..k]);
    if k > 0 {
      AfterStep(b, times, k);
    } else {
      assert times[..0] == [];
    }
  }
}

/** The bounded window of recently seen outer event ids (src/util/chat_security.rs). */
module OuterWindow {

  const SEEN_OUTER_CAP: nat := 4096

  /** The last `cap` elements, or all of them. */
  function LastN<T>(s: seq<T>, cap: nat): (r: seq<T>)
    ensures |r| == if |s| <= cap then |s| else cap
  {
    if |s| <= cap then s else s[|s| - cap..]
  }

  predicate NoDup<T(==)>(s: seq<T>) {
    forall i, j :: 0 <= i < j < |s| ==> s[i] != s[j]
  }

  /** The queue after recording `id`. */
  function Pushed<T(==)>(queue: seq<T>, cap: nat, id: T): seq<T> {
    if id in queue then queue else LastN(queue + [id], cap)
  }

  lemma DropFirst<T>(s: seq<T>)
    requires s != [] && NoDup(s)
    ensures NoDup(s[1..])
    ensures (set x | x in s[1..]) == (set x | x in s) - {s[0]}
  {
    forall x | x in s && x != s[0]
      ensures x in s[1..]
    {
      var k :| 0 <= k < |s| && s[k] == x;
      assert s[1..][k - 1] == x;
    }
  }

  class OuterIdLru<T(==)> {
    var ids: set<T>
    var order: seq<T>
    const cap: nat

    ghost predicate Valid()
      reads this
    {
      && 1 <= cap
      && |order| <= cap
      && NoDup(order)
      && ids == set id | id in order
    }

    constructor (requested: nat)
      ensures Valid() && order == [] && cap == if requested == 0 then 1 else requested
    {
      ids, order := {}, [];
      cap := if requested == 0 then 1 else requested;
    }

    /** Records `id`; true when it was not in the window. Evicts from the front. */
    method Insert(id: T) returns (isNew: bool)
      requires Valid()
      modifies this
      ensures Valid()
      ensures isNew == (id !in old(order))
      ensures order == Pushed(old(order), cap, id)
    {
      if id in ids {
        return false;
      }
      ids := ids + {id};
      order := order + [id];
      ghost var full := order;
      while |order| > cap
        invariant cap <= |order| <= |full| || order == full
        invariant order == full[|full| - |order|..]
        invariant NoDup(order)
        invariant ids == set x | x in order
      {
        DropFirst(order);
        ids := ids - {order[0]};
        order := order[1..];
      }
      isNew := true;
    }
  }

  // ----- Runs of insertions into an empty window -----

  /** The queue after offering `ids` in order. */
  function Window<T(==)>(cap: nat, ids: seq<T>): seq<T> {
    if ids == [] then []
    else Pushed(Window(cap, ids[..|ids| - 1]), cap, ids[|ids| - 1])
  }

  /** The ids that were reported as new, in order: those not among the last `cap` accepted ones. */
  function Accepted<T(==)>(cap: nat, ids: seq<T>): seq<T> {
    if ids == [] then []
    else
      var before := Accepted(cap, ids[..|ids| - 1]);
      var id := ids[|ids| - 1];
      if id in LastN(before, cap) then before else before + [id]
  }

  lemma LastNOfPush<T>(s: seq<T>, cap: nat, x: T)
    requires 1 <= cap
    ensures LastN(LastN(s, cap) + [x], cap) == LastN(s + [x], cap)
  {
    if |s| > cap {
      assert LastN(s, cap) + [x] == (s + [x])[|s| - cap..];
    }
  }

  /** The queue is exactly the last `min(cap, n)` accepted ids, oldest first. */
  lemma {:induction false} WindowIsLastAccepted<T>(cap: nat, ids: seq<T>)
    requires 1 <= cap
    ensures Window(cap, ids) == LastN(Accepted(cap, ids), cap)
  {
    if ids != [] {
      var n := |ids| - 1;
      WindowIsLastAccepted(cap, ids[..n]);
      LastNOfPush(Accepted(cap, ids[..n]), cap, ids[n]);
    }
  }

  /** One more id: it is accepted exactly when it is not in the window. */
  lemma OfferOne<T>(cap: nat, ids: seq<T>, id: T)
    requires 1 <= cap
    ensures Window(cap, ids + [id]) == Pushed(Window(cap, ids), cap, id)
    ensures Accepted(cap, ids + [id]) == Accepted(cap, ids) + if id in Window(cap, ids) then [] else [id]
  {
    assert (ids + [id])[..|ids|] == ids;
    WindowIsLastAccepted(cap, ids);
  }

  /** An accepted id is none of the `cap` accepted just before it. */
  lemma {:induction false} AcceptedApart<T>(cap: nat, ids: seq<T>, i: nat, j: nat)
    requires i < j < |Accepted(cap, ids)|
    requires j - i <= cap
    ensures Accepted(cap, ids)[i] != Accepted(cap, ids)[j]
  {
    var n := |ids| - 1;
    var before := Accepted(cap, ids[..n]);
    if j < |before| {
      AcceptedApart(cap, ids[..n], i, j);
    } else {
      var w := LastN(before, cap);
      assert before[i] == w[i - (|before| - |w|)];
    }
  }

  /** An id is accepted again only after at least `cap` distinct other ids were accepted. */
  lemma ReacceptedAfterCapOthers<T>(cap: nat, ids: seq<T>, i: nat, j: nat)
    requires i < j < |Accepted(cap, ids)|
    requires Accepted(cap, ids)[i] == Accepted(cap, ids)[j]
    ensures cap < j - i
    ensures var between := Accepted(cap, ids)[j - cap..j];
            NoDup(between) && Accepted(cap, ids)[j] !in between
  {
    var acc := Accepted(cap, ids);
    if j - i <= cap {
      AcceptedApart(cap, ids, i, j);
    }
    forall a: nat, b: nat | j - cap <= a < b <= j
      ensures acc[a] != acc[b]
    {
      AcceptedApart(cap, ids, a, b);
    }
  }

  /** Behind `first`, `last` goes on for at least `cap` elements, of which the last `cap` are distinct and not `id`. */
  predicate CapOthersBetween<T(==)>(cap: nat, first: seq<T>, last: seq<T>, id: T) {
    |last| - |first| >= cap && NoDup(last[|last| - cap..]) && id !in last[|last| - cap..]
  }

  /** The same, of an id accepted behind `a` and again behind `b`. */
  lemma AcceptedAgain<T>(cap: nat, ids: seq<T>, a: seq<T>, b: seq<T>, id: T)
    requires a + [id] <= b && Accepted(cap, ids) == b + [id]
    ensures CapOthersBetween(cap, a + [id], b, id)
  {
    var acc := b + [id];
    assert acc[|a|] == (a + [id])[|a|] == id;
    ReacceptedAfterCapOthers(cap, ids, |a|, |b|);
    assert acc[|b| - cap..|b|] == b[|b| - cap..];
  }

  /** The invariant of the queue, for any order of insertions. */
  lemma {:induction false} WindowWellFormed<T>(cap: nat, ids: seq<T>)
    requires 1 <= cap
    ensures |Window(cap, ids)| <= cap && NoDup(Window(cap, ids))
  {
    if ids != [] {
      WindowWellFormed(cap, ids[..|ids| - 1]);
    }
  }
}
