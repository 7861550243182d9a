/** What the router's log says about one conversation: the inner ids known, the messages handed on and the
    limiter's answers since the conversation was last dropped. Stated on logs alone, so that it holds of
    every log whose entries were legal when they were written. */
module ChatLog {

  import opened Wrappers
  import opened ChatTypes
  import opened TokenBucket
  import opened OuterWindow
  import opened ChatRouter

  function KnownStep(known: Option<set<EventId>>, e: Entry, key: ChatKeyId): Option<set<EventId>> {
    match e
    case Seeded(k, ids) => if k == key then Some(ids) else known
    case Dropped(k) => if k == key then None else known
    case Delivered(t, m) =>
      if t.keyId == key then Some((if known.Some? then known.value else {}) + {m.innerId}) else known
    case _ => known
  }

  /** The inner ids the router must remember for a chat, read off the log. */
  function Known(log: seq<Entry>, key: ChatKeyId): Option<set<EventId>> {
    if log == [] then None
    else KnownStep(Known(log[..|log| - 1], key), log[|log| - 1], key)
  }

  /** An entry that may follow `before`: a chat is seeded only when it holds no set, and a message is
      handed on only when its chat holds a set without the message's inner id. */
  predicate LegalEntry(before: seq<Entry>, e: Entry) {
    match e
    case Seeded(k, _) => Known(before, k).None?
    case Delivered(t, m) => Known(before, t.keyId).Some? && m.innerId !in Known(before, t.keyId).value
    case _ => true
  }

  ghost predicate Legal(log: seq<Entry>) {
    forall j :: 0 <= j < |log| ==> LegalEntry(log[..j], log[j])
  }

  lemma KnownAppend(log: seq<Entry>, e: Entry, key: ChatKeyId)
    ensures Known(log + [e], key) == KnownStep(Known(log, key), e, key)
  {
    assert (log + [e])[..|log|] == log;
  }

  lemma LegalAppend(log: seq<Entry>, e: Entry)
    requires Legal(log) && LegalEntry(log, e)
    ensures Legal(log + [e])
  {
    var all := log + [e];
    forall j | 0 <= j < |all|
      ensures LegalEntry(all[..j], all[j])
    {
      if j < |log| {
        assert all[..j] == log[..j];
      } else {
        assert all[..j] == log;
      }
    }
  }

  lemma KnownAt(log: seq<Entry>, j: nat, key: ChatKeyId)
    requires j < |log|
    ensures Known(log[..j + 1], key) == KnownStep(Known(log[..j], key), log[j], key)
  {
    assert log[..j + 1][..j] == log[..j];
  }

  // ----- At most once -----

  ghost predicate DroppedBetween(log: seq<Entry>, i: nat, j: nat, key: ChatKeyId)
    requires i <= j <= |log|
  {
    exists d :: i <= d < j && log[d] == Dropped(key)
  }

  /** A known id stays known until the chat is dropped. */
  lemma {:induction false} KnownPersists(log: seq<Entry>, i: nat, j: nat, key: ChatKeyId, id: EventId)
    requires Legal(log) && i <= j <= |log|
    requires Known(log[..i], key).Some? && id in Known(log[..i], key).value
    requires !DroppedBetween(log, i, j, key)
    ensures Known(log[..j], key).Some? && id in Known(log[..j], key).value
    decreases j
  {
    if i < j {
      KnownPersists(log, i, j - 1, key, id);
      KnownAt(log, j - 1, key);
      assert LegalEntry(log[..j - 1], log[j - 1]);
      assert log[j - 1] != Dropped(key);
    }
  }

  /** Between two hand-overs of the same inner id to one chat, the chat was dropped. */
  lemma AtMostOnce(log: seq<Entry>, i: nat, j: nat)
    requires Legal(log) && i < j < |log|
    requires log[i].Delivered? && log[j].Delivered?
    requires log[i].target.keyId == log[j].target.keyId && log[i].msg.innerId == log[j].msg.innerId
    ensures DroppedBetween(log, i, j, log[i].target.keyId)
  {
    var key := log[i].target.keyId;
    assert LegalEntry(log[..j], log[j]);
    if !DroppedBetween(log, i, j, key) {
      KnownAt(log, i, key);
      KnownPersists(log, i + 1, j, key, log[i].msg.innerId);
    }
  }

  /** An id the chat was seeded with is handed on only after the chat was dropped. */
  lemma SeedsNeverDelivered(log: seq<Entry>, i: nat, j: nat)
    requires Legal(log) && i < j < |log|
    requires log[i].Seeded? && log[j].Delivered?
    requires log[i].key == log[j].target.keyId && log[j].msg.innerId in log[i].ids
    ensures DroppedBetween(log, i, j, log[i].key)
  {
    var key := log[i].key;
    assert LegalEntry(log[..j], log[j]);
    if !DroppedBetween(log, i, j, key) {
      KnownAt(log, i, key);
      KnownPersists(log, i + 1, j, key, log[j].msg.innerId);
    }
  }

  // ----- The current session of a chat: everything since it was last dropped -----

  function SessionSeeds(log: seq<Entry>, key: ChatKeyId): set<EventId> {
    if log == [] then {}
    else
      var n := |log| - 1;
      if log[n] == Dropped(key) then {}
      else if log[n].Seeded? && log[n].key == key then log[n].ids
      else SessionSeeds(log[..n], key)
  }

  /** The inner ids handed on in this session, in order. */
  function SessionIds(log: seq<Entry>, key: ChatKeyId): seq<EventId> {
    if log == [] then []
    else
      var n := |log| - 1;
      if log[n] == Dropped(key) then []
      else if log[n].Delivered? && log[n].target.keyId == key
      then SessionIds(log[..n], key) + [log[n].msg.innerId]
      else SessionIds(log[..n], key)
  }

  /** Within a session, what is known is what was seeded and what was handed on; each id is handed on at
      most once, and no seeded one ever. */
  lemma {:induction false} SessionAccount(log: seq<Entry>, key: ChatKeyId)
    requires Legal(log)
    ensures Known(log, key).None? ==> SessionIds(log, key) == [] && SessionSeeds(log, key) == {}
    ensures Known(log, key).Some? ==>
              Known(log, key).value == SessionSeeds(log, key) + set x | x in SessionIds(log, key)
    ensures NoDup(SessionIds(log, key))
    ensures forall x :: x in SessionIds(log, key) ==> x !in SessionSeeds(log, key)
  {
    if log != [] {
      var n := |log| - 1;
      forall j | 0 <= j < n
        ensures LegalEntry(log[..n][..j], log[..n][j])
      {
        assert log[..n][..j] == log[..j];
        assert LegalEntry(log[..j], log[j]);
      }
      SessionAccount(log[..n], key);
      assert LegalEntry(log[..n], log[n]);
    }
  }

  // ----- The limiter -----

  /** When the limiter was asked in this session. */
  function Asked(log: seq<Entry>, key: ChatKeyId): seq<real> {
    if log == [] then []
    else
      var n := |log| - 1;
      if log[n] == Dropped(key) then []
      else if log[n].Admission? && log[n].key == key then Asked(log[..n], key) + [log[n].time]
      else Asked(log[..n], key)
  }

  /** What it answered; an unwrap was attempted exactly at the `true`s. */
  function Answers(log: seq<Entry>, key: ChatKeyId): (r: seq<bool>)
    ensures |r| == |Asked(log, key)|
  {
    if log == [] then []
    else
      var n := |log| - 1;
      if log[n] == Dropped(key) then []
      else if log[n].Admission? && log[n].key == key then Answers(log[..n], key) + [log[n].allowed]
      else Answers(log[..n], key)
  }

  /** The limiter's state and answers for a chat are those of a fresh limiter that served this chat's
      arrivals alone. */
  ghost predicate RunsAlone(buckets: map<ChatKeyId, Bucket>, log: seq<Entry>, key: ChatKeyId) {
    var times := Asked(log, key);
    && (times == [] <==> key !in buckets)
    && (times != [] ==> buckets[key] == After(Fresh(times[0]), times))
    && (forall k :: 0 <= k < |times| ==> Answers(log, key)[k] == Answer(Fresh(times[0]), times, k))
  }

  /** Unwraps attempted by the arrivals `i`, ..., `j - 1` of the session. */
  function Attempts(answers: seq<bool>, i: nat, j: nat): nat
    requires i <= j <= |answers|
    decreases j
  {
    if i == j then 0 else Attempts(answers, i, j - 1) + if answers[j - 1] then 1 else 0
  }

  lemma {:induction false} AttemptsAreAdmissions(b: Bucket, times: seq<real>, answers: seq<bool>, i: nat, j: nat)
    requires |answers| == |times| && i <= j <= |times|
    requires forall k :: 0 <= k < |times| ==> answers[k] == Answer(b, times, k)
    ensures Attempts(answers, i, j) == Admitted(b, times, i, j)
    decreases j
  {
    if i < j {
      AttemptsAreAdmissions(b, times, answers, i, j - 1);
    }
  }

  lemma AttemptsWithin(start: real, times: seq<real>, answers: seq<bool>, i: nat, j: nat)
    requires |answers| == |times| && Monotone(times) && i <= j < |times|
    requires forall k :: 0 <= k < |times| ==> answers[k] == Answer(Fresh(start), times, k)
    ensures Attempts(answers, i, j + 1) as real <= 60.0 + (times[j] - times[i]) / 2.0
  {
    AttemptsAreAdmissions(Fresh(start), times, answers, i, j + 1);
    WindowBound(Fresh(start), times, i, j);
  }

  /** Decryption work is bounded: the arrivals of one chat from time s to time t cause at most
      60 + (t - s) / 2 unwrap attempts. */
  lemma AttemptsBound(buckets: map<ChatKeyId, Bucket>, log: seq<Entry>, key: ChatKeyId, i: nat, j: nat)
    requires RunsAlone(buckets, log, key)
    requires Monotone(Asked(log, key)) && i <= j < |Asked(log, key)|
    ensures Attempts(Answers(log, key), i, j + 1) as real
         <= 60.0 + (Asked(log, key)[j] - Asked(log, key)[i]) / 2.0
  {
    AttemptsWithin(Asked(log, key)[0], Asked(log, key), Answers(log, key), i, j);
  }
}
