/** Unwrapping, cursor clamping and history fetching (src/util/chat_utils.rs). */
module ChatUtils {

  import opened Wrappers
  import opened ChatTypes

  const SEVEN_DAYS: int := 7 * 24 * 60 * 60
  const TWO_TO_64: int := 0x1_0000_0000_0000_0000

  /** A stored cursor never points past the local clock. */
  function ClampSince(acceptedTs: int, localNow: int): int {
    if acceptedTs < localNow then acceptedTs else localNow
  }

  /** A signed 64-bit value reinterpreted as unsigned. */
  function AsU64(x: int): int {
    if x < 0 then x + TWO_TO_64 else x
  }

  /** Seven days before `now`. The clock is never negative, so the saturating subtraction of the
      source never saturates. */
  function LookbackFloor(now: nat): int {
    now - SEVEN_DAYS
  }

  /** The `since` of the kind-14 history filter. */
  function WindowStart(since: Option<int>, now: nat): int {
    AsU64(match since
          case Some(ts) =>
            var clamped := ClampSince(ts, now);
            if clamped < LookbackFloor(now) then LookbackFloor(now) else clamped
          case None => LookbackFloor(now))
  }

  /** The history window opens at or before the present, so no cursor, however far in the future, hides
      a message dated now or later. The one exception is a clock inside the first seven days of 1970
      with no cursor, or one before 1970: there the negative bound becomes a huge unsigned one. */
  lemma WindowIncludesPresentIff(since: Option<int>, now: nat)
    requires now < 0x8000_0000_0000_0000
    ensures WindowStart(since, now) <= now
       <==> SEVEN_DAYS <= now || (since.Some? && 0 <= since.value)
  {
  }

  /** From 1970-01-08 on, the window starts at the cursor, kept between seven days ago and now. */
  lemma WindowStartMeaning(since: Option<int>, now: nat)
    requires SEVEN_DAYS <= now
    ensures now - SEVEN_DAYS <= WindowStart(since, now) <= now
    ensures since.Some? && now - SEVEN_DAYS <= since.value <= now ==> WindowStart(since, now) == since.value
    ensures since.Some? && since.value > now ==> WindowStart(since, now) == now
    ensures since.None? || since.value < now - SEVEN_DAYS ==> WindowStart(since, now) == now - SEVEN_DAYS
  {
  }

  // ----- Unwrapping -----

  datatype UnwrapError = EmptyAllowList | LegacyRejected | BadEnvelope | ForeignSigner | NoSignKey

  /** Opens one envelope. Whatever its kind, an accepted message comes from an allowed signer. */
  function Unwrap(c: Crypto, secret: Secret, event: Event, allowed: seq<PublicKey>, acceptLegacy: bool, now: int)
    : (r: Result<Decoded, UnwrapError>)
    ensures r.Success? && c.ChecksSigner() ==> r.value.sender in allowed
    ensures allowed == [] ==> r == Failure(EmptyAllowList)
    ensures r.Success? && event.kind == GiftWrap ==> acceptLegacy
  {
    if allowed == [] then Failure(EmptyAllowList)
    else if event.kind == GiftWrap then
      if !acceptLegacy then Failure(LegacyRejected)
      else match c.openGiftWrap(secret, event)
        case None => Failure(BadEnvelope)
        case Some(m) => if m.sender in allowed then Success(m) else Failure(ForeignSigner)
    else match c.signKey(secret)
      case None => Failure(NoSignKey)
      case Some(_) =>
        match c.openKind14(secret, allowed, event, now)
        case None => Failure(BadEnvelope)
        case Some(m) => Success(m)
  }

  /** What it takes for an envelope to open to `m`. */
  predicate Opens(c: Crypto, secret: Secret, event: Event, allowed: seq<PublicKey>, acceptLegacy: bool, now: int,
                  m: Decoded)
  {
    && allowed != []
    && (match event.kind
        case GiftWrap => acceptLegacy && c.openGiftWrap(secret, event) == Some(m) && m.sender in allowed
        case PrivateDirectMessage => c.signKey(secret).Some? && c.openKind14(secret, allowed, event, now) == Some(m)
        case OtherKind => c.signKey(secret).Some? && c.openKind14(secret, allowed, event, now) == Some(m))
  }

  /** An envelope unwraps to a message exactly when it opens to it, and each way to fail has its own cause. */
  lemma UnwrapIff(c: Crypto, secret: Secret, event: Event, allowed: seq<PublicKey>, acceptLegacy: bool, now: int)
    ensures var r := Unwrap(c, secret, event, allowed, acceptLegacy, now);
            && (forall m :: r == Success(m) <==> Opens(c, secret, event, allowed, acceptLegacy, now, m))
            && (r == Failure(EmptyAllowList) <==> allowed == [])
            && (r == Failure(LegacyRejected) <==> allowed != [] && event.kind == GiftWrap && !acceptLegacy)
            && (r == Failure(NoSignKey) <==> allowed != [] && event.kind != GiftWrap && c.signKey(secret).None?)
            && (r == Failure(ForeignSigner) <==>
                  && allowed != [] && event.kind == GiftWrap && acceptLegacy
                  && c.openGiftWrap(secret, event).Some? && c.openGiftWrap(secret, event).value.sender !in allowed)
  {
  }

  // ----- Allow-lists -----

  function OrderAllowedSigners(local: PublicKey, counterparty: Option<PublicKey>): (r: Option<seq<PublicKey>>)
    ensures r.Some? <==> counterparty.Some? && counterparty.value != local
    ensures r.Some? ==> |r.value| == 2 && (forall k :: k in r.value <==> k == local || k == counterparty.value)
  {
    match counterparty
    case None => None
    case Some(k) => if k == local then None else Some([local, k])
  }

  function DisputeAllowedSigners(admin: Option<PublicKey>, party: Option<PublicKey>): (r: Option<seq<PublicKey>>)
    ensures r.Some? <==> party.Some?
    ensures r.Some? ==> r.value != [] && (forall k :: k in r.value <==> k == party.value || admin == Some(k))
    ensures r.Some? ==> forall i, j :: 0 <= i < j < |r.value| ==> r.value[i] != r.value[j]
  {
    match party
    case None => None
    case Some(p) => Some([p] + if admin.Some? && admin.value != p then [admin.value] else [])
  }

  // ----- Dual-read merge -----

  type FetchReply = Result<seq<Event>, string>

  predicate HasId(events: seq<Event>, id: EventId) {
    exists i :: 0 <= i < |events| && events[i].id == id
  }

  predicate NoDuplicateIds(events: seq<Event>) {
    forall i, j :: 0 <= i < j < |events| ==> events[i].id != events[j].id
  }

  /** The events of `legacy` that are in neither `kind14` nor earlier in `legacy`, in order. */
  function NewLegacy(kind14: seq<Event>, legacy: seq<Event>): seq<Event> {
    if legacy == [] then []
    else
      var n := |legacy| - 1;
      var before := NewLegacy(kind14, legacy[..n]);
      if HasId(kind14 + before, legacy[n].id) then before else before + [legacy[n]]
  }

  function MergedReply(kind14: FetchReply, legacy: FetchReply): FetchReply {
    match (kind14, legacy)
    case (Success(a), Success(b)) => Success(a + NewLegacy(a, b))
    case (Success(a), Failure(_)) => Success(a)
    case (Failure(_), Success(b)) => Success(b)
    case (Failure(e14), Failure(e)) => Failure(e14 + e)
  }

  method MergeDualRead(kind14: FetchReply, legacy: FetchReply) returns (r: FetchReply)
    ensures r == MergedReply(kind14, legacy)
  {
    match (kind14, legacy) {
      case (Success(a), Success(b)) =>
        var events := a;
        for k := 0 to |b|
          invariant events == a + NewLegacy(a, b[..k])
        {
          var known := false;
          for j := 0 to |events|
            invariant known == HasId(events[..j], b[k].id)
          {
            assert events[..j + 1] == events[..j] + [events[j]];
            if events[j].id == b[k].id {
              known := true;
            }
            HasIdOfAppend(events[..j], events[j], b[k].id);
          }
          assert events[..|events|] == events;
          assert b[..k + 1][..k] == b[..k];
          if !known {
            events := events + [b[k]];
          }
        }
        assert b[..|b|] == b;
        r := Success(events);
      case (Success(a), Failure(_)) => r := Success(a);
      case (Failure(_), Success(b)) => r := Success(b);
      case (Failure(e14), Failure(e)) => r := Failure(e14 + e);
    }
  }

  lemma HasIdOfAppend(events: seq<Event>, e: Event, id: EventId)
    ensures HasId(events + [e], id) <==> HasId(events, id) || e.id == id
  {
    var all := events + [e];
    if HasId(events, id) {
      var i :| 0 <= i < |events| && events[i].id == id;
      assert all[i].id == id;
    }
    if e.id == id {
      assert all[|events|].id == id;
    }
  }

  /** The ids of a merge are the union of the ids of its parts. */
  lemma {:induction false} MergeIds(a: seq<Event>, b: seq<Event>, id: EventId)
    ensures HasId(a + NewLegacy(a, b), id) <==> HasId(a, id) || HasId(b, id)
  {
    if b == [] {
      assert a + NewLegacy(a, b) == a;
    } else {
      var n := |b| - 1;
      MergeIds(a, b[..n], id);
      assert b == b[..n] + [b[n]];
      HasIdOfAppend(b[..n], b[n], id);
      var before := a + NewLegacy(a, b[..n]);
      if !HasId(before, b[n].id) {
        assert a + NewLegacy(a, b) == before + [b[n]];
        HasIdOfAppend(before, b[n], id);
      }
    }
  }

  /** A merge adds no duplicate of its own. */
  lemma {:induction false} MergeNoDuplicates(a: seq<Event>, b: seq<Event>)
    requires NoDuplicateIds(a)
    ensures NoDuplicateIds(a + NewLegacy(a, b))
  {
    if b == [] {
      assert a + NewLegacy(a, b) == a;
    } else {
      var n := |b| - 1;
      MergeNoDuplicates(a, b[..n]);
      var before := a + NewLegacy(a, b[..n]);
      if !HasId(before, b[n].id) {
        assert a + NewLegacy(a, b) == before + [b[n]];
      }
    }
  }

  /** What a merge keeps of the legacy list is a subsequence of it: `kept[k]` is where the `k`-th kept
      event stood. */
  lemma {:induction false} MergeKeepsLegacyOrder(a: seq<Event>, b: seq<Event>) returns (kept: seq<nat>)
    ensures PicksInOrder(b, kept, NewLegacy(a, b))
  {
    if b == [] {
      kept := [];
    } else {
      var n := |b| - 1;
      var before := NewLegacy(a, b[..n]);
      kept := MergeKeepsLegacyOrder(a, b[..n]);
      PickOneMore(b, kept, before);
      if !HasId(a + before, b[n].id) {
        kept := kept + [n];
      }
    }
  }

  /** `picked` are the elements of `s` at the positions `at`, which increase. */
  predicate PicksInOrder(s: seq<Event>, at: seq<nat>, picked: seq<Event>) {
    && |at| == |picked|
    && (forall k :: 0 <= k < |at| ==> at[k] < |s| && s[at[k]] == picked[k])
    && (forall k, l :: 0 <= k < l < |at| ==> at[k] < at[l])
  }

  lemma PickOneMore(s: seq<Event>, at: seq<nat>, picked: seq<Event>)
    requires s != [] && PicksInOrder(s[..|s| - 1], at, picked)
    ensures PicksInOrder(s, at, picked) && PicksInOrder(s, at + [|s| - 1], picked + [s[|s| - 1]])
  {
    assert forall k :: 0 <= k < |at| ==> s[..|s| - 1][at[k]] == s[at[k]];
  }

  /** A merge fails exactly when both fetches fail, and starts with the kind-14 list. */
  lemma MergeFailsIffBothFail(kind14: FetchReply, legacy: FetchReply)
    ensures MergedReply(kind14, legacy).Failure? <==> kind14.Failure? && legacy.Failure?
    ensures kind14.Success? ==>
              MergedReply(kind14, legacy).Success? && kind14.value <= MergedReply(kind14, legacy).value
    ensures kind14.Failure? && legacy.Success? ==> MergedReply(kind14, legacy) == legacy
  {
  }

  // ----- Fetching history -----

  /** What the environment answers to one history fetch: the two query results, the local clock, the
      clock readings while unwrapping, and how many events the relay had published by then. */
  datatype FetchEnv = FetchEnv(kind14: FetchReply, legacy: FetchReply, now: nat, clock: nat -> int, at: nat)

  /** The messages among `events` that unwrap, in order. */
  function UnwrapAll(c: Crypto, secret: Secret, events: seq<Event>, allowed: seq<PublicKey>,
                     acceptLegacy: bool, clock: nat -> int): seq<Decoded>
  {
    if events == [] then []
    else
      var n := |events| - 1;
      UnwrapAll(c, secret, events[..n], allowed, acceptLegacy, clock) +
      match Unwrap(c, secret, events[n], allowed, acceptLegacy, clock(n))
      case Success(m) => [m]
      case Failure(_) => []
  }

  /** Places `m` behind every message that is not later, which keeps a sort stable. */
  function InsertByTime(sorted: seq<Decoded>, m: Decoded): seq<Decoded> {
    if sorted == [] then [m]
    else
      var n := |sorted| - 1;
      if sorted[n].timestamp <= m.timestamp then sorted + [m]
      else InsertByTime(sorted[..n], m) + [sorted[n]]
  }

  /** The stable sort by timestamp. */
  function SortByTime(messages: seq<Decoded>): seq<Decoded> {
    if messages == [] then []
    else InsertByTime(SortByTime(messages[..|messages| - 1]), messages[|messages| - 1])
  }

  predicate SortedByTime(messages: seq<Decoded>) {
    forall i, j :: 0 <= i <= j < |messages| ==> messages[i].timestamp <= messages[j].timestamp
  }

  /** The outcome of one history fetch. */
  function FetchedMessages(c: Crypto, secret: Secret, allowed: seq<PublicKey>, acceptLegacy: bool, env: FetchEnv)
    : Result<seq<Decoded>, string>
  {
    if c.signKey(secret).None? then Failure("no K_sign")
    else
      match if acceptLegacy then MergedReply(env.kind14, env.legacy) else env.kind14
      case Failure(e) => Failure(e)
      case Success(events) =>
        Success(SortByTime(UnwrapAll(c, secret, events, allowed, acceptLegacy, env.clock)))
  }

  method FetchChatMessages(c: Crypto, secret: Secret, allowed: seq<PublicKey>, acceptLegacy: bool, env: FetchEnv)
    returns (r: Result<seq<Decoded>, string>)
    ensures r == FetchedMessages(c, secret, allowed, acceptLegacy, env)
  {
    if c.signKey(secret).None? {
      return Failure("no K_sign");
    }
    var reply := env.kind14;
    if acceptLegacy {
      reply := MergeDualRead(env.kind14, env.legacy);
    }
    match reply {
      case Failure(e) => r := Failure(e);
      case Success(events) =>
        var messages := [];
        for k := 0 to |events|
          invariant messages == UnwrapAll(c, secret, events[..k], allowed, acceptLegacy, env.clock)
        {
          assert events[..k + 1][..k] == events[..k];
          match Unwrap(c, secret, events[k], allowed, acceptLegacy, env.clock(k)) {
            case Success(m) => messages := messages + [m];
            case Failure(_) =>
          }
        }
        assert events[..|events|] == events;
        r := Success(SortByTime(messages));
    }
  }

  lemma {:induction false} InsertByTimeSameMessages(sorted: seq<Decoded>, m: Decoded)
    ensures multiset(InsertByTime(sorted, m)) == multiset(sorted) + multiset{m}
  {
    if sorted != [] {
      var n := |sorted| - 1;
      assert sorted == sorted[..n] + [sorted[n]];
      InsertByTimeSameMessages(sorted[..n], m);
    }
  }

  lemma {:induction false} InsertByTimeSorted(sorted: seq<Decoded>, m: Decoded)
    requires SortedByTime(sorted)
    ensures SortedByTime(InsertByTime(sorted, m))
  {
    if sorted != [] {
      var n := |sorted| - 1;
      if sorted[n].timestamp > m.timestamp {
        var rest := InsertByTime(sorted[..n], m);
        InsertByTimeSorted(sorted[..n], m);
        InsertByTimeSameMessages(sorted[..n], m);
        forall i | 0 <= i < |rest|
          ensures rest[i].timestamp <= sorted[n].timestamp
        {
          assert rest[i] in multiset(rest);
        }
      }
    }
  }

  /** History is delivered oldest first, with no message lost, added or repeated by the sort. */
  lemma {:induction false} SortByTimeSorts(messages: seq<Decoded>)
    ensures SortedByTime(SortByTime(messages))
    ensures multiset(SortByTime(messages)) == multiset(messages)
  {
    if messages != [] {
      var n := |messages| - 1;
      assert messages == messages[..n] + [messages[n]];
      SortByTimeSorts(messages[..n]);
      InsertByTimeSorted(SortByTime(messages[..n]), messages[n]);
      InsertByTimeSameMessages(SortByTime(messages[..n]), messages[n]);
    }
  }

  /** The messages at one timestamp, in order. */
  function At(messages: seq<Decoded>, ts: int): seq<Decoded> {
    if messages == [] then []
    else
      var n := |messages| - 1;
      At(messages[..n], ts) + if messages[n].timestamp == ts then [messages[n]] else []
  }

  lemma AtPush(messages: seq<Decoded>, m: Decoded, ts: int)
    ensures At(messages + [m], ts) == At(messages, ts) + if m.timestamp == ts then [m] else []
  {
    assert (messages + [m])[..|messages|] == messages;
  }

  lemma {:induction false} InsertByTimeIsStable(sorted: seq<Decoded>, m: Decoded, ts: int)
    requires SortedByTime(sorted)
    ensures At(InsertByTime(sorted, m), ts) == At(sorted, ts) + if m.timestamp == ts then [m] else []
  {
    if sorted == [] {
      assert [m][..0] == [];
    } else {
      var n := |sorted| - 1;
      if sorted[n].timestamp <= m.timestamp {
        AtPush(sorted, m, ts);
      } else {
        InsertByTimeIsStable(sorted[..n], m, ts);
        AtPush(InsertByTime(sorted[..n], m), sorted[n], ts);
      }
    }
  }

  /** Messages with equal timestamps keep their order. */
  lemma {:induction false} SortByTimeIsStable(messages: seq<Decoded>, ts: int)
    ensures At(SortByTime(messages), ts) == At(messages, ts)
  {
    if messages != [] {
      var n := |messages| - 1;
      SortByTimeSorts(messages[..n]);
      SortByTimeIsStable(messages[..n], ts);
      InsertByTimeIsStable(SortByTime(messages[..n]), messages[n], ts);
    }
  }

  /** Every fetched envelope that unwraps yields its message. */
  lemma {:induction false} UnwrapAllCovers(c: Crypto, secret: Secret, events: seq<Event>, allowed: seq<PublicKey>,
                                           acceptLegacy: bool, clock: nat -> int, k: nat)
    requires k < |events|
    ensures var r := Unwrap(c, secret, events[k], allowed, acceptLegacy, clock(k));
            r.Success? ==> r.value in UnwrapAll(c, secret, events, allowed, acceptLegacy, clock)
  {
    var n := |events| - 1;
    if k < n {
      UnwrapAllCovers(c, secret, events[..n], allowed, acceptLegacy, clock, k);
    }
  }

  /** Exactly the fetched envelopes that open yield a message, in the order fetched: `at[k]` is where the envelope of
      the `k`-th message stood. */
  lemma {:induction false} UnwrapAllPicks(c: Crypto, secret: Secret, events: seq<Event>, allowed: seq<PublicKey>,
                                          acceptLegacy: bool, clock: nat -> int) returns (at: seq<nat>)
    ensures var r := UnwrapAll(c, secret, events, allowed, acceptLegacy, clock);
            && |at| == |r|
            && (forall k :: 0 <= k < |at| ==>
                  at[k] < |events| && Opens(c, secret, events[at[k]], allowed, acceptLegacy, clock(at[k]), r[k]))
            && (forall k, l :: 0 <= k < l < |at| ==> at[k] < at[l])
            && (forall i, m :: 0 <= i < |events| && Opens(c, secret, events[i], allowed, acceptLegacy, clock(i), m) ==>
                  i in at)
  {
    if events == [] {
      at := [];
    } else {
      var n := |events| - 1;
      at := UnwrapAllPicks(c, secret, events[..n], allowed, acceptLegacy, clock);
      UnwrapIff(c, secret, events[n], allowed, acceptLegacy, clock(n));
      assert forall i :: 0 <= i < n ==> events[..n][i] == events[i];
      if Unwrap(c, secret, events[n], allowed, acceptLegacy, clock(n)).Success? {
        at := at + [n];
      }
    }
  }

  /** A fetch fails exactly without a signing key or an answer; otherwise it yields what the fetched envelopes open to,
      oldest first, and in the order fetched within one second. */
  lemma FetchedMeaning(c: Crypto, secret: Secret, allowed: seq<PublicKey>, acceptLegacy: bool, env: FetchEnv)
    ensures var r := FetchedMessages(c, secret, allowed, acceptLegacy, env);
            var unwrapped := (events: seq<Event>) => UnwrapAll(c, secret, events, allowed, acceptLegacy, env.clock);
            && (r.Failure? <==> || c.signKey(secret).None?
                                || (env.kind14.Failure? && (!acceptLegacy || env.legacy.Failure?)))
            && (r.Success? ==> SortedByTime(r.value))
            && (r.Success? && (!acceptLegacy || env.legacy.Failure?) ==>
                  && multiset(r.value) == multiset(unwrapped(env.kind14.value))
                  && forall ts :: At(r.value, ts) == At(unwrapped(env.kind14.value), ts))
            && (r.Success? && acceptLegacy && env.kind14.Success? && env.legacy.Success? ==>
                  var merged := env.kind14.value + NewLegacy(env.kind14.value, env.legacy.value);
                  && multiset(r.value) == multiset(unwrapped(merged))
                  && forall ts :: At(r.value, ts) == At(unwrapped(merged), ts))
            && (r.Success? && acceptLegacy && env.kind14.Failure? ==>
                  && multiset(r.value) == multiset(unwrapped(env.legacy.value))
                  && forall ts :: At(r.value, ts) == At(unwrapped(env.legacy.value), ts))
  {
    var reply := if acceptLegacy then MergedReply(env.kind14, env.legacy) else env.kind14;
    if reply.Success? {
      var messages := UnwrapAll(c, secret, reply.value, allowed, acceptLegacy, env.clock);
      SortByTimeSorts(messages);
      forall ts
        ensures At(SortByTime(messages), ts) == At(messages, ts)
      {
        SortByTimeIsStable(messages, ts);
      }
    }
  }

  /** Every message of a fetch comes from a signer on the allow-list. */
  lemma {:induction false} UnwrapAllAllowed(c: Crypto, secret: Secret, events: seq<Event>, allowed: seq<PublicKey>,
                                            acceptLegacy: bool, clock: nat -> int, m: Decoded)
    requires c.ChecksSigner()
    requires m in UnwrapAll(c, secret, events, allowed, acceptLegacy, clock)
    ensures m.sender in allowed
  {
    var n := |events| - 1;
    if m in UnwrapAll(c, secret, events[..n], allowed, acceptLegacy, clock) {
      UnwrapAllAllowed(c, secret, events[..n], allowed, acceptLegacy, clock, m);
    }
  }
}
