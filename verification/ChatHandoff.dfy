/** Subscribe-then-backfill leaves no gap: against a relay whose log of published events only grows, every
    event addressed to a newly tracked chat is in the fetched history or delivered live, and is handed on
    exactly once (src/util/chat_listener.rs, src/util/chat_utils.rs). */
module ChatHandoff {

  import opened Wrappers
  import opened ChatTypes
  import opened ChatUtils
  import opened ChatSubscriptions
  import opened OuterWindow
  import opened TokenBucket
  import opened ChatRouter
  import opened ChatLog
  import opened ChatRouterProofs

  /** The events routed to target `t` at key `pk`: kind 14 by its author key, GiftWrap by its first `p` tag. */
  predicate Addressed(cfg: Config, pk: PublicKey, t: ChatTarget, e: Event) {
    || (e.kind == PrivateDirectMessage && e.author == t.signPubkey)
    || (e.kind == GiftWrap && cfg.acceptLegacy && e.pTags != [] && e.pTags[0] == pk)
  }

  // ----- Every newly tracked target has a backfill waiting -----

  lemma {:induction false} NewTargetIsPending(cfg: Config, targets: Targets, cmds: seq<Arrival>, pk: PublicKey)
      returns (h: nat)
    requires pk in ApplyAll(cfg, targets, cmds).0
    requires pk !in targets || targets[pk] != ApplyAll(cfg, targets, cmds).0[pk]
    ensures var pendings := Pendings(ApplyAll(cfg, targets, cmds).1);
            && h < |pendings| && pendings[h].targetPubkey == pk
            && pendings[h].sharedKeys == ApplyAll(cfg, targets, cmds).0[pk].sharedKeys
    ensures NeedsResubscribe(ApplyAll(cfg, targets, cmds).1)
  {
    var n := |cmds| - 1;
    var (before, outcomes) := ApplyAll(cfg, targets, cmds[..n]);
    var (after, o) := ApplyCmd(cfg, before, cmds[n]);
    assert (outcomes + [o])[..|outcomes|] == outcomes;
    NeedsResubscribeOfAppend(outcomes, o);
    if pk in before && before[pk] == after[pk] {
      h := NewTargetIsPending(cfg, targets, cmds[..n], pk);
    } else {
      h := |Pendings(outcomes)|;
    }
  }

  // ----- What a hand-over leaves behind -----

  lemma DeliverKnows(s: State, t: ChatTarget, m: Decoded)
    ensures m.innerId in KnownTo(Deliver(s, t, m), t.keyId)
    ensures forall key :: KnownTo(s, key) <= KnownTo(Deliver(s, t, m), key)
  {
  }

  lemma {:induction false} DeliverAllKnows(s: State, t: ChatTarget, messages: seq<Decoded>, cutoff: int)
    ensures forall m :: m in messages && m.timestamp >= cutoff ==>
              m.innerId in KnownTo(DeliverAll(s, t, messages, cutoff), t.keyId)
    ensures forall key :: KnownTo(s, key) <= KnownTo(DeliverAll(s, t, messages, cutoff), key)
  {
    if messages != [] {
      var n := |messages| - 1;
      assert messages == messages[..n] + [messages[n]];
      DeliverAllKnows(s, t, messages[..n], cutoff);
      DeliverKnows(DeliverAll(s, t, messages[..n], cutoff), t, messages[n]);
    }
  }

  lemma HydratedKnowsMore(cfg: Config, s: State, p: Pending, env: FetchEnv, key: ChatKeyId)
    ensures KnownTo(s, key) <= KnownTo(Hydrated(cfg, s, p, env), key)
    ensures Hydrated(cfg, s, p, env).targets == s.targets
  {
    if p.targetPubkey in s.targets {
      var t := s.targets[p.targetPubkey];
      var e := Fetched(p.targetPubkey, WindowStart(p.since, env.now), GiftSince(env.now), env.at);
      var asked := Touched(s.(log := s.log + [e]), t.keyId);
      var r := FetchedMessages(cfg.crypto, p.sharedKeys, t.allowedSigners, cfg.acceptLegacy, env);
      if r.Success? {
        DeliverAllKnows(asked, t, r.value, Cutoff(p));
        DeliverAllSameTargets(asked, t, r.value, Cutoff(p));
      }
    }
  }

  lemma {:induction false} DeliverAllSameTargets(s: State, t: ChatTarget, messages: seq<Decoded>, cutoff: int)
    ensures DeliverAll(s, t, messages, cutoff).targets == s.targets
  {
    if messages != [] {
      DeliverAllSameTargets(s, t, messages[..|messages| - 1], cutoff);
    }
  }

  lemma {:induction false} HydrateAllKnowsMore(cfg: Config, s: State, pendings: seq<Pending>, fetch: nat -> FetchEnv,
                                               h: nat, key: ChatKeyId)
    requires h <= |pendings|
    ensures KnownTo(HydrateAll(cfg, s, pendings[..h], fetch), key) <= KnownTo(HydrateAll(cfg, s, pendings, fetch), key)
    ensures HydrateAll(cfg, s, pendings, fetch).targets == s.targets
  {
    if pendings != [] {
      var n := |pendings| - 1;
      if h <= n {
        assert pendings[..n][..h] == pendings[..h];
      } else {
        assert pendings[..h] == pendings;
      }
      HydrateAllKnowsMore(cfg, s, pendings[..n], fetch, if h <= n then h else n, key);
      HydratedKnowsMore(cfg, HydrateAll(cfg, s, pendings[..n], fetch), pendings[n], fetch(n), key);
    }
  }

  // ----- The fetch sees what it should -----

  predicate InKind14Window(e: Event, sign: PublicKey, since: int) {
    e.kind == PrivateDirectMessage && e.author == sign && since <= e.createdAt
  }

  predicate InGiftWindow(e: Event, pk: PublicKey, since: int) {
    e.kind == GiftWrap && pk in e.pTags && since <= e.createdAt
  }

  function Positions(pub: seq<Event>, at: nat, p: Event -> bool): set<nat>
    requires at <= |pub|
  {
    set i: nat | i < at && p(pub[i]) :: i
  }

  /** The query answered: when at most 100 of the events published so far match, all of them are returned. */
  ghost predicate Honest(reply: FetchReply, pub: seq<Event>, at: nat, p: Event -> bool) {
    && reply.Success? && at <= |pub|
    && (|Positions(pub, at, p)| <= 100 ==> forall i: nat :: i < at && p(pub[i]) ==> pub[i] in reply.value)
  }

  /** Both queries of a backfill are answered in full. */
  ghost predicate HonestFetch(cfg: Config, pub: seq<Event>, pk: PublicKey, p: Pending, env: FetchEnv) {
    && cfg.crypto.signKey(p.sharedKeys).Some?
    && var sign := cfg.crypto.signKey(p.sharedKeys).value;
    && var inKind14 := (e: Event) => InKind14Window(e, sign, WindowStart(p.since, env.now));
    && var inGift := (e: Event) => InGiftWindow(e, pk, GiftSince(env.now));
    && Honest(env.kind14, pub, env.at, inKind14)
    && |Positions(pub, env.at, inKind14)| <= 100
    && (cfg.acceptLegacy ==>
          && Honest(env.legacy, pub, env.at, inGift)
          && |Positions(pub, env.at, inGift)| <= 100)
  }

  /** An event id names one event. */
  ghost predicate IdsIdentify(env: FetchEnv) {
    env.kind14.Success? && env.legacy.Success? ==>
      var events := env.kind14.value + env.legacy.value;
      forall a, b :: a in events && b in events && a.id == b.id ==> a == b
  }

  /** The event lies in the window the backfill asks for. */
  predicate InWindow(e: Event, p: Pending, env: FetchEnv) {
    match e.kind
    case PrivateDirectMessage => WindowStart(p.since, env.now) <= e.createdAt
    case GiftWrap => GiftSince(env.now) <= e.createdAt
    case OtherKind => false
  }

  lemma {:induction false} NewLegacyFrom(a: seq<Event>, b: seq<Event>, e: Event)
    requires e in NewLegacy(a, b)
    ensures e in b
  {
    var n := |b| - 1;
    if e in NewLegacy(a, b[..n]) {
      NewLegacyFrom(a, b[..n], e);
    }
  }

  /** Every event of either answer is among the merged events. */
  lemma MergeHasEvent(cfg: Config, env: FetchEnv, e: Event)
    requires env.kind14.Success? && IdsIdentify(env)
    requires e in env.kind14.value || (cfg.acceptLegacy && env.legacy.Success? && e in env.legacy.value)
    ensures var r := if cfg.acceptLegacy then MergedReply(env.kind14, env.legacy) else env.kind14;
            r.Success? && e in r.value
  {
    if cfg.acceptLegacy && env.legacy.Success? {
      var a, b := env.kind14.value, env.legacy.value;
      var merged := a + NewLegacy(a, b);
      MergeIds(a, b, e.id);
      if e in a {
        var i :| 0 <= i < |a| && a[i] == e;
        assert HasId(a, e.id);
      } else {
        var i :| 0 <= i < |b| && b[i] == e;
        assert HasId(b, e.id);
      }
      var k :| 0 <= k < |merged| && merged[k].id == e.id;
      assert merged[k] in a + b by {
        if merged[k] in NewLegacy(a, b) {
          NewLegacyFrom(a, b, merged[k]);
        }
      }
      assert e in a + b;
    }
  }

  /** An event that opens to `m`, whenever it is opened. */
  ghost predicate OpensTo(cfg: Config, t: ChatTarget, e: Event, m: Decoded) {
    forall now :: Opens(cfg.crypto, t.sharedKeys, e, t.allowedSigners, cfg.acceptLegacy, now, m)
  }

  /** A backfill hands on, or already knows, every addressed event the relay had published inside its window. */
  lemma BackfillKnows(cfg: Config, s: State, p: Pending, env: FetchEnv, pub: seq<Event>, i: nat, m: Decoded)
    requires p.targetPubkey in s.targets && s.targets[p.targetPubkey].sharedKeys == p.sharedKeys
    requires cfg.crypto.signKey(p.sharedKeys) == Some(s.targets[p.targetPubkey].signPubkey)
    requires HonestFetch(cfg, pub, p.targetPubkey, p, env) && IdsIdentify(env)
    requires i < env.at && Addressed(cfg, p.targetPubkey, s.targets[p.targetPubkey], pub[i])
    requires InWindow(pub[i], p, env) && Cutoff(p) <= m.timestamp
    requires OpensTo(cfg, s.targets[p.targetPubkey], pub[i], m)
    ensures m.innerId in KnownTo(Hydrated(cfg, s, p, env), s.targets[p.targetPubkey].keyId)
  {
    var t, e := s.targets[p.targetPubkey], pub[i];
    MergeHasEvent(cfg, env, e);
    var events := (if cfg.acceptLegacy then MergedReply(env.kind14, env.legacy) else env.kind14).value;
    var k :| 0 <= k < |events| && events[k] == e;
    var messages := UnwrapAll(cfg.crypto, p.sharedKeys, events, t.allowedSigners, cfg.acceptLegacy, env.clock);
    UnwrapAllCovers(cfg.crypto, p.sharedKeys, events, t.allowedSigners, cfg.acceptLegacy, env.clock, k);
    UnwrapIff(cfg.crypto, p.sharedKeys, e, t.allowedSigners, cfg.acceptLegacy, env.clock(k));
    assert Opens(cfg.crypto, p.sharedKeys, e, t.allowedSigners, cfg.acceptLegacy, env.clock(k), m);
    assert m in messages;
    SortByTimeSorts(messages);
    assert m in multiset(SortByTime(messages));
    var entry := Fetched(p.targetPubkey, WindowStart(p.since, env.now), GiftSince(env.now), env.at);
    var asked := s.(log := s.log + [entry]);
    DeliverAllKnows(Touched(asked, t.keyId), t, SortByTime(messages), Cutoff(p));
  }

  // ----- Live delivery -----

  /** Step `n` after the batch is the first live delivery of `e`, and the limiter has a token for it. */
  ghost predicate HeardLive(cfg: Config, s: State, rest: seq<Step>, n: nat, e: Event, pk: PublicKey, key: ChatKeyId) {
    && n < |rest| && rest[n].Live? && rest[n].event == e && pk in rest[n].order
    && var before := Run(cfg, s, rest[..n]);
    && e.id !in before.outer
    && Allows(BucketOf(before.buckets, key, rest[n].time), rest[n].time)
  }

  lemma LiveKnows(cfg: Config, s: State, step: Step, pk: PublicKey, m: Decoded)
    requires TargetsOk(cfg, s.targets) && cfg.crypto.InjectiveSignKey()
    requires pk in s.targets && step.Live? && pk in step.order
    requires Addressed(cfg, pk, s.targets[pk], step.event) && OpensTo(cfg, s.targets[pk], step.event, m)
    requires step.event.id !in s.outer
    requires Allows(BucketOf(s.buckets, s.targets[pk].keyId, step.time), step.time)
    ensures m.innerId in KnownTo(After1(cfg, s, step), s.targets[pk].keyId)
  {
    if step.event.kind == PrivateDirectMessage {
      FirstByAuthorIs(cfg, s.targets, step.order, pk);
    }
    var t := s.targets[pk];
    assert Resolve(s.targets, step.order, step.event, cfg.acceptLegacy) == Some(t);
    UnwrapIff(cfg.crypto, t.sharedKeys, step.event, t.allowedSigners, cfg.acceptLegacy, step.now);
    assert Opens(cfg.crypto, t.sharedKeys, step.event, t.allowedSigners, cfg.acceptLegacy, step.now, m);
  }

  // ----- Nothing is forgotten while the chat stays tracked -----

  lemma KnownStays(cfg: Config, s: State, step: Step, key: ChatKeyId, id: EventId)
    requires Inv(cfg, s) && cfg.crypto.ChecksSigner()
    requires key !in UntrackedBy(step)
    requires id in KnownTo(s, key)
    ensures id in KnownTo(After1(cfg, s, step), key)
  {
    var s' := After1(cfg, s, step);
    StepKeepsInv(cfg, s, step);
    StepContinues(cfg, s, step);
    assert Lookup(s.inner, key) == Known(s.log, key) && Lookup(s'.inner, key) == Known(s'.log, key);
    assert s'.log[..|s.log|] == s.log && s'.log[..|s'.log|] == s'.log;
    KnownPersists(s'.log, |s.log|, |s'.log|, key, id);
  }

  /** The chat at `pk` keeps its target, and no command untracks it, after every step of `rest`. */
  ghost predicate StaysTracked(cfg: Config, s: State, rest: seq<Step>, pk: PublicKey, t: ChatTarget) {
    && (forall n :: 0 <= n <= |rest| ==> var r := Run(cfg, s, rest[..n]); pk in r.targets && r.targets[pk] == t)
    && (forall n :: 0 <= n < |rest| ==> t.keyId !in UntrackedBy(rest[n]))
  }

  /** From the state before step `from` on, a known id stays known. */
  lemma {:induction false} RunKeepsKnown(cfg: Config, s: State, rest: seq<Step>, from: nat, pk: PublicKey,
                                         t: ChatTarget, id: EventId)
    requires Inv(cfg, s) && cfg.crypto.ChecksSigner()
    requires StaysTracked(cfg, s, rest, pk, t) && from <= |rest|
    requires id in KnownTo(Run(cfg, s, rest[..from]), t.keyId)
    ensures Inv(cfg, Run(cfg, s, rest)) && id in KnownTo(Run(cfg, s, rest), t.keyId)
    decreases |rest| - from
  {
    RunKeepsInvFrom(cfg, s, rest[..from]);
    if from < |rest| {
      assert rest[..from + 1][..from] == rest[..from];
      KnownStays(cfg, Run(cfg, s, rest[..from]), rest[from], t.keyId, id);
      RunKeepsKnown(cfg, s, rest, from + 1, pk, t, id);
    } else {
      assert rest[..from] == rest;
    }
  }

  lemma {:induction false} RunKeepsInvFrom(cfg: Config, s: State, steps: seq<Step>)
    requires Inv(cfg, s) && cfg.crypto.ChecksSigner()
    ensures Inv(cfg, Run(cfg, s, steps))
  {
    if steps != [] {
      RunKeepsInvFrom(cfg, s, steps[..|steps| - 1]);
      StepKeepsInv(cfg, Run(cfg, s, steps[..|steps| - 1]), steps[|steps| - 1]);
    }
  }

  // ----- Subscribing precedes fetching -----

  /** The relay's log of published events only grows: a fetch that the router makes after a subscribe sees at
      least what had been published when the subscription opened. */
  ghost predicate RelayOnlyGrows(log: seq<Entry>) {
    forall i, j :: 0 <= i < j < |log| && log[i].Subscribed? && log[j].Fetched? ==>
      log[i].giftAt <= log[j].at && log[i].kind14At <= log[j].at
  }

  /** In the log of a batch, the subscribe that covers a chat stands before the fetch of its history. */
  lemma SubscribeThenFetch(cfg: Config, s: State, cmds: seq<Arrival>, stored: ChatKeyId -> set<EventId>,
                           resub: ResubEnv, fetch: nat -> FetchEnv, h: nat) returns (i: nat, j: nat)
    requires NeedsResubscribe(ApplyAll(cfg, s.targets, cmds).1)
    requires resub.kind14Ok && (cfg.acceptLegacy ==> resub.giftOk)
    requires h < |Pendings(ApplyAll(cfg, s.targets, cmds).1)|
    requires Pendings(ApplyAll(cfg, s.targets, cmds).1)[h].targetPubkey in ApplyAll(cfg, s.targets, cmds).0
    ensures var log := AfterBatch(cfg, s, cmds, stored, resub, fetch).log;
            && i < j < |log|
            && log[i] == Subscribed(SignKeys(ApplyAll(cfg, s.targets, cmds).0), ApplyAll(cfg, s.targets, cmds).0.Keys,
                                    resub.giftAt, resub.kind14At)
            && log[j].Fetched? && log[j].at == fetch(h).at
  {
    var s1 := BatchSubscribed(cfg, s, cmds, stored, resub);
    assert s1.targets == ApplyAll(cfg, s.targets, cmds).0;
    i := |s1.log| - 1;
    j := FetchIsLogged(cfg, s1, Pendings(ApplyAll(cfg, s.targets, cmds).1), fetch, h);
  }

  /** The fetch of the `h`-th backfill stands in the log, behind everything before the backfills. */
  lemma FetchIsLogged(cfg: Config, s: State, pendings: seq<Pending>, fetch: nat -> FetchEnv, h: nat) returns (j: nat)
    requires h < |pendings| && pendings[h].targetPubkey in s.targets
    ensures var log := HydrateAll(cfg, s, pendings, fetch).log;
            s.log <= log && |s.log| <= j < |log| && log[j].Fetched? && log[j].at == fetch(h).at
  {
    var before := HydrateAll(cfg, s, pendings[..h], fetch);
    HydrateAllContinues(cfg, s, pendings[..h], fetch);
    HydrateAllKnowsMore(cfg, s, pendings[..h], fetch, 0, OrderChat(""));
    j := |before.log|;
    assert pendings[..h + 1][..h] == pendings[..h];
    HydrateLogsFetch(cfg, before, pendings[h], fetch(h));
    HydrateAllExtends(cfg, s, pendings, fetch, h + 1);
  }

  lemma HydrateLogsFetch(cfg: Config, s: State, p: Pending, env: FetchEnv)
    requires p.targetPubkey in s.targets
    ensures var log := Hydrated(cfg, s, p, env).log;
            |s.log| < |log| && s.log == log[..|s.log|] && log[|s.log|].Fetched? && log[|s.log|].at == env.at
  {
    var t := s.targets[p.targetPubkey];
    var e := Fetched(p.targetPubkey, WindowStart(p.since, env.now), GiftSince(env.now), env.at);
    var asked := s.(log := s.log + [e]);
    var r := FetchedMessages(cfg.crypto, p.sharedKeys, t.allowedSigners, cfg.acceptLegacy, env);
    if r.Success? {
      DeliverAllContinues(Touched(asked, t.keyId), t, r.value, Cutoff(p));
    }
  }

  lemma {:induction false} HydrateAllExtends(cfg: Config, s: State, pendings: seq<Pending>, fetch: nat -> FetchEnv,
                                             h: nat)
    requires h <= |pendings|
    ensures HydrateAll(cfg, s, pendings[..h], fetch).log <= HydrateAll(cfg, s, pendings, fetch).log
  {
    var n := |pendings| - 1;
    if h <= n {
      assert pendings[..n][..h] == pendings[..h];
      HydrateAllExtends(cfg, s, pendings[..n], fetch, h);
      HydrateContinues(cfg, HydrateAll(cfg, s, pendings[..n], fetch), pendings[n], fetch(n));
    } else {
      assert pendings[..h] == pendings;
    }
  }

  // ----- The handoff -----

  /** The batch tracks the chat at `pk`, all its subscribes succeed, and its `h`-th backfill, for that chat, is
      answered in full from the relay log `pub`. */
  ghost predicate TracksAndFetches(cfg: Config, s: State, cmds: seq<Arrival>, resub: ResubEnv, fetch: nat -> FetchEnv,
                                   h: nat, pk: PublicKey, pub: seq<Event>)
  {
    var (targets, outcomes) := ApplyAll(cfg, s.targets, cmds);
    && NeedsResubscribe(outcomes) && resub.kind14Ok && (cfg.acceptLegacy ==> resub.giftOk)
    && pk in targets && h < |Pendings(outcomes)|
    && Pendings(outcomes)[h].targetPubkey == pk
    && Pendings(outcomes)[h].sharedKeys == targets[pk].sharedKeys
    && HonestFetch(cfg, pub, pk, Pendings(outcomes)[h], fetch(h)) && IdsIdentify(fetch(h))
  }

  /** An event in the window of a chat's backfill is known once the batch is done. */
  lemma BatchKnows(cfg: Config, s: State, cmds: seq<Arrival>, stored: ChatKeyId -> set<EventId>, resub: ResubEnv,
                   fetch: nat -> FetchEnv, h: nat, pk: PublicKey, pub: seq<Event>, i: nat, m: Decoded)
    requires Inv(cfg, s)
    requires TracksAndFetches(cfg, s, cmds, resub, fetch, h, pk, pub)
    requires i < fetch(h).at
    requires var t := ApplyAll(cfg, s.targets, cmds).0[pk];
             var p := Pendings(ApplyAll(cfg, s.targets, cmds).1)[h];
             && Addressed(cfg, pk, t, pub[i]) && OpensTo(cfg, t, pub[i], m)
             && InWindow(pub[i], p, fetch(h)) && Cutoff(p) <= m.timestamp
    ensures var key := ApplyAll(cfg, s.targets, cmds).0[pk].keyId;
            m.innerId in KnownTo(AfterBatch(cfg, s, cmds, stored, resub, fetch), key)
  {
    var (targets, outcomes) := ApplyAll(cfg, s.targets, cmds);
    var s1 := BatchSubscribed(cfg, s, cmds, stored, resub);
    SubscribedKeepsInv(cfg, s, cmds, stored, resub);
    BackfillsKnow(cfg, s1, Pendings(outcomes), fetch, h, pk, pub, i, m);
  }

  /** The same, from the state in which the backfills start. */
  lemma BackfillsKnow(cfg: Config, s: State, pendings: seq<Pending>, fetch: nat -> FetchEnv, h: nat, pk: PublicKey,
                      pub: seq<Event>, i: nat, m: Decoded)
    requires TargetsOk(cfg, s.targets) && pk in s.targets
    requires h < |pendings| && pendings[h].targetPubkey == pk && pendings[h].sharedKeys == s.targets[pk].sharedKeys
    requires HonestFetch(cfg, pub, pk, pendings[h], fetch(h)) && IdsIdentify(fetch(h))
    requires i < fetch(h).at && Addressed(cfg, pk, s.targets[pk], pub[i]) && OpensTo(cfg, s.targets[pk], pub[i], m)
    requires InWindow(pub[i], pendings[h], fetch(h)) && Cutoff(pendings[h]) <= m.timestamp
    ensures m.innerId in KnownTo(HydrateAll(cfg, s, pendings, fetch), s.targets[pk].keyId)
  {
    var key := s.targets[pk].keyId;
    var before := HydrateAll(cfg, s, pendings[..h], fetch);
    HydrateAllKnowsMore(cfg, s, pendings[..h], fetch, 0, key);
    BackfillKnows(cfg, before, pendings[h], fetch(h), pub, i, m);
    assert pendings[..h + 1][..h] == pendings[..h];
    HydrateAllKnowsMore(cfg, s, pendings, fetch, h + 1, key);
  }

  /** An event heard live is known from then on. */
  lemma HeardGetsKnown(cfg: Config, s: State, rest: seq<Step>, n: nat, e: Event, pk: PublicKey, t: ChatTarget,
                       m: Decoded)
    requires Inv(cfg, s) && cfg.crypto.ChecksSigner() && cfg.crypto.InjectiveSignKey()
    requires StaysTracked(cfg, s, rest, pk, t)
    requires Addressed(cfg, pk, t, e) && OpensTo(cfg, t, e, m)
    requires HeardLive(cfg, s, rest, n, e, pk, t.keyId)
    ensures m.innerId in KnownTo(Run(cfg, s, rest), t.keyId)
  {
    var before := Run(cfg, s, rest[..n]);
    RunKeepsInvFrom(cfg, s, rest[..n]);
    LiveKnows(cfg, before, rest[n], pk, m);
    assert rest[..n + 1][..n] == rest[..n];
    RunKeepsKnown(cfg, s, rest, n + 1, pk, t, m.innerId);
  }

  /** Whether it lies in the backfill or is heard live, an addressed event of a newly tracked chat gets known. */
  lemma EventGetsKnown(cfg: Config, s: State, cmds: seq<Arrival>, stored: ChatKeyId -> set<EventId>, resub: ResubEnv,
                       fetch: nat -> FetchEnv, h: nat, pk: PublicKey, pub: seq<Event>, rest: seq<Step>, i: nat,
                       m: Decoded)
    requires Inv(cfg, s) && cfg.crypto.ChecksSigner() && cfg.crypto.InjectiveSignKey()
    requires TracksAndFetches(cfg, s, cmds, resub, fetch, h, pk, pub)
    requires i < |pub|
    requires var t := ApplyAll(cfg, s.targets, cmds).0[pk];
             var s2 := AfterBatch(cfg, s, cmds, stored, resub, fetch);
             && StaysTracked(cfg, s2, rest, pk, t)
             && Addressed(cfg, pk, t, pub[i]) && OpensTo(cfg, t, pub[i], m)
             && (i < fetch(h).at ==>
                   && InWindow(pub[i], Pendings(ApplyAll(cfg, s.targets, cmds).1)[h], fetch(h))
                   && Cutoff(Pendings(ApplyAll(cfg, s.targets, cmds).1)[h]) <= m.timestamp)
             && (fetch(h).at <= i ==> exists n :: HeardLive(cfg, s2, rest, n, pub[i], pk, t.keyId))
    ensures var s2 := AfterBatch(cfg, s, cmds, stored, resub, fetch);
            && Inv(cfg, Run(cfg, s2, rest))
            && m.innerId in KnownTo(Run(cfg, s2, rest), ApplyAll(cfg, s.targets, cmds).0[pk].keyId)
  {
    var t := ApplyAll(cfg, s.targets, cmds).0[pk];
    var s2 := AfterBatch(cfg, s, cmds, stored, resub, fetch);
    assert Inv(cfg, s2) by {
      StepKeepsInv(cfg, s, Batch(cmds, stored, resub, fetch));
    }
    RunKeepsInvFrom(cfg, s2, rest);
    if i < fetch(h).at {
      BatchKnows(cfg, s, cmds, stored, resub, fetch, h, pk, pub, i, m);
      assert rest[..0] == [];
      RunKeepsKnown(cfg, s2, rest, 0, pk, t, m.innerId);
    } else {
      var n :| HeardLive(cfg, s2, rest, n, pub[i], pk, t.keyId);
      HeardGetsKnown(cfg, s2, rest, n, pub[i], pk, t, m);
    }
  }

  /** The relay keeps the promise of a subscription: if the open ones cover the chat, every addressed event
      published after the new pair opened is heard live. */
  ghost predicate RelayDelivers(cfg: Config, s2: State, resub: ResubEnv, rest: seq<Step>, pk: PublicKey,
                                t: ChatTarget, pub: seq<Event>)
  {
    Covers(s2.client.live, pk, t.signPubkey, cfg.acceptLegacy) ==>
      forall i: nat :: i < |pub| && Addressed(cfg, pk, t, pub[i])
                       && (if pub[i].kind == GiftWrap then resub.giftAt else resub.kind14At) <= i ==>
        exists n :: HeardLive(cfg, s2, rest, n, pub[i], pk, t.keyId)
  }

  /** The handoff, given the backfill. */
  lemma HandoffWithBackfill(cfg: Config, s: State, cmds: seq<Arrival>, stored: ChatKeyId -> set<EventId>,
                            resub: ResubEnv, fetch: nat -> FetchEnv, h: nat, pk: PublicKey, pub: seq<Event>,
                            rest: seq<Step>, i: nat, m: Decoded)
    requires Inv(cfg, s) && cfg.crypto.ChecksSigner() && cfg.crypto.InjectiveSignKey()
    requires TracksAndFetches(cfg, s, cmds, resub, fetch, h, pk, pub)
    requires RelayOnlyGrows(AfterBatch(cfg, s, cmds, stored, resub, fetch).log)
    requires i < |pub|
    requires var t := ApplyAll(cfg, s.targets, cmds).0[pk];
             var s2 := AfterBatch(cfg, s, cmds, stored, resub, fetch);
             && StaysTracked(cfg, s2, rest, pk, t)
             && Addressed(cfg, pk, t, pub[i]) && OpensTo(cfg, t, pub[i], m)
             && (i < fetch(h).at ==>
                   && InWindow(pub[i], Pendings(ApplyAll(cfg, s.targets, cmds).1)[h], fetch(h))
                   && Cutoff(Pendings(ApplyAll(cfg, s.targets, cmds).1)[h]) <= m.timestamp)
             && RelayDelivers(cfg, s2, resub, rest, pk, t, pub)
    ensures var key := ApplyAll(cfg, s.targets, cmds).0[pk].keyId;
            var log := Run(cfg, AfterBatch(cfg, s, cmds, stored, resub, fetch), rest).log;
            if m.innerId in SessionSeeds(log, key) then m.innerId !in SessionIds(log, key)
            else multiset(SessionIds(log, key))[m.innerId] == 1
  {
    var key := ApplyAll(cfg, s.targets, cmds).0[pk].keyId;
    var s2 := AfterBatch(cfg, s, cmds, stored, resub, fetch);
    var a, b := SubscribeThenFetch(cfg, s, cmds, stored, resub, fetch, h);
    assert resub.giftAt <= fetch(h).at && resub.kind14At <= fetch(h).at;
    BatchCovers(cfg, s, cmds, stored, resub, fetch, pk);
    EventGetsKnown(cfg, s, cmds, stored, resub, fetch, h, pk, pub, rest, i, m);
    var r := Run(cfg, s2, rest);
    assert Lookup(r.inner, key) == Known(r.log, key);
    SessionAccount(r.log, key);
    if m.innerId !in SessionSeeds(r.log, key) {
      OnceInNoDup(SessionIds(r.log, key), m.innerId);
    }
  }

  /** The batch leaves the chat at `pk` with a target it did not have before. */
  predicate NewlyTracked(cfg: Config, s: State, cmds: seq<Arrival>, pk: PublicKey) {
    var targets := ApplyAll(cfg, s.targets, cmds).0;
    pk in targets && (pk !in s.targets || s.targets[pk] != targets[pk])
  }

  /** The `h`-th backfill of the batch is one for the chat at `pk`, with its secret. */
  predicate IsBackfill(cfg: Config, s: State, cmds: seq<Arrival>, h: nat, pk: PublicKey) {
    var (targets, outcomes) := ApplyAll(cfg, s.targets, cmds);
    && pk in targets && h < |Pendings(outcomes)|
    && Pendings(outcomes)[h].targetPubkey == pk && Pendings(outcomes)[h].sharedKeys == targets[pk].sharedKeys
  }

  /** No gap, no repeat. Let a batch newly track a chat, its subscribes succeed and the backfills of the chat be
      answered in full; let the relay deliver what its open subscriptions cover. Then every addressed event the
      relay ever publishes, inside the window of a backfill that it predates, is handed on exactly once while the
      chat stays tracked, unless its inner id was already accepted before. That there is a backfill, and that the
      live deliveries reach back to it, is not assumed: the router schedules one and subscribes first. */
  lemma GapFreeHandoff(cfg: Config, s: State, cmds: seq<Arrival>, stored: ChatKeyId -> set<EventId>, resub: ResubEnv,
                       fetch: nat -> FetchEnv, pk: PublicKey, pub: seq<Event>, rest: seq<Step>, i: nat, m: Decoded)
    requires Inv(cfg, s) && cfg.crypto.ChecksSigner() && cfg.crypto.InjectiveSignKey()
    requires NewlyTracked(cfg, s, cmds, pk) && resub.kind14Ok && (cfg.acceptLegacy ==> resub.giftOk)
    requires forall h: nat :: IsBackfill(cfg, s, cmds, h, pk) ==>
               && HonestFetch(cfg, pub, pk, Pendings(ApplyAll(cfg, s.targets, cmds).1)[h], fetch(h))
               && IdsIdentify(fetch(h))
    requires RelayOnlyGrows(AfterBatch(cfg, s, cmds, stored, resub, fetch).log)
    requires i < |pub|
    requires var t := ApplyAll(cfg, s.targets, cmds).0[pk];
             var s2 := AfterBatch(cfg, s, cmds, stored, resub, fetch);
             && StaysTracked(cfg, s2, rest, pk, t)
             && Addressed(cfg, pk, t, pub[i]) && OpensTo(cfg, t, pub[i], m)
             && (forall h: nat :: IsBackfill(cfg, s, cmds, h, pk) && i < fetch(h).at ==>
                   && InWindow(pub[i], Pendings(ApplyAll(cfg, s.targets, cmds).1)[h], fetch(h))
                   && Cutoff(Pendings(ApplyAll(cfg, s.targets, cmds).1)[h]) <= m.timestamp)
             && RelayDelivers(cfg, s2, resub, rest, pk, t, pub)
    ensures var key := ApplyAll(cfg, s.targets, cmds).0[pk].keyId;
            var log := Run(cfg, AfterBatch(cfg, s, cmds, stored, resub, fetch), rest).log;
            if m.innerId in SessionSeeds(log, key) then m.innerId !in SessionIds(log, key)
            else multiset(SessionIds(log, key))[m.innerId] == 1
  {
    var h := NewTargetIsPending(cfg, s.targets, cmds, pk);
    assert IsBackfill(cfg, s, cmds, h, pk);
    HandoffWithBackfill(cfg, s, cmds, stored, resub, fetch, h, pk, pub, rest, i, m);
  }

  lemma {:induction false} OnceInNoDup(ids: seq<EventId>, id: EventId)
    requires NoDup(ids) && id in ids
    ensures multiset(ids)[id] == 1
  {
    var n := |ids| - 1;
    assert ids == ids[..n] + [ids[n]];
    if ids[n] == id {
      assert id !in ids[..n];
      assert id !in multiset(ids[..n]);
    } else {
      OnceInNoDup(ids[..n], id);
    }
  }
}
