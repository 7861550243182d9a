/** What one command, one live event and one backfill of the router do, in terms of their own fields, and what a run
    makes of it (src/util/chat_listener.rs). */
module ChatRouterSteps {

  import opened Wrappers
  import opened ChatTypes
  import opened ChatUtils
  import opened ChatSubscriptions
  import opened TokenBucket
  import opened ChatRouter
  import opened ChatRouterProofs

  // ----- One track command -----

  /** The target is the one the command asks for. */
  predicate Carries(cfg: Config, t: ChatTarget, cmd: Cmd)
    requires cmd.Track?
  {
    && t.keyId == cmd.keyId && t.allowedSigners == cmd.allowedSigners && t.localTradePubkey == cmd.localTradePubkey
    && cfg.crypto.fromHex(cmd.sharedKeyHex) == Some(t.sharedKeys)
    && cfg.crypto.signKey(t.sharedKeys) == Some(t.signPubkey)
  }

  /** The command can be tracked, at key `pk`. */
  predicate CanTrack(cfg: Config, cmd: Cmd, pk: PublicKey) {
    && cmd.Track? && cmd.allowedSigners != []
    && cfg.crypto.fromHex(cmd.sharedKeyHex).Some?
    && var secret := cfg.crypto.fromHex(cmd.sharedKeyHex).value;
       cfg.crypto.signKey(secret).Some? && cfg.crypto.publicKey(secret) == pk
  }

  /** It changes the tracked set: the chat is not yet tracked at that key. */
  predicate Sets(cfg: Config, targets: Targets, cmd: Cmd, pk: PublicKey) {
    CanTrack(cfg, cmd, pk) && (pk !in targets || targets[pk].keyId != cmd.keyId)
  }

  /** The backfill starts where the command says, or at the clock when that is earlier. */
  predicate StartsAt(since: Option<int>, asked: Option<int>, now: nat) {
    match asked
    case None => since == None
    case Some(ts) => since == Some(if ts > now then now else ts)
  }

  /** A track that changes the tracked set stores everything the command says, asks for one backfill with its secret and
      cursor, for its books to be opened and for a rebuild. */
  lemma TrackStores(cfg: Config, targets: Targets, a: Arrival, pk: PublicKey)
    requires Sets(cfg, targets, a.cmd, pk)
    ensures var (after, o) := ApplyCmd(cfg, targets, a);
            && after.Keys == targets.Keys + {pk} && Carries(cfg, after[pk], a.cmd)
            && (forall other :: other in targets && other != pk ==> after[other] == targets[other])
            && o.needsResubscribe && o.tracked == Some(a.cmd.keyId) && o.untracked == None
            && o.hydrate.Some? && o.hydrate.value.targetPubkey == pk
            && o.hydrate.value.sharedKeys == after[pk].sharedKeys
            && StartsAt(o.hydrate.value.since, a.cmd.since, a.now)
  {
  }

  /** A command that changes nothing reports nothing; one that changes the tracked set asks for a rebuild. */
  lemma OutcomeMeaning(cfg: Config, targets: Targets, a: Arrival)
    ensures var (after, o) := ApplyCmd(cfg, targets, a);
            && (o.needsResubscribe <==> after != targets)
            && (after == targets ==> o == NO_CHANGE)
            && (a.cmd.Track? ==> o.untracked == None) && (a.cmd.Untrack? ==> o.tracked == None && o.hydrate == None)
  {
    if a.cmd.Track? {
      var (after, o) := ApplyCmd(cfg, targets, a);
      if o != NO_CHANGE {
        var pk := o.hydrate.value.targetPubkey;
        assert pk in targets ==> targets[pk].keyId != after[pk].keyId;
      }
    }
  }

  // ----- The tracked set over runs -----

  /** The commands of a run, in the order they were applied. */
  function Commands(steps: seq<Step>): seq<Arrival> {
    if steps == [] then []
    else
      var n := |steps| - 1;
      if steps[n].Batch? then Commands(steps[..n]) + steps[n].cmds else Commands(steps[..n])
  }

  lemma {:induction false} ApplyAllOfConcat(cfg: Config, targets: Targets, a: seq<Arrival>, b: seq<Arrival>)
    ensures ApplyAll(cfg, targets, a + b).0 == ApplyAll(cfg, ApplyAll(cfg, targets, a).0, b).0
  {
    if b == [] {
      assert a + b == a;
    } else {
      var n := |b| - 1;
      assert (a + b)[..|a + b| - 1] == a + b[..n];
      ApplyAllOfConcat(cfg, targets, a, b[..n]);
    }
  }

  /** Live events and backfills leave the tracked set alone: it is what the commands make of nothing. */
  lemma {:induction false} RunTargetsAreCommands(cfg: Config, steps: seq<Step>)
    ensures Run(cfg, INITIAL, steps).targets == ApplyAll(cfg, map[], Commands(steps)).0
  {
    if steps != [] {
      var n := |steps| - 1;
      var s := Run(cfg, INITIAL, steps[..n]);
      RunTargetsAreCommands(cfg, steps[..n]);
      match steps[n]
      case Batch(cmds, stored, resub, fetch) =>
        ApplyAllOfConcat(cfg, map[], Commands(steps[..n]), cmds);
        var subscribed := BatchSubscribed(cfg, s, cmds, stored, resub);
        HydrateAllKeepsOuter(cfg, subscribed, Pendings(ApplyAll(cfg, s.targets, cmds).1), fetch);
      case Live(_, _, _, _) =>
    }
  }

  /** Command `k` is the one that set the target at `pk`: none behind it sets it again or untracks its chat. */
  ghost predicate LastTrack(cfg: Config, cmds: seq<Arrival>, k: nat, pk: PublicKey) {
    && k < |cmds| && Sets(cfg, ApplyAll(cfg, map[], cmds[..k]).0, cmds[k].cmd, pk)
    && forall l :: k < l < |cmds| ==>
         && !Sets(cfg, ApplyAll(cfg, map[], cmds[..l]).0, cmds[l].cmd, pk)
         && cmds[l].cmd != Untrack(cmds[k].cmd.keyId)
  }

  /** One command, at one key. */
  lemma CmdAtKey(cfg: Config, targets: Targets, a: Arrival, pk: PublicKey)
    ensures var after := ApplyCmd(cfg, targets, a).0;
            && (pk in after <==>
                  Sets(cfg, targets, a.cmd, pk) || (pk in targets && a.cmd != Untrack(targets[pk].keyId)))
            && (pk in after ==>
                  if Sets(cfg, targets, a.cmd, pk) then Carries(cfg, after[pk], a.cmd) else after[pk] == targets[pk])
  {
  }

  lemma LastTrackOfPush(cfg: Config, cmds: seq<Arrival>, a: Arrival, k: nat, pk: PublicKey)
    ensures var targets := ApplyAll(cfg, map[], cmds).0;
            LastTrack(cfg, cmds + [a], k, pk)
            <==> if Sets(cfg, targets, a.cmd, pk) then k == |cmds|
                 else LastTrack(cfg, cmds, k, pk) && a.cmd != Untrack(cmds[k].cmd.keyId)
  {
    var all := cmds + [a];
    assert all[|cmds|] == a && all[..|cmds|] == cmds;
    assert forall l :: 0 <= l < |cmds| ==> all[l] == cmds[l] && all[..l] == cmds[..l];
  }

  /** A chat key is tracked exactly when some command set it and none behind it set it again or untracked the chat;
      and then its target carries that command: its chat, its allow-list, its local key and its secret. */
  lemma {:induction false} TargetIsLastTrack(cfg: Config, cmds: seq<Arrival>, pk: PublicKey)
    ensures var targets := ApplyAll(cfg, map[], cmds).0;
            && (pk in targets <==> exists k: nat :: LastTrack(cfg, cmds, k, pk))
            && forall k: nat :: LastTrack(cfg, cmds, k, pk) ==> Carries(cfg, targets[pk], cmds[k].cmd)
  {
    if cmds != [] {
      var n := |cmds| - 1;
      var before := cmds[..n];
      assert cmds == before + [cmds[n]];
      TargetIsLastTrack(cfg, before, pk);
      CmdAtKey(cfg, ApplyAll(cfg, map[], before).0, cmds[n], pk);
      forall k: nat
        ensures LastTrack(cfg, cmds, k, pk)
           <==> if Sets(cfg, ApplyAll(cfg, map[], before).0, cmds[n].cmd, pk) then k == n
                else LastTrack(cfg, before, k, pk) && cmds[n].cmd != Untrack(before[k].cmd.keyId)
      {
        LastTrackOfPush(cfg, before, cmds[n], k, pk);
      }
      assert Sets(cfg, ApplyAll(cfg, map[], before).0, cmds[n].cmd, pk) ==> LastTrack(cfg, cmds, n, pk);
    }
  }

  /** So in every reachable state. */
  lemma RunTargetIsLastTrack(cfg: Config, steps: seq<Step>, pk: PublicKey)
    ensures var targets, cmds := Run(cfg, INITIAL, steps).targets, Commands(steps);
            && (pk in targets <==> exists k: nat :: LastTrack(cfg, cmds, k, pk))
            && forall k: nat :: LastTrack(cfg, cmds, k, pk) ==> Carries(cfg, targets[pk], cmds[k].cmd)
  {
    RunTargetsAreCommands(cfg, steps);
    TargetIsLastTrack(cfg, Commands(steps), pk);
  }

  // ----- One live event -----

  /** Where an event goes: a GiftWrap to the chat at its first `p` tag while legacy is accepted, a kind-14 event to a
      chat that signs with its author key, anything else nowhere. */
  lemma RoutesTo(targets: Targets, order: seq<PublicKey>, event: Event, acceptLegacy: bool)
    ensures var r := Resolve(targets, order, event, acceptLegacy);
            && (event.kind == OtherKind ==> r == None)
            && (event.kind == GiftWrap ==>
                  r == if acceptLegacy && event.pTags != [] && event.pTags[0] in targets
                       then Some(targets[event.pTags[0]]) else None)
            && (event.kind == PrivateDirectMessage ==>
                  && (r.Some? ==> exists pk :: pk in targets && targets[pk] == r.value)
                  && (r.Some? ==> r.value.signPubkey == event.author)
                  && (r.None? ==> forall pk :: pk in order && pk in targets ==> targets[pk].signPubkey != event.author))
  {
    if event.kind == PrivateDirectMessage {
      FirstByAuthorFound(targets, order, event.author);
      FirstByAuthorMisses(targets, order, event.author);
    }
  }

  lemma {:induction false} FirstByAuthorMisses(targets: Targets, order: seq<PublicKey>, author: PublicKey)
    ensures FirstByAuthor(targets, order, author).None? ==>
              forall pk :: pk in order && pk in targets ==> targets[pk].signPubkey != author
  {
    if order != [] && !(order[0] in targets && targets[order[0]].signPubkey == author) {
      FirstByAuthorMisses(targets, order[1..], author);
      assert forall pk :: pk in order ==> pk == order[0] || pk in order[1..];
    }
  }

  /** The limiter of the chat has a token for the event. */
  predicate HasToken(s: State, t: ChatTarget, time: real) {
    t.keyId !in s.buckets || Refilled(s.buckets[t.keyId], time) >= 1.0
  }

  /** A live event for a chat, not a recent duplicate, is asked about first; it is handed on as `m` exactly when the
      limiter has a token, the envelope opens to `m`, and the inner id of `m` is new to the chat. Otherwise nothing is
      handed on. */
  lemma LiveDeliversIff(cfg: Config, s: State, step: Step, t: ChatTarget)
    requires step.Live? && Resolve(s.targets, step.order, step.event, cfg.acceptLegacy) == Some(t)
    requires step.event.id !in s.outer
    ensures var log := After1(cfg, s, step).log;
            var asked := s.log + [Admission(t.keyId, step.time, HasToken(s, t, step.time))];
            && asked <= log && |log| <= |asked| + 1
            && (forall m :: log == asked + [Delivered(t, m)] <==>
                  && HasToken(s, t, step.time)
                  && Opens(cfg.crypto, t.sharedKeys, step.event, t.allowedSigners, cfg.acceptLegacy, step.now, m)
                  && m.innerId !in KnownTo(s, t.keyId))
            && (log == asked || exists m :: log == asked + [Delivered(t, m)])
  {
    UnwrapIff(cfg.crypto, t.sharedKeys, step.event, t.allowedSigners, cfg.acceptLegacy, step.now);
    var r := Unwrap(cfg.crypto, t.sharedKeys, step.event, t.allowedSigners, cfg.acceptLegacy, step.now);
    var asked := s.log + [Admission(t.keyId, step.time, HasToken(s, t, step.time))];
    if HasToken(s, t, step.time) && r.Success? && r.value.innerId !in KnownTo(s, t.keyId) {
      assert After1(cfg, s, step).log == asked + [Delivered(t, r.value)];
    } else {
      assert After1(cfg, s, step).log == asked;
    }
    forall m | After1(cfg, s, step).log == asked + [Delivered(t, m)]
      ensures After1(cfg, s, step).log[|asked|] == Delivered(t, m)
    {
    }
  }

  /** A refused event is not opened: the state it leaves does not depend on any cryptography. */
  lemma RefusedIsNotOpened(cfg: Config, s: State, step: Step, other: Crypto)
    requires step.Live?
    requires var log := After1(cfg, s, step).log;
             |s.log| < |log| && log[|s.log|].Admission? && !log[|s.log|].allowed
    ensures After1(cfg.(crypto := other), s, step) == After1(cfg, s, step)
  {
    match Resolve(s.targets, step.order, step.event, cfg.acceptLegacy)
    case None =>
    case Some(t) =>
      if step.event.id !in s.outer {
        LiveDeliversIff(cfg, s, step, t);
        LiveDeliversIff(cfg.(crypto := other), s, step, t);
      }
  }

  // ----- One rebuild -----

  /** A rebuild is logged exactly when the subscribes it needs succeed and there is a chat to serve, with the keys it
      subscribes to; otherwise it leaves no trace in the log, and it never touches anything but subscriptions. */
  lemma RebuildLogs(cfg: Config, s: State, env: ResubEnv)
    ensures var after := Resubscribed(cfg, s, env);
            && after.log
            == (if s.targets != map[] && env.kind14Ok && (cfg.acceptLegacy ==> env.giftOk)
                then s.log + [Subscribed(SignKeys(s.targets), s.targets.Keys, env.giftAt, env.kind14At)] else s.log)
            && after == s.(subs := after.subs, client := after.client, log := after.log)
  {
  }

  // ----- One backfill -----

  /** Whether a message dated `ts` is behind the start of a backfill. */
  predicate NotBefore(ts: int, since: Option<int>) {
    match since case None => 0 <= ts case Some(start) => start <= ts
  }

  /** What a backfill asks the relay for: kind 14 from its cursor on but at most seven days back and never ahead of the
      clock, GiftWrap always seven days back. */
  lemma BackfillAsks(cfg: Config, s: State, p: Pending, env: FetchEnv)
    requires p.targetPubkey in s.targets && 604800 <= env.now
    ensures var log := Hydrated(cfg, s, p, env).log;
            && s.log < log && log[|s.log|].Fetched? && log[|s.log|].pk == p.targetPubkey && log[|s.log|].at == env.at
            && log[|s.log|].giftSince == env.now - 604800
            && var start := log[|s.log|].kind14Since;
               && env.now - 604800 <= start <= env.now
               && (p.since.Some? && env.now - 604800 <= p.since.value <= env.now ==> start == p.since.value)
               && (p.since.Some? && env.now < p.since.value ==> start == env.now)
               && (p.since.None? || p.since.value < env.now - 604800 ==> start == env.now - 604800)
  {
    HydrateContinues(cfg, s, p, env);
    var e := Fetched(p.targetPubkey, WindowStart(p.since, env.now), GiftSince(env.now), env.at);
    var t := s.targets[p.targetPubkey];
    var r := FetchedMessages(cfg.crypto, p.sharedKeys, t.allowedSigners, cfg.acceptLegacy, env);
    if r.Success? {
      DeliverAllContinues(Touched(s.(log := s.log + [e]), t.keyId), t, r.value, Cutoff(p));
    }
  }

  /** What is handed on behind `from`. */
  function HandedOn(log: seq<Entry>, from: nat): seq<Decoded>
    requires from <= |log|
    decreases |log|
  {
    if |log| == from then []
    else
      var n := |log| - 1;
      if log[n].Delivered? then HandedOn(log[..n], from) + [log[n].msg] else HandedOn(log[..n], from)
  }

  lemma HandedOnPush(log: seq<Entry>, e: Entry, from: nat)
    requires from <= |log|
    ensures HandedOn(log + [e], from) == HandedOn(log, from) + if e.Delivered? then [e.msg] else []
  {
    assert (log + [e])[..|log|] == log;
  }

  /** The messages a backfill hands on: those not before its start whose inner id is new, each id once, in the order
      given. */
  function Novel(known: set<EventId>, messages: seq<Decoded>, since: Option<int>): seq<Decoded> {
    if messages == [] then []
    else
      var n := |messages| - 1;
      var before := Novel(known, messages[..n], since);
      if !NotBefore(messages[n].timestamp, since) || messages[n].innerId in known
         || (exists m :: m in before && m.innerId == messages[n].innerId)
      then before else before + [messages[n]]
  }

  lemma {:induction false} DeliverAllIsNovel(s: State, t: ChatTarget, messages: seq<Decoded>, p: Pending)
    ensures var after := DeliverAll(s, t, messages, Cutoff(p));
            var novel := Novel(KnownTo(s, t.keyId), messages, p.since);
            && |s.log| <= |after.log| && HandedOn(after.log, |s.log|) == novel
            && (forall id :: id in KnownTo(after, t.keyId) <==>
                  id in KnownTo(s, t.keyId) || exists m :: m in novel && m.innerId == id)
  {
    if messages != [] {
      var n := |messages| - 1;
      DeliverAllIsNovel(s, t, messages[..n], p);
      var before := DeliverAll(s, t, messages[..n], Cutoff(p));
      var novel := Novel(KnownTo(s, t.keyId), messages[..n], p.since);
      HandedOnPush(before.log, Delivered(t, messages[n]), |s.log|);
      assert forall m :: m in novel + [messages[n]] <==> m in novel || m == messages[n];
    }
  }

  /** A backfill of a tracked chat hands on exactly the fetched messages that are new to the chat and not before its
      start; without an answer, nothing. */
  lemma BackfillHandsOn(cfg: Config, s: State, p: Pending, env: FetchEnv)
    requires p.targetPubkey in s.targets
    ensures var t := s.targets[p.targetPubkey];
            var r := FetchedMessages(cfg.crypto, p.sharedKeys, t.allowedSigners, cfg.acceptLegacy, env);
            var after := Hydrated(cfg, s, p, env);
            && |s.log| <= |after.log|
            && HandedOn(after.log, |s.log|)
            == if r.Success? then Novel(KnownTo(s, t.keyId), r.value, p.since) else []
  {
    var t := s.targets[p.targetPubkey];
    var e := Fetched(p.targetPubkey, WindowStart(p.since, env.now), GiftSince(env.now), env.at);
    var asked := s.(log := s.log + [e]);
    var r := FetchedMessages(cfg.crypto, p.sharedKeys, t.allowedSigners, cfg.acceptLegacy, env);
    HandedOnPush(s.log, e, |s.log|);
    if r.Success? {
      var touched := Touched(asked, t.keyId);
      DeliverAllIsNovel(touched, t, r.value, p);
      HandedOnBehind(DeliverAll(touched, t, r.value, Cutoff(p)).log, |s.log|, |asked.log|);
      DeliverAllContinues(touched, t, r.value, Cutoff(p));
    }
  }

  lemma {:induction false} HandedOnBehind(log: seq<Entry>, i: nat, j: nat)
    requires i <= j <= |log|
    ensures HandedOn(log, i) == HandedOn(log[..j], i) + HandedOn(log, j)
    decreases |log|
  {
    if |log| == j {
      assert log[..j] == log;
    } else {
      var n := |log| - 1;
      assert log[..n][..j] == log[..j];
      HandedOnBehind(log[..n], i, j);
    }
  }

  /** And it hands them on oldest first. */
  lemma BackfillIsSorted(cfg: Config, s: State, p: Pending, env: FetchEnv)
    requires p.targetPubkey in s.targets
    ensures var after := Hydrated(cfg, s, p, env);
            |s.log| <= |after.log| && SortedByTime(HandedOn(after.log, |s.log|))
  {
    BackfillHandsOn(cfg, s, p, env);
    var t := s.targets[p.targetPubkey];
    FetchedMeaning(cfg.crypto, p.sharedKeys, t.allowedSigners, cfg.acceptLegacy, env);
    var r := FetchedMessages(cfg.crypto, p.sharedKeys, t.allowedSigners, cfg.acceptLegacy, env);
    if r.Success? {
      NovelIsSorted(KnownTo(s, t.keyId), r.value, p.since);
    }
  }

  lemma {:induction false} NovelIsSorted(known: set<EventId>, messages: seq<Decoded>, since: Option<int>)
    requires SortedByTime(messages)
    ensures SortedByTime(Novel(known, messages, since))
    ensures forall m :: m in Novel(known, messages, since) ==> m in messages
  {
    if messages != [] {
      var n := |messages| - 1;
      NovelIsSorted(known, messages[..n], since);
      var before := Novel(known, messages[..n], since);
      forall m | m in before
        ensures m.timestamp <= messages[n].timestamp
      {
        assert m in messages[..n];
      }
    }
  }

  // ----- Whatever a run hands on -----

  /** Step `n` wrote entry `d` of the log. */
  ghost predicate WrittenBy(cfg: Config, steps: seq<Step>, n: nat, d: nat) {
    n < |steps| && |Run(cfg, INITIAL, steps[..n]).log| <= d < |Run(cfg, INITIAL, steps[..n + 1]).log|
  }

  lemma {:induction false} SomeStepWrote(cfg: Config, steps: seq<Step>, d: nat) returns (n: nat)
    requires d < |Run(cfg, INITIAL, steps).log|
    ensures WrittenBy(cfg, steps, n, d)
    ensures Run(cfg, INITIAL, steps[..n + 1]).log <= Run(cfg, INITIAL, steps).log
  {
    var last := |steps| - 1;
    var before := Run(cfg, INITIAL, steps[..last]);
    StepContinues(cfg, before, steps[last]);
    assert steps[..last + 1] == steps;
    if d < |before.log| {
      n := SomeStepWrote(cfg, steps[..last], d);
      assert steps[..last][..n] == steps[..n] && steps[..last][..n + 1] == steps[..n + 1];
    } else {
      n := last;
    }
  }

  /** The step that wrote entry `d`, with the state in front of it. */
  lemma StepThatWrote(cfg: Config, steps: seq<Step>, d: nat) returns (n: nat)
    requires d < |Run(cfg, INITIAL, steps).log|
    ensures WrittenBy(cfg, steps, n, d)
    ensures var s := Run(cfg, INITIAL, steps[..n]);
            var after := After1(cfg, s, steps[n]);
            && after == Run(cfg, INITIAL, steps[..n + 1]) && |s.log| <= d < |after.log|
            && after.log <= Run(cfg, INITIAL, steps).log && after.log[d] == Run(cfg, INITIAL, steps).log[d]
  {
    n := SomeStepWrote(cfg, steps, d);
    assert steps[..n + 1][..n] == steps[..n];
  }

  /** The message was admitted, opened and new when it arrived live, right before it was handed on. */
  ghost predicate HandedOnLive(cfg: Config, s: State, step: Step, log: seq<Entry>, d: nat)
    requires d < |log| && log[d].Delivered?
  {
    var t, m := log[d].target, log[d].msg;
    && step.Live? && d == |s.log| + 1 && log[d - 1] == Admission(t.keyId, step.time, true)
    && Resolve(s.targets, step.order, step.event, cfg.acceptLegacy) == Some(t) && step.event.id !in s.outer
    && HasToken(s, t, step.time)
    && Opens(cfg.crypto, t.sharedKeys, step.event, t.allowedSigners, cfg.acceptLegacy, step.now, m)
    && m.innerId !in KnownTo(s, t.keyId)
  }

  /** The message was fetched by the `h`-th backfill of a batch, for the target that backfill is for. */
  ghost predicate HandedOnByBackfill(cfg: Config, s: State, step: Step, log: seq<Entry>, d: nat, h: nat)
    requires d < |log| && log[d].Delivered?
  {
    && step.Batch?
    && var (targets, outcomes) := ApplyAll(cfg, s.targets, step.cmds);
    && h < |Pendings(outcomes)|
    && var p := Pendings(outcomes)[h];
    && p.targetPubkey in targets && log[d].target == targets[p.targetPubkey]
    && var allowed := log[d].target.allowedSigners;
    && var r := FetchedMessages(cfg.crypto, p.sharedKeys, allowed, cfg.acceptLegacy, step.fetch(h));
       r.Success? && log[d].msg in r.value && NotBefore(log[d].msg.timestamp, p.since)
  }

  lemma {:induction false} BackfillsOrigin(cfg: Config, s: State, pendings: seq<Pending>, fetch: nat -> FetchEnv,
                                           d: nat) returns (h: nat)
    requires |s.log| <= d < |HydrateAll(cfg, s, pendings, fetch).log|
    requires HydrateAll(cfg, s, pendings, fetch).log[d].Delivered?
    ensures h < |pendings| && pendings[h].targetPubkey in s.targets
    ensures var e, p := HydrateAll(cfg, s, pendings, fetch).log[d], pendings[h];
            var r := FetchedMessages(cfg.crypto, p.sharedKeys, e.target.allowedSigners, cfg.acceptLegacy, fetch(h));
            && e.target == s.targets[p.targetPubkey]
            && r.Success? && e.msg in r.value && NotBefore(e.msg.timestamp, p.since)
  {
    var n := |pendings| - 1;
    var before := HydrateAll(cfg, s, pendings[..n], fetch);
    HydrateContinues(cfg, before, pendings[n], fetch(n));
    HydrateAllKeepsOuter(cfg, s, pendings[..n], fetch);
    if d < |before.log| {
      h := BackfillsOrigin(cfg, s, pendings[..n], fetch, d);
    } else {
      h := n;
      BackfillHandsOnOnlyFetched(cfg, before, pendings[n], fetch(n), d);
    }
  }

  /** What each part of a step writes to the log. */
  predicate IsBookEntry(e: Entry) {
    e.Seeded? || e.Dropped? || e.Subscribed?
  }

  predicate IsBackfillEntry(e: Entry) {
    e.Fetched? || e.Delivered?
  }

  predicate IsLiveEntry(e: Entry) {
    e.Admission? || e.Delivered?
  }

  lemma {:induction false} ReplayWrites(b: Books, outcomes: seq<Outcome>, stored: ChatKeyId -> set<EventId>)
    ensures var log := RecordAll(b, outcomes, stored).log;
            b.log <= log && forall d :: |b.log| <= d < |log| ==> log[d].Seeded? || log[d].Dropped?
  {
    if outcomes != [] {
      ReplayWrites(b, outcomes[..|outcomes| - 1], stored);
    }
  }

  lemma SubscribedWrites(cfg: Config, s: State, cmds: seq<Arrival>, stored: ChatKeyId -> set<EventId>, resub: ResubEnv)
    ensures var log := BatchSubscribed(cfg, s, cmds, stored, resub).log;
            s.log <= log && forall d :: |s.log| <= d < |log| ==> IsBookEntry(log[d])
  {
    ReplayWrites(BooksOf(s), ApplyAll(cfg, s.targets, cmds).1, stored);
  }

  lemma {:induction false} DeliverAllWrites(s: State, t: ChatTarget, messages: seq<Decoded>, cutoff: int)
    ensures var log := DeliverAll(s, t, messages, cutoff).log;
            s.log <= log && forall d :: |s.log| <= d < |log| ==> log[d].Delivered?
  {
    if messages != [] {
      DeliverAllWrites(s, t, messages[..|messages| - 1], cutoff);
    }
  }

  lemma BackfillWrites(cfg: Config, s: State, p: Pending, env: FetchEnv)
    ensures var log := Hydrated(cfg, s, p, env).log;
            s.log <= log && forall d :: |s.log| <= d < |log| ==> IsBackfillEntry(log[d])
  {
    if p.targetPubkey in s.targets {
      var t := s.targets[p.targetPubkey];
      var e := Fetched(p.targetPubkey, WindowStart(p.since, env.now), GiftSince(env.now), env.at);
      var r := FetchedMessages(cfg.crypto, p.sharedKeys, t.allowedSigners, cfg.acceptLegacy, env);
      if r.Success? {
        DeliverAllWrites(Touched(s.(log := s.log + [e]), t.keyId), t, r.value, Cutoff(p));
      }
    }
  }

  lemma {:induction false} BackfillsWrite(cfg: Config, s: State, pendings: seq<Pending>, fetch: nat -> FetchEnv)
    ensures var log := HydrateAll(cfg, s, pendings, fetch).log;
            s.log <= log && forall d :: |s.log| <= d < |log| ==> IsBackfillEntry(log[d])
  {
    if pendings != [] {
      var n := |pendings| - 1;
      BackfillsWrite(cfg, s, pendings[..n], fetch);
      BackfillWrites(cfg, HydrateAll(cfg, s, pendings[..n], fetch), pendings[n], fetch(n));
    }
  }

  lemma LiveWrites(cfg: Config, s: State, step: Step)
    requires step.Live?
    ensures var log := After1(cfg, s, step).log;
            s.log <= log && forall d :: |s.log| <= d < |log| ==> IsLiveEntry(log[d])
  {
  }

  lemma LiveOrigin(cfg: Config, s: State, step: Step, d: nat)
    requires step.Live? && |s.log| <= d < |After1(cfg, s, step).log| && After1(cfg, s, step).log[d].Delivered?
    ensures HandedOnLive(cfg, s, step, After1(cfg, s, step).log, d)
  {
    var target := Resolve(s.targets, step.order, step.event, cfg.acceptLegacy);
    LiveDeliversIff(cfg, s, step, target.value);
  }

  lemma BatchOrigin(cfg: Config, s: State, step: Step, d: nat) returns (h: nat)
    requires step.Batch? && |s.log| <= d < |After1(cfg, s, step).log| && After1(cfg, s, step).log[d].Delivered?
    ensures HandedOnByBackfill(cfg, s, step, After1(cfg, s, step).log, d, h)
  {
    var subscribed := BatchSubscribed(cfg, s, step.cmds, step.stored, step.resub);
    var pendings := Pendings(ApplyAll(cfg, s.targets, step.cmds).1);
    SubscribedWrites(cfg, s, step.cmds, step.stored, step.resub);
    BackfillsWrite(cfg, subscribed, pendings, step.fetch);
    h := BackfillsOrigin(cfg, subscribed, pendings, step.fetch, d);
  }

  /** Every message a run hands on arrived live, was let through by the limiter and opened, or was fetched by a backfill
      for its chat. */
  lemma RunDeliveredOrigin(cfg: Config, steps: seq<Step>, d: nat) returns (n: nat, h: nat)
    requires d < |Run(cfg, INITIAL, steps).log| && Run(cfg, INITIAL, steps).log[d].Delivered?
    ensures WrittenBy(cfg, steps, n, d)
    ensures var s, log := Run(cfg, INITIAL, steps[..n]), Run(cfg, INITIAL, steps[..n + 1]).log;
            && log <= Run(cfg, INITIAL, steps).log && log[d].Delivered?
            && (HandedOnLive(cfg, s, steps[n], log, d) || HandedOnByBackfill(cfg, s, steps[n], log, d, h))
  {
    n := StepThatWrote(cfg, steps, d);
    h := 0;
    var s := Run(cfg, INITIAL, steps[..n]);
    match steps[n]
    case Live(_, _, _, _) => LiveOrigin(cfg, s, steps[n], d);
    case Batch(_, _, _, _) => h := BatchOrigin(cfg, s, steps[n], d);
  }

  lemma BatchAdmitsNothing(cfg: Config, s: State, step: Step)
    requires step.Batch?
    ensures var log := After1(cfg, s, step).log; forall d :: |s.log| <= d < |log| ==> !log[d].Admission?
  {
    var subscribed := BatchSubscribed(cfg, s, step.cmds, step.stored, step.resub);
    SubscribedWrites(cfg, s, step.cmds, step.stored, step.resub);
    BackfillsWrite(cfg, subscribed, Pendings(ApplyAll(cfg, s.targets, step.cmds).1), step.fetch);
  }

  /** In a run, the step that logs a refusal opens nothing: with any other cryptography it does the same. */
  lemma RunRefusedIsNotOpened(cfg: Config, steps: seq<Step>, d: nat, other: Crypto) returns (n: nat)
    requires d < |Run(cfg, INITIAL, steps).log|
    requires Run(cfg, INITIAL, steps).log[d].Admission? && !Run(cfg, INITIAL, steps).log[d].allowed
    ensures WrittenBy(cfg, steps, n, d) && steps[n].Live?
    ensures var s := Run(cfg, INITIAL, steps[..n]);
            After1(cfg.(crypto := other), s, steps[n]) == After1(cfg, s, steps[n])
  {
    n := StepThatWrote(cfg, steps, d);
    var s := Run(cfg, INITIAL, steps[..n]);
    match steps[n]
    case Live(_, _, _, _) =>
      AsksFirst(cfg, s, steps[n], d);
      RefusedIsNotOpened(cfg, s, steps[n], other);
    case Batch(_, _, _, _) => BatchAdmitsNothing(cfg, s, steps[n]);
  }

  lemma AsksFirst(cfg: Config, s: State, step: Step, d: nat)
    requires step.Live? && |s.log| <= d < |After1(cfg, s, step).log| && After1(cfg, s, step).log[d].Admission?
    ensures d == |s.log|
  {
  }

  // ----- The books -----

  /** A chat whose books are opened is seeded with its durable ids, and with nothing else. */
  lemma {:induction false} SeededWithStored(b: Books, outcomes: seq<Outcome>, stored: ChatKeyId -> set<EventId>, d: nat)
    requires |b.log| <= d < |RecordAll(b, outcomes, stored).log| && RecordAll(b, outcomes, stored).log[d].Seeded?
    ensures var e := RecordAll(b, outcomes, stored).log[d];
            e.ids == stored(e.key) && exists i :: 0 <= i < |outcomes| && outcomes[i].tracked == Some(e.key)
  {
    var n := |outcomes| - 1;
    ReplayWrites(b, outcomes[..n], stored);
    var before := RecordAll(b, outcomes[..n], stored);
    if d < |before.log| {
      SeededWithStored(b, outcomes[..n], stored, d);
      var i :| 0 <= i < n && outcomes[..n][i].tracked == Some(before.log[d].key);
      assert outcomes[i].tracked == Some(before.log[d].key);
    }
  }

  /** In a run, every chat is seeded with the ids that were durable when its batch was handled. */
  lemma RunSeedsStored(cfg: Config, steps: seq<Step>, d: nat) returns (n: nat)
    requires d < |Run(cfg, INITIAL, steps).log| && Run(cfg, INITIAL, steps).log[d].Seeded?
    ensures WrittenBy(cfg, steps, n, d) && steps[n].Batch?
    ensures var e := Run(cfg, INITIAL, steps).log[d]; e.ids == steps[n].stored(e.key)
  {
    n := StepThatWrote(cfg, steps, d);
    var s := Run(cfg, INITIAL, steps[..n]);
    match steps[n]
    case Live(_, _, _, _) => LiveWrites(cfg, s, steps[n]);
    case Batch(_, _, _, _) => BatchSeedsStored(cfg, s, steps[n], d);
  }

  lemma BatchSeedsStored(cfg: Config, s: State, step: Step, d: nat)
    requires step.Batch? && |s.log| <= d < |After1(cfg, s, step).log| && After1(cfg, s, step).log[d].Seeded?
    ensures var e := After1(cfg, s, step).log[d]; e.ids == step.stored(e.key)
  {
    var outcomes := ApplyAll(cfg, s.targets, step.cmds).1;
    BackfillsWrite(cfg, BatchSubscribed(cfg, s, step.cmds, step.stored, step.resub), Pendings(outcomes), step.fetch);
    SeededWithStored(BooksOf(s), outcomes, step.stored, d);
  }

  // ----- In the order of the commands -----

  /** Backfills are scheduled in the order of the commands that asked for them. */
  lemma {:induction false} PendingsInOrder(a: seq<Outcome>, b: seq<Outcome>)
    ensures Pendings(a + b) == Pendings(a) + Pendings(b)
  {
    if b == [] {
      assert a + b == a;
    } else {
      var n := |b| - 1;
      assert (a + b)[..|a + b| - 1] == a + b[..n];
      PendingsInOrder(a, b[..n]);
    }
  }

  /** The answers from the `h`-th on. */
  function Behind(fetch: nat -> FetchEnv, h: nat): nat -> FetchEnv {
    (k: nat) => fetch(h + k)
  }

  lemma BackfillsPush(cfg: Config, s: State, pendings: seq<Pending>, p: Pending, fetch: nat -> FetchEnv)
    ensures HydrateAll(cfg, s, pendings + [p], fetch)
         == Hydrated(cfg, HydrateAll(cfg, s, pendings, fetch), p, fetch(|pendings|))
  {
    assert (pendings + [p])[..|pendings|] == pendings;
  }

  /** And carried out in that order: what the first ones write stands in the log in front of what the others do. */
  lemma {:induction false} BackfillsInOrder(cfg: Config, s: State, a: seq<Pending>, b: seq<Pending>,
                                            fetch: nat -> FetchEnv)
    ensures HydrateAll(cfg, s, a + b, fetch)
         == HydrateAll(cfg, HydrateAll(cfg, s, a, fetch), b, Behind(fetch, |a|))
  {
    if b == [] {
      assert a + b == a;
    } else {
      var m := |b| - 1;
      BackfillsInOrder(cfg, s, a, b[..m], fetch);
      OneMoreBackfill(cfg, s, HydrateAll(cfg, s, a, fetch), a, b[..m], b[m], fetch);
      assert a + (b[..m] + [b[m]]) == a + b && b[..m] + [b[m]] == b;
    }
  }

  lemma OneMoreBackfill(cfg: Config, s: State, first: State, a: seq<Pending>, b: seq<Pending>, p: Pending,
                        fetch: nat -> FetchEnv)
    requires HydrateAll(cfg, s, a + b, fetch) == HydrateAll(cfg, first, b, Behind(fetch, |a|))
    ensures HydrateAll(cfg, s, a + (b + [p]), fetch) == HydrateAll(cfg, first, b + [p], Behind(fetch, |a|))
  {
    assert a + (b + [p]) == a + b + [p];
    BackfillsPush(cfg, s, a + b, p, fetch);
    BackfillsPush(cfg, first, b, p, Behind(fetch, |a|));
  }
}
