/** The chat subscription router: one task that applies track/untrack commands in drained batches,
    rebuilds the live subscriptions, backfills history and filters live events
    (src/util/chat_listener.rs). */
module ChatRouter {

  import opened Wrappers
  import opened ChatTypes
  import opened ChatUtils
  import opened ChatSubscriptions
  import opened TokenBucket
  import opened OuterWindow

  datatype Config = Config(crypto: Crypto, acceptLegacy: bool)

  datatype Cmd =
    | Track(keyId: ChatKeyId, sharedKeyHex: string, localTradePubkey: Option<PublicKey>,
            allowedSigners: seq<PublicKey>, since: Option<int>)
    | Untrack(keyId: ChatKeyId)

  /** A command and the local clock when it is applied. */
  datatype Arrival = Arrival(cmd: Cmd, now: nat)

  datatype Pending = Pending(targetPubkey: PublicKey, sharedKeys: Secret, since: Option<int>)

  datatype Outcome = Outcome(
    needsResubscribe: bool, hydrate: Option<Pending>, tracked: Option<ChatKeyId>, untracked: Option<ChatKeyId>)

  const NO_CHANGE := Outcome(false, None, None, None)

  /** What the router did, in order. `Delivered` is a message handed to `emit_messages`; `Admission` is a
      question to the rate limiter, answered yes exactly when an unwrap was attempted. */
  datatype Entry =
    | Seeded(key: ChatKeyId, ids: set<EventId>)
    | Dropped(key: ChatKeyId)
    | Subscribed(signs: set<PublicKey>, ecdh: set<PublicKey>, giftAt: nat, kind14At: nat)
    | Fetched(pk: PublicKey, kind14Since: int, giftSince: int, at: nat)
    | Delivered(target: ChatTarget, msg: Decoded)
    | Admission(key: ChatKeyId, time: real, allowed: bool)

  type Targets = map<PublicKey, ChatTarget>

  datatype State = State(
    targets: Targets,
    outer: seq<EventId>,
    buckets: map<ChatKeyId, Bucket>,
    inner: map<ChatKeyId, set<EventId>>,
    subs: Subs,
    client: Client,
    log: seq<Entry>)

  const INITIAL := State(map[], [], map[], map[], Subs(None, None), Client(map[], 0, []), [])

  // ----- Commands -----

  /** One command: the new tracked set, and what is left to do about it. */
  function ApplyCmd(cfg: Config, targets: Targets, a: Arrival): (Targets, Outcome) {
    match a.cmd
    case Track(keyId, hex, local, allowed, since) =>
      var secret := cfg.crypto.fromHex(hex);
      if allowed == [] || secret.None? || cfg.crypto.signKey(secret.value).None? then (targets, NO_CHANGE)
      else
        var pk := cfg.crypto.publicKey(secret.value);
        if pk in targets && targets[pk].keyId == keyId then (targets, NO_CHANGE)
        else
          var cursor := match since case None => None case Some(ts) => Some(ClampSince(ts, a.now));
          (targets[pk := ChatTarget(keyId, secret.value, cfg.crypto.signKey(secret.value).value, local, allowed)],
           Outcome(true, Some(Pending(pk, secret.value, cursor)), Some(keyId), None))
    case Untrack(keyId) =>
      var kept := map pk | pk in targets && targets[pk].keyId != keyId :: targets[pk];
      if kept == targets then (targets, NO_CHANGE)
      else (kept, Outcome(true, None, None, Some(keyId)))
  }

  function ApplyAll(cfg: Config, targets: Targets, cmds: seq<Arrival>): (Targets, seq<Outcome>) {
    if cmds == [] then (targets, [])
    else
      var n := |cmds| - 1;
      var (before, outcomes) := ApplyAll(cfg, targets, cmds[..n]);
      var (after, outcome) := ApplyCmd(cfg, before, cmds[n]);
      (after, outcomes + [outcome])
  }

  // ----- Bookkeeping, replayed after all commands of the batch were applied -----

  datatype Books = Books(buckets: map<ChatKeyId, Bucket>, inner: map<ChatKeyId, set<EventId>>, log: seq<Entry>)

  function SeedBooks(b: Books, key: ChatKeyId, ids: set<EventId>): Books {
    if key in b.inner then b else Books(b.buckets, b.inner[key := ids], b.log + [Seeded(key, ids)])
  }

  function DropBooks(b: Books, key: ChatKeyId): Books {
    Books(b.buckets - {key}, b.inner - {key}, b.log + [Dropped(key)])
  }

  function Record(b: Books, o: Outcome, stored: ChatKeyId -> set<EventId>): Books {
    var seeded := if o.tracked.Some? then SeedBooks(b, o.tracked.value, stored(o.tracked.value)) else b;
    if o.untracked.Some? then DropBooks(seeded, o.untracked.value) else seeded
  }

  function RecordAll(b: Books, outcomes: seq<Outcome>, stored: ChatKeyId -> set<EventId>): Books {
    if outcomes == [] then b
    else Record(RecordAll(b, outcomes[..|outcomes| - 1], stored), outcomes[|outcomes| - 1], stored)
  }

  predicate NeedsResubscribe(outcomes: seq<Outcome>) {
    exists i :: 0 <= i < |outcomes| && outcomes[i].needsResubscribe
  }

  function Pendings(outcomes: seq<Outcome>): seq<Pending> {
    if outcomes == [] then []
    else
      var n := |outcomes| - 1;
      Pendings(outcomes[..n]) + if outcomes[n].hydrate.Some? then [outcomes[n].hydrate.value] else []
  }

  function Resubscribed(cfg: Config, s: State, env: ResubEnv): State {
    var r := Rebuild(s.targets, s.subs, s.client, cfg.acceptLegacy, env);
    s.(subs := r.subs, client := r.client,
       log := if r.ok && s.targets != map[]
              then s.log + [Subscribed(SignKeys(s.targets), s.targets.Keys, env.giftAt, env.kind14At)]
              else s.log)
  }

  // ----- Delivery -----

  /** The inner ids known for a chat. */
  function KnownTo(s: State, key: ChatKeyId): set<EventId> {
    if key in s.inner then s.inner[key] else {}
  }

  /** Makes sure the chat has an inner-id set. */
  function Touched(s: State, key: ChatKeyId): State {
    s.(inner := s.inner[key := KnownTo(s, key)])
  }

  /** Hands a message on unless its inner id is known. */
  function Deliver(s: State, t: ChatTarget, m: Decoded): State {
    var known := KnownTo(s, t.keyId);
    if m.innerId in known then Touched(s, t.keyId)
    else s.(inner := s.inner[t.keyId := known + {m.innerId}], log := s.log + [Delivered(t, m)])
  }

  /** Hands on the messages dated at or after the cutoff. */
  function DeliverAll(s: State, t: ChatTarget, messages: seq<Decoded>, cutoff: int): State {
    if messages == [] then s
    else
      var n := |messages| - 1;
      var before := DeliverAll(s, t, messages[..n], cutoff);
      if messages[n].timestamp < cutoff then before else Deliver(before, t, messages[n])
  }

  function GiftSince(now: nat): int {
    if LookbackFloor(now) < 0 then 0 else LookbackFloor(now)
  }

  function Cutoff(p: Pending): int {
    match p.since case None => 0 case Some(ts) => ts
  }

  function Hydrated(cfg: Config, s: State, p: Pending, env: FetchEnv): State {
    if p.targetPubkey !in s.targets then s
    else
      var t := s.targets[p.targetPubkey];
      var e := Fetched(p.targetPubkey, WindowStart(p.since, env.now), GiftSince(env.now), env.at);
      var asked := s.(log := s.log + [e]);
      match FetchedMessages(cfg.crypto, p.sharedKeys, t.allowedSigners, cfg.acceptLegacy, env)
      case Failure(_) => asked
      case Success(messages) => DeliverAll(Touched(asked, t.keyId), t, messages, Cutoff(p))
  }

  function HydrateAll(cfg: Config, s: State, pendings: seq<Pending>, fetch: nat -> FetchEnv): State {
    if pendings == [] then s
    else
      var n := |pendings| - 1;
      Hydrated(cfg, HydrateAll(cfg, s, pendings[..n], fetch), pendings[n], fetch(n))
  }

  // ----- Routing -----

  /** The first target, in the iteration order of the map, that signs with this author key. */
  function FirstByAuthor(targets: Targets, order: seq<PublicKey>, author: PublicKey): Option<ChatTarget> {
    if order == [] then None
    else if order[0] in targets && targets[order[0]].signPubkey == author then Some(targets[order[0]])
    else FirstByAuthor(targets, order[1..], author)
  }

  function Resolve(targets: Targets, order: seq<PublicKey>, event: Event, acceptLegacy: bool): Option<ChatTarget> {
    match event.kind
    case GiftWrap =>
      if acceptLegacy && event.pTags != [] then Lookup(targets, event.pTags[0]) else None
    case PrivateDirectMessage => FirstByAuthor(targets, order, event.author)
    case OtherKind => None
  }

  // ----- Steps -----

  /** One turn of the task's loop, with everything the environment decides: the drained commands, the
      durable inner ids, which subscribes and fetches succeed, the clocks, the order in which the map of
      targets is iterated. */
  datatype Step =
    | Batch(cmds: seq<Arrival>, stored: ChatKeyId -> set<EventId>, resub: ResubEnv, fetch: nat -> FetchEnv)
    | Live(event: Event, order: seq<PublicKey>, time: real, now: int)

  /** The state of a batch before any history is fetched. */
  function BatchSubscribed(cfg: Config, s: State, cmds: seq<Arrival>, stored: ChatKeyId -> set<EventId>,
                           resub: ResubEnv): State
  {
    var (targets, outcomes) := ApplyAll(cfg, s.targets, cmds);
    var books := RecordAll(Books(s.buckets, s.inner, s.log), outcomes, stored);
    var booked := s.(targets := targets, buckets := books.buckets, inner := books.inner, log := books.log);
    if NeedsResubscribe(outcomes) then Resubscribed(cfg, booked, resub) else booked
  }

  function AfterBatch(cfg: Config, s: State, cmds: seq<Arrival>, stored: ChatKeyId -> set<EventId>,
                      resub: ResubEnv, fetch: nat -> FetchEnv): State
  {
    HydrateAll(cfg, BatchSubscribed(cfg, s, cmds, stored, resub), Pendings(ApplyAll(cfg, s.targets, cmds).1), fetch)
  }

  /** A live event once it is routed to `t` and not a recent duplicate. */
  function Admit(cfg: Config, s: State, event: Event, t: ChatTarget, time: real, now: int): State {
    var bucket := BucketOf(s.buckets, t.keyId, time);
    var asked := s.(outer := Pushed(s.outer, SEEN_OUTER_CAP, event.id),
                    buckets := s.buckets[t.keyId := Next(bucket, time)],
                    log := s.log + [Admission(t.keyId, time, Allows(bucket, time))]);
    if !Allows(bucket, time) then asked
    else match Unwrap(cfg.crypto, t.sharedKeys, event, t.allowedSigners, cfg.acceptLegacy, now)
      case Failure(_) => asked
      case Success(m) => Deliver(asked, t, m)
  }

  function AfterLive(cfg: Config, s: State, event: Event, order: seq<PublicKey>, time: real, now: int): State {
    match Resolve(s.targets, order, event, cfg.acceptLegacy)
    case None => s
    case Some(t) => if event.id in s.outer then s else Admit(cfg, s, event, t, time, now)
  }

  function After1(cfg: Config, s: State, step: Step): State {
    match step
    case Batch(cmds, stored, resub, fetch) => AfterBatch(cfg, s, cmds, stored, resub, fetch)
    case Live(event, order, time, now) => AfterLive(cfg, s, event, order, time, now)
  }

  function Run(cfg: Config, s: State, steps: seq<Step>): State {
    if steps == [] then s else After1(cfg, Run(cfg, s, steps[..|steps| - 1]), steps[|steps| - 1])
  }

  // ----- The program -----

  class ChatRouterTask {
    const cfg: Config
    const subs: LiveSubs
    const client: RelayClient
    const outer: OuterIdLru<EventId>
    const limiters: ChatRateLimiters<ChatKeyId>
    var targets: Targets
    var inner: map<ChatKeyId, set<EventId>>
    var log: seq<Entry>

    ghost predicate Valid()
      reads this, outer
    {
      outer.Valid() && outer.cap == SEEN_OUTER_CAP
    }

    function View(): State
      reads this, subs, client, outer, limiters
    {
      State(targets, outer.order, limiters.buckets, inner, subs.View(), client.View(), log)
    }

    constructor (cfg: Config)
      ensures Valid() && View() == INITIAL && this.cfg == cfg
      ensures fresh(subs) && fresh(client) && fresh(outer) && fresh(limiters)
    {
      this.cfg := cfg;
      subs := new LiveSubs();
      client := new RelayClient();
      outer := new OuterIdLru<EventId>(SEEN_OUTER_CAP);
      limiters := new ChatRateLimiters<ChatKeyId>();
      targets, inner, log := map[], map[], [];
    }

    method ApplyRouterCmd(a: Arrival) returns (o: Outcome)
      modifies this`targets
      ensures (targets, o) == ApplyCmd(cfg, old(targets), a)
    {
      match a.cmd {
        case Track(keyId, hex, local, allowed, since) =>
          if allowed == [] {
            return NO_CHANGE;
          }
          var secret := cfg.crypto.fromHex(hex);
          if secret.None? {
            return NO_CHANGE;
          }
          var sign := cfg.crypto.signKey(secret.value);
          if sign.None? {
            return NO_CHANGE;
          }
          var pk := cfg.crypto.publicKey(secret.value);
          if pk in targets && targets[pk].keyId == keyId {
            return NO_CHANGE;
          }
          var cursor := match since case None => None case Some(ts) => Some(ClampSince(ts, a.now));
          targets := targets[pk := ChatTarget(keyId, secret.value, sign.value, local, allowed)];
          o := Outcome(true, Some(Pending(pk, secret.value, cursor)), Some(keyId), None);
        case Untrack(keyId) =>
          var before := targets;
          targets := map pk | pk in before && before[pk].keyId != keyId :: before[pk];
          o := if targets == before then NO_CHANGE else Outcome(true, None, None, Some(keyId));
      }
    }

    method RecordOutcome(o: Outcome, stored: ChatKeyId -> set<EventId>)
      modifies this`inner, this`log, limiters
      ensures Books(limiters.buckets, inner, log) == Record(old(Books(limiters.buckets, inner, log)), o, stored)
    {
      if o.tracked.Some? && o.tracked.value !in inner {
        inner := inner[o.tracked.value := stored(o.tracked.value)];
        log := log + [Seeded(o.tracked.value, stored(o.tracked.value))];
      }
      if o.untracked.Some? {
        limiters.Remove(o.untracked.value);
        inner := inner - {o.untracked.value};
        log := log + [Dropped(o.untracked.value)];
      }
    }

    method DeliverMessage(t: ChatTarget, m: Decoded)
      modifies this`inner, this`log
      ensures View() == Deliver(old(View()), t, m)
    {
      var known := if t.keyId in inner then inner[t.keyId] else {};
      if m.innerId in known {
        inner := inner[t.keyId := known];
      } else {
        inner := inner[t.keyId := known + {m.innerId}];
        log := log + [Delivered(t, m)];
      }
    }

    method HydrateHistory(p: Pending, env: FetchEnv)
      modifies this`inner, this`log
      ensures View() == Hydrated(cfg, old(View()), p, env)
    {
      if p.targetPubkey !in targets {
        return;
      }
      var t := targets[p.targetPubkey];
      log := log + [Fetched(p.targetPubkey, WindowStart(p.since, env.now), GiftSince(env.now), env.at)];
      var fetched := FetchChatMessages(cfg.crypto, p.sharedKeys, t.allowedSigners, cfg.acceptLegacy, env);
      match fetched {
        case Failure(_) =>
        case Success(messages) =>
          var cutoff := Cutoff(p);
          inner := inner[t.keyId := if t.keyId in inner then inner[t.keyId] else {}];
          ghost var start := View();
          for k := 0 to |messages|
            invariant View() == DeliverAll(start, t, messages[..k], cutoff)
          {
            assert messages[..k + 1][..k] == messages[..k];
            if messages[k].timestamp >= cutoff {
              DeliverMessage(t, messages[k]);
            }
          }
          assert messages[..|messages|] == messages;
      }
    }

    /** Handles every command that was waiting: apply all, replay the bookkeeping, subscribe once, and
        only then backfill. */
    method HandleBatch(cmds: seq<Arrival>, stored: ChatKeyId -> set<EventId>, env: ResubEnv, fetch: nat -> FetchEnv)
      requires Valid()
      modifies this, subs, client, limiters
      ensures Valid()
      ensures View() == AfterBatch(cfg, old(View()), cmds, stored, env, fetch)
    {
      var outcomes := ApplyEach(cmds);
      var needsResubscribe, pendings := RecordEach(outcomes, stored);
      if needsResubscribe {
        var ok := subs.Resubscribe(client, targets, cfg.acceptLegacy, env);
        if ok && targets != map[] {
          log := log + [Subscribed(SignKeys(targets), targets.Keys, env.giftAt, env.kind14At)];
        }
      }
      HydrateEach(pendings, fetch);
    }

    method HydrateEach(pendings: seq<Pending>, fetch: nat -> FetchEnv)
      requires Valid()
      modifies this`inner, this`log
      ensures Valid()
      ensures View() == HydrateAll(cfg, old(View()), pendings, fetch)
    {
      for k := 0 to |pendings|
        invariant Valid() && View() == HydrateAll(cfg, old(View()), pendings[..k], fetch)
      {
        assert pendings[..k + 1][..k] == pendings[..k];
        HydrateHistory(pendings[k], fetch(k));
      }
      assert pendings[..|pendings|] == pendings;
    }

    method ApplyEach(cmds: seq<Arrival>) returns (outcomes: seq<Outcome>)
      modifies this`targets
      ensures (targets, outcomes) == ApplyAll(cfg, old(targets), cmds)
    {
      outcomes := [];
      for k := 0 to |cmds|
        invariant (targets, outcomes) == ApplyAll(cfg, old(targets), cmds[..k])
      {
        assert cmds[..k + 1][..k] == cmds[..k];
        var o := ApplyRouterCmd(cmds[k]);
        outcomes := outcomes + [o];
      }
      assert cmds[..|cmds|] == cmds;
    }

    method RecordEach(outcomes: seq<Outcome>, stored: ChatKeyId -> set<EventId>)
      returns (needsResubscribe: bool, pendings: seq<Pending>)
      modifies this`inner, this`log, limiters
      ensures Books(limiters.buckets, inner, log)
           == RecordAll(old(Books(limiters.buckets, inner, log)), outcomes, stored)
      ensures needsResubscribe == NeedsResubscribe(outcomes)
      ensures pendings == Pendings(outcomes)
    {
      needsResubscribe, pendings := false, [];
      for k := 0 to |outcomes|
        invariant Books(limiters.buckets, inner, log)
               == RecordAll(old(Books(limiters.buckets, inner, log)), outcomes[..k], stored)
        invariant needsResubscribe == NeedsResubscribe(outcomes[..k])
        invariant pendings == Pendings(outcomes[..k])
      {
        assert outcomes[..k + 1][..k] == outcomes[..k];
        NeedsResubscribeOfAppend(outcomes[..k], outcomes[k]);
        assert outcomes[..k + 1] == outcomes[..k] + [outcomes[k]];
        needsResubscribe := needsResubscribe || outcomes[k].needsResubscribe;
        pendings := pendings + if outcomes[k].hydrate.Some? then [outcomes[k].hydrate.value] else [];
        RecordOutcome(outcomes[k], stored);
      }
      assert outcomes[..|outcomes|] == outcomes;
    }

    method ResolveTarget(event: Event, order: seq<PublicKey>) returns (t: Option<ChatTarget>)
      ensures t == Resolve(targets, order, event, cfg.acceptLegacy)
    {
      match event.kind {
        case GiftWrap =>
          t := if cfg.acceptLegacy && event.pTags != [] then Lookup(targets, event.pTags[0]) else None;
        case OtherKind => t := None;
        case PrivateDirectMessage =>
          for k := 0 to |order|
            invariant FirstByAuthor(targets, order, event.author) == FirstByAuthor(targets, order[k..], event.author)
          {
            if order[k] in targets && targets[order[k]].signPubkey == event.author {
              return Some(targets[order[k]]);
            }
            assert order[k..][1..] == order[k + 1..];
          }
          t := None;
      }
    }

    /** One live event: route, outer window, rate limit, unwrap, inner-id set, emit. */
    method HandleEvent(event: Event, order: seq<PublicKey>, time: real, now: int)
      requires Valid()
      modifies this`inner, this`log, outer, limiters
      ensures Valid()
      ensures View() == AfterLive(cfg, old(View()), event, order, time, now)
    {
      var target := ResolveTarget(event, order);
      if target.None? {
        return;
      }
      var t := target.value;
      var isNew := outer.Insert(event.id);
      if !isNew {
        return;
      }
      var allowed := limiters.Allow(t.keyId, time);
      log := log + [Admission(t.keyId, time, allowed)];
      if !allowed {
        return;
      }
      match Unwrap(cfg.crypto, t.sharedKeys, event, t.allowedSigners, cfg.acceptLegacy, now) {
        case Failure(_) =>
        case Success(m) => DeliverMessage(t, m);
      }
    }
  }

  lemma NeedsResubscribeOfAppend(outcomes: seq<Outcome>, o: Outcome)
    ensures NeedsResubscribe(outcomes + [o]) <==> NeedsResubscribe(outcomes) || o.needsResubscribe
  {
    var all := outcomes + [o];
    if NeedsResubscribe(outcomes) {
      var i :| 0 <= i < |outcomes| && outcomes[i].needsResubscribe;
      assert all[i].needsResubscribe;
    }
    if o.needsResubscribe {
      assert all[|outcomes|].needsResubscribe;
    }
  }
}
