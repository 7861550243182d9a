/** What every run of the router keeps. */
module ChatRouterProofs {

  import opened Wrappers
  import opened ChatTypes
  import opened ChatUtils
  import opened ChatSubscriptions
  import opened TokenBucket
  import opened OuterWindow
  import opened ChatRouter
  import opened ChatLog

  // ----- The invariant -----

  /** Every target sits under the public key of its secret, signs with the key derived from it, and has a
      non-empty allow-list. */
  ghost predicate TargetsOk(cfg: Config, targets: Targets) {
    forall pk :: pk in targets ==>
      && cfg.crypto.publicKey(targets[pk].sharedKeys) == pk
      && cfg.crypto.signKey(targets[pk].sharedKeys) == Some(targets[pk].signPubkey)
      && targets[pk].allowedSigners != []
  }

  ghost predicate HasInnerSets(targets: Targets, inner: map<ChatKeyId, set<EventId>>) {
    forall pk :: pk in targets ==> targets[pk].keyId in inner
  }

  /** The in-memory inner ids are the ones the log implies. */
  ghost predicate InnerAgrees(inner: map<ChatKeyId, set<EventId>>, log: seq<Entry>) {
    forall key :: Lookup(inner, key) == Known(log, key)
  }

  ghost predicate AllRunAlone(buckets: map<ChatKeyId, Bucket>, log: seq<Entry>) {
    forall key :: RunsAlone(buckets, log, key)
  }

  /** Every message handed on came from a signer its target allows. */
  predicate SendersAllowed(log: seq<Entry>) {
    forall j :: 0 <= j < |log| && log[j].Delivered? ==> log[j].msg.sender in log[j].target.allowedSigners
  }

  ghost predicate BooksOk(b: Books) {
    InnerAgrees(b.inner, b.log) && Legal(b.log) && AllRunAlone(b.buckets, b.log) && SendersAllowed(b.log)
  }

  function BooksOf(s: State): Books {
    Books(s.buckets, s.inner, s.log)
  }

  ghost predicate Inv(cfg: Config, s: State) {
    && TargetsOk(cfg, s.targets)
    && HasInnerSets(s.targets, s.inner)
    && BooksOk(BooksOf(s))
    && ValidClient(s.client, s.subs)
    && NoDup(s.outer) && |s.outer| <= SEEN_OUTER_CAP
  }

  // ----- Log entries and the books -----

  /** An entry that concerns neither the inner ids nor the limiter. */
  predicate Silent(e: Entry) {
    e.Subscribed? || e.Fetched?
  }

  lemma SilentKeepsBooks(b: Books, e: Entry)
    requires BooksOk(b) && Silent(e)
    ensures BooksOk(Books(b.buckets, b.inner, b.log + [e]))
  {
    var log := b.log + [e];
    assert log[..|b.log|] == b.log;
    LegalAppend(b.log, e);
    forall key
      ensures Lookup(b.inner, key) == Known(log, key)
    {
      KnownAppend(b.log, e, key);
    }
    forall key
      ensures RunsAlone(b.buckets, log, key)
    {
      assert RunsAlone(b.buckets, b.log, key);
    }
  }

  /** Entries about inner ids leave the limiter's account of every chat alone, unless they drop it. */
  lemma RunsAloneKept(b: Books, e: Entry)
    requires AllRunAlone(b.buckets, b.log) && (e.Seeded? || e.Delivered?)
    ensures AllRunAlone(b.buckets, b.log + [e])
  {
    assert (b.log + [e])[..|b.log|] == b.log;
    forall key
      ensures RunsAlone(b.buckets, b.log + [e], key)
    {
      assert RunsAlone(b.buckets, b.log, key);
    }
  }

  lemma SeedKeepsBooks(b: Books, key: ChatKeyId, ids: set<EventId>)
    requires BooksOk(b)
    ensures BooksOk(SeedBooks(b, key, ids))
    ensures SeedBooks(b, key, ids).inner.Keys == b.inner.Keys + {key}
  {
    if key !in b.inner {
      var e := Seeded(key, ids);
      assert Lookup(b.inner, key) == Known(b.log, key);
      LegalAppend(b.log, e);
      RunsAloneKept(b, e);
      forall k
        ensures Lookup(b.inner[key := ids], k) == Known(b.log + [e], k)
      {
        KnownAppend(b.log, e, k);
        assert Lookup(b.inner, k) == Known(b.log, k);
      }
    }
  }

  lemma DropKeepsBooks(b: Books, key: ChatKeyId)
    requires BooksOk(b)
    ensures BooksOk(DropBooks(b, key))
  {
    var e := Dropped(key);
    var d := DropBooks(b, key);
    assert d.log[..|b.log|] == b.log;
    LegalAppend(b.log, e);
    forall k
      ensures Lookup(d.inner, k) == Known(d.log, k)
    {
      KnownAppend(b.log, e, k);
      assert Lookup(b.inner, k) == Known(b.log, k);
    }
    forall k
      ensures RunsAlone(d.buckets, d.log, k)
    {
      assert RunsAlone(b.buckets, b.log, k);
    }
  }

  lemma DeliverKeepsBooks(s: State, t: ChatTarget, m: Decoded)
    requires BooksOk(BooksOf(s)) && t.keyId in s.inner && m.sender in t.allowedSigners
    ensures BooksOk(BooksOf(Deliver(s, t, m)))
    ensures m.innerId in KnownTo(Deliver(s, t, m), t.keyId)
  {
    assert Lookup(s.inner, t.keyId) == Known(s.log, t.keyId);
    if m.innerId in KnownTo(s, t.keyId) {
      assert s.inner[t.keyId := KnownTo(s, t.keyId)] == s.inner;
    } else {
      var e := Delivered(t, m);
      LegalAppend(s.log, e);
      RunsAloneKept(BooksOf(s), e);
      var s' := Deliver(s, t, m);
      forall k
        ensures Lookup(s'.inner, k) == Known(s'.log, k)
      {
        KnownAppend(s.log, e, k);
        assert Lookup(s.inner, k) == Known(s.log, k);
      }
    }
  }

  /** The books after the limiter was asked about `key`. */
  function AskBooks(b: Books, key: ChatKeyId, time: real): Books {
    var bucket := BucketOf(b.buckets, key, time);
    Books(b.buckets[key := Next(bucket, time)], b.inner, b.log + [Admission(key, time, Allows(bucket, time))])
  }

  /** Serving one more request leaves the earlier answers as they were. */
  lemma OneMoreRequest(b: Bucket, times: seq<real>, time: real)
    ensures After(b, times + [time]) == Next(After(b, times), time)
    ensures Answer(b, times + [time], |times|) == Allows(After(b, times), time)
    ensures forall k: nat :: k < |times| ==> Answer(b, times + [time], k) == Answer(b, times, k)
  {
    var all := times + [time];
    assert all[..|times|] == times;
    forall k: nat | k < |times|
      ensures Answer(b, all, k) == Answer(b, times, k)
    {
      assert all[..k] == times[..k];
    }
  }

  lemma AskKeepsOwnAccount(b: Books, key: ChatKeyId, time: real)
    requires RunsAlone(b.buckets, b.log, key)
    ensures RunsAlone(AskBooks(b, key, time).buckets, AskBooks(b, key, time).log, key)
  {
    var a := AskBooks(b, key, time);
    assert a.log[..|b.log|] == b.log;
    var times := Asked(b.log, key);
    OneMoreRequest(Fresh(if times == [] then time else times[0]), times, time);
    assert (times + [time])[0] == if times == [] then time else times[0];
  }

  lemma AskKeepsBooks(b: Books, key: ChatKeyId, time: real)
    requires BooksOk(b)
    ensures BooksOk(AskBooks(b, key, time))
  {
    var a := AskBooks(b, key, time);
    var e := a.log[|b.log|];
    assert a.log[..|b.log|] == b.log;
    LegalAppend(b.log, e);
    forall k
      ensures Lookup(a.inner, k) == Known(a.log, k)
    {
      KnownAppend(b.log, e, k);
      assert Lookup(b.inner, k) == Known(b.log, k);
    }
    forall k
      ensures RunsAlone(a.buckets, a.log, k)
    {
      assert RunsAlone(b.buckets, b.log, k);
      if k == key {
        AskKeepsOwnAccount(b, key, time);
      }
    }
  }

  // ----- Batches -----

  lemma ApplyKeepsTargets(cfg: Config, targets: Targets, a: Arrival)
    requires TargetsOk(cfg, targets)
    ensures TargetsOk(cfg, ApplyCmd(cfg, targets, a).0)
  {
  }

  /** The outcome tells the bookkeeping what it has to know about the change to the tracked set. */
  lemma ApplyOutcome(cfg: Config, targets: Targets, a: Arrival)
    ensures var (after, o) := ApplyCmd(cfg, targets, a);
            && (!o.needsResubscribe ==> after == targets && o == NO_CHANGE)
            && (o.tracked.Some? ==> o.untracked.None?)
            && (o.untracked.Some? ==> a.cmd == Untrack(o.untracked.value))
            && (forall pk :: pk in after ==>
                  || (o.tracked == Some(after[pk].keyId))
                  || (pk in targets && targets[pk] == after[pk] && o.untracked != Some(after[pk].keyId)))
  {
  }

  lemma RecordKeepsBooks(b: Books, o: Outcome, stored: ChatKeyId -> set<EventId>)
    requires BooksOk(b)
    ensures BooksOk(Record(b, o, stored))
    ensures o.untracked.None? ==> b.inner.Keys <= Record(b, o, stored).inner.Keys
    ensures o.untracked.Some? && o.tracked.None? ==>
              Record(b, o, stored).inner.Keys == b.inner.Keys - {o.untracked.value}
    ensures o.tracked.Some? && o.untracked.None? ==> o.tracked.value in Record(b, o, stored).inner
  {
    var seeded := if o.tracked.Some? then SeedBooks(b, o.tracked.value, stored(o.tracked.value)) else b;
    if o.tracked.Some? {
      SeedKeepsBooks(b, o.tracked.value, stored(o.tracked.value));
    }
    if o.untracked.Some? {
      DropKeepsBooks(seeded, o.untracked.value);
    }
  }

  /** Replaying the outcomes after all commands were applied leaves every tracked chat with its inner-id set,
      in whatever order chats were tracked, untracked and tracked again. */
  lemma {:induction false} ReplayKeepsBooks(cfg: Config, targets: Targets, b: Books, cmds: seq<Arrival>,
                                            stored: ChatKeyId -> set<EventId>)
    requires TargetsOk(cfg, targets) && HasInnerSets(targets, b.inner) && BooksOk(b)
    ensures var (after, outcomes) := ApplyAll(cfg, targets, cmds);
            var books := RecordAll(b, outcomes, stored);
            TargetsOk(cfg, after) && HasInnerSets(after, books.inner) && BooksOk(books)
  {
    if cmds != [] {
      var n := |cmds| - 1;
      ReplayKeepsBooks(cfg, targets, b, cmds[..n], stored);
      var (before, outcomes) := ApplyAll(cfg, targets, cmds[..n]);
      var (after, o) := ApplyCmd(cfg, before, cmds[n]);
      var books := RecordAll(b, outcomes, stored);
      assert (outcomes + [o])[..|outcomes|] == outcomes;
      ApplyKeepsTargets(cfg, before, cmds[n]);
      ApplyOutcome(cfg, before, cmds[n]);
      RecordKeepsBooks(books, o, stored);
    }
  }

  lemma {:induction false} DeliverAllKeepsBooks(s: State, t: ChatTarget, messages: seq<Decoded>, cutoff: int)
    requires BooksOk(BooksOf(s)) && t.keyId in s.inner
    requires forall m :: m in messages ==> m.sender in t.allowedSigners
    ensures var s' := DeliverAll(s, t, messages, cutoff);
            BooksOk(BooksOf(s')) && s'.inner.Keys == s.inner.Keys && SameOutside(s, s')
  {
    if messages != [] {
      var n := |messages| - 1;
      DeliverAllKeepsBooks(s, t, messages[..n], cutoff);
      if messages[n].timestamp >= cutoff {
        DeliverKeepsBooks(DeliverAll(s, t, messages[..n], cutoff), t, messages[n]);
      }
    }
  }

  /** Only the inner ids and the log may differ. */
  predicate SameOutside(s: State, s': State) {
    && s'.targets == s.targets && s'.outer == s.outer && s'.buckets == s.buckets && s'.subs == s.subs
    && s'.client == s.client
  }

  lemma FetchedAllowed(c: Crypto, secret: Secret, allowed: seq<PublicKey>, acceptLegacy: bool, env: FetchEnv)
    requires c.ChecksSigner()
    ensures var r := FetchedMessages(c, secret, allowed, acceptLegacy, env);
            r.Success? ==> forall m :: m in r.value ==> m.sender in allowed
  {
    var r := FetchedMessages(c, secret, allowed, acceptLegacy, env);
    if r.Success? {
      var events := (if acceptLegacy then MergedReply(env.kind14, env.legacy) else env.kind14).value;
      var messages := UnwrapAll(c, secret, events, allowed, acceptLegacy, env.clock);
      SortByTimeSorts(messages);
      forall m | m in r.value
        ensures m.sender in allowed
      {
        assert m in multiset(r.value);
        UnwrapAllAllowed(c, secret, events, allowed, acceptLegacy, env.clock, m);
      }
    }
  }

  lemma HydrateKeepsInv(cfg: Config, s: State, p: Pending, env: FetchEnv)
    requires Inv(cfg, s) && cfg.crypto.ChecksSigner()
    ensures Inv(cfg, Hydrated(cfg, s, p, env)) && SameOutside(s, Hydrated(cfg, s, p, env))
  {
    if p.targetPubkey in s.targets {
      var t := s.targets[p.targetPubkey];
      var e := Fetched(p.targetPubkey, WindowStart(p.since, env.now), GiftSince(env.now), env.at);
      var asked := s.(log := s.log + [e]);
      SilentKeepsBooks(BooksOf(s), e);
      var r := FetchedMessages(cfg.crypto, p.sharedKeys, t.allowedSigners, cfg.acceptLegacy, env);
      if r.Success? {
        assert Touched(asked, t.keyId).inner == asked.inner;
        FetchedAllowed(cfg.crypto, p.sharedKeys, t.allowedSigners, cfg.acceptLegacy, env);
        DeliverAllKeepsBooks(Touched(asked, t.keyId), t, r.value, Cutoff(p));
      }
    }
  }

  lemma {:induction false} HydrateAllKeepsInv(cfg: Config, s: State, pendings: seq<Pending>, fetch: nat -> FetchEnv)
    requires Inv(cfg, s) && cfg.crypto.ChecksSigner()
    ensures Inv(cfg, HydrateAll(cfg, s, pendings, fetch)) && SameOutside(s, HydrateAll(cfg, s, pendings, fetch))
  {
    if pendings != [] {
      var n := |pendings| - 1;
      HydrateAllKeepsInv(cfg, s, pendings[..n], fetch);
      HydrateKeepsInv(cfg, HydrateAll(cfg, s, pendings[..n], fetch), pendings[n], fetch(n));
    }
  }

  lemma SubscribedKeepsInv(cfg: Config, s: State, cmds: seq<Arrival>, stored: ChatKeyId -> set<EventId>,
                           resub: ResubEnv)
    requires Inv(cfg, s)
    ensures Inv(cfg, BatchSubscribed(cfg, s, cmds, stored, resub))
    ensures BatchSubscribed(cfg, s, cmds, stored, resub).targets == ApplyAll(cfg, s.targets, cmds).0
  {
    ReplayKeepsBooks(cfg, s.targets, BooksOf(s), cmds, stored);
    var (targets, outcomes) := ApplyAll(cfg, s.targets, cmds);
    var books := RecordAll(BooksOf(s), outcomes, stored);
    var booked := s.(targets := targets, buckets := books.buckets, inner := books.inner, log := books.log);
    assert BooksOf(booked) == books;
    ResubscribedKeepsInv(cfg, booked, resub);
  }

  lemma ResubscribedKeepsInv(cfg: Config, s: State, resub: ResubEnv)
    requires Inv(cfg, s)
    ensures Inv(cfg, Resubscribed(cfg, s, resub)) && Resubscribed(cfg, s, resub).targets == s.targets
  {
    RebuildKeepsValid(s.targets, s.subs, s.client, cfg.acceptLegacy, resub);
    SilentKeepsBooks(BooksOf(s), Subscribed(SignKeys(s.targets), s.targets.Keys, resub.giftAt, resub.kind14At));
  }

  // ----- Live events -----

  lemma {:induction false} FirstByAuthorFound(targets: Targets, order: seq<PublicKey>, author: PublicKey)
    ensures var r := FirstByAuthor(targets, order, author);
            r.Some? ==> exists pk :: pk in targets && targets[pk] == r.value && r.value.signPubkey == author
  {
    if order != [] && !(order[0] in targets && targets[order[0]].signPubkey == author) {
      FirstByAuthorFound(targets, order[1..], author);
    }
  }

  /** Whatever an event is routed to is a tracked target. */
  lemma ResolveFindsTarget(targets: Targets, order: seq<PublicKey>, event: Event, acceptLegacy: bool)
    ensures var r := Resolve(targets, order, event, acceptLegacy);
            r.Some? ==> exists pk :: pk in targets && targets[pk] == r.value
  {
    if event.kind == PrivateDirectMessage {
      FirstByAuthorFound(targets, order, event.author);
    }
  }

  lemma AdmitKeepsInv(cfg: Config, s: State, event: Event, t: ChatTarget, time: real, now: int)
    requires Inv(cfg, s) && cfg.crypto.ChecksSigner()
    requires t.keyId in s.inner
    ensures Inv(cfg, Admit(cfg, s, event, t, time, now))
    ensures Admit(cfg, s, event, t, time, now).targets == s.targets
  {
    AskKeepsBooks(BooksOf(s), t.keyId, time);
    var bucket := BucketOf(s.buckets, t.keyId, time);
    var asked := s.(outer := Pushed(s.outer, SEEN_OUTER_CAP, event.id),
                    buckets := s.buckets[t.keyId := Next(bucket, time)],
                    log := s.log + [Admission(t.keyId, time, Allows(bucket, time))]);
    assert BooksOf(asked) == AskBooks(BooksOf(s), t.keyId, time);
    if Allows(bucket, time) {
      var r := Unwrap(cfg.crypto, t.sharedKeys, event, t.allowedSigners, cfg.acceptLegacy, now);
      if r.Success? {
        DeliverKeepsBooks(asked, t, r.value);
      }
    }
  }

  // ----- Runs -----

  lemma StepKeepsInv(cfg: Config, s: State, step: Step)
    requires Inv(cfg, s) && cfg.crypto.ChecksSigner()
    ensures Inv(cfg, After1(cfg, s, step))
  {
    match step
    case Batch(cmds, stored, resub, fetch) =>
      SubscribedKeepsInv(cfg, s, cmds, stored, resub);
      var pendings := Pendings(ApplyAll(cfg, s.targets, cmds).1);
      HydrateAllKeepsInv(cfg, BatchSubscribed(cfg, s, cmds, stored, resub), pendings, fetch);
    case Live(event, order, time, now) =>
      ResolveFindsTarget(s.targets, order, event, cfg.acceptLegacy);
      var r := Resolve(s.targets, order, event, cfg.acceptLegacy);
      if r.Some? && event.id !in s.outer {
        AdmitKeepsInv(cfg, s, event, r.value, time, now);
      }
  }

  lemma {:induction false} RunKeepsInv(cfg: Config, steps: seq<Step>)
    requires cfg.crypto.ChecksSigner()
    ensures Inv(cfg, Run(cfg, INITIAL, steps))
  {
    if steps != [] {
      RunKeepsInv(cfg, steps[..|steps| - 1]);
      StepKeepsInv(cfg, Run(cfg, INITIAL, steps[..|steps| - 1]), steps[|steps| - 1]);
    }
  }

  // ----- Where a drop comes from -----

  /** `after` continues `before`, and drops only chats in `keys` on the way. */
  ghost predicate Continues(before: seq<Entry>, after: seq<Entry>, keys: set<ChatKeyId>) {
    && before <= after
    && (forall d :: |before| <= d < |after| && after[d].Dropped? ==> after[d].key in keys)
  }

  function UntrackedIn(cmds: seq<Arrival>): set<ChatKeyId> {
    set a | a in cmds && a.cmd.Untrack? :: a.cmd.keyId
  }

  function UntrackedBy(step: Step): set<ChatKeyId> {
    match step
    case Batch(cmds, _, _, _) => UntrackedIn(cmds)
    case Live(_, _, _, _) => {}
  }

  lemma {:induction false} ReplayContinues(cfg: Config, targets: Targets, b: Books, cmds: seq<Arrival>,
                                           stored: ChatKeyId -> set<EventId>)
    ensures Continues(b.log, RecordAll(b, ApplyAll(cfg, targets, cmds).1, stored).log, UntrackedIn(cmds))
  {
    if cmds != [] {
      var n := |cmds| - 1;
      ReplayContinues(cfg, targets, b, cmds[..n], stored);
      var (before, outcomes) := ApplyAll(cfg, targets, cmds[..n]);
      var o := ApplyCmd(cfg, before, cmds[n]).1;
      assert (outcomes + [o])[..|outcomes|] == outcomes;
      ApplyOutcome(cfg, before, cmds[n]);
      assert cmds[n] in cmds;
      assert UntrackedIn(cmds[..n]) <= UntrackedIn(cmds);
    }
  }

  lemma {:induction false} DeliverAllContinues(s: State, t: ChatTarget, messages: seq<Decoded>, cutoff: int)
    ensures Continues(s.log, DeliverAll(s, t, messages, cutoff).log, {})
  {
    if messages != [] {
      DeliverAllContinues(s, t, messages[..|messages| - 1], cutoff);
    }
  }

  lemma HydrateContinues(cfg: Config, s: State, p: Pending, env: FetchEnv)
    ensures Continues(s.log, Hydrated(cfg, s, p, env).log, {})
  {
    if p.targetPubkey in s.targets {
      var t := s.targets[p.targetPubkey];
      var e := Fetched(p.targetPubkey, WindowStart(p.since, env.now), GiftSince(env.now), env.at);
      var asked := s.(log := s.log + [e]);
      var r := FetchedMessages(cfg.crypto, p.sharedKeys, t.allowedSigners, cfg.acceptLegacy, env);
      if r.Success? {
        DeliverAllContinues(Touched(asked, t.keyId), t, r.value, Cutoff(p));
      }
    }
  }

  lemma {:induction false} HydrateAllContinues(cfg: Config, s: State, pendings: seq<Pending>, fetch: nat -> FetchEnv)
    ensures Continues(s.log, HydrateAll(cfg, s, pendings, fetch).log, {})
  {
    if pendings != [] {
      var n := |pendings| - 1;
      HydrateAllContinues(cfg, s, pendings[..n], fetch);
      HydrateContinues(cfg, HydrateAll(cfg, s, pendings[..n], fetch), pendings[n], fetch(n));
    }
  }

  lemma StepContinues(cfg: Config, s: State, step: Step)
    ensures Continues(s.log, After1(cfg, s, step).log, UntrackedBy(step))
  {
    match step
    case Batch(cmds, stored, resub, fetch) =>
      ReplayContinues(cfg, s.targets, BooksOf(s), cmds, stored);
      var pendings := Pendings(ApplyAll(cfg, s.targets, cmds).1);
      HydrateAllContinues(cfg, BatchSubscribed(cfg, s, cmds, stored, resub), pendings, fetch);
    case Live(_, _, _, _) =>
  }

  /** A drop in the log of a run was written by a batch that contains an untrack of that chat. */
  ghost predicate WrittenByUntrack(cfg: Config, steps: seq<Step>, n: nat, d: nat, key: ChatKeyId) {
    && n < |steps|
    && |Run(cfg, INITIAL, steps[..n]).log| <= d < |Run(cfg, INITIAL, steps[..n + 1]).log|
    && key in UntrackedBy(steps[n])
  }

  lemma {:induction false} DropNeedsUntrack(cfg: Config, steps: seq<Step>, d: nat) returns (n: nat)
    requires d < |Run(cfg, INITIAL, steps).log| && Run(cfg, INITIAL, steps).log[d].Dropped?
    ensures WrittenByUntrack(cfg, steps, n, d, Run(cfg, INITIAL, steps).log[d].key)
  {
    var last := |steps| - 1;
    var before := Run(cfg, INITIAL, steps[..last]);
    StepContinues(cfg, before, steps[last]);
    assert steps[..last + 1] == steps;
    if d < |before.log| {
      n := DropNeedsUntrack(cfg, steps[..last], d);
      assert steps[..last][..n] == steps[..n] && steps[..last][..n + 1] == steps[..n + 1];
    } else {
      n := last;
    }
  }

  // ----- Main results about runs -----

  /** At most once, over every run. If one inner id is handed on twice for a chat, then between the two a
      batch containing an untrack of that chat dropped it. */
  lemma RunDeliversAtMostOnce(cfg: Config, steps: seq<Step>, i: nat, j: nat) returns (d: nat, n: nat)
    requires cfg.crypto.ChecksSigner()
    requires var log := Run(cfg, INITIAL, steps).log;
             && i < j < |log| && log[i].Delivered? && log[j].Delivered?
             && log[i].target.keyId == log[j].target.keyId
             && log[i].msg.innerId == log[j].msg.innerId
    ensures var log := Run(cfg, INITIAL, steps).log;
            && i < d < j && log[d] == Dropped(log[i].target.keyId)
            && WrittenByUntrack(cfg, steps, n, d, log[i].target.keyId)
  {
    var log := Run(cfg, INITIAL, steps).log;
    RunKeepsInv(cfg, steps);
    AtMostOnce(log, i, j);
    d :| i <= d < j && log[d] == Dropped(log[i].target.keyId);
    n := DropNeedsUntrack(cfg, steps, d);
  }

  /** No id of the set a chat was seeded with is handed on before the chat is untracked. */
  lemma RunNeverDeliversSeeds(cfg: Config, steps: seq<Step>, i: nat, j: nat) returns (d: nat, n: nat)
    requires cfg.crypto.ChecksSigner()
    requires var log := Run(cfg, INITIAL, steps).log;
             && i < j < |log| && log[i].Seeded? && log[j].Delivered?
             && log[i].key == log[j].target.keyId
             && log[j].msg.innerId in log[i].ids
    ensures var log := Run(cfg, INITIAL, steps).log;
            && i < d < j && log[d] == Dropped(log[i].key)
            && WrittenByUntrack(cfg, steps, n, d, log[i].key)
  {
    var log := Run(cfg, INITIAL, steps).log;
    RunKeepsInv(cfg, steps);
    SeedsNeverDelivered(log, i, j);
    d :| i <= d < j && log[d] == Dropped(log[i].key);
    n := DropNeedsUntrack(cfg, steps, d);
  }

  /** Every message handed on in a run was signed by a signer its conversation allows. */
  lemma RunDeliversAllowedSenders(cfg: Config, steps: seq<Step>, j: nat)
    requires cfg.crypto.ChecksSigner()
    requires j < |Run(cfg, INITIAL, steps).log| && Run(cfg, INITIAL, steps).log[j].Delivered?
    ensures var e := Run(cfg, INITIAL, steps).log[j]; e.msg.sender in e.target.allowedSigners
  {
    RunKeepsInv(cfg, steps);
  }

  /** Conversations do not interfere: the limiter's answers for one chat in a run are those of a fresh limiter
      that served this chat's arrivals alone, so the flood of one chat never costs another its decryptions,
      and the unwrap attempts any stretch of arrivals causes are bounded. */
  lemma RunLimitsAlone(cfg: Config, steps: seq<Step>, key: ChatKeyId, i: nat, j: nat)
    requires cfg.crypto.ChecksSigner()
    requires var log := Run(cfg, INITIAL, steps).log;
             Monotone(Asked(log, key)) && i <= j < |Asked(log, key)|
    ensures var log := Run(cfg, INITIAL, steps).log;
            var times := Asked(log, key);
            && (forall k :: 0 <= k < |times| ==> Answers(log, key)[k] == Answer(Fresh(times[0]), times, k))
            && Attempts(Answers(log, key), i, j + 1) as real <= 60.0 + (times[j] - times[i]) / 2.0
  {
    var s := Run(cfg, INITIAL, steps);
    RunKeepsInv(cfg, steps);
    assert RunsAlone(s.buckets, s.log, key);
    AttemptsBound(s.buckets, s.log, key, i, j);
  }

  /** An event still in the outer window, or routed nowhere, changes nothing: it spends no token. */
  lemma DuplicateSpendsNothing(cfg: Config, s: State, event: Event, order: seq<PublicKey>, time: real, now: int)
    requires event.id in s.outer || Resolve(s.targets, order, event, cfg.acceptLegacy).None?
    ensures AfterLive(cfg, s, event, order, time, now) == s
  {
  }

  // ----- The outer window over runs -----

  /** The ids of the live events that were routed to a target, in order. */
  function Offered(cfg: Config, steps: seq<Step>): seq<EventId> {
    if steps == [] then []
    else
      var n := |steps| - 1;
      var before := Offered(cfg, steps[..n]);
      if IsRouted(cfg, Run(cfg, INITIAL, steps[..n]), steps[n]) then before + [steps[n].event.id] else before
  }

  predicate IsRouted(cfg: Config, s: State, step: Step) {
    step.Live? && Resolve(s.targets, step.order, step.event, cfg.acceptLegacy).Some?
  }

  lemma StepOnOuter(cfg: Config, s: State, step: Step)
    ensures After1(cfg, s, step).outer
         == if IsRouted(cfg, s, step) then Pushed(s.outer, SEEN_OUTER_CAP, step.event.id) else s.outer
  {
    match step
    case Batch(cmds, stored, resub, fetch) =>
      var subscribed := BatchSubscribed(cfg, s, cmds, stored, resub);
      HydrateAllKeepsOuter(cfg, subscribed, Pendings(ApplyAll(cfg, s.targets, cmds).1), fetch);
    case Live(_, _, _, _) =>
  }

  lemma {:induction false} HydrateAllKeepsOuter(cfg: Config, s: State, pendings: seq<Pending>, fetch: nat -> FetchEnv)
    ensures HydrateAll(cfg, s, pendings, fetch).outer == s.outer
    ensures HydrateAll(cfg, s, pendings, fetch).targets == s.targets
  {
    if pendings != [] {
      var n := |pendings| - 1;
      HydrateAllKeepsOuter(cfg, s, pendings[..n], fetch);
      HydrateKeepsOuter(cfg, HydrateAll(cfg, s, pendings[..n], fetch), pendings[n], fetch(n));
    }
  }

  lemma HydrateKeepsOuter(cfg: Config, s: State, p: Pending, env: FetchEnv)
    ensures Hydrated(cfg, s, p, env).outer == s.outer && Hydrated(cfg, s, p, env).targets == s.targets
  {
    if p.targetPubkey in s.targets {
      var t := s.targets[p.targetPubkey];
      var e := Fetched(p.targetPubkey, WindowStart(p.since, env.now), GiftSince(env.now), env.at);
      var r := FetchedMessages(cfg.crypto, p.sharedKeys, t.allowedSigners, cfg.acceptLegacy, env);
      if r.Success? {
        DeliverAllKeepsOuter(Touched(s.(log := s.log + [e]), t.keyId), t, r.value, Cutoff(p));
      }
    }
  }

  lemma {:induction false} DeliverAllKeepsOuter(s: State, t: ChatTarget, messages: seq<Decoded>, cutoff: int)
    ensures DeliverAll(s, t, messages, cutoff).outer == s.outer
    ensures DeliverAll(s, t, messages, cutoff).targets == s.targets
  {
    if messages != [] {
      DeliverAllKeepsOuter(s, t, messages[..|messages| - 1], cutoff);
    }
  }

  /** In every run the outer window is what offering the routed live events one by one, and nothing else, makes of an
      empty window. */
  lemma {:induction false} RunOuterIsWindow(cfg: Config, steps: seq<Step>)
    ensures Run(cfg, INITIAL, steps).outer == Window(4096, Offered(cfg, steps))
  {
    if steps != [] {
      var n := |steps| - 1;
      var s := Run(cfg, INITIAL, steps[..n]);
      RunOuterIsWindow(cfg, steps[..n]);
      StepOnOuter(cfg, s, steps[n]);
      if IsRouted(cfg, s, steps[n]) {
        OfferOne(SEEN_OUTER_CAP, Offered(cfg, steps[..n]), steps[n].event.id);
      }
    }
  }

  /** The ids that got past the window in the first `n` steps. */
  function AdmittedIds(cfg: Config, steps: seq<Step>, n: nat): seq<EventId>
    requires n <= |steps|
  {
    Accepted(SEEN_OUTER_CAP, Offered(cfg, steps[..n]))
  }

  /** Step `n` routes a live event that is not in the window. */
  predicate IsAdmitted(cfg: Config, steps: seq<Step>, n: nat)
    requires n < |steps|
  {
    var s := Run(cfg, INITIAL, steps[..n]);
    IsRouted(cfg, s, steps[n]) && steps[n].event.id !in s.outer
  }

  lemma AdmittedIdsStep(cfg: Config, steps: seq<Step>, n: nat)
    requires n < |steps|
    ensures AdmittedIds(cfg, steps, n + 1)
         == AdmittedIds(cfg, steps, n) + if IsAdmitted(cfg, steps, n) then [steps[n].event.id] else []
  {
    RunOuterIsWindow(cfg, steps[..n]);
    assert steps[..n + 1][..n] == steps[..n];
    if IsRouted(cfg, Run(cfg, INITIAL, steps[..n]), steps[n]) {
      OfferOne(SEEN_OUTER_CAP, Offered(cfg, steps[..n]), steps[n].event.id);
    }
  }

  /** Lists each of which begins with the one before. */
  lemma {:induction false} PrefixChain<T>(lists: seq<seq<T>>, i: nat, j: nat)
    requires i <= j < |lists| && forall n :: i <= n < j ==> lists[n] <= lists[n + 1]
    ensures lists[i] <= lists[j]
    decreases j
  {
    if i < j {
      PrefixChain(lists, i, j - 1);
      assert lists[j - 1] <= lists[j - 1 + 1];
    }
  }

  lemma AdmittedIdsGrow(cfg: Config, steps: seq<Step>, i: nat, j: nat)
    requires i <= j <= |steps|
    ensures AdmittedIds(cfg, steps, i) <= AdmittedIds(cfg, steps, j)
  {
    var lists := seq(j + 1, n requires 0 <= n <= j => AdmittedIds(cfg, steps, n));
    forall n | i <= n < j
      ensures lists[n] <= lists[n + 1]
    {
      AdmittedIdsStep(cfg, steps, n);
    }
    PrefixChain(lists, i, j);
  }

  /** If one outer event gets past the window twice in a run, at least as many distinct other events as the window
      holds got past it in between. */
  lemma ReadmittedAfterCapOthers(cfg: Config, steps: seq<Step>, i: nat, j: nat)
    requires i < j < |steps| && IsAdmitted(cfg, steps, i) && IsAdmitted(cfg, steps, j)
    requires steps[i].event.id == steps[j].event.id
    ensures CapOthersBetween(4096, AdmittedIds(cfg, steps, i + 1), AdmittedIds(cfg, steps, j),
                             steps[j].event.id)
  {
    var a, b, id := AdmittedIds(cfg, steps, i), AdmittedIds(cfg, steps, j), steps[j].event.id;
    AdmittedIdsStep(cfg, steps, i);
    AdmittedIdsStep(cfg, steps, j);
    AdmittedIdsGrow(cfg, steps, i + 1, j);
    AcceptedAgain(SEEN_OUTER_CAP, Offered(cfg, steps[..j + 1]), a, b, id);
  }

  // ----- Batches that change nothing, tracks and untracks -----

  /** A batch that reports no need to resubscribe left the tracked set, the books and the subscriptions as
      they were. */
  lemma {:induction false} NoResubscribeMeansUnchanged(cfg: Config, targets: Targets, cmds: seq<Arrival>)
    requires !NeedsResubscribe(ApplyAll(cfg, targets, cmds).1)
    ensures ApplyAll(cfg, targets, cmds).0 == targets
    ensures Pendings(ApplyAll(cfg, targets, cmds).1) == []
    ensures forall i :: 0 <= i < |ApplyAll(cfg, targets, cmds).1| ==> ApplyAll(cfg, targets, cmds).1[i] == NO_CHANGE
  {
    if cmds != [] {
      var n := |cmds| - 1;
      var (before, outcomes) := ApplyAll(cfg, targets, cmds[..n]);
      var o := ApplyCmd(cfg, before, cmds[n]).1;
      NeedsResubscribeOfAppend(outcomes, o);
      NoResubscribeMeansUnchanged(cfg, targets, cmds[..n]);
      ApplyOutcome(cfg, before, cmds[n]);
      assert (outcomes + [o])[..|outcomes|] == outcomes;
    }
  }

  /** Tracking a chat that is tracked changes nothing. */
  lemma TrackTwiceIsTrackOnce(cfg: Config, targets: Targets, a: Arrival, again: nat)
    requires a.cmd.Track?
    ensures var after := ApplyCmd(cfg, targets, a).0; ApplyCmd(cfg, after, Arrival(a.cmd, again)) == (after, NO_CHANGE)
  {
  }

  /** Untracking undoes the track of a new chat with a new key. */
  lemma UntrackUndoesTrack(cfg: Config, targets: Targets, a: Arrival, later: nat)
    requires a.cmd.Track?
    requires forall pk :: pk in targets ==> targets[pk].keyId != a.cmd.keyId
    requires var secret := cfg.crypto.fromHex(a.cmd.sharedKeyHex);
             secret.Some? ==> cfg.crypto.publicKey(secret.value) !in targets
    ensures ApplyCmd(cfg, ApplyCmd(cfg, targets, a).0, Arrival(Untrack(a.cmd.keyId), later)).0 == targets
  {
  }

  /** Nothing is left of a chat once it is untracked, and no other chat is touched. */
  lemma UntrackRemovesExactly(cfg: Config, targets: Targets, key: ChatKeyId, now: nat)
    ensures var (after, o) := ApplyCmd(cfg, targets, Arrival(Untrack(key), now));
            && (forall pk :: pk in after <==> pk in targets && targets[pk].keyId != key)
            && (forall pk :: pk in after ==> after[pk] == targets[pk])
            && (o.untracked == Some(key) <==> exists pk :: pk in targets && targets[pk].keyId == key)
  {
    var kept := map pk | pk in targets && targets[pk].keyId != key :: targets[pk];
    if pk :| pk in targets && targets[pk].keyId == key {
      assert pk !in kept;
    } else {
      assert kept == targets;
    }
  }

  /** A chat is newly tracked exactly when it has an allow-list, its secret can be read and derives a signing key,
      and that key is not already tracked for the same chat. Its backfill never starts ahead of the clock. */
  lemma TrackAcceptedIff(cfg: Config, targets: Targets, a: Arrival)
    requires a.cmd.Track?
    ensures var (after, o) := ApplyCmd(cfg, targets, a);
            var secret := cfg.crypto.fromHex(a.cmd.sharedKeyHex);
            && (o.tracked.Some? <==>
                  && a.cmd.allowedSigners != [] && secret.Some? && cfg.crypto.signKey(secret.value).Some?
                  && !(var pk := cfg.crypto.publicKey(secret.value); pk in targets && targets[pk].keyId == a.cmd.keyId))
            && (o.hydrate.Some? <==> o.tracked.Some?)
            && (o.hydrate.Some? ==> Cutoff(o.hydrate.value) <= a.now)
            && (forall pk :: pk in targets && (o.hydrate.Some? ==> pk != o.hydrate.value.targetPubkey) ==>
                  pk in after && after[pk] == targets[pk])
  {
  }

  /** What a backfill hands on was fetched, is dated at or after the cutoff, and goes to the chat it was fetched
      for. */
  lemma BackfillHandsOnOnlyFetched(cfg: Config, s: State, p: Pending, env: FetchEnv, d: nat)
    requires |s.log| <= d < |Hydrated(cfg, s, p, env).log| && Hydrated(cfg, s, p, env).log[d].Delivered?
    ensures p.targetPubkey in s.targets
    ensures var t := s.targets[p.targetPubkey];
            var r := FetchedMessages(cfg.crypto, p.sharedKeys, t.allowedSigners, cfg.acceptLegacy, env);
            var e := Hydrated(cfg, s, p, env).log[d];
            r.Success? && e.target == t && e.msg in r.value && Cutoff(p) <= e.msg.timestamp
  {
    var t := s.targets[p.targetPubkey];
    var e := Fetched(p.targetPubkey, WindowStart(p.since, env.now), GiftSince(env.now), env.at);
    var asked := s.(log := s.log + [e]);
    var r := FetchedMessages(cfg.crypto, p.sharedKeys, t.allowedSigners, cfg.acceptLegacy, env);
    if r.Success? {
      DeliverAllOrigin(Touched(asked, t.keyId), t, r.value, Cutoff(p), d);
    }
  }

  lemma {:induction false} DeliverAllOrigin(s: State, t: ChatTarget, messages: seq<Decoded>, cutoff: int, d: nat)
    ensures s.log <= DeliverAll(s, t, messages, cutoff).log
    ensures |s.log| <= d < |DeliverAll(s, t, messages, cutoff).log| ==>
              var e := DeliverAll(s, t, messages, cutoff).log[d];
              e.Delivered? && e.target == t && e.msg in messages && cutoff <= e.msg.timestamp
  {
    if messages != [] {
      DeliverAllOrigin(s, t, messages[..|messages| - 1], cutoff, d);
    }
  }

  /** A kind-14 author belongs to at most one target. */
  lemma AuthorIdentifiesTarget(cfg: Config, targets: Targets, a: PublicKey, b: PublicKey)
    requires TargetsOk(cfg, targets) && cfg.crypto.InjectiveSignKey()
    requires a in targets && b in targets && targets[a].signPubkey == targets[b].signPubkey
    ensures a == b
  {
    assert cfg.crypto.signKey(targets[a].sharedKeys) == cfg.crypto.signKey(targets[b].sharedKeys);
  }

  lemma {:induction false} FirstByAuthorIs(cfg: Config, targets: Targets, order: seq<PublicKey>, pk: PublicKey)
    requires TargetsOk(cfg, targets) && cfg.crypto.InjectiveSignKey()
    requires pk in targets && pk in order
    ensures FirstByAuthor(targets, order, targets[pk].signPubkey) == Some(targets[pk])
  {
    if order[0] in targets && targets[order[0]].signPubkey == targets[pk].signPubkey {
      AuthorIdentifiesTarget(cfg, targets, order[0], pk);
    } else {
      FirstByAuthorIs(cfg, targets, order[1..], pk);
    }
  }

  /** Kind-14 routing does not depend on the iteration order of the map of targets: an event goes to the one
      target that signs with its author key, and nowhere if there is none. */
  lemma Kind14RoutingIsUnique(cfg: Config, targets: Targets, order: seq<PublicKey>, event: Event, acceptLegacy: bool,
                              t: ChatTarget)
    requires TargetsOk(cfg, targets) && cfg.crypto.InjectiveSignKey()
    requires forall pk :: pk in targets ==> pk in order
    requires event.kind == PrivateDirectMessage
    ensures Resolve(targets, order, event, acceptLegacy) == Some(t)
       <==> exists pk :: pk in targets && targets[pk] == t && t.signPubkey == event.author
  {
    FirstByAuthorFound(targets, order, event.author);
    if pk :| pk in targets && targets[pk] == t && t.signPubkey == event.author {
      FirstByAuthorIs(cfg, targets, order, pk);
    }
  }

  // ----- Subscriptions over runs -----

  /** Every rebuild of the run goes through, with its unsubscribes. */
  predicate AllCallsSucceed(steps: seq<Step>) {
    forall i :: 0 <= i < |steps| && steps[i].Batch? ==>
      steps[i].resub.giftOk && steps[i].resub.kind14Ok && steps[i].resub.dropGiftOk && steps[i].resub.dropKind14Ok
  }

  lemma BatchClient(cfg: Config, s: State, cmds: seq<Arrival>, stored: ChatKeyId -> set<EventId>, resub: ResubEnv,
                    fetch: nat -> FetchEnv)
    requires Inv(cfg, s) && cfg.crypto.ChecksSigner()
    ensures var (targets, outcomes) := ApplyAll(cfg, s.targets, cmds);
            var s' := AfterBatch(cfg, s, cmds, stored, resub, fetch);
            && s'.targets == targets
            && (if NeedsResubscribe(outcomes)
                then var r := Rebuild(targets, s.subs, s.client, cfg.acceptLegacy, resub);
                     s'.subs == r.subs && s'.client == r.client
                else s'.subs == s.subs && s'.client == s.client)
  {
    SubscribedKeepsInv(cfg, s, cmds, stored, resub);
    var pendings := Pendings(ApplyAll(cfg, s.targets, cmds).1);
    HydrateAllKeepsInv(cfg, BatchSubscribed(cfg, s, cmds, stored, resub), pendings, fetch);
  }

  lemma LiveClient(cfg: Config, s: State, step: Step)
    requires step.Live?
    ensures var s' := After1(cfg, s, step);
            s'.targets == s.targets && s'.subs == s.subs && s'.client == s.client
  {
  }

  /** While every call succeeds, the relay serves exactly the recorded pair, on exactly the tracked keys. */
  lemma {:induction false} RunSubscriptionsExact(cfg: Config, steps: seq<Step>)
    requires cfg.crypto.ChecksSigner() && AllCallsSucceed(steps)
    ensures var s := Run(cfg, INITIAL, steps); Exact(s.targets, s.subs, s.client, cfg.acceptLegacy)
  {
    if steps != [] {
      var n := |steps| - 1;
      RunSubscriptionsExact(cfg, steps[..n]);
      RunKeepsInv(cfg, steps[..n]);
      var s := Run(cfg, INITIAL, steps[..n]);
      match steps[n]
      case Live(_, _, _, _) => LiveClient(cfg, s, steps[n]);
      case Batch(cmds, stored, resub, fetch) =>
        BatchClient(cfg, s, cmds, stored, resub, fetch);
        var (targets, outcomes) := ApplyAll(cfg, s.targets, cmds);
        if NeedsResubscribe(outcomes) {
          FailureChangesNothing(targets, s.subs, s.client, cfg.acceptLegacy, resub);
          SuccessIsExact(targets, s.subs, s.client, cfg.acceptLegacy, resub);
        } else {
          NoResubscribeMeansUnchanged(cfg, s.targets, cmds);
        }
    }
  }

  lemma StepKeepsCover(cfg: Config, s: State, step: Step, pk: PublicKey)
    requires Inv(cfg, s) && cfg.crypto.ChecksSigner()
    requires pk in s.targets && pk in After1(cfg, s, step).targets && After1(cfg, s, step).targets[pk] == s.targets[pk]
    requires Covers(s.client.live, pk, s.targets[pk].signPubkey, cfg.acceptLegacy)
    ensures var s' := After1(cfg, s, step);
            && |s.client.history| <= |s'.client.history|
            && s.client.history == s'.client.history[..|s.client.history|]
            && CoveredSince(s'.client, |s.client.history|, pk, s.targets[pk].signPubkey, cfg.acceptLegacy)
            && Covers(s'.client.live, pk, s.targets[pk].signPubkey, cfg.acceptLegacy)
  {
    match step
    case Live(_, _, _, _) => LiveClient(cfg, s, step);
    case Batch(cmds, stored, resub, fetch) =>
      BatchClient(cfg, s, cmds, stored, resub, fetch);
      var (targets, outcomes) := ApplyAll(cfg, s.targets, cmds);
      if NeedsResubscribe(outcomes) {
        MakeBeforeBreak(targets, s.subs, s.client, cfg.acceptLegacy, resub, pk);
      }
  }

  /** Over any run, whatever calls fail: while a covered chat keeps its target, it is covered by every set of
      open subscriptions there ever is. */
  lemma {:induction false} RunKeepsCover(cfg: Config, s: State, steps: seq<Step>, pk: PublicKey)
    requires Inv(cfg, s) && cfg.crypto.ChecksSigner()
    requires pk in s.targets && Covers(s.client.live, pk, s.targets[pk].signPubkey, cfg.acceptLegacy)
    requires forall n :: 0 <= n <= |steps| ==>
               var r := Run(cfg, s, steps[..n]); pk in r.targets && r.targets[pk] == s.targets[pk]
    ensures var r := Run(cfg, s, steps);
            && Inv(cfg, r)
            && |s.client.history| <= |r.client.history|
            && CoveredSince(r.client, |s.client.history|, pk, s.targets[pk].signPubkey, cfg.acceptLegacy)
            && Covers(r.client.live, pk, s.targets[pk].signPubkey, cfg.acceptLegacy)
  {
    if steps != [] {
      var n := |steps| - 1;
      forall k | 0 <= k <= n
        ensures steps[..n][..k] == steps[..k]
      {
      }
      RunKeepsCover(cfg, s, steps[..n], pk);
      var r := Run(cfg, s, steps[..n]);
      assert steps[..|steps|] == steps;
      StepKeepsInv(cfg, r, steps[n]);
      StepKeepsCover(cfg, r, steps[n], pk);
      var r' := Run(cfg, s, steps);
      forall k | |s.client.history| <= k < |r'.client.history|
        ensures Covers(r'.client.history[k], pk, s.targets[pk].signPubkey, cfg.acceptLegacy)
      {
        if k < |r.client.history| {
          assert r'.client.history[k] == r.client.history[k];
        }
      }
    }
  }

  /** A batch that rebuilds, with every needed subscribe succeeding, ends with every tracked chat served. */
  lemma BatchCovers(cfg: Config, s: State, cmds: seq<Arrival>, stored: ChatKeyId -> set<EventId>, resub: ResubEnv,
                    fetch: nat -> FetchEnv, pk: PublicKey)
    requires Inv(cfg, s) && cfg.crypto.ChecksSigner()
    requires NeedsResubscribe(ApplyAll(cfg, s.targets, cmds).1)
    requires pk in ApplyAll(cfg, s.targets, cmds).0
    requires resub.kind14Ok && (cfg.acceptLegacy ==> resub.giftOk)
    ensures Covers(AfterBatch(cfg, s, cmds, stored, resub, fetch).client.live, pk,
                   ApplyAll(cfg, s.targets, cmds).0[pk].signPubkey, cfg.acceptLegacy)
  {
    var targets := ApplyAll(cfg, s.targets, cmds).0;
    BatchClient(cfg, s, cmds, stored, resub, fetch);
    var (gift, kind14) := LiveChatFilters(targets.Keys, SignKeys(targets), cfg.acceptLegacy);
    SuccessCovers(targets, s.subs, s.client, cfg.acceptLegacy, resub, pk, Opened(GiftStep(gift, s.client).0, kind14));
  }

  /** A chat the relay did not serve before a batch that rebuilds is served after it exactly when the
      needed subscribes succeed: a failed rebuild leaves a newly tracked chat unheard. */
  lemma HeardIffSubscribed(cfg: Config, s: State, cmds: seq<Arrival>, stored: ChatKeyId -> set<EventId>,
                           resub: ResubEnv, fetch: nat -> FetchEnv, pk: PublicKey)
    requires Inv(cfg, s) && cfg.crypto.ChecksSigner()
    requires NeedsResubscribe(ApplyAll(cfg, s.targets, cmds).1)
    requires pk in ApplyAll(cfg, s.targets, cmds).0
    requires !HearsKind14(s.client.live, ApplyAll(cfg, s.targets, cmds).0[pk].signPubkey)
    ensures Covers(AfterBatch(cfg, s, cmds, stored, resub, fetch).client.live, pk,
                   ApplyAll(cfg, s.targets, cmds).0[pk].signPubkey, cfg.acceptLegacy)
       <==> resub.kind14Ok && (cfg.acceptLegacy ==> resub.giftOk)
  {
    var targets := ApplyAll(cfg, s.targets, cmds).0;
    BatchClient(cfg, s, cmds, stored, resub, fetch);
    FailureChangesNothing(targets, s.subs, s.client, cfg.acceptLegacy, resub);
    var r := Rebuild(targets, s.subs, s.client, cfg.acceptLegacy, resub);
    if r.ok {
      BatchCovers(cfg, s, cmds, stored, resub, fetch, pk);
    } else {
      FailureOpensNoKind14(targets, s.subs, s.client, cfg.acceptLegacy, resub, targets[pk].signPubkey);
    }
  }

  lemma FailureOpensNoKind14(targets: Targets, subs: Subs, c: Client, acceptLegacy: bool, env: ResubEnv,
                             sign: PublicKey)
    requires ValidClient(c, subs) && !HearsKind14(c.live, sign)
    requires !Rebuild(targets, subs, c, acceptLegacy, env).ok
    ensures !HearsKind14(Rebuild(targets, subs, c, acceptLegacy, env).client.live, sign)
  {
  }

  lemma QuietBatchChangesNothing(cfg: Config, s: State, cmds: seq<Arrival>, stored: ChatKeyId -> set<EventId>,
                                 resub: ResubEnv, fetch: nat -> FetchEnv)
    requires !NeedsResubscribe(ApplyAll(cfg, s.targets, cmds).1)
    ensures AfterBatch(cfg, s, cmds, stored, resub, fetch) == s
  {
    NoResubscribeMeansUnchanged(cfg, s.targets, cmds);
    RecordNothing(BooksOf(s), ApplyAll(cfg, s.targets, cmds).1, stored);
  }

  lemma {:induction false} RetracksAreQuiet(cfg: Config, targets: Targets, a: Arrival, again: seq<Arrival>)
    requires a.cmd.Track? && forall i :: 0 <= i < |again| ==> again[i].cmd == a.cmd
    ensures var after := ApplyCmd(cfg, targets, a).0;
            ApplyAll(cfg, after, again).0 == after && !NeedsResubscribe(ApplyAll(cfg, after, again).1)
  {
    if again != [] {
      var n := |again| - 1;
      var after := ApplyCmd(cfg, targets, a).0;
      RetracksAreQuiet(cfg, targets, a, again[..n]);
      TrackTwiceIsTrackOnce(cfg, targets, a, again[n].now);
      NeedsResubscribeOfAppend(ApplyAll(cfg, after, again[..n]).1, NO_CHANGE);
    }
  }

  /** Tracking the chat again does not repair that: whatever became of the subscribes of the batch that tracked it,
      any number of repeated tracks leaves the whole state as it was, subscriptions included. */
  lemma RetrackRepairsNothing(cfg: Config, s: State, a: Arrival, stored: ChatKeyId -> set<EventId>, resub: ResubEnv,
                              fetch: nat -> FetchEnv, again: seq<Arrival>, storedAgain: ChatKeyId -> set<EventId>,
                              resubAgain: ResubEnv, fetchAgain: nat -> FetchEnv)
    requires Inv(cfg, s) && cfg.crypto.ChecksSigner()
    requires a.cmd.Track? && forall i :: 0 <= i < |again| ==> again[i].cmd == a.cmd
    ensures var tracked := AfterBatch(cfg, s, [a], stored, resub, fetch);
            AfterBatch(cfg, tracked, again, storedAgain, resubAgain, fetchAgain) == tracked
  {
    assert [a][..0] == [];
    BatchClient(cfg, s, [a], stored, resub, fetch);
    RetracksAreQuiet(cfg, s.targets, a, again);
    var tracked := AfterBatch(cfg, s, [a], stored, resub, fetch);
    QuietBatchChangesNothing(cfg, tracked, again, storedAgain, resubAgain, fetchAgain);
  }

  lemma {:induction false} RecordNothing(b: Books, outcomes: seq<Outcome>, stored: ChatKeyId -> set<EventId>)
    requires forall i :: 0 <= i < |outcomes| ==> outcomes[i] == NO_CHANGE
    ensures RecordAll(b, outcomes, stored) == b
  {
    if outcomes != [] {
      RecordNothing(b, outcomes[..|outcomes| - 1], stored);
    }
  }
}
