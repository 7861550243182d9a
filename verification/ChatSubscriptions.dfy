/** Rebuilding the live subscriptions make-before-break (src/util/chat_listener.rs). */
module ChatSubscriptions {

  import opened Wrappers
  import opened ChatTypes

  /** A live-only (limit 0) filter. */
  datatype Filter = Filter(kind: Kind, pTags: set<PublicKey>, authors: set<PublicKey>)

  type SubId = nat

  /** What the relay serves: the open subscriptions, the next fresh id, and every set of open
      subscriptions there ever was, oldest first. */
  datatype Client = Client(live: map<SubId, Filter>, nextId: SubId, history: seq<map<SubId, Filter>>)

  /** The recorded subscription ids. */
  datatype Subs = Subs(giftwrap: Option<SubId>, kind14: Option<SubId>)

  /** Which calls of one rebuild succeed, and how many events the relay had published when each new
      subscription opened. */
  datatype ResubEnv = ResubEnv(
    giftOk: bool, kind14Ok: bool, rollbackOk: bool, dropGiftOk: bool, dropKind14Ok: bool,
    giftAt: nat, kind14At: nat)

  function Opened(c: Client, f: Filter): Client {
    var live := c.live[c.nextId := f];
    Client(live, c.nextId + 1, c.history + [live])
  }

  /** A failed unsubscribe is only logged: the subscription stays open. */
  function Closed(c: Client, id: Option<SubId>, ok: bool): Client {
    if id.None? || !ok then c
    else
      var live := c.live - {id.value};
      Client(live, c.nextId, c.history + [live])
  }

  function SignKeys(targets: map<PublicKey, ChatTarget>): set<PublicKey> {
    set pk | pk in targets :: targets[pk].signPubkey
  }

  function LiveChatFilters(ecdh: set<PublicKey>, signs: set<PublicKey>, acceptLegacy: bool): (Option<Filter>, Filter) {
    (if acceptLegacy then Some(Filter(GiftWrap, ecdh, {})) else None,
     Filter(PrivateDirectMessage, {}, signs))
  }

  /** The outcome of one rebuild: the recorded ids, the client, and whether it went through. */
  datatype Rebuilt = Rebuilt(subs: Subs, client: Client, ok: bool)

  function Cleared(subs: Subs, c: Client, env: ResubEnv): Rebuilt {
    Rebuilt(Subs(None, None),
            Closed(Closed(c, subs.giftwrap, env.dropGiftOk), subs.kind14, env.dropKind14Ok), true)
  }

  /** Opens the GiftWrap subscription when there is one to open. */
  function GiftStep(f: Option<Filter>, c: Client): (Client, Option<SubId>) {
    match f
    case None => (c, None)
    case Some(filter) => (Opened(c, filter), Some(c.nextId))
  }

  function Rebuild(targets: map<PublicKey, ChatTarget>, subs: Subs, c: Client, acceptLegacy: bool,
                   env: ResubEnv): Rebuilt
  {
    if targets == map[] then Cleared(subs, c, env)
    else
      var (gift, kind14) := LiveChatFilters(targets.Keys, SignKeys(targets), acceptLegacy);
      if gift.Some? && !env.giftOk then Rebuilt(subs, c, false)
      else
        var (c1, giftId) := GiftStep(gift, c);
        if !env.kind14Ok then Rebuilt(subs, Closed(c1, giftId, env.rollbackOk), false)
        else
          var c2 := Opened(c1, kind14);
          Rebuilt(Subs(giftId, Some(c1.nextId)),
                  Closed(Closed(c2, subs.giftwrap, env.dropGiftOk), subs.kind14, env.dropKind14Ok), true)
  }

  // ----- The program -----

  class RelayClient {
    var live: map<SubId, Filter>
    var nextId: SubId
    var history: seq<map<SubId, Filter>>

    constructor ()
      ensures View() == Client(map[], 0, [])
    {
      live, nextId, history := map[], 0, [];
    }

    function View(): Client
      reads this
    {
      Client(live, nextId, history)
    }

    method Subscribe(f: Filter, ok: bool) returns (id: Option<SubId>)
      modifies this
      ensures ok ==> View() == Opened(old(View()), f) && id == Some(old(nextId))
      ensures !ok ==> View() == old(View()) && id == None
    {
      if !ok {
        return None;
      }
      id := Some(nextId);
      live := live[nextId := f];
      nextId := nextId + 1;
      history := history + [live];
    }

    method Unsubscribe(id: SubId, ok: bool)
      modifies this
      ensures View() == Closed(old(View()), Some(id), ok)
    {
      if ok {
        live := live - {id};
        history := history + [live];
      }
    }
  }

  class LiveSubs {
    var giftwrap: Option<SubId>
    var kind14: Option<SubId>

    constructor ()
      ensures View() == Subs(None, None)
    {
      giftwrap, kind14 := None, None;
    }

    function View(): Subs
      reads this
    {
      Subs(giftwrap, kind14)
    }

    method Clear(client: RelayClient, env: ResubEnv)
      modifies this, client
      ensures Rebuilt(View(), client.View(), true) == Cleared(old(View()), old(client.View()), env)
    {
      if giftwrap.Some? {
        client.Unsubscribe(giftwrap.value, env.dropGiftOk);
        giftwrap := None;
      }
      if kind14.Some? {
        client.Unsubscribe(kind14.value, env.dropKind14Ok);
        kind14 := None;
      }
    }

    /** Swaps in the new GiftWrap id, then drops the one it replaces. */
    method ReplaceGiftwrap(client: RelayClient, newId: Option<SubId>, ok: bool)
      modifies this, client
      ensures View() == Subs(newId, old(kind14))
      ensures client.View() == Closed(old(client.View()), old(giftwrap), ok)
    {
      var oldId := giftwrap;
      giftwrap := newId;
      if oldId.Some? {
        client.Unsubscribe(oldId.value, ok);
      }
    }

    method ReplaceKind14(client: RelayClient, newId: SubId, ok: bool)
      modifies this, client
      ensures View() == Subs(old(giftwrap), Some(newId))
      ensures client.View() == Closed(old(client.View()), old(kind14), ok)
    {
      var oldId := kind14;
      kind14 := Some(newId);
      if oldId.Some? {
        client.Unsubscribe(oldId.value, ok);
      }
    }

    method Resubscribe(client: RelayClient, targets: map<PublicKey, ChatTarget>, acceptLegacy: bool, env: ResubEnv)
      returns (ok: bool)
      modifies this, client
      ensures Rebuilt(View(), client.View(), ok)
           == Rebuild(targets, old(View()), old(client.View()), acceptLegacy, env)
    {
      if targets == map[] {
        Clear(client, env);
        return true;
      }
      var (gift, kind14Filter) := LiveChatFilters(targets.Keys, SignKeys(targets), acceptLegacy);
      var newGift := None;
      if gift.Some? {
        newGift := client.Subscribe(gift.value, env.giftOk);
        if newGift.None? {
          return false;
        }
      }
      var newKind14 := client.Subscribe(kind14Filter, env.kind14Ok);
      if newKind14.None? {
        if newGift.Some? {
          client.Unsubscribe(newGift.value, env.rollbackOk);
        }
        return false;
      }
      ReplaceGiftwrap(client, newGift, env.dropGiftOk);
      ReplaceKind14(client, newKind14.value, env.dropKind14Ok);
      ok := true;
    }
  }

  // ----- Make-before-break -----

  ghost predicate HearsKind14(live: map<SubId, Filter>, sign: PublicKey) {
    exists id :: id in live && live[id].kind == PrivateDirectMessage && sign in live[id].authors
  }

  ghost predicate HearsGiftWrap(live: map<SubId, Filter>, pk: PublicKey) {
    exists id :: id in live && live[id].kind == GiftWrap && pk in live[id].pTags
  }

  /** The open subscriptions deliver everything addressed to this chat. */
  ghost predicate Covers(live: map<SubId, Filter>, pk: PublicKey, sign: PublicKey, acceptLegacy: bool) {
    HearsKind14(live, sign) && (acceptLegacy ==> HearsGiftWrap(live, pk))
  }

  ghost predicate ValidClient(c: Client, subs: Subs) {
    && (forall id :: id in c.live ==> id < c.nextId)
    && (subs.giftwrap.Some? ==> subs.giftwrap.value < c.nextId)
    && (subs.kind14.Some? ==> subs.kind14.value < c.nextId)
  }

  /** Every set of open subscriptions from `from` on covers the chat. */
  ghost predicate CoveredSince(c: Client, from: nat, pk: PublicKey, sign: PublicKey, acceptLegacy: bool) {
    forall k :: from <= k < |c.history| ==> Covers(c.history[k], pk, sign, acceptLegacy)
  }

  lemma OpenedKeepsCover(c: Client, f: Filter, pk: PublicKey, sign: PublicKey, acceptLegacy: bool)
    requires forall id :: id in c.live ==> id < c.nextId
    ensures HearsKind14(c.live, sign) ==> HearsKind14(Opened(c, f).live, sign)
    ensures HearsGiftWrap(c.live, pk) ==> HearsGiftWrap(Opened(c, f).live, pk)
    ensures f.kind == GiftWrap && pk in f.pTags ==> HearsGiftWrap(Opened(c, f).live, pk)
    ensures f.kind == PrivateDirectMessage && sign in f.authors ==> HearsKind14(Opened(c, f).live, sign)
  {
    var live := Opened(c, f).live;
    assert c.nextId in live && live[c.nextId] == f;
    if HearsKind14(c.live, sign) {
      var id :| id in c.live && c.live[id].kind == PrivateDirectMessage && sign in c.live[id].authors;
      assert id in live && live[id] == c.live[id];
    }
    if HearsGiftWrap(c.live, pk) {
      var id :| id in c.live && c.live[id].kind == GiftWrap && pk in c.live[id].pTags;
      assert id in live && live[id] == c.live[id];
    }
  }

  /** Closing one subscription keeps what another one, still open, hears. */
  lemma ClosedKeepsCover(c: Client, id: Option<SubId>, ok: bool, kept: SubId, gift: Option<SubId>,
                         pk: PublicKey, sign: PublicKey, acceptLegacy: bool)
    requires kept in c.live && c.live[kept].kind == PrivateDirectMessage && sign in c.live[kept].authors
    requires acceptLegacy ==> gift.Some? && gift.value in c.live && c.live[gift.value].kind == GiftWrap
                              && pk in c.live[gift.value].pTags
    requires id.Some? ==> id.value != kept && (acceptLegacy ==> id.value != gift.value)
    ensures Covers(Closed(c, id, ok).live, pk, sign, acceptLegacy)
  {
    var live := Closed(c, id, ok).live;
    assert kept in live && live[kept] == c.live[kept];
    if acceptLegacy {
      assert gift.value in live && live[gift.value] == c.live[gift.value];
    }
  }

  /** A successful rebuild ends with the new pair open, and covers at every step after it opened. */
  lemma SuccessCovers(targets: map<PublicKey, ChatTarget>, subs: Subs, c: Client, acceptLegacy: bool, env: ResubEnv,
                      pk: PublicKey, c2: Client)
    requires ValidClient(c, subs) && pk in targets
    requires acceptLegacy ==> env.giftOk
    requires env.kind14Ok
    requires var (gift, kind14) := LiveChatFilters(targets.Keys, SignKeys(targets), acceptLegacy);
             c2 == Opened(GiftStep(gift, c).0, kind14)
    ensures var sign := targets[pk].signPubkey;
            var r := Rebuild(targets, subs, c, acceptLegacy, env);
            && r.ok
            && Covers(c2.live, pk, sign, acceptLegacy)
            && Covers(r.client.live, pk, sign, acceptLegacy)
            && |c2.history| <= |r.client.history|
            && c2.history == r.client.history[..|c2.history|]
            && CoveredSince(r.client, |c2.history|, pk, sign, acceptLegacy)
  {
    var sign := targets[pk].signPubkey;
    var (gift, kind14) := LiveChatFilters(targets.Keys, SignKeys(targets), acceptLegacy);
    var (c1, giftId) := GiftStep(gift, c);
    assert c1.nextId in c2.live && c2.live[c1.nextId] == kind14;
    if acceptLegacy {
      assert c.nextId in c2.live && c2.live[c.nextId] == gift.value;
    }
    ClosedKeepsCover(c2, None, true, c1.nextId, giftId, pk, sign, acceptLegacy);
    var c3 := Closed(c2, subs.giftwrap, env.dropGiftOk);
    ClosedKeepsCover(c2, subs.giftwrap, env.dropGiftOk, c1.nextId, giftId, pk, sign, acceptLegacy);
    ClosedKeepsCover(c3, subs.kind14, env.dropKind14Ok, c1.nextId, giftId, pk, sign, acceptLegacy);
  }

  /** Make-before-break. Whatever calls fail, a tracked chat that was covered before a rebuild is covered
      by every set of open subscriptions the rebuild goes through. */
  lemma MakeBeforeBreak(targets: map<PublicKey, ChatTarget>, subs: Subs, c: Client, acceptLegacy: bool, env: ResubEnv,
                        pk: PublicKey)
    requires ValidClient(c, subs) && pk in targets
    requires Covers(c.live, pk, targets[pk].signPubkey, acceptLegacy)
    ensures var r := Rebuild(targets, subs, c, acceptLegacy, env);
            && |c.history| <= |r.client.history|
            && CoveredSince(r.client, |c.history|, pk, targets[pk].signPubkey, acceptLegacy)
            && Covers(r.client.live, pk, targets[pk].signPubkey, acceptLegacy)
  {
    var sign := targets[pk].signPubkey;
    var (gift, kind14) := LiveChatFilters(targets.Keys, SignKeys(targets), acceptLegacy);
    if gift.Some? && !env.giftOk {
    } else {
      var (c1, giftId) := GiftStep(gift, c);
      if gift.Some? {
        OpenedKeepsCover(c, gift.value, pk, sign, acceptLegacy);
      }
      if !env.kind14Ok {
        if gift.Some? {
          assert c1.live - {c.nextId} == c.live;
        }
      } else {
        OpenedKeepsCover(c1, kind14, pk, sign, acceptLegacy);
        SuccessCovers(targets, subs, c, acceptLegacy, env, pk, Opened(c1, kind14));
      }
    }
  }

  /** A rebuild that fails changes nothing: the recorded ids are as before, and so are the open
      subscriptions once the half-made pair is rolled back. It fails exactly when a needed subscribe
      fails. */
  lemma FailureChangesNothing(targets: map<PublicKey, ChatTarget>, subs: Subs, c: Client, acceptLegacy: bool,
                              env: ResubEnv)
    requires ValidClient(c, subs)
    ensures var r := Rebuild(targets, subs, c, acceptLegacy, env);
            && (!r.ok <==> targets != map[] && (!env.kind14Ok || (acceptLegacy && !env.giftOk)))
            && (!r.ok ==> r.subs == subs)
            && (!r.ok && env.rollbackOk ==> r.client.live == c.live)
  {
    if acceptLegacy {
      var f := Filter(GiftWrap, targets.Keys, {});
      assert Opened(c, f).live - {c.nextId} == c.live;
    }
  }

  /** The ids on record. */
  function Recorded(subs: Subs): set<SubId> {
    (if subs.giftwrap.Some? then {subs.giftwrap.value} else {}) +
    (if subs.kind14.Some? then {subs.kind14.value} else {})
  }

  /** Nothing is open but what is on record, and what is on record filters exactly the tracked keys. */
  ghost predicate Exact(targets: map<PublicKey, ChatTarget>, subs: Subs, c: Client, acceptLegacy: bool) {
    && c.live.Keys == Recorded(subs)
    && (targets == map[] ==> subs == Subs(None, None))
    && (targets != map[] ==>
          && subs.kind14.Some?
          && c.live[subs.kind14.value] == Filter(PrivateDirectMessage, {}, SignKeys(targets))
          && (subs.giftwrap.Some? <==> acceptLegacy)
          && (subs.giftwrap.Some? ==>
                && subs.giftwrap != subs.kind14
                && c.live[subs.giftwrap.value] == Filter(GiftWrap, targets.Keys, {})))
  }

  /** A rebuild that succeeds, with its unsubscribes, leaves exactly the recorded subscriptions open, on
      exactly the tracked keys, if before it nothing but the recorded ones was open. */
  lemma SuccessIsExact(targets: map<PublicKey, ChatTarget>, subs: Subs, c: Client, acceptLegacy: bool, env: ResubEnv)
    requires ValidClient(c, subs) && c.live.Keys == Recorded(subs)
    requires Rebuild(targets, subs, c, acceptLegacy, env).ok && env.dropGiftOk && env.dropKind14Ok
    ensures var r := Rebuild(targets, subs, c, acceptLegacy, env);
            Exact(targets, r.subs, r.client, acceptLegacy)
  {
    if targets != map[] {
      var (gift, kind14) := LiveChatFilters(targets.Keys, SignKeys(targets), acceptLegacy);
      var c1 := GiftStep(gift, c).0;
      var c2 := Opened(c1, kind14);
      assert c2.live.Keys == Recorded(subs) + (if acceptLegacy then {c.nextId} else {}) + {c1.nextId};
    }
  }

  lemma RebuildKeepsValid(targets: map<PublicKey, ChatTarget>, subs: Subs, c: Client, acceptLegacy: bool, env: ResubEnv)
    requires ValidClient(c, subs)
    ensures var r := Rebuild(targets, subs, c, acceptLegacy, env); ValidClient(r.client, r.subs)
  {
  }

  // ----- The history misses nothing -----

  /** What was open before the `k`-th set of the history. */
  function Prior(start: map<SubId, Filter>, history: seq<map<SubId, Filter>>, from: nat, k: nat): map<SubId, Filter>
    requires from <= k <= |history|
  {
    if k == from then start else history[k - 1]
  }

  /** Nothing but this subscription was opened or closed. */
  predicate DifferAt(before: map<SubId, Filter>, after: map<SubId, Filter>, id: SubId) {
    before - {id} == after - {id}
  }

  /** From `from` on, every set of open subscriptions in the history comes from the one before by the next of `calls`,
      and the last one is what is open. */
  ghost predicate Unbroken(start: map<SubId, Filter>, c: Client, from: nat, calls: seq<SubId>) {
    && from + |calls| == |c.history|
    && (forall k :: 0 <= k < |calls| ==>
          DifferAt(Prior(start, c.history, from, from + k), c.history[from + k], calls[k]))
    && c.live == Prior(start, c.history, from, |c.history|)
  }

  lemma OneMoreIsUnbroken(start: map<SubId, Filter>, c: Client, from: nat, calls: seq<SubId>, after: Client, id: SubId)
    requires Unbroken(start, c, from, calls) && DifferAt(c.live, after.live, id)
    requires after.history == c.history + [after.live]
    ensures Unbroken(start, after, from, calls + [id])
  {
    forall k | 0 <= k < |calls + [id]|
      ensures DifferAt(Prior(start, after.history, from, from + k), after.history[from + k], (calls + [id])[k])
    {
      assert Prior(start, after.history, from, from + k) == Prior(start, c.history, from, from + k);
      if k < |calls| {
        assert DifferAt(Prior(start, c.history, from, from + k), c.history[from + k], calls[k]);
      }
    }
  }

  lemma OpenedIsUnbroken(start: map<SubId, Filter>, c: Client, from: nat, calls: seq<SubId>, f: Filter)
      returns (more: seq<SubId>)
    requires Unbroken(start, c, from, calls)
    ensures Unbroken(start, Opened(c, f), from, more)
  {
    OneMoreIsUnbroken(start, c, from, calls, Opened(c, f), c.nextId);
    more := calls + [c.nextId];
  }

  lemma ClosedIsUnbroken(start: map<SubId, Filter>, c: Client, from: nat, calls: seq<SubId>, id: Option<SubId>,
                         ok: bool) returns (more: seq<SubId>)
    requires Unbroken(start, c, from, calls)
    ensures Unbroken(start, Closed(c, id, ok), from, more)
  {
    more := calls;
    if id.Some? && ok {
      OneMoreIsUnbroken(start, c, from, calls, Closed(c, id, ok), id.value);
      more := calls + [id.value];
    }
  }

  /** A rebuild makes one call at a time, and the history has the open subscriptions after each of them: so what holds
      of the whole history holds at every moment of the rebuild. */
  lemma OneCallAtATime(targets: map<PublicKey, ChatTarget>, subs: Subs, c: Client, acceptLegacy: bool, env: ResubEnv)
      returns (calls: seq<SubId>)
    ensures var r := Rebuild(targets, subs, c, acceptLegacy, env);
            c.history <= r.client.history && Unbroken(c.live, r.client, |c.history|, calls)
  {
    var from := |c.history|;
    calls := [];
    if targets == map[] {
      calls := ClosedIsUnbroken(c.live, c, from, calls, subs.giftwrap, env.dropGiftOk);
      var c1 := Closed(c, subs.giftwrap, env.dropGiftOk);
      calls := ClosedIsUnbroken(c.live, c1, from, calls, subs.kind14, env.dropKind14Ok);
    } else {
      var (gift, kind14) := LiveChatFilters(targets.Keys, SignKeys(targets), acceptLegacy);
      var (c1, giftId) := GiftStep(gift, c);
      if gift.None? || env.giftOk {
        if gift.Some? {
          calls := OpenedIsUnbroken(c.live, c, from, calls, gift.value);
        }
        if env.kind14Ok {
          calls := OpenedIsUnbroken(c.live, c1, from, calls, kind14);
          var c2 := Opened(c1, kind14);
          calls := ClosedIsUnbroken(c.live, c2, from, calls, subs.giftwrap, env.dropGiftOk);
          var c3 := Closed(c2, subs.giftwrap, env.dropGiftOk);
          calls := ClosedIsUnbroken(c.live, c3, from, calls, subs.kind14, env.dropKind14Ok);
        } else {
          calls := ClosedIsUnbroken(c.live, c1, from, calls, giftId, env.rollbackOk);
        }
      }
    }
  }
}
