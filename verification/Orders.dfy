/** Local order rows (src/models.rs). Trade DMs may update a row but never re-key or create one. */
module Orders {

  import opened Wrappers

  datatype TradeKey = TradeKey(secretHex: string)

  /** An order as Mostro sends it. */
  datatype SmallOrder = SmallOrder(
    id: Option<string>, kind: Option<string>, status: Option<string>, amount: int, fiatCode: string,
    minAmount: Option<int>, maxAmount: Option<int>, fiatAmount: int, paymentMethod: string, premium: int,
    buyerTradePubkey: Option<string>, sellerTradePubkey: Option<string>, buyerInvoice: Option<string>,
    expiresAt: Option<int>)

  /** A row of the orders table; its id is the key of the table. */
  datatype OrderRow = OrderRow(
    kind: Option<string>, status: Option<string>, amount: int, fiatCode: string,
    minAmount: Option<int>, maxAmount: Option<int>, fiatAmount: int, paymentMethod: string, premium: int,
    tradeKeys: Option<TradeKey>, counterpartyPubkey: Option<string>, orderChatKey: Option<string>,
    disputeId: Option<string>, solverPubkey: Option<string>, disputeChatKey: Option<string>,
    isMine: bool, buyerInvoice: Option<string>, requestId: Option<int>, tradeIndex: Option<int>,
    createdAt: Option<int>, expiresAt: Option<int>, lastSeenDmTs: Option<int>)

  type Table = map<string, OrderRow>

  /** The counterparty key and the ECDH secret a trade key and an order determine, if they do. */
  type Counterparty = (TradeKey, SmallOrder) -> Option<(string, string)>

  /** The row `Order::new` writes. */
  function NewRow(small: SmallOrder, keys: TradeKey, requestId: Option<int>, tradeIndex: int, isMaker: bool,
                  now: int): OrderRow
  {
    OrderRow(small.kind, small.status, small.amount, small.fiatCode, small.minAmount, small.maxAmount,
             small.fiatAmount, small.paymentMethod, small.premium, Some(keys), None, None, None, None, None,
             isMaker, small.buyerInvoice, requestId, Some(tradeIndex), Some(now), small.expiresAt, None)
  }

  function OrElse<T>(a: Option<T>, b: Option<T>): Option<T> {
    if a.Some? then a else b
  }

  /** The row a trade DM asks for, given the row there is. */
  function BuildOrder(cp: Counterparty, small: SmallOrder, keys: TradeKey, existing: Option<OrderRow>,
                      requestId: Option<int>, now: int): OrderRow
  {
    var found := cp(keys, small);
    var common := OrderRow(
      small.kind, small.status, small.amount, small.fiatCode, small.minAmount, small.maxAmount,
      small.fiatAmount, small.paymentMethod, small.premium, None,
      if found.Some? then Some(found.value.0) else None, if found.Some? then Some(found.value.1) else None,
      None, None, None, true, small.buyerInvoice, requestId, None, Some(now), small.expiresAt, None);
    match existing
    case None => common
    case Some(e) =>
      common.(tradeKeys := e.tradeKeys, tradeIndex := e.tradeIndex, isMine := e.isMine,
              counterpartyPubkey := if found.Some? then common.counterpartyPubkey else e.counterpartyPubkey,
              orderChatKey := if found.Some? then common.orderChatKey else e.orderChatKey,
              disputeId := e.disputeId, solverPubkey := e.solverPubkey, disputeChatKey := e.disputeChatKey,
              requestId := OrElse(requestId, e.requestId), createdAt := OrElse(e.createdAt, Some(now)),
              lastSeenDmTs := e.lastSeenDmTs)
  }

  /** `UPDATE ... WHERE id = ?` */
  function Updated(table: Table, id: string, row: OrderRow): Table {
    if id in table then table[id := row] else table
  }

  // ----- The upsert, as its two database calls -----

  datatype DmRequest = DmRequest(routedId: string, small: SmallOrder, keys: TradeKey, requestId: Option<int>, now: int)

  /** What the read leaves to be done: fail, overwrite the row, or insert one. */
  datatype Plan = Refuse | Overwrite(id: string, row: OrderRow) | Insert(id: string, row: OrderRow)

  function PlanUpsert(cp: Counterparty, table: Table, r: DmRequest, readOk: bool): Plan {
    if r.small.id.Some? && r.small.id.value != r.routedId then Refuse
    else
      var existing := if readOk then Lookup(table, r.routedId) else None;
      var row := BuildOrder(cp, r.small.(id := Some(r.routedId)), r.keys, existing, r.requestId, r.now);
      if existing.Some? then Overwrite(r.routedId, row)
      else if row.tradeIndex.None? then Refuse
      else Insert(r.routedId, row)
  }

  function Carry(table: Table, plan: Plan): Table {
    match plan
    case Refuse => table
    case Overwrite(id, row) => Updated(table, id, row)
    case Insert(id, row) => table[id := row]
  }

  // ----- Steps: the two halves of each upsert interleave with everything else -----

  datatype Step =
    | ReadDm(task: nat, request: DmRequest, readOk: bool)
    | WriteDm(task: nat)
    | SetStatus(id: string, status: string)
    | SetLastSeen(id: string, ts: int)
    | SetDisputeId(id: string, disputeId: string)
    | SetSolverChat(id: string, solverPubkey: string, sharedKey: string)
    | Save(id: string, small: SmallOrder, keys: TradeKey, requestId: Option<int>, tradeIndex: int, isMaker: bool,
           now: int)

  /** The table, and what each upsert in flight is about to write. */
  datatype State = State(table: Table, plans: map<nat, Plan>)

  /** The newest timestamp. */
  function Newest(seen: Option<int>, ts: int): Option<int> {
    if seen.None? || ts > seen.value then Some(ts) else seen
  }

  function After1(cp: Counterparty, s: State, step: Step): State {
    match step
    case ReadDm(task, request, readOk) => s.(plans := s.plans[task := PlanUpsert(cp, s.table, request, readOk)])
    case WriteDm(task) =>
      if task !in s.plans then s else State(Carry(s.table, s.plans[task]), s.plans - {task})
    case SetStatus(id, status) =>
      if id !in s.table then s else s.(table := s.table[id := s.table[id].(status := Some(status))])
    case SetLastSeen(id, ts) =>
      if id !in s.table then s
      else s.(table := s.table[id := s.table[id].(lastSeenDmTs := Newest(s.table[id].lastSeenDmTs, ts))])
    case SetDisputeId(id, disputeId) =>
      if id !in s.table then s else s.(table := s.table[id := s.table[id].(disputeId := Some(disputeId))])
    case SetSolverChat(id, solver, key) =>
      if id !in s.table then s
      else s.(table := s.table[id := s.table[id].(solverPubkey := Some(solver), disputeChatKey := Some(key))])
    case Save(id, small, keys, requestId, tradeIndex, isMaker, now) =>
      if tradeIndex <= 0 then s
      else s.(table := s.table[id := NewRow(small, keys, requestId, tradeIndex, isMaker, now)])
  }

  function Run(cp: Counterparty, s: State, steps: seq<Step>): State {
    if steps == [] then s else After1(cp, Run(cp, s, steps[..|steps| - 1]), steps[|steps| - 1])
  }

  // ----- The program -----

  class OrderTable {
    const cp: Counterparty
    var rows: Table

    constructor (cp: Counterparty, rows: Table)
      ensures this.cp == cp && this.rows == rows
    {
      this.cp := cp;
      this.rows := rows;
    }

    method Update(id: string, row: OrderRow)
      modifies this
      ensures rows == Updated(old(rows), id, row)
    {
      if id in rows {
        rows := rows[id := row];
      }
    }

    /** Insert, or update when the id is taken. A reservation index is always positive. */
    method New(id: string, small: SmallOrder, keys: TradeKey, requestId: Option<int>, tradeIndex: int, isMaker: bool,
               now: int)
      returns (saved: bool)
      modifies this
      ensures saved <==> tradeIndex > 0
      ensures var save := Save(id, small, keys, requestId, tradeIndex, isMaker, now);
              rows == After1(cp, State(old(rows), map[]), save).table
    {
      if tradeIndex <= 0 {
        return false;
      }
      var row := NewRow(small, keys, requestId, tradeIndex, isMaker, now);
      if id in rows {
        Update(id, row);
      } else {
        rows := rows[id := row];
      }
      saved := true;
    }

    /** One upsert that nothing interleaves with. It succeeds exactly when the row exists and the payload names
        no other order. */
    method UpsertFromDm(r: DmRequest, readOk: bool) returns (ok: bool)
      modifies this
      ensures rows == Carry(old(rows), PlanUpsert(cp, old(rows), r, readOk))
      ensures ok <==> readOk && r.routedId in old(rows) && (r.small.id.None? || r.small.id.value == r.routedId)
      ensures !ok ==> rows == old(rows)
    {
      if r.small.id.Some? && r.small.id.value != r.routedId {
        return false;
      }
      var existing := if readOk then Lookup(rows, r.routedId) else None;
      var row := BuildOrder(cp, r.small.(id := Some(r.routedId)), r.keys, existing, r.requestId, r.now);
      if existing.Some? {
        Update(r.routedId, row);
        return true;
      }
      if row.tradeIndex.None? {
        return false;
      }
      assert false;
    }

    method UpdateStatus(id: string, status: string)
      modifies this
      ensures rows == After1(cp, State(old(rows), map[]), SetStatus(id, status)).table
    {
      if id in rows {
        rows := rows[id := rows[id].(status := Some(status))];
      }
    }

    method UpdateLastSeenDmTs(id: string, ts: int)
      modifies this
      ensures rows == After1(cp, State(old(rows), map[]), SetLastSeen(id, ts)).table
    {
      if id in rows {
        var seen := rows[id].lastSeenDmTs;
        if seen.None? || ts > seen.value {
          rows := rows[id := rows[id].(lastSeenDmTs := Some(ts))];
        } else {
          assert rows[id := rows[id].(lastSeenDmTs := seen)] == rows;
        }
      }
    }
  }

  // ----- Never re-keyed, never created -----

  /** What binds a row to its trade. */
  predicate SameIdentity(a: OrderRow, b: OrderRow) {
    a.tradeKeys == b.tradeKeys && a.tradeIndex == b.tradeIndex && a.isMine == b.isMine
  }

  predicate PlanKeepsIdentity(table: Table, plan: Plan) {
    match plan
    case Refuse => true
    case Overwrite(id, row) => id in table && SameIdentity(row, table[id])
    case Insert(_, _) => false
  }

  /** A DM for an order without a row is always refused: the branch that would insert one is dead, because a
      row built from nothing has no trade index. */
  lemma DmNeverInserts(cp: Counterparty, table: Table, r: DmRequest, readOk: bool)
    ensures PlanKeepsIdentity(table, PlanUpsert(cp, table, r, readOk))
    ensures PlanUpsert(cp, table, r, readOk) == Refuse
       <==> !readOk || r.routedId !in table || (r.small.id.Some? && r.small.id.value != r.routedId)
  {
  }

  /** No upsert in flight is about to insert a row. */
  predicate NeverInserts(s: State) {
    forall task :: task in s.plans ==> !s.plans[task].Insert?
  }

  /** The ids that were saved. */
  function SavedIds(steps: seq<Step>): set<string> {
    set n | 0 <= n < |steps| && steps[n].Save? && steps[n].tradeIndex > 0 :: steps[n].id
  }

  /** Over any interleaving, the rows there are were there before or were saved: no DM creates one. */
  lemma {:induction false} DmsCreateNoRows(cp: Counterparty, table: Table, steps: seq<Step>)
    ensures var s := Run(cp, State(table, map[]), steps);
            NeverInserts(s) && s.table.Keys == table.Keys + SavedIds(steps)
  {
    if steps != [] {
      var n := |steps| - 1;
      DmsCreateNoRows(cp, table, steps[..n]);
      SavedIdsPush(steps[..n], steps[n]);
      assert steps == steps[..n] + [steps[n]];
      StepKeepsRows(cp, Run(cp, State(table, map[]), steps[..n]), steps[n]);
    }
  }

  lemma StepKeepsRows(cp: Counterparty, s: State, step: Step)
    requires NeverInserts(s)
    ensures NeverInserts(After1(cp, s, step))
    ensures After1(cp, s, step).table.Keys
         == s.table.Keys + if step.Save? && step.tradeIndex > 0 then {step.id} else {}
  {
    match step
    case ReadDm(_, request, readOk) => DmNeverInserts(cp, s.table, request, readOk);
    case _ =>
  }

  lemma SavedIdsPush(steps: seq<Step>, step: Step)
    ensures SavedIds(steps + [step]) == SavedIds(steps) + if step.Save? && step.tradeIndex > 0 then {step.id} else {}
  {
    var all := steps + [step];
    assert forall n :: 0 <= n < |steps| ==> all[n] == steps[n];
    assert all[|steps|] == step;
    forall id | id in SavedIds(steps)
      ensures id in SavedIds(all)
    {
      var n :| 0 <= n < |steps| && steps[n].Save? && steps[n].tradeIndex > 0 && steps[n].id == id;
      assert all[n].id == id;
    }
  }

  // ----- What a row keeps while upserts are in flight -----

  /** The columns that belong to this client and not to the order, each with the steps that write it. */
  datatype Column = Identity | LastSeen | Dispute | Solver

  predicate Agree(c: Column, a: OrderRow, b: OrderRow) {
    match c
    case Identity => SameIdentity(a, b)
    case LastSeen => a.lastSeenDmTs == b.lastSeenDmTs
    case Dispute => a.disputeId == b.disputeId
    case Solver => a.solverPubkey == b.solverPubkey && a.disputeChatKey == b.disputeChatKey
  }

  predicate Writes(c: Column, step: Step, id: string) {
    || (step.Save? && step.id == id && step.tradeIndex > 0)
    || (c == LastSeen && step.SetLastSeen? && step.id == id)
    || (c == Dispute && step.SetDisputeId? && step.id == id)
    || (c == Solver && step.SetSolverChat? && step.id == id)
  }

  /** `task` is about to overwrite the row at `id`. */
  predicate InFlight(s: State, task: nat, id: string) {
    task in s.plans && s.plans[task].Overwrite? && s.plans[task].id == id
  }

  /** Every upsert in flight on `id` writes back what the row holds. */
  ghost predicate PlansAgree(c: Column, s: State, id: string)
    requires id in s.table
  {
    forall task :: InFlight(s, task, id) ==> Agree(c, s.plans[task].row, s.table[id])
  }

  lemma RunOfOne(cp: Counterparty, s: State, step: Step)
    ensures Run(cp, s, [step]) == After1(cp, s, step)
  {
    assert [step][..0] == [];
  }

  ghost predicate NeverWrites(c: Column, steps: seq<Step>, id: string) {
    forall n :: 0 <= n < |steps| ==> !Writes(c, steps[n], id)
  }

  lemma StepKeepsColumn(cp: Counterparty, c: Column, s: State, step: Step, id: string)
    requires id in s.table && NeverInserts(s) && PlansAgree(c, s, id) && !Writes(c, step, id)
    ensures var after := After1(cp, s, step);
            && NeverInserts(after) && id in after.table && Agree(c, after.table[id], s.table[id])
            && PlansAgree(c, after, id)
  {
    StepKeepsRows(cp, s, step);
    match step
    case ReadDm(task, r, readOk) =>
      PlanAgrees(cp, c, s.table, r, readOk);
      assert forall other :: InFlight(After1(cp, s, step), other, id) ==> other == task || InFlight(s, other, id);
    case WriteDm(_) =>
      assert forall other :: InFlight(After1(cp, s, step), other, id) ==> InFlight(s, other, id);
    case _ => UpdateKeepsColumn(cp, c, s, step, id);
  }

  lemma UpdateKeepsColumn(cp: Counterparty, c: Column, s: State, step: Step, id: string)
    requires id in s.table && !Writes(c, step, id) && !step.ReadDm? && !step.WriteDm?
    ensures var after := After1(cp, s, step);
            after.plans == s.plans && id in after.table && Agree(c, after.table[id], s.table[id])
  {
  }

  lemma PlanAgrees(cp: Counterparty, c: Column, table: Table, r: DmRequest, readOk: bool)
    ensures var plan := PlanUpsert(cp, table, r, readOk);
            plan.Overwrite? ==> plan.id in table && Agree(c, plan.row, table[plan.id])
  {
  }

  lemma {:induction false} RunKeepsColumn(cp: Counterparty, c: Column, s: State, steps: seq<Step>, id: string)
    requires id in s.table && NeverInserts(s) && PlansAgree(c, s, id) && NeverWrites(c, steps, id)
    ensures var after := Run(cp, s, steps);
            && NeverInserts(after) && id in after.table && Agree(c, after.table[id], s.table[id])
            && PlansAgree(c, after, id)
  {
    if steps != [] {
      var n := |steps| - 1;
      assert !Writes(c, steps[n], id);
      RunKeepsColumn(cp, c, s, steps[..n], id);
      StepKeepsColumn(cp, c, Run(cp, s, steps[..n]), steps[n], id);
    }
  }

  /** A row's own columns survive everything that does not write them, if and only if the upserts in flight read
      the row as it is now. Upserts that start later never matter, whatever they interleave with. */
  lemma ColumnSurvivesIff(cp: Counterparty, c: Column, s: State, id: string)
    requires id in s.table && NeverInserts(s)
    ensures (forall steps :: NeverWrites(c, steps, id) ==>
                id in Run(cp, s, steps).table && Agree(c, Run(cp, s, steps).table[id], s.table[id]))
       <==> PlansAgree(c, s, id)
  {
    if PlansAgree(c, s, id) {
      forall steps | NeverWrites(c, steps, id)
        ensures id in Run(cp, s, steps).table && Agree(c, Run(cp, s, steps).table[id], s.table[id])
      {
        RunKeepsColumn(cp, c, s, steps, id);
      }
    } else {
      var task :| InFlight(s, task, id) && !Agree(c, s.plans[task].row, s.table[id]);
      RunOfOne(cp, s, WriteDm(task));
      assert NeverWrites(c, [WriteDm(task)], id);
      assert !Agree(c, Run(cp, s, [WriteDm(task)]).table[id], s.table[id]);
    }
  }

  // ----- Schedules under which upserts lose nothing -----

  /** The upserts that have read and not yet written, and the orders they were routed to. */
  function Unwritten(steps: seq<Step>): map<nat, string> {
    if steps == [] then map[]
    else
      var n := |steps| - 1;
      match steps[n]
      case ReadDm(task, request, _) => Unwritten(steps[..n])[task := request.routedId]
      case WriteDm(task) => Unwritten(steps[..n]) - {task}
      case _ => Unwritten(steps[..n])
  }

  /** No step writes the column of the row at `id` between the read and the write of an upsert of that order. */
  predicate Undisturbed(c: Column, steps: seq<Step>, id: string) {
    forall n :: 0 <= n < |steps| && Writes(c, steps[n], id) ==> id !in Unwritten(steps[..n]).Values
  }

  /** The steps that write the column, alone. */
  function Writers(c: Column, steps: seq<Step>, id: string): seq<Step> {
    if steps == [] then []
    else
      var n := |steps| - 1;
      if Writes(c, steps[n], id) then Writers(c, steps[..n], id) + [steps[n]] else Writers(c, steps[..n], id)
  }

  /** The upserts in flight are among the unwritten ones. */
  predicate Accounted(s: State, unwritten: map<nat, string>) {
    forall task :: task in s.plans && s.plans[task].Overwrite? ==>
      task in unwritten && unwritten[task] == s.plans[task].id
  }

  lemma {:induction false} RunAccounted(cp: Counterparty, table: Table, steps: seq<Step>)
    ensures Accounted(Run(cp, State(table, map[]), steps), Unwritten(steps))
  {
    if steps != [] {
      RunAccounted(cp, table, steps[..|steps| - 1]);
    }
  }

  lemma RunPush(cp: Counterparty, s: State, steps: seq<Step>, step: Step)
    ensures Run(cp, s, steps + [step]) == After1(cp, Run(cp, s, steps), step)
  {
    assert (steps + [step])[..|steps|] == steps;
  }

  /** Upserts do not interfere: over any run in which no step writes a column of the row at `id` in the midst of an
      upsert of that order, the row ends with the column that those steps give it when they run alone. */
  lemma {:induction false} UpsertsDoNotInterfere(cp: Counterparty, c: Column, table: Table, steps: seq<Step>,
                                                 id: string)
    requires Undisturbed(c, steps, id)
    ensures var s, alone := Run(cp, State(table, map[]), steps), Run(cp, State(table, map[]), Writers(c, steps, id));
            && NeverInserts(s) && alone.plans == map[]
            && (id in s.table <==> id in alone.table)
            && (id in s.table ==> PlansAgree(c, s, id) && Agree(c, s.table[id], alone.table[id]))
  {
    if steps != [] {
      var n := |steps| - 1;
      forall k | 0 <= k < n && Writes(c, steps[..n][k], id)
        ensures id !in Unwritten(steps[..n][..k]).Values
      {
        assert steps[..n][..k] == steps[..k];
      }
      UpsertsDoNotInterfere(cp, c, table, steps[..n], id);
      var s, writers := Run(cp, State(table, map[]), steps[..n]), Writers(c, steps[..n], id);
      if Writes(c, steps[n], id) {
        RunAccounted(cp, table, steps[..n]);
        NoneInFlight(s, Unwritten(steps[..n]), id);
        RunPush(cp, State(table, map[]), writers, steps[n]);
        WriterActsAlike(cp, c, s, Run(cp, State(table, map[]), writers), steps[n], id);
      } else if id in s.table {
        StepKeepsColumn(cp, c, s, steps[n], id);
      } else {
        StepKeepsAbsent(cp, c, s, steps[n], id);
      }
    }
  }

  lemma NoneInFlight(s: State, unwritten: map<nat, string>, id: string)
    requires Accounted(s, unwritten) && id !in unwritten.Values
    ensures forall task :: !InFlight(s, task, id)
  {
  }

  /** A step that writes the column does the same to both rows. */
  lemma WriterActsAlike(cp: Counterparty, c: Column, s: State, alone: State, step: Step, id: string)
    requires Writes(c, step, id) && NeverInserts(s) && forall task :: !InFlight(s, task, id)
    requires id in s.table <==> id in alone.table
    requires id in s.table ==> Agree(c, s.table[id], alone.table[id])
    ensures var s', alone' := After1(cp, s, step), After1(cp, alone, step);
            && NeverInserts(s') && alone'.plans == alone.plans
            && (id in s'.table <==> id in alone'.table)
            && (id in s'.table ==> PlansAgree(c, s', id) && Agree(c, s'.table[id], alone'.table[id]))
  {
    assert After1(cp, s, step).plans == s.plans;
    forall task
      ensures !InFlight(After1(cp, s, step), task, id)
    {
      assert !InFlight(s, task, id);
    }
  }

  lemma StepKeepsAbsent(cp: Counterparty, c: Column, s: State, step: Step, id: string)
    requires NeverInserts(s) && id !in s.table && !Writes(c, step, id)
    ensures NeverInserts(After1(cp, s, step)) && id !in After1(cp, s, step).table
  {
    if step.ReadDm? {
      DmNeverInserts(cp, s.table, step.request, step.readOk);
    }
  }

  lemma {:induction false} NoWriters(c: Column, steps: seq<Step>, id: string)
    requires NeverWrites(c, steps, id)
    ensures Writers(c, steps, id) == [] && Undisturbed(c, steps, id)
  {
    if steps != [] {
      var n := |steps| - 1;
      assert !Writes(c, steps[n], id);
      NoWriters(c, steps[..n], id);
    }
  }

  /** So DMs never re-key a row: while it is not saved anew, its trade keys, trade index and maker flag are fixed
      over any interleaving of upserts and updates. */
  lemma RunKeepsIdentity(cp: Counterparty, table: Table, steps: seq<Step>, id: string)
    requires id in table && NeverWrites(Identity, steps, id)
    ensures var after := Run(cp, State(table, map[]), steps).table;
            id in after && SameIdentity(after[id], table[id])
  {
    NoWriters(Identity, steps, id);
    UpsertsDoNotInterfere(cp, Identity, table, steps, id);
  }

  // ----- A payload for another order -----

  predicate OfTask(step: Step, task: nat) {
    (step.ReadDm? || step.WriteDm?) && step.task == task
  }

  /** A payload that names another order changes nothing: whatever runs while it is carried out ends in the table
      it would have ended in without it. */
  lemma {:induction false} MismatchedPayloadChangesNothing(cp: Counterparty, s: State, task: nat, r: DmRequest,
                                                           readOk: bool, others: seq<Step>)
    requires r.small.id.Some? && r.small.id.value != r.routedId && task !in s.plans
    requires forall n :: 0 <= n < |others| ==> !OfTask(others[n], task)
    ensures var with := Run(cp, After1(cp, s, ReadDm(task, r, readOk)), others);
            && with == Run(cp, s, others).(plans := Run(cp, s, others).plans[task := Refuse])
            && task !in Run(cp, s, others).plans
            && After1(cp, with, WriteDm(task)) == Run(cp, s, others)
  {
    if others != [] {
      var n := |others| - 1;
      assert !OfTask(others[n], task);
      MismatchedPayloadChangesNothing(cp, s, task, r, readOk, others[..n]);
      RefusalCommutes(cp, Run(cp, s, others[..n]), task, others[n]);
    }
    var without := Run(cp, s, others);
    assert without.plans[task := Refuse] - {task} == without.plans;
  }

  lemma RefusalCommutes(cp: Counterparty, s: State, task: nat, step: Step)
    requires task !in s.plans && !OfTask(step, task)
    ensures var after := After1(cp, s, step);
            && task !in after.plans
            && After1(cp, s.(plans := s.plans[task := Refuse]), step) == after.(plans := after.plans[task := Refuse])
  {
    match step
    case ReadDm(other, r, readOk) =>
      var plan := PlanUpsert(cp, s.table, r, readOk);
      assert s.plans[task := Refuse][other := plan] == s.plans[other := plan][task := Refuse];
    case WriteDm(other) =>
      assert s.plans[task := Refuse] - {other} == (s.plans - {other})[task := Refuse];
    case _ =>
  }

  // ----- What a DM writes -----

  /** A row as the order itself describes it, without what is local to this client. */
  function Described(row: OrderRow): OrderRow {
    row.(tradeKeys := None, counterpartyPubkey := None, orderChatKey := None, disputeId := None, solverPubkey := None,
         disputeChatKey := None, isMine := false, requestId := None, tradeIndex := None, createdAt := None,
         lastSeenDmTs := None)
  }

  /** A DM and a save write the same description of the same order, whatever row a DM finds. */
  lemma DmAndSaveDescribeAlike(cp: Counterparty, small: SmallOrder, keys: TradeKey, existing: Option<OrderRow>,
                               requestId: Option<int>, index: int, isMaker: bool, now: int)
    ensures Described(BuildOrder(cp, small, keys, existing, requestId, now))
         == Described(NewRow(small, keys, requestId, index, isMaker, now))
  {
  }

  /** Until a DM arrives the row is what was saved; a DM that repeats the saved order leaves it exactly as it was if
      and only if it resolves no counterparty and carries no other request id. */
  lemma RepeatedOrderChangesNothing(cp: Counterparty, small: SmallOrder, keys: TradeKey, other: TradeKey,
                                    requestId: Option<int>, later: Option<int>, index: int, isMaker: bool, now: int,
                                    laterNow: int)
    ensures var row := NewRow(small, keys, requestId, index, isMaker, now);
            (BuildOrder(cp, small, other, Some(row), later, laterNow) == row
             <==> cp(other, small).None? && (later.None? || later == requestId))
  {
  }

  // ----- Last seen -----

  /** The newest timestamp applied to the row at `id` since it was last saved. */
  function NewestApplied(initial: Option<int>, steps: seq<Step>, id: string): Option<int> {
    if steps == [] then initial
    else
      var n := |steps| - 1;
      var before := NewestApplied(initial, steps[..n], id);
      if Writes(LastSeen, steps[n], id) then Applied(before, steps[n]) else before
  }

  /** A save starts anew, an update keeps the newer timestamp. */
  function Applied(seen: Option<int>, step: Step): Option<int>
    requires step.Save? || step.SetLastSeen?
  {
    if step.Save? then None else Newest(seen, step.ts)
  }

  /** While the row is not saved anew, that is the maximum of what the row began with and all timestamps applied. */
  lemma {:induction false} NewestIsMaximum(initial: Option<int>, steps: seq<Step>, id: string)
    requires NeverWrites(Identity, steps, id)
    ensures var r := NewestApplied(initial, steps, id);
            && (initial.Some? ==> r.Some? && r.value >= initial.value)
            && (forall n :: 0 <= n < |steps| && steps[n].SetLastSeen? && steps[n].id == id ==>
                  r.Some? && r.value >= steps[n].ts)
            && (r == initial
                || exists n :: 0 <= n < |steps| && steps[n].SetLastSeen? && steps[n].id == id && r == Some(steps[n].ts))
  {
    if steps != [] {
      var last := |steps| - 1;
      var before := NewestApplied(initial, steps[..last], id);
      assert !Writes(Identity, steps[last], id);
      NewestIsMaximum(initial, steps[..last], id);
      forall n | 0 <= n < |steps| && steps[n].SetLastSeen? && steps[n].id == id
        ensures NewestApplied(initial, steps, id).Some? && NewestApplied(initial, steps, id).value >= steps[n].ts
      {
        if n < last {
          assert steps[..last][n] == steps[n];
        }
      }
    }
  }

  lemma WriterApplies(cp: Counterparty, s: State, step: Step, id: string)
    requires id in s.table && Writes(LastSeen, step, id)
    ensures var after := After1(cp, s, step).table;
            id in after && after[id].lastSeenDmTs == Applied(s.table[id].lastSeenDmTs, step)
  {
  }

  lemma {:induction false} WritersApply(cp: Counterparty, table: Table, steps: seq<Step>, id: string)
    requires id in table
    ensures var alone := Run(cp, State(table, map[]), Writers(LastSeen, steps, id)).table;
            id in alone && alone[id].lastSeenDmTs == NewestApplied(table[id].lastSeenDmTs, steps, id)
  {
    if steps != [] {
      var n := |steps| - 1;
      var writers := Writers(LastSeen, steps[..n], id);
      WritersApply(cp, table, steps[..n], id);
      if Writes(LastSeen, steps[n], id) {
        RunPush(cp, State(table, map[]), writers, steps[n]);
        WriterApplies(cp, Run(cp, State(table, map[]), writers), steps[n], id);
      }
    }
  }

  /** Last seen is the newest timestamp applied since the row was last saved, over every run in which no last-seen
      update or save of the order falls between the read and the write of one of its upserts. */
  lemma LastSeenIsNewest(cp: Counterparty, table: Table, steps: seq<Step>, id: string)
    requires id in table && Undisturbed(LastSeen, steps, id)
    ensures var after := Run(cp, State(table, map[]), steps).table;
            id in after && after[id].lastSeenDmTs == NewestApplied(table[id].lastSeenDmTs, steps, id)
  {
    UpsertsDoNotInterfere(cp, LastSeen, table, steps, id);
    WritersApply(cp, table, steps, id);
  }

  lemma ThreeSteps(cp: Counterparty, s: State, a: Step, b: Step, c: Step)
    ensures Run(cp, s, [a, b, c]) == After1(cp, After1(cp, After1(cp, s, a), b), c)
  {
    assert [a, b, c][..2] == [a, b] && [a, b][..1] == [a] && [a][..0] == [];
    assert Run(cp, s, [a]) == After1(cp, s, a) && Run(cp, s, [a, b]) == After1(cp, After1(cp, s, a), b);
  }

  predicate IsAccepted(table: Table, r: DmRequest) {
    r.routedId in table && (r.small.id.None? || r.small.id.value == r.routedId)
  }

  /** A last-seen update between the two database calls of an upsert is lost, unless the row already held a
      timestamp at least as new. */
  lemma InterleavedUpdateIsLost(cp: Counterparty, table: Table, r: DmRequest, ts: int)
    requires IsAccepted(table, r)
    ensures var s := Run(cp, State(table, map[]), [ReadDm(0, r, true), SetLastSeen(r.routedId, ts), WriteDm(0)]);
            var seen := table[r.routedId].lastSeenDmTs;
            && r.routedId in s.table && s.table[r.routedId].lastSeenDmTs == seen
            && (s.table[r.routedId].lastSeenDmTs == Newest(seen, ts) <==> seen.Some? && seen.value >= ts)
  {
    ThreeSteps(cp, State(table, map[]), ReadDm(0, r, true), SetLastSeen(r.routedId, ts), WriteDm(0));
  }

  /** A save between the two database calls of an upsert is undone: the row gets back the trade keys, trade index and
      maker flag it had before, so it keeps those of the save exactly when they are the same. */
  lemma InterleavedSaveIsUndone(cp: Counterparty, table: Table, r: DmRequest, save: Step)
    requires IsAccepted(table, r) && save.Save? && save.id == r.routedId && save.tradeIndex > 0
    ensures var s := Run(cp, State(table, map[]), [ReadDm(0, r, true), save, WriteDm(0)]);
            var saved := NewRow(save.small, save.keys, save.requestId, save.tradeIndex, save.isMaker, save.now);
            && save.id in s.table && SameIdentity(s.table[save.id], table[save.id])
            && (SameIdentity(s.table[save.id], saved) <==> SameIdentity(table[save.id], saved))
  {
    ThreeSteps(cp, State(table, map[]), ReadDm(0, r, true), save, WriteDm(0));
  }

  // ----- What each write writes -----

  /** The order's own columns, as the order says. */
  predicate Describes(row: OrderRow, small: SmallOrder) {
    && row.kind == small.kind && row.status == small.status && row.amount == small.amount
    && row.fiatCode == small.fiatCode && row.minAmount == small.minAmount && row.maxAmount == small.maxAmount
    && row.fiatAmount == small.fiatAmount && row.paymentMethod == small.paymentMethod && row.premium == small.premium
    && row.buyerInvoice == small.buyerInvoice && row.expiresAt == small.expiresAt
  }

  /** What the counterparty and its chat are once a DM has been taken in. */
  function ResolvedPair(cp: Counterparty, r: DmRequest, before: (Option<string>, Option<string>))
    : (Option<string>, Option<string>)
  {
    match cp(r.keys, r.small.(id := Some(r.routedId)))
    case Some((pubkey, secret)) => (Some(pubkey), Some(secret))
    case None => before
  }

  function PairOf(row: OrderRow): (Option<string>, Option<string>) {
    (row.counterpartyPubkey, row.orderChatKey)
  }

  /** An accepted upsert that nothing interleaves with: the row describes the order as the DM does, has the counterparty
      key and chat secret the DM determines, or the ones it had, and keeps everything that is local. Every other row
      stays. */
  lemma UpsertWrites(cp: Counterparty, table: Table, r: DmRequest)
    requires IsAccepted(table, r)
    ensures var after := Carry(table, PlanUpsert(cp, table, r, true));
            && after.Keys == table.Keys
            && (forall id :: id in table && id != r.routedId ==> after[id] == table[id])
            && var before, row := table[r.routedId], after[r.routedId];
               && Describes(row, r.small) && PairOf(row) == ResolvedPair(cp, r, PairOf(before))
               && SameIdentity(row, before) && row.disputeId == before.disputeId
               && row.solverPubkey == before.solverPubkey && row.disputeChatKey == before.disputeChatKey
               && row.lastSeenDmTs == before.lastSeenDmTs
               && row.requestId == (if r.requestId.Some? then r.requestId else before.requestId)
               && row.createdAt == (if before.createdAt.Some? then before.createdAt else Some(r.now))
  {
  }

  /** A save that is not refused writes the order, the caller's keys, index and role, and nothing else. */
  lemma SaveWrites(cp: Counterparty, s: State, save: Step)
    requires save.Save?
    ensures var after := After1(cp, s, save);
            && after.plans == s.plans
            && (save.tradeIndex <= 0 ==> after.table == s.table)
            && (save.tradeIndex > 0 ==>
                  && after.table.Keys == s.table.Keys + {save.id}
                  && (forall id :: id in s.table && id != save.id ==> after.table[id] == s.table[id])
                  && var row := after.table[save.id];
                     && Describes(row, save.small) && PairOf(row) == (None, None)
                     && row.tradeKeys == Some(save.keys) && row.tradeIndex == Some(save.tradeIndex)
                     && row.isMine == save.isMaker && row.requestId == save.requestId
                     && row.createdAt == Some(save.now) && row.lastSeenDmTs == None && row.disputeId == None
                     && row.solverPubkey == None && row.disputeChatKey == None)
  {
  }

  /** Each update sets its own columns of one row, if the row is there, and nothing else. */
  lemma UpdatesWrite(cp: Counterparty, s: State, id: string, status: string, ts: int, disputeId: string, solver: string,
                     key: string)
    ensures id !in s.table ==>
              && After1(cp, s, SetStatus(id, status)) == After1(cp, s, SetLastSeen(id, ts)) == s
              && After1(cp, s, SetDisputeId(id, disputeId)) == After1(cp, s, SetSolverChat(id, solver, key)) == s
    ensures id in s.table ==>
              var row := s.table[id];
              var isOld := row.lastSeenDmTs.Some? && row.lastSeenDmTs.value >= ts;
              var newest := if isOld then row.lastSeenDmTs else Some(ts);
              && After1(cp, s, SetStatus(id, status)) == s.(table := s.table[id := row.(status := Some(status))])
              && After1(cp, s, SetLastSeen(id, ts)) == s.(table := s.table[id := row.(lastSeenDmTs := newest)])
              && After1(cp, s, SetDisputeId(id, disputeId))
              == s.(table := s.table[id := row.(disputeId := Some(disputeId))])
              && After1(cp, s, SetSolverChat(id, solver, key))
              == s.(table := s.table[id := row.(solverPubkey := Some(solver), disputeChatKey := Some(key))])
  {
  }

  // ----- The counterparty over runs -----

  /** The upserts that have read and not yet written, with what they were asked. */
  function Requests(steps: seq<Step>): map<nat, (DmRequest, bool)> {
    if steps == [] then map[]
    else
      var n := |steps| - 1;
      match steps[n]
      case ReadDm(task, request, readOk) => Requests(steps[..n])[task := (request, readOk)]
      case WriteDm(task) => Requests(steps[..n]) - {task}
      case _ => Requests(steps[..n])
  }

  /** The request is taken in by the order at `id`. */
  predicate TakenIn(asked: (DmRequest, bool), id: string) {
    && asked.1 && asked.0.routedId == id
    && (asked.0.small.id.None? || asked.0.small.id.value == id)
  }

  /** No upsert of the order is written, and the order not saved, while another upsert of it is unwritten. */
  predicate OneAtATime(steps: seq<Step>, id: string) {
    forall n :: 0 <= n < |steps| ==>
      var requests := Requests(steps[..n]);
      match steps[n]
      case WriteDm(task) =>
        task in requests && TakenIn(requests[task], id) ==>
          forall other :: other in requests && other != task ==> !TakenIn(requests[other], id)
      case Save(target, _, _, _, index, _, _) =>
        target == id && index > 0 ==> forall task :: task in requests ==> !TakenIn(requests[task], id)
      case _ => true
  }

  /** The pair the steps leave: a save clears it, a DM taken in replaces it when it determines one. */
  function PairApplied(cp: Counterparty, initial: (Option<string>, Option<string>), steps: seq<Step>, id: string)
    : (Option<string>, Option<string>)
  {
    if steps == [] then initial
    else
      var n := |steps| - 1;
      var before, requests := PairApplied(cp, initial, steps[..n], id), Requests(steps[..n]);
      match steps[n]
      case WriteDm(task) =>
        if task in requests && TakenIn(requests[task], id) then ResolvedPair(cp, requests[task].0, before) else before
      case Save(target, _, _, _, index, _, _) => if target == id && index > 0 then (None, None) else before
      case _ => before
  }

  /** The upserts in flight on `id` are the unwritten ones taken in by it, and each is about to write its pair. */
  ghost predicate PairsPlanned(cp: Counterparty, s: State, requests: map<nat, (DmRequest, bool)>, id: string)
    requires id in s.table
  {
    && (forall task :: InFlight(s, task, id) <==> task in requests && TakenIn(requests[task], id))
    && forall task :: InFlight(s, task, id) ==>
         task in requests && PairOf(s.plans[task].row) == ResolvedPair(cp, requests[task].0, PairOf(s.table[id]))
  }

  lemma PlanPairs(cp: Counterparty, table: Table, r: DmRequest, readOk: bool, id: string)
    requires id in table
    ensures var plan := PlanUpsert(cp, table, r, readOk);
            && ((plan.Overwrite? && plan.id == id) <==> TakenIn((r, readOk), id))
            && (plan.Overwrite? && plan.id == id ==> PairOf(plan.row) == ResolvedPair(cp, r, PairOf(table[id])))
  {
  }

  /** What one step does to the pair at `id`. */
  lemma StepOnPair(cp: Counterparty, s: State, requests: map<nat, (DmRequest, bool)>, step: Step, id: string)
    requires id in s.table && NeverInserts(s) && PairsPlanned(cp, s, requests, id)
    ensures var after := After1(cp, s, step);
            && id in after.table
            && PairOf(after.table[id])
            == match step
               case WriteDm(task) =>
                 if task in requests && TakenIn(requests[task], id)
                 then ResolvedPair(cp, requests[task].0, PairOf(s.table[id])) else PairOf(s.table[id])
               case Save(target, _, _, _, index, _, _) =>
                 if target == id && index > 0 then (None, None) else PairOf(s.table[id])
               case _ => PairOf(s.table[id])
  {
    if step.WriteDm? {
      assert InFlight(s, step.task, id) <==> step.task in requests && TakenIn(requests[step.task], id);
    }
  }

  /** The counterparty key and chat secret of a row are those the last DM that determined any left there since the row
      was saved, over every run in which upserts of that order come one at a time. */
  lemma {:induction false} CounterpartyIsLastResolved(cp: Counterparty, table: Table, steps: seq<Step>, id: string)
    requires id in table && OneAtATime(steps, id)
    ensures var s := Run(cp, State(table, map[]), steps);
            && NeverInserts(s) && id in s.table
            && PairsPlanned(cp, s, Requests(steps), id)
            && PairOf(s.table[id]) == PairApplied(cp, PairOf(table[id]), steps, id)
  {
    if steps != [] {
      var n := |steps| - 1;
      OneAtATimePrefix(steps, n, id);
      CounterpartyIsLastResolved(cp, table, steps[..n], id);
      var s := Run(cp, State(table, map[]), steps[..n]);
      StepKeepsRows(cp, s, steps[n]);
      StepOnPair(cp, s, Requests(steps[..n]), steps[n], id);
      StepKeepsPlanned(cp, s, steps, id);
    }
  }

  lemma OneAtATimePrefix(steps: seq<Step>, n: nat, id: string)
    requires OneAtATime(steps, id) && n <= |steps|
    ensures OneAtATime(steps[..n], id)
  {
    assert forall k :: 0 <= k < n ==> steps[..n][..k] == steps[..k] && steps[..n][k] == steps[k];
  }

  lemma StepKeepsPlanned(cp: Counterparty, s: State, steps: seq<Step>, id: string)
    requires steps != [] && OneAtATime(steps, id)
    requires id in s.table && NeverInserts(s) && PairsPlanned(cp, s, Requests(steps[..|steps| - 1]), id)
    ensures var after := After1(cp, s, steps[|steps| - 1]);
            id in after.table && PairsPlanned(cp, after, Requests(steps), id)
  {
    var n := |steps| - 1;
    var requests, step := Requests(steps[..n]), steps[n];
    StepOnPair(cp, s, requests, step, id);
    match step
    case ReadDm(task, r, readOk) => PlannedByRead(cp, s, requests, task, r, readOk, id);
    case WriteDm(task) => PlannedByWrite(cp, s, requests, task, id);
    case _ => PlannedByOther(cp, s, requests, step, id);
  }

  lemma PlannedByRead(cp: Counterparty, s: State, requests: map<nat, (DmRequest, bool)>, task: nat, r: DmRequest,
                      readOk: bool, id: string)
    requires id in s.table && PairsPlanned(cp, s, requests, id)
    ensures PairsPlanned(cp, After1(cp, s, ReadDm(task, r, readOk)), requests[task := (r, readOk)], id)
  {
    PlanPairs(cp, s.table, r, readOk, id);
    var after := After1(cp, s, ReadDm(task, r, readOk));
    assert forall other ::
        InFlight(after, other, id) <==> if other == task then TakenIn((r, readOk), id) else InFlight(s, other, id);
  }

  lemma PlannedByWrite(cp: Counterparty, s: State, requests: map<nat, (DmRequest, bool)>, task: nat, id: string)
    requires id in s.table && NeverInserts(s) && PairsPlanned(cp, s, requests, id)
    requires task in requests && TakenIn(requests[task], id) ==>
               forall other :: other in requests && other != task ==> !TakenIn(requests[other], id)
    ensures PairsPlanned(cp, After1(cp, s, WriteDm(task)), requests - {task}, id)
  {
    StepOnPair(cp, s, requests, WriteDm(task), id);
    var after := After1(cp, s, WriteDm(task));
    assert forall other :: InFlight(after, other, id) <==> other != task && InFlight(s, other, id);
  }

  lemma PlannedByOther(cp: Counterparty, s: State, requests: map<nat, (DmRequest, bool)>, step: Step, id: string)
    requires id in s.table && NeverInserts(s) && PairsPlanned(cp, s, requests, id)
    requires !step.ReadDm? && !step.WriteDm?
    requires step.Save? && step.id == id && step.tradeIndex > 0 ==>
               forall task :: task in requests ==> !TakenIn(requests[task], id)
    ensures PairsPlanned(cp, After1(cp, s, step), requests, id)
  {
    StepOnPair(cp, s, requests, step, id);
    var after := After1(cp, s, step);
    assert after.plans == s.plans;
    assert forall other :: InFlight(after, other, id) <==> InFlight(s, other, id);
  }
}
