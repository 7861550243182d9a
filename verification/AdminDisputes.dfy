/** Taken disputes and their finality (src/models.rs). */
module AdminDisputes {

  import opened Wrappers

  datatype DisputeStatus = Initiated | InProgress | SellerRefunded | Settled | Released

  function Text(s: DisputeStatus): string {
    match s
    case Initiated => "initiated"
    case InProgress => "in-progress"
    case SellerRefunded => "seller-refunded"
    case Settled => "settled"
    case Released => "released"
  }

  /** A row of admin_disputes; its key is the order id. `details` stands for the columns no step looks at. */
  datatype Row = Row(
    disputeId: string, status: Option<string>, buyerPubkey: Option<string>, sellerPubkey: Option<string>,
    buyerLastSeen: Option<int>, sellerLastSeen: Option<int>, details: string)

  type Table = map<string, Row>

  predicate IsTerminalStatus(status: string) {
    status in {Text(Settled), Text(SellerRefunded), Text(Released)}
  }

  predicate IsFinalized(row: Row) {
    row.status.Some? && IsTerminalStatus(row.status.value)
  }

  /** What a solver learns when taking a dispute. */
  datatype DisputeInfo = DisputeInfo(
    orderId: string, disputeId: string, status: string, buyerPubkey: Option<string>, sellerPubkey: Option<string>,
    details: string)

  function RowOf(info: DisputeInfo): Row {
    Row(info.disputeId, Some(info.status), info.buyerPubkey, info.sellerPubkey, None, None, info.details)
  }

  /** What one take does once its row was looked for: nothing, insert, or overwrite. */
  datatype Take = Refuse | Insert(id: string, row: Row) | Overwrite(id: string, row: Row)

  function PlanTake(table: Table, info: DisputeInfo): Take {
    if info.buyerPubkey.None? || info.sellerPubkey.None? then Refuse
    else if info.orderId !in table then Insert(info.orderId, RowOf(info))
    else if IsFinalized(table[info.orderId]) then Refuse
    else Overwrite(info.orderId, RowOf(info))
  }

  function Carry(table: Table, take: Take): Table {
    match take
    case Refuse => table
    case Insert(id, row) => table[id := row]
    case Overwrite(id, row) => if id in table then table[id := row] else table
  }

  /** Relay events advance rows that are not finalized, found by dispute id. */
  predicate IsAdvanced(row: Row, disputeId: string) {
    row.disputeId == disputeId && !IsFinalized(row)
  }

  function Advanced(table: Table, disputeId: string, status: DisputeStatus): Table {
    map id | id in table ::
      if IsAdvanced(table[id], disputeId) then table[id].(status := Some(Text(status))) else table[id]
  }

  function WithStatus(table: Table, id: string, status: DisputeStatus): Table {
    if id in table then table[id := table[id].(status := Some(Text(status)))] else table
  }

  // ----- Steps -----

  /** `TakeRead` and `TakeWrite` are the two halves of a take that finds its row taken; other tasks may run
      between them. A take of a new order inserts in one statement, in `TakeRead`. */
  datatype Step =
    | TakeRead(task: nat, info: DisputeInfo)
    | TakeWrite(task: nat)
    | RelayStatus(disputeId: string, status: DisputeStatus)
    | AdminSettle(id: string)
    | AdminRefund(id: string)
    | ChatSeen(disputeId: string, ts: int, isBuyer: bool)

  datatype State = State(table: Table, takes: map<nat, Take>)

  function Seen(table: Table, disputeId: string, ts: int, isBuyer: bool): Table {
    map id | id in table ::
      if table[id].disputeId != disputeId then table[id]
      else if isBuyer then table[id].(buyerLastSeen := Some(ts))
      else table[id].(sellerLastSeen := Some(ts))
  }

  function After1(s: State, step: Step): State {
    match step
    case TakeRead(task, info) =>
      var take := PlanTake(s.table, info);
      if take.Overwrite? then s.(takes := s.takes[task := take]) else s.(table := Carry(s.table, take))
    case TakeWrite(task) =>
      if task in s.takes then State(Carry(s.table, s.takes[task]), s.takes - {task}) else s
    case RelayStatus(disputeId, status) => s.(table := Advanced(s.table, disputeId, status))
    case AdminSettle(id) => s.(table := WithStatus(s.table, id, Settled))
    case AdminRefund(id) => s.(table := WithStatus(s.table, id, SellerRefunded))
    case ChatSeen(disputeId, ts, isBuyer) => s.(table := Seen(s.table, disputeId, ts, isBuyer))
  }

  function Run(s: State, steps: seq<Step>): State {
    if steps == [] then s else After1(Run(s, steps[..|steps| - 1]), steps[|steps| - 1])
  }

  // ----- The program -----

  class DisputeTable {
    var rows: Table

    constructor ()
      ensures rows == map[]
    {
      rows := map[];
    }

    /** One take that nothing interleaves with. A finalized row is refused, and left untouched. */
    method New(info: DisputeInfo) returns (ok: bool)
      modifies this
      ensures ok <==> info.buyerPubkey.Some? && info.sellerPubkey.Some?
                      && !(info.orderId in old(rows) && IsFinalized(old(rows)[info.orderId]))
      ensures rows == if ok then old(rows)[info.orderId := RowOf(info)] else old(rows)
      ensures rows == Carry(old(rows), PlanTake(old(rows), info))
    {
      if info.buyerPubkey.None? || info.sellerPubkey.None? {
        return false;
      }
      if info.orderId in rows {
        if IsFinalized(rows[info.orderId]) {
          return false;
        }
        rows := rows[info.orderId := RowOf(info)];
        return true;
      }
      rows := rows[info.orderId := RowOf(info)];
      ok := true;
    }

    method SetStatusSettled(id: string)
      modifies this
      ensures rows == WithStatus(old(rows), id, Settled)
    {
      if id in rows {
        rows := rows[id := rows[id].(status := Some(Text(Settled)))];
      }
    }

    method SetStatusSellerRefunded(id: string)
      modifies this
      ensures rows == WithStatus(old(rows), id, SellerRefunded)
    {
      if id in rows {
        rows := rows[id := rows[id].(status := Some(Text(SellerRefunded)))];
      }
    }

    /** Says whether any row was advanced. */
    method SetStatusByDisputeId(disputeId: string, status: DisputeStatus) returns (changed: bool)
      modifies this
      ensures rows == Advanced(old(rows), disputeId, status)
      ensures changed <==> exists id :: id in old(rows) && IsAdvanced(old(rows)[id], disputeId)
    {
      changed := exists id :: id in rows && IsAdvanced(rows[id], disputeId);
      rows := map id | id in rows ::
        if IsAdvanced(rows[id], disputeId) then rows[id].(status := Some(Text(status))) else rows[id];
    }
  }

  // ----- Finality -----

  /** The row at `id` exists and is finalized. */
  predicate Final(table: Table, id: string) {
    id in table && IsFinalized(table[id])
  }

  /** The steps that set the status of the row at `id` whatever it was. */
  predicate IsDirectSetter(step: Step, id: string) {
    step == AdminSettle(id) || step == AdminRefund(id)
  }

  /** Only takes that found their row are ever in flight. */
  predicate TakesOverwrite(s: State) {
    forall task :: task in s.takes ==> s.takes[task].Overwrite?
  }

  /** `task` is about to overwrite the row at `id`. */
  predicate InFlight(s: State, task: nat, id: string) {
    task in s.takes && s.takes[task].Overwrite? && s.takes[task].id == id
  }

  /** Every take in flight on `id` brings a terminal status. */
  ghost predicate TakesFinal(s: State, id: string) {
    forall task :: InFlight(s, task, id) ==> IsFinalized(s.takes[task].row)
  }

  /** Every take in flight on `id` brings this status. */
  ghost predicate TakesBring(s: State, id: string, status: Option<string>) {
    forall task :: InFlight(s, task, id) ==> s.takes[task].row.status == status
  }

  lemma {:induction false} RunTakesOverwrite(s: State, steps: seq<Step>)
    requires TakesOverwrite(s)
    ensures TakesOverwrite(Run(s, steps))
  {
    if steps != [] {
      RunTakesOverwrite(s, steps[..|steps| - 1]);
    }
  }

  lemma StepKeepsFinal(s: State, step: Step, id: string)
    requires TakesOverwrite(s) && Final(s.table, id) && TakesFinal(s, id)
    ensures Final(After1(s, step).table, id) && TakesFinal(After1(s, step), id)
  {
  }

  lemma {:induction false} RunKeepsFinal(s: State, steps: seq<Step>, id: string)
    requires TakesOverwrite(s) && Final(s.table, id) && TakesFinal(s, id)
    ensures Final(Run(s, steps).table, id) && TakesFinal(Run(s, steps), id)
  {
    if steps != [] {
      var n := |steps| - 1;
      RunKeepsFinal(s, steps[..n], id);
      RunTakesOverwrite(s, steps[..n]);
      StepKeepsFinal(Run(s, steps[..n]), steps[n], id);
    }
  }

  lemma RunOfOne(s: State, step: Step)
    ensures Run(s, [step]) == After1(s, step)
  {
    assert [step][..0] == [];
  }

  /** Finality is absorbing, exactly: a finalized row stays finalized through every run of takes, relay updates and
      admin settles and refunds if and only if no take that looked at it before it was finalized is still about to
      write an open status. Takes that start once it is finalized never matter. */
  lemma FinalityIsAbsorbing(s: State, id: string)
    requires TakesOverwrite(s) && Final(s.table, id)
    ensures (forall steps :: Final(Run(s, steps).table, id)) <==> TakesFinal(s, id)
  {
    if TakesFinal(s, id) {
      forall steps
        ensures Final(Run(s, steps).table, id)
      {
        RunKeepsFinal(s, steps, id);
      }
    } else {
      var task :| InFlight(s, task, id) && !IsFinalized(s.takes[task].row);
      RunOfOne(s, TakeWrite(task));
      assert !Final(Run(s, [TakeWrite(task)]).table, id);
    }
  }

  /** No step of the run sets the status of the row at `id` directly. */
  predicate NeverSet(steps: seq<Step>, id: string) {
    forall n :: 0 <= n < |steps| ==> !IsDirectSetter(steps[n], id)
  }

  lemma {:induction false} RunKeepsStatus(s: State, steps: seq<Step>, id: string)
    requires TakesOverwrite(s) && Final(s.table, id) && NeverSet(steps, id)
    requires TakesBring(s, id, s.table[id].status)
    ensures var after := Run(s, steps);
            && Final(after.table, id) && after.table[id].status == s.table[id].status
            && TakesBring(after, id, s.table[id].status)
  {
    if steps != [] {
      var n := |steps| - 1;
      assert !IsDirectSetter(steps[n], id);
      RunKeepsStatus(s, steps[..n], id);
      RunTakesOverwrite(s, steps[..n]);
      StepKeepsStatus(Run(s, steps[..n]), steps[n], id);
    }
  }

  lemma StepKeepsStatus(s: State, step: Step, id: string)
    requires TakesOverwrite(s) && Final(s.table, id) && !IsDirectSetter(step, id)
    requires TakesBring(s, id, s.table[id].status)
    ensures var after := After1(s, step);
            && Final(after.table, id) && after.table[id].status == s.table[id].status
            && TakesBring(after, id, s.table[id].status)
  {
  }

  /** The outcome itself survives every run without a direct setter of that row, if and only if every take still
      in flight on it brings that very status; in particular, if none is in flight. */
  lemma OutcomeSurvivesIff(s: State, id: string)
    requires TakesOverwrite(s) && Final(s.table, id)
    ensures (forall steps :: NeverSet(steps, id) ==>
                id in Run(s, steps).table && Run(s, steps).table[id].status == s.table[id].status)
       <==> TakesBring(s, id, s.table[id].status)
  {
    if TakesBring(s, id, s.table[id].status) {
      forall steps | NeverSet(steps, id)
        ensures id in Run(s, steps).table && Run(s, steps).table[id].status == s.table[id].status
      {
        RunKeepsStatus(s, steps, id);
      }
    } else {
      var task :| InFlight(s, task, id) && s.takes[task].row.status != s.table[id].status;
      RunOfOne(s, TakeWrite(task));
      assert NeverSet([TakeWrite(task)], id);
      assert Run(s, [TakeWrite(task)]).table[id].status != s.table[id].status;
    }
  }

  /** A dispute settled between the two database calls of a re-take is reopened by it, unless the re-take itself
      brings a terminal status. */
  lemma InterleavedRetakeReopens(table: Table, info: DisputeInfo)
    requires info.buyerPubkey.Some? && info.sellerPubkey.Some?
    requires info.orderId in table && !IsFinalized(table[info.orderId])
    ensures var steps := [TakeRead(0, info), AdminSettle(info.orderId), TakeWrite(0)];
            && Final(Run(State(table, map[]), steps[..2]).table, info.orderId)
            && (Final(Run(State(table, map[]), steps).table, info.orderId) <==> IsTerminalStatus(info.status))
  {
    var a, b, c := TakeRead(0, info), AdminSettle(info.orderId), TakeWrite(0);
    assert [a, b, c][..2] == [a, b] && [a, b][..1] == [a] && [a][..0] == [];
    var s0 := State(table, map[]);
    assert Run(s0, [a]) == After1(s0, a) && Run(s0, [a, b]) == After1(After1(s0, a), b);
  }

  /** A relay update reports a change exactly when it changes something it was allowed to: a later event never
      overwrites an outcome. */
  lemma RelayNeverOverwrites(table: Table, disputeId: string, status: DisputeStatus, id: string)
    requires id in table
    ensures var after := Advanced(table, disputeId, status);
            && after.Keys == table.Keys
            && (IsFinalized(table[id]) || table[id].disputeId != disputeId ==> after[id] == table[id])
            && (!IsFinalized(table[id]) && table[id].disputeId == disputeId ==>
                  after[id] == table[id].(status := Some(Text(status))))
  {
  }

  // ----- What each write writes -----

  /** The outcomes, by name. */
  lemma TerminalNames(status: string)
    ensures IsTerminalStatus(status) <==> status in {"settled", "seller-refunded", "released"}
    ensures Text(Initiated) == "initiated" && Text(InProgress) == "in-progress" && Text(Settled) == "settled"
    ensures Text(SellerRefunded) == "seller-refunded" && Text(Released) == "released"
  {
  }

  /** A take that goes through leaves a row with what the solver was told, the buyer's key as the buyer's and the
      seller's as the seller's, and no chat seen; every other row stays. It goes through exactly when both keys are
      known and the row, if there is one, has no outcome. */
  lemma TakeWrites(table: Table, info: DisputeInfo)
    ensures var after := Carry(table, PlanTake(table, info));
            var outcomes := {Some("settled"), Some("seller-refunded"), Some("released")};
            if info.buyerPubkey.Some? && info.sellerPubkey.Some?
               && (info.orderId in table ==> table[info.orderId].status !in outcomes)
            then
              && after.Keys == table.Keys + {info.orderId}
              && (forall id :: id in table && id != info.orderId ==> after[id] == table[id])
              && after[info.orderId].disputeId == info.disputeId && after[info.orderId].status == Some(info.status)
              && after[info.orderId].buyerPubkey == info.buyerPubkey
              && after[info.orderId].sellerPubkey == info.sellerPubkey
              && after[info.orderId].buyerLastSeen == None && after[info.orderId].sellerLastSeen == None
              && after[info.orderId].details == info.details
            else after == table
  {
  }

  /** The late write of a take overwrites the row it found, or nothing: it never creates one. */
  lemma LateWritesCreateNothing(s: State, task: nat, id: string)
    requires TakesOverwrite(s)
    ensures var after := After1(s, TakeWrite(task));
            && after.table.Keys == s.table.Keys && after.takes == s.takes - {task}
            && (id in s.table ==>
                  after.table[id] == if InFlight(s, task, id) then s.takes[task].row else s.table[id])
  {
  }

  /** The direct setters record their own outcome, on one row. */
  lemma SettersWrite(s: State, id: string)
    requires id in s.table
    ensures var settled, refunded := After1(s, AdminSettle(id)), After1(s, AdminRefund(id));
            && settled.table.Keys == refunded.table.Keys == s.table.Keys
            && settled.table[id] == s.table[id].(status := Some("settled"))
            && refunded.table[id] == s.table[id].(status := Some("seller-refunded"))
            && (forall other :: other in s.table && other != id ==>
                  settled.table[other] == refunded.table[other] == s.table[other])
            && settled.takes == refunded.takes == s.takes
  {
  }

  /** A chat seen is recorded on the side it was seen on, in the rows of that dispute, and nowhere else. */
  lemma SeenWrites(s: State, disputeId: string, ts: int, isBuyer: bool, id: string)
    requires id in s.table
    ensures var after := After1(s, ChatSeen(disputeId, ts, isBuyer));
            && after.takes == s.takes && after.table.Keys == s.table.Keys
            && after.table[id].buyerLastSeen
            == (if s.table[id].disputeId == disputeId && isBuyer then Some(ts) else s.table[id].buyerLastSeen)
            && after.table[id].sellerLastSeen
            == (if s.table[id].disputeId == disputeId && !isBuyer then Some(ts) else s.table[id].sellerLastSeen)
            && after.table[id].(buyerLastSeen := None, sellerLastSeen := None)
            == s.table[id].(buyerLastSeen := None, sellerLastSeen := None)
  {
  }
}
