/** Trade indices, identity rotation and the keys of saved orders (src/models.rs). Database calls of different
    tasks interleave; a transaction whose snapshot is out of date is refused at commit. */
module TradeLedger {

  import opened Wrappers
  import Orders

  const I64_MAX: int := 0x7FFF_FFFF_FFFF_FFFF
  const U32_MAX: int := 0xFFFF_FFFF

  datatype UserRow = UserRow(mnemonic: string, lastTradeIndex: Option<int>)

  /** How far one reservation has got. `version` is the state of the users table its snapshot shows. */
  datatype Tx = Begun | HasRead(row: UserRow, version: nat) | HasWritten(row: UserRow, version: nat, next: int)

  /** A trade index handed to a caller, under the identity of that time. */
  datatype Issue = Issue(mnemonic: string, epoch: nat, index: int)

  /** The database, the reservations in flight, the number of rotations so far, and every index ever handed out,
      in commit order. */
  datatype Ledger = Ledger(
    user: UserRow, version: nat, epoch: nat, orders: Orders.Table, txs: map<nat, Tx>, issued: seq<Issue>)

  type Derive = (string, int) -> Orders.TradeKey

  /** A signed 64-bit increment, which wraps around. */
  function Increment(x: int): int {
    if x == I64_MAX then -I64_MAX - 1 else x + 1
  }

  function NextIndex(row: UserRow, noneBase: int): int {
    Increment(match row.lastTradeIndex case Some(last) => last case None => noneBase)
  }

  /** Keys exist for the indices of a derivation path. */
  predicate CanDerive(index: int) {
    0 <= index <= U32_MAX
  }

  datatype Step =
    | Begin(tx: nat)
    | ReadUser(tx: nat)
    | WriteIndex(tx: nat, noneBase: int)
    | Commit(tx: nat)
    | RaiseIndex(index: int)
    | Rotate(mnemonic: string)
    | SaveOrder(issue: Issue, id: string, small: Orders.SmallOrder, requestId: Option<int>, isMaker: bool, now: int)

  function Committed(s: Ledger, row: UserRow, next: int): Ledger {
    s.(user := row.(lastTradeIndex := Some(next)), version := s.version + 1,
       issued := s.issued + if CanDerive(next) then [Issue(row.mnemonic, s.epoch, next)] else [])
  }

  function After1(derive: Derive, s: Ledger, step: Step): Ledger {
    match step
    case Begin(tx) => s.(txs := s.txs[tx := Begun])
    case ReadUser(tx) =>
      if tx in s.txs && s.txs[tx] == Begun then s.(txs := s.txs[tx := HasRead(s.user, s.version)]) else s
    case WriteIndex(tx, noneBase) =>
      if tx in s.txs && s.txs[tx].HasRead?
      then s.(txs := s.txs[tx := HasWritten(s.txs[tx].row, s.txs[tx].version, NextIndex(s.txs[tx].row, noneBase))])
      else s
    case Commit(tx) =>
      if tx !in s.txs || !s.txs[tx].HasWritten? then s
      else if s.txs[tx].version != s.version then s.(txs := s.txs - {tx})
      else Committed(s.(txs := s.txs - {tx}), s.txs[tx].row, s.txs[tx].next)
    case RaiseIndex(index) =>
      var last := match s.user.lastTradeIndex case Some(x) => x case None => 0;
      s.(user := s.user.(lastTradeIndex := Some(if index > last then index else last)), version := s.version + 1)
    case Rotate(mnemonic) =>
      s.(user := UserRow(mnemonic, None), version := s.version + 1, epoch := s.epoch + 1, orders := map[])
    case SaveOrder(issue, id, small, requestId, isMaker, now) =>
      if issue.index <= 0 then s
      else s.(orders := s.orders[id := RowOf(derive, step)])
  }

  /** The row a save writes: it holds the key of its reservation. */
  function RowOf(derive: Derive, save: Step): Orders.OrderRow
    requires save.SaveOrder?
  {
    var issue := save.issue;
    Orders.NewRow(save.small, derive(issue.mnemonic, issue.index), save.requestId, issue.index, save.isMaker, save.now)
  }

  function Run(derive: Derive, s: Ledger, steps: seq<Step>): Ledger {
    if steps == [] then s else After1(derive, Run(derive, s, steps[..|steps| - 1]), steps[|steps| - 1])
  }

  function Initial(mnemonic: string): Ledger {
    Ledger(UserRow(mnemonic, None), 0, 0, map[], map[], [])
  }

  // ----- The program -----

  class UserStore {
    const derive: Derive
    var ledger: Ledger

    constructor (derive: Derive, mnemonic: string)
      ensures this.derive == derive && ledger == Initial(mnemonic)
    {
      this.derive := derive;
      ledger := Initial(mnemonic);
    }

    /** One reservation that nothing interleaves with: a commit that fails leaves the user row as it was. */
    method ReserveNextTradeIndex(tx: nat, noneBase: int, commitOk: bool) returns (r: Option<(int, Orders.TradeKey)>)
      modifies this
      ensures commitOk ==>
                ledger == Run(derive, old(ledger), Reservation(tx, noneBase))
      ensures !commitOk ==> ledger == old(ledger).(txs := ledger.txs) && r.None?
      ensures r.Some? <==> commitOk && CanDerive(NextIndex(old(ledger).user, noneBase))
      ensures r.Some? ==> r.value.0 == NextIndex(old(ledger).user, noneBase)
      ensures r.Some? ==> r.value.1 == derive(old(ledger).user.mnemonic, r.value.0)
    {
      var user := ledger.user;
      ledger := ledger.(txs := ledger.txs[tx := Begun]);
      ledger := ledger.(txs := ledger.txs[tx := HasRead(user, ledger.version)]);
      var next := NextIndex(user, noneBase);
      ledger := ledger.(txs := ledger.txs[tx := HasWritten(user, ledger.version, next)]);
      if !commitOk {
        return None;
      }
      ledger := Committed(ledger.(txs := ledger.txs - {tx}), user, next);
      FourSteps(derive, old(ledger), Begin(tx), ReadUser(tx), WriteIndex(tx, noneBase), Commit(tx));
      r := if CanDerive(next) then Some((next, derive(user.mnemonic, next))) else None;
    }

    method UpdateLastTradeIndex(index: int)
      modifies this
      ensures ledger == After1(derive, old(ledger), RaiseIndex(index))
    {
      var last := match ledger.user.lastTradeIndex case Some(x) => x case None => 0;
      ledger := ledger.(user := ledger.user.(lastTradeIndex := Some(if index > last then index else last)),
                        version := ledger.version + 1);
    }

    /** New identity and no orders, or no change at all. */
    method ReplaceAllAtomic(mnemonic: string, commitOk: bool) returns (ok: bool)
      modifies this
      ensures ok == commitOk
      ensures ledger == if ok then After1(derive, old(ledger), Rotate(mnemonic)) else old(ledger)
    {
      if !commitOk {
        return false;
      }
      ledger := ledger.(user := UserRow(mnemonic, None), version := ledger.version + 1, epoch := ledger.epoch + 1,
                        orders := map[]);
      ok := true;
    }
  }

  lemma FourSteps(derive: Derive, s: Ledger, a: Step, b: Step, c: Step, d: Step)
    ensures Run(derive, s, [a, b, c, d])
         == After1(derive, After1(derive, After1(derive, After1(derive, s, a), b), c), d)
  {
    assert [a, b, c, d][..3] == [a, b, c] && [a, b, c][..2] == [a, b] && [a, b][..1] == [a] && [a][..0] == [];
    assert Run(derive, s, [a]) == After1(derive, s, a);
    assert Run(derive, s, [a, b]) == After1(derive, After1(derive, s, a), b);
    assert Run(derive, s, [a, b, c]) == After1(derive, After1(derive, After1(derive, s, a), b), c);
  }

  // ----- Indices are never reused under one identity -----

  /** A reservation in flight shows the user row of the version it read, so while that version is current it
      shows the current row; and what it wrote is the next index after it. */
  predicate TxOk(s: Ledger, tx: Tx) {
    match tx
    case Begun => true
    case HasRead(row, version) => version <= s.version && (version == s.version ==> row == s.user)
    case HasWritten(row, version, next) =>
      && version <= s.version && (version == s.version ==> row == s.user)
      && (row.lastTradeIndex.Some? ==> next == Increment(row.lastTradeIndex.value))
  }

  /** Indices of one epoch are strictly increasing, and none of the current epoch is beyond the counter. */
  ghost predicate IssuesOk(s: Ledger) {
    && (forall i :: 0 <= i < |s.issued| ==> s.issued[i].epoch <= s.epoch && CanDerive(s.issued[i].index))
    && (forall i :: 0 <= i < |s.issued| && s.issued[i].epoch == s.epoch ==>
          && s.issued[i].mnemonic == s.user.mnemonic
          && s.user.lastTradeIndex.Some? && s.issued[i].index <= s.user.lastTradeIndex.value)
    && Increasing(s.issued)
  }

  predicate Increasing(issued: seq<Issue>) {
    forall i, j :: 0 <= i < j < |issued| && issued[i].epoch == issued[j].epoch ==> issued[i].index < issued[j].index
  }

  ghost predicate Inv(s: Ledger) {
    IssuesOk(s) && forall t :: t in s.txs ==> TxOk(s, s.txs[t])
  }

  /** No commit increments a counter that is already the largest 64-bit number. */
  predicate NoOverflow(s: Ledger, step: Step) {
    step.Commit? ==> s.user.lastTradeIndex != Some(I64_MAX)
  }

  lemma StepKeepsInv(derive: Derive, s: Ledger, step: Step)
    requires Inv(s) && NoOverflow(s, step)
    ensures Inv(After1(derive, s, step))
  {
    if step.Commit? && step.tx in s.txs && s.txs[step.tx].HasWritten? && s.txs[step.tx].version == s.version {
      var tx := s.txs[step.tx];
      assert TxOk(s, tx);
      CommitKeepsIssues(s.(txs := s.txs - {step.tx}), tx.row, tx.next);
    }
  }

  lemma CommitKeepsIssues(s: Ledger, row: UserRow, next: int)
    requires IssuesOk(s) && row == s.user
    requires row.lastTradeIndex.Some? ==> next > row.lastTradeIndex.value
    ensures IssuesOk(Committed(s, row, next))
  {
  }

  ghost predicate NeverOverflows(derive: Derive, s: Ledger, steps: seq<Step>) {
    forall n :: 0 <= n < |steps| ==> NoOverflow(Run(derive, s, steps[..n]), steps[n])
  }

  lemma NeverOverflowsPrefix(derive: Derive, s: Ledger, steps: seq<Step>, n: nat)
    requires NeverOverflows(derive, s, steps) && n <= |steps|
    ensures NeverOverflows(derive, s, steps[..n])
  {
    forall k | 0 <= k < n
      ensures NoOverflow(Run(derive, s, steps[..n][..k]), steps[..n][k])
    {
      assert steps[..n][..k] == steps[..k];
    }
  }

  lemma {:induction false} RunKeepsInv(derive: Derive, s: Ledger, steps: seq<Step>)
    requires Inv(s) && NeverOverflows(derive, s, steps)
    ensures Inv(Run(derive, s, steps))
  {
    if steps != [] {
      var n := |steps| - 1;
      NeverOverflowsPrefix(derive, s, steps, n);
      RunKeepsInv(derive, s, steps[..n]);
      StepKeepsInv(derive, Run(derive, s, steps[..n]), steps[n]);
    }
  }

  /** However reservations, raises and rotations interleave, the indices handed out between two rotations are
      strictly increasing in commit order. */
  lemma IndicesIncrease(derive: Derive, mnemonic: string, steps: seq<Step>, i: nat, j: nat)
    requires NeverOverflows(derive, Initial(mnemonic), steps)
    requires var issued := Run(derive, Initial(mnemonic), steps).issued;
             i < j < |issued| && issued[i].epoch == issued[j].epoch
    ensures var issued := Run(derive, Initial(mnemonic), steps).issued;
            issued[i].index < issued[j].index
  {
    RunKeepsInv(derive, Initial(mnemonic), steps);
  }

  /** A raise leaves the counter at least at the index and where it was, and no higher than that. */
  lemma RaiseMeaning(derive: Derive, s: Ledger, index: int)
    ensures var before := match s.user.lastTradeIndex case Some(last) => last case None => 0;
            var after := After1(derive, s, RaiseIndex(index));
            && after.user.lastTradeIndex.Some?
            && after.user.lastTradeIndex.value >= index && after.user.lastTradeIndex.value >= before
            && after.user.lastTradeIndex.value in {index, before}
            && after.user.mnemonic == s.user.mnemonic && after.epoch == s.epoch
            && after.orders == s.orders && after.txs == s.txs && after.issued == s.issued && after.version != s.version
  {
  }

  /** Keys are derived for the indices of 32 bits, and an index is handed out exactly when they are. */
  lemma HandedOutIffDerivable(derive: Derive, s: Ledger, tx: nat, noneBase: int)
    ensures var last := if s.user.lastTradeIndex.Some? then s.user.lastTradeIndex.value else noneBase;
            var after := Run(derive, s, Reservation(tx, noneBase));
            -1 <= last < 4294967295 <==>
              after.issued == s.issued + [Issue(s.user.mnemonic, s.epoch, last + 1)]
  {
    ReservesAlone(derive, s, tx, noneBase);
    IssuesIff(s.user, s.epoch, s.issued, Run(derive, s, Reservation(tx, noneBase)).issued, noneBase);
  }

  lemma IssuesIff(row: UserRow, epoch: nat, before: seq<Issue>, after: seq<Issue>, noneBase: int)
    requires var next := NextIndex(row, noneBase);
             after == before + if CanDerive(next) then [Issue(row.mnemonic, epoch, next)] else []
    ensures var last := if row.lastTradeIndex.Some? then row.lastTradeIndex.value else noneBase;
            -1 <= last < 4294967295 <==> after == before + [Issue(row.mnemonic, epoch, last + 1)]
  {
    var last := if row.lastTradeIndex.Some? then row.lastTradeIndex.value else noneBase;
    var next := NextIndex(row, noneBase);
    DerivableIff(last);
    PushesIff(before, CanDerive(next), Issue(row.mnemonic, epoch, next), Issue(row.mnemonic, epoch, last + 1));
  }

  lemma DerivableIff(last: int)
    ensures CanDerive(Increment(last)) && Increment(last) == last + 1 <==> -1 <= last < 4294967295
  {
  }

  lemma PushesIff(issued: seq<Issue>, pushes: bool, x: Issue, y: Issue)
    ensures issued + (if pushes then [x] else []) == issued + [y] <==> pushes && x == y
  {
    if issued + (if pushes then [x] else []) == issued + [y] {
      assert (issued + [y])[|issued|] == y;
    }
  }

  /** A save that is not refused writes the order with the reserved index and its key, and nothing else. */
  lemma SaveOrderWrites(derive: Derive, s: Ledger, save: Step)
    requires save.SaveOrder? && save.issue.index > 0
    ensures var after := After1(derive, s, save);
            && after == s.(orders := after.orders) && after.orders.Keys == s.orders.Keys + {save.id}
            && (forall id :: id in s.orders && id != save.id ==> after.orders[id] == s.orders[id])
            && var row := after.orders[save.id];
               && Orders.Describes(row, save.small) && row.tradeIndex == Some(save.issue.index)
               && row.tradeKeys == Some(derive(save.issue.mnemonic, save.issue.index))
               && row.isMine == save.isMaker && row.requestId == save.requestId && row.createdAt == Some(save.now)
  {
  }

  // ----- Overflow -----

  /** All numbers callers bring in are at most `bound`. */
  predicate BroughtInAtMost(step: Step, bound: int) {
    (step.RaiseIndex? ==> step.index <= bound) && (step.WriteIndex? ==> step.noneBase <= bound)
  }

  predicate TxAtMost(tx: Tx, bound: int) {
    match tx
    case Begun => true
    case HasRead(row, _) => row.lastTradeIndex.Some? ==> row.lastTradeIndex.value <= bound
    case HasWritten(_, _, next) => next <= bound
  }

  ghost predicate CountersAtMost(s: Ledger, bound: int) {
    && (s.user.lastTradeIndex.Some? ==> s.user.lastTradeIndex.value <= bound)
    && forall t :: t in s.txs ==> TxAtMost(s.txs[t], bound)
  }

  lemma StepCounts(derive: Derive, s: Ledger, step: Step, bound: int)
    requires CountersAtMost(s, bound) && BroughtInAtMost(step, bound) && 0 <= bound
    ensures CountersAtMost(After1(derive, s, step), bound + 1)
  {
  }

  lemma {:induction false} RunCounts(derive: Derive, mnemonic: string, steps: seq<Step>, bound: nat)
    requires forall n :: 0 <= n < |steps| ==> BroughtInAtMost(steps[n], bound)
    ensures CountersAtMost(Run(derive, Initial(mnemonic), steps), bound + |steps|)
  {
    if steps != [] {
      var n := |steps| - 1;
      RunCounts(derive, mnemonic, steps[..n], bound);
      assert BroughtInAtMost(steps[n], bound);
      StepCounts(derive, Run(derive, Initial(mnemonic), steps[..n]), steps[n], bound + n);
    }
  }

  /** No run overflows whose callers bring in numbers that are smaller than the largest 64-bit number by more than
      the length of the run. */
  lemma SmallNumbersNeverOverflow(derive: Derive, mnemonic: string, steps: seq<Step>, bound: nat)
    requires forall n :: 0 <= n < |steps| ==> BroughtInAtMost(steps[n], bound)
    requires bound + |steps| < I64_MAX
    ensures NeverOverflows(derive, Initial(mnemonic), steps)
  {
    forall n | 0 <= n < |steps|
      ensures NoOverflow(Run(derive, Initial(mnemonic), steps[..n]), steps[n])
    {
      RunCounts(derive, mnemonic, steps[..n], bound);
    }
  }

  function Reservation(tx: nat, noneBase: int): seq<Step> {
    [Begin(tx), ReadUser(tx), WriteIndex(tx, noneBase), Commit(tx)]
  }

  lemma ReservesAlone(derive: Derive, s: Ledger, tx: nat, noneBase: int)
    ensures var after, next := Run(derive, s, Reservation(tx, noneBase)), NextIndex(s.user, noneBase);
            && after.user == s.user.(lastTradeIndex := Some(next)) && after.epoch == s.epoch
            && after.issued == s.issued + if CanDerive(next) then [Issue(s.user.mnemonic, s.epoch, next)] else []
  {
    FourSteps(derive, s, Begin(tx), ReadUser(tx), WriteIndex(tx, noneBase), Commit(tx));
  }

  /** The condition is needed: a reservation at the largest 64-bit number hands out nothing and leaves a negative
      counter, from which a raise and a reservation hand out any index of the caller's choice, used or not. */
  lemma OverflowAllowsReuse(derive: Derive, s: Ledger, tx: nat, noneBase: int, index: int)
    requires s.user.lastTradeIndex == Some(I64_MAX) && 0 < index <= U32_MAX
    ensures var wrapped := Run(derive, s, Reservation(tx, noneBase));
            && wrapped.issued == s.issued && wrapped.user.lastTradeIndex == Some(-I64_MAX - 1)
            && Run(derive, After1(derive, wrapped, RaiseIndex(index - 1)), Reservation(tx, noneBase)).issued
            == s.issued + [Issue(s.user.mnemonic, s.epoch, index)]
  {
    ReservesAlone(derive, s, tx, noneBase);
    var wrapped := Run(derive, s, Reservation(tx, noneBase));
    ReservesAlone(derive, After1(derive, wrapped, RaiseIndex(index - 1)), tx, noneBase);
  }

  // ----- Reservations that are overtaken -----

  predicate OfTx(step: Step, tx: nat) {
    (step.Begin? || step.ReadUser? || step.WriteIndex? || step.Commit?) && step.tx == tx
  }

  ghost predicate OthersOnly(steps: seq<Step>, tx: nat) {
    forall n :: 0 <= n < |steps| ==> !OfTx(steps[n], tx)
  }

  /** The steps of other tasks leave a reservation where it stands. The users table changes its version with its
      row, so it has the row it had as long as it has the version it had. */
  lemma {:induction false} OthersKeepTx(derive: Derive, s: Ledger, steps: seq<Step>, tx: nat)
    requires OthersOnly(steps, tx) && tx in s.txs
    ensures var after := Run(derive, s, steps);
            && tx in after.txs && after.txs[tx] == s.txs[tx]
            && after.version >= s.version && (after.version == s.version ==> after.user == s.user)
  {
    if steps != [] {
      var n := |steps| - 1;
      assert !OfTx(steps[n], tx);
      OthersKeepTx(derive, s, steps[..n], tx);
      OtherKeepsTx(derive, Run(derive, s, steps[..n]), steps[n], tx);
    }
  }

  lemma OtherKeepsTx(derive: Derive, s: Ledger, step: Step, tx: nat)
    requires !OfTx(step, tx) && tx in s.txs
    ensures var after := After1(derive, s, step);
            && tx in after.txs && after.txs[tx] == s.txs[tx]
            && after.version >= s.version && (after.version == s.version ==> after.user == s.user)
  {
  }

  /** A reservation among the steps of other tasks `a`, `b` and `c` goes through if and only if nobody changed the users
      table between its read and its commit. Then it hands out the index after the one it read; otherwise it hands
      out nothing and changes no row. */
  lemma CommitsIffNotOvertaken(derive: Derive, s: Ledger, tx: nat, noneBase: int, a: seq<Step>, b: seq<Step>,
                               c: seq<Step>)
    requires OthersOnly(a, tx) && OthersOnly(b, tx) && OthersOnly(c, tx)
    ensures var atRead := Run(derive, After1(derive, s, Begin(tx)), a);
            var atWrite := Run(derive, After1(derive, atRead, ReadUser(tx)), b);
            var atCommit := Run(derive, After1(derive, atWrite, WriteIndex(tx, noneBase)), c);
            var ended := atCommit.(txs := atCommit.txs - {tx});
            After1(derive, atCommit, Commit(tx))
            == (if atCommit.version != atRead.version then ended
                else Committed(ended, atRead.user, NextIndex(atRead.user, noneBase)))
  {
    var begun := After1(derive, s, Begin(tx));
    OthersKeepTx(derive, begun, a, tx);
    var read := After1(derive, Run(derive, begun, a), ReadUser(tx));
    OthersKeepTx(derive, read, b, tx);
    var written := After1(derive, Run(derive, read, b), WriteIndex(tx, noneBase));
    OthersKeepTx(derive, written, c, tx);
  }

  // ----- Rotation back to an old mnemonic -----

  /** The mnemonics installed so far, one an epoch. */
  function Installed(mnemonic: string, steps: seq<Step>): (r: seq<string>)
    ensures r != []
  {
    if steps == [] then [mnemonic]
    else
      var n := |steps| - 1;
      Installed(mnemonic, steps[..n]) + if steps[n].Rotate? then [steps[n].mnemonic] else []
  }

  lemma {:induction false} EpochNamesMnemonic(derive: Derive, mnemonic: string, steps: seq<Step>)
    requires NeverOverflows(derive, Initial(mnemonic), steps)
    ensures var s, names := Run(derive, Initial(mnemonic), steps), Installed(mnemonic, steps);
            && s.epoch == |names| - 1 && s.user.mnemonic == names[s.epoch]
            && forall i :: 0 <= i < |s.issued| ==>
                 s.issued[i].epoch < |names| && s.issued[i].mnemonic == names[s.issued[i].epoch]
  {
    if steps != [] {
      var n := |steps| - 1;
      NeverOverflowsPrefix(derive, Initial(mnemonic), steps, n);
      EpochNamesMnemonic(derive, mnemonic, steps[..n]);
      RunKeepsInv(derive, Initial(mnemonic), steps[..n]);
      StepNamesMnemonic(derive, Run(derive, Initial(mnemonic), steps[..n]), steps[n], Installed(mnemonic, steps[..n]));
    }
  }

  lemma StepNamesMnemonic(derive: Derive, s: Ledger, step: Step, names: seq<string>)
    requires Inv(s) && s.epoch == |names| - 1 && s.user.mnemonic == names[s.epoch]
    requires forall i :: 0 <= i < |s.issued| ==>
               s.issued[i].epoch < |names| && s.issued[i].mnemonic == names[s.issued[i].epoch]
    ensures var after := After1(derive, s, step);
            var names' := names + if step.Rotate? then [step.mnemonic] else [];
            && after.epoch == |names'| - 1 && after.user.mnemonic == names'[after.epoch]
            && forall i :: 0 <= i < |after.issued| ==>
                 after.issued[i].epoch < |names'| && after.issued[i].mnemonic == names'[after.issued[i].epoch]
  {
    if step.Commit? && step.tx in s.txs {
      assert TxOk(s, s.txs[step.tx]);
    }
  }

  /** No index was ever handed out under this mnemonic. */
  ghost predicate NeverIssued(s: Ledger, mnemonic: string) {
    forall i :: 0 <= i < |s.issued| ==> s.issued[i].mnemonic != mnemonic
  }

  /** Every rotation of the run installs a mnemonic under which no index was handed out so far. */
  ghost predicate FreshRotations(derive: Derive, s: Ledger, steps: seq<Step>) {
    forall n :: 0 <= n < |steps| && steps[n].Rotate? ==> NeverIssued(Run(derive, s, steps[..n]), steps[n].mnemonic)
  }

  /** From the `from`-th on, no index repeats an earlier one of its mnemonic. */
  predicate NoneReused(issued: seq<Issue>, from: nat) {
    forall i, j :: 0 <= i < j < |issued| && from <= j && issued[i].mnemonic == issued[j].mnemonic ==>
      issued[i].index != issued[j].index
  }

  /** From the `from`-th on, every index is above all earlier ones of its mnemonic. */
  predicate Growing(issued: seq<Issue>, from: nat) {
    forall i, j :: 0 <= i < j < |issued| && from <= j && issued[i].mnemonic == issued[j].mnemonic ==>
      issued[i].index < issued[j].index
  }

  /** The current mnemonic belongs to the current epoch alone. */
  ghost predicate CurrentIsNew(s: Ledger) {
    forall i :: 0 <= i < |s.issued| && s.issued[i].mnemonic == s.user.mnemonic ==> s.issued[i].epoch == s.epoch
  }

  lemma StepGrows(derive: Derive, s: Ledger, step: Step, from: nat)
    requires Inv(s) && NoOverflow(s, step) && CurrentIsNew(s) && Growing(s.issued, from)
    requires step.Rotate? ==> NeverIssued(s, step.mnemonic)
    ensures var after := After1(derive, s, step); CurrentIsNew(after) && Growing(after.issued, from)
  {
    if step.Commit? && step.tx in s.txs {
      assert TxOk(s, s.txs[step.tx]);
    }
  }

  lemma {:induction false} RunGrows(derive: Derive, s: Ledger, steps: seq<Step>, from: nat)
    requires Inv(s) && CurrentIsNew(s) && Growing(s.issued, from)
    requires NeverOverflows(derive, s, steps) && FreshRotations(derive, s, steps)
    ensures var after := Run(derive, s, steps); CurrentIsNew(after) && Growing(after.issued, from)
  {
    if steps != [] {
      var n := |steps| - 1;
      NeverOverflowsPrefix(derive, s, steps, n);
      forall k | 0 <= k < n && steps[k].Rotate?
        ensures NeverIssued(Run(derive, s, steps[..n][..k]), steps[k].mnemonic)
      {
        assert steps[..n][..k] == steps[..k];
      }
      RunGrows(derive, s, steps[..n], from);
      RunKeepsInv(derive, s, steps[..n]);
      StepGrows(derive, Run(derive, s, steps[..n]), steps[n], from);
    }
  }

  /** No index is ever handed out twice under one mnemonic, over the whole run, as long as no rotation goes back to
      a mnemonic under which some were: they are strictly increasing in commit order. */
  lemma IndicesNeverReused(derive: Derive, mnemonic: string, steps: seq<Step>, i: nat, j: nat)
    requires NeverOverflows(derive, Initial(mnemonic), steps) && FreshRotations(derive, Initial(mnemonic), steps)
    requires var issued := Run(derive, Initial(mnemonic), steps).issued;
             i < j < |issued| && issued[i].mnemonic == issued[j].mnemonic
    ensures var issued := Run(derive, Initial(mnemonic), steps).issued;
            issued[i].index < issued[j].index
  {
    RunGrows(derive, Initial(mnemonic), steps, 0);
  }

  lemma {:induction false} InstalledBefore(mnemonic: string, steps: seq<Step>, n: nat)
    requires n <= |steps|
    ensures Installed(mnemonic, steps[..n]) <= Installed(mnemonic, steps)
  {
    var last := |steps| - 1;
    if n <= last {
      assert steps[..last][..n] == steps[..n];
      InstalledBefore(mnemonic, steps[..last], n);
    } else {
      assert steps[..n] == steps;
    }
  }

  lemma DistinctSoFar(derive: Derive, mnemonic: string, steps: seq<Step>, n: nat)
    requires n < |steps| && steps[n].Rotate? && NeverOverflows(derive, Initial(mnemonic), steps[..n + 1])
    requires var names := Installed(mnemonic, steps[..n + 1]);
             forall a, b :: 0 <= a < b < |names| ==> names[a] != names[b]
    ensures NeverIssued(Run(derive, Initial(mnemonic), steps[..n]), steps[n].mnemonic)
  {
    assert steps[..n + 1][..n] == steps[..n];
    NeverOverflowsPrefix(derive, Initial(mnemonic), steps[..n + 1], n);
    EpochNamesMnemonic(derive, mnemonic, steps[..n]);
    var names := Installed(mnemonic, steps[..n]);
    var s, all := Run(derive, Initial(mnemonic), steps[..n]), names + [steps[n].mnemonic];
    assert Installed(mnemonic, steps[..n + 1]) == all;
    forall i | 0 <= i < |s.issued|
      ensures s.issued[i].mnemonic != steps[n].mnemonic
    {
      assert all[s.issued[i].epoch] == s.issued[i].mnemonic && all[|names|] == steps[n].mnemonic;
    }
  }

  /** In particular, if no mnemonic is installed twice. */
  lemma DistinctMnemonicsAreFresh(derive: Derive, mnemonic: string, steps: seq<Step>)
    requires NeverOverflows(derive, Initial(mnemonic), steps)
    requires var names := Installed(mnemonic, steps); forall a, b :: 0 <= a < b < |names| ==> names[a] != names[b]
    ensures FreshRotations(derive, Initial(mnemonic), steps)
  {
    forall n | 0 <= n < |steps| && steps[n].Rotate?
      ensures NeverIssued(Run(derive, Initial(mnemonic), steps[..n]), steps[n].mnemonic)
    {
      NeverOverflowsPrefix(derive, Initial(mnemonic), steps, n + 1);
      InstalledBefore(mnemonic, steps, n + 1);
      DistinctSoFar(derive, mnemonic, steps, n);
    }
  }

  /** Rotation forgets the counter: an uninterrupted first reservation after it hands out the base index. */
  lemma FirstIndexAfterRotation(derive: Derive, s: Ledger, mnemonic: string, tx: nat, noneBase: int)
    requires CanDerive(Increment(noneBase))
    ensures var rotated := After1(derive, s, Rotate(mnemonic));
            && Run(derive, rotated, Reservation(tx, noneBase)).issued
            == s.issued + [Issue(mnemonic, s.epoch + 1, Increment(noneBase))]
  {
    ReservesAlone(derive, After1(derive, s, Rotate(mnemonic)), tx, noneBase);
  }

  lemma CounterUntilCommit(derive: Derive, s: Ledger, tx: nat, noneBase: int)
    ensures Run(derive, s, Reservation(tx, noneBase)[..3]).user == s.user
  {
    var a, b, c := Begin(tx), ReadUser(tx), WriteIndex(tx, noneBase);
    assert Reservation(tx, noneBase)[..3] == [a, b, c];
    assert [a, b, c][..2] == [a, b] && [a, b][..1] == [a] && [a][..0] == [];
    assert Run(derive, s, [a]) == After1(derive, s, a);
    assert Run(derive, s, [a, b]) == After1(derive, After1(derive, s, a), b);
  }

  lemma ReservationStartsFresh(derive: Derive, s: Ledger, tx: nat, noneBase: int)
    requires s.user.lastTradeIndex == None
    ensures NeverOverflows(derive, s, Reservation(tx, noneBase)) && FreshRotations(derive, s, Reservation(tx, noneBase))
  {
    CounterUntilCommit(derive, s, tx, noneBase);
  }

  lemma NewMnemonicIsSafe(derive: Derive, s: Ledger, mnemonic: string, steps: seq<Step>)
    requires Inv(s) && NeverIssued(s, mnemonic)
    requires var rotated := After1(derive, s, Rotate(mnemonic));
             NeverOverflows(derive, rotated, steps) && FreshRotations(derive, rotated, steps)
    ensures NoneReused(Run(derive, After1(derive, s, Rotate(mnemonic)), steps).issued, |s.issued|)
  {
    StepKeepsInv(derive, s, Rotate(mnemonic));
    RunGrows(derive, After1(derive, s, Rotate(mnemonic)), steps, |s.issued|);
  }

  lemma UsedMnemonicRepeats(derive: Derive, s: Ledger, mnemonic: string, i: nat)
    requires Inv(s) && i < |s.issued| && s.issued[i].mnemonic == mnemonic
    ensures var rotated, steps := After1(derive, s, Rotate(mnemonic)), Reservation(0, s.issued[i].index - 1);
            && NeverOverflows(derive, rotated, steps) && FreshRotations(derive, rotated, steps)
            && !NoneReused(Run(derive, rotated, steps).issued, |s.issued|)
  {
    var rotated, base := After1(derive, s, Rotate(mnemonic)), s.issued[i].index - 1;
    FirstIndexAfterRotation(derive, s, mnemonic, 0, base);
    ReservationStartsFresh(derive, rotated, 0, base);
    var issued := Run(derive, rotated, Reservation(0, base)).issued;
    assert issued[i] == s.issued[i] && issued[|s.issued|] == Issue(mnemonic, s.epoch + 1, base + 1);
  }

  /** Rotating to a mnemonic, old or new, is safe if and only if no index was ever handed out under it: then no
      continuation without overflow, and without a rotation back to a used mnemonic, hands out an index that its
      mnemonic already had; otherwise a single reservation can. */
  lemma RotationIsSafeIff(derive: Derive, s: Ledger, mnemonic: string)
    requires Inv(s)
    ensures var rotated := After1(derive, s, Rotate(mnemonic));
            (forall steps :: NeverOverflows(derive, rotated, steps) && FreshRotations(derive, rotated, steps) ==>
               NoneReused(Run(derive, rotated, steps).issued, |s.issued|))
            <==> NeverIssued(s, mnemonic)
  {
    var rotated := After1(derive, s, Rotate(mnemonic));
    if NeverIssued(s, mnemonic) {
      forall steps | NeverOverflows(derive, rotated, steps) && FreshRotations(derive, rotated, steps)
        ensures NoneReused(Run(derive, rotated, steps).issued, |s.issued|)
      {
        NewMnemonicIsSafe(derive, s, mnemonic, steps);
      }
    } else {
      var i: nat :| i < |s.issued| && s.issued[i].mnemonic == mnemonic;
      UsedMnemonicRepeats(derive, s, mnemonic, i);
    }
  }

  // ----- Rows hold keys of the current identity -----

  /** Every saved row holds the key derived from the current mnemonic and its own index. */
  ghost predicate RowsCurrent(derive: Derive, s: Ledger) {
    forall id :: id in s.orders ==>
      && s.orders[id].tradeIndex.Some?
      && s.orders[id].tradeKeys == Some(derive(s.user.mnemonic, s.orders[id].tradeIndex.value))
  }

  /** A save uses a reservation made since the last rotation. */
  predicate SavesCurrent(s: Ledger, step: Step) {
    step.SaveOrder? ==> step.issue in s.issued && step.issue.epoch == s.epoch
  }

  lemma StepKeepsRows(derive: Derive, s: Ledger, step: Step)
    requires Inv(s) && RowsCurrent(derive, s) && SavesCurrent(s, step)
    ensures RowsCurrent(derive, After1(derive, s, step))
  {
    if step.Commit? && step.tx in s.txs {
      assert TxOk(s, s.txs[step.tx]);
    }
    if step.SaveOrder? {
      var i :| 0 <= i < |s.issued| && s.issued[i] == step.issue;
      assert s.issued[i].mnemonic == s.user.mnemonic;
    }
  }

  /** Over any run whose saves use current reservations, rotation included, every row holds the key of the
      current mnemonic and of its own index. */
  lemma {:induction false} RunKeepsRows(derive: Derive, mnemonic: string, steps: seq<Step>)
    requires NeverOverflows(derive, Initial(mnemonic), steps)
    requires forall n :: 0 <= n < |steps| ==> SavesCurrent(Run(derive, Initial(mnemonic), steps[..n]), steps[n])
    ensures RowsCurrent(derive, Run(derive, Initial(mnemonic), steps))
  {
    if steps != [] {
      var n := |steps| - 1;
      forall k | 0 <= k < n
        ensures steps[..n][..k] == steps[..k]
      {
      }
      forall k | 0 <= k < n
        ensures SavesCurrent(Run(derive, Initial(mnemonic), steps[..n][..k]), steps[..n][k])
        ensures NoOverflow(Run(derive, Initial(mnemonic), steps[..n][..k]), steps[..n][k])
      {
        assert steps[..n][k] == steps[k];
      }
      RunKeepsRows(derive, mnemonic, steps[..n]);
      RunKeepsInv(derive, Initial(mnemonic), steps[..n]);
      StepKeepsRows(derive, Run(derive, Initial(mnemonic), steps[..n]), steps[n]);
    }
  }

  predicate Saves(step: Step, id: string) {
    step.SaveOrder? && step.id == id && step.issue.index > 0
  }

  /** Step `n` is the last save of order `id`, and no rotation stands behind it. */
  ghost predicate LastSave(steps: seq<Step>, n: nat, id: string) {
    n < |steps| && Saves(steps[n], id) && forall k :: n < k < |steps| ==> !steps[k].Rotate? && !Saves(steps[k], id)
  }

  lemma StepOnRow(derive: Derive, s: Ledger, step: Step, id: string)
    ensures var orders := After1(derive, s, step).orders;
            && (id in orders <==> Saves(step, id) || (id in s.orders && !step.Rotate?))
            && (id in orders ==> orders[id] == if Saves(step, id) then RowOf(derive, step) else s.orders[id])
  {
  }

  lemma LastSaveOfPush(steps: seq<Step>, step: Step, n: nat, id: string)
    ensures LastSave(steps + [step], n, id)
       <==> if Saves(step, id) then n == |steps|
            else !step.Rotate? && LastSave(steps, n, id)
  {
    var all := steps + [step];
    assert all[|steps|] == step;
    assert forall k :: 0 <= k < |steps| ==> all[k] == steps[k];
  }

  /** The rows of a run are exactly what was saved since the last rotation: an order has a row if and only if it was
      saved and no rotation came later, and the row is the one its last save wrote. */
  lemma {:induction false} RowsAreSavesSinceRotation(derive: Derive, mnemonic: string, steps: seq<Step>, id: string)
    ensures var orders := Run(derive, Initial(mnemonic), steps).orders;
            && (id in orders <==> exists n: nat :: LastSave(steps, n, id))
            && forall n: nat :: LastSave(steps, n, id) ==> orders[id] == RowOf(derive, steps[n])
  {
    if steps != [] {
      var last := |steps| - 1;
      var before := steps[..last];
      assert steps == before + [steps[last]];
      RowsAreSavesSinceRotation(derive, mnemonic, before, id);
      StepOnRow(derive, Run(derive, Initial(mnemonic), before), steps[last], id);
      forall n: nat
        ensures LastSave(steps, n, id)
           <==> if Saves(steps[last], id) then n == last else !steps[last].Rotate? && LastSave(before, n, id)
      {
        LastSaveOfPush(before, steps[last], n, id);
      }
      assert Saves(steps[last], id) ==> LastSave(steps, last, id);
    }
  }

  /** The condition on saves is exact: a save keeps the rows current if and only if its reservation was made under
      the mnemonic that is current when it is saved. A reservation that a rotation overtakes is saved with a key
      of the old identity. */
  lemma SaveKeepsRowsIff(derive: Derive, s: Ledger, step: Step)
    requires RowsCurrent(derive, s) && step.SaveOrder? && step.issue.index > 0
    requires forall a, b, k, l :: derive(a, k) == derive(b, l) ==> a == b && k == l
    ensures RowsCurrent(derive, After1(derive, s, step)) <==> step.issue.mnemonic == s.user.mnemonic
  {
    var after := After1(derive, s, step);
    assert after.orders[step.id].tradeKeys == Some(derive(step.issue.mnemonic, step.issue.index));
  }
}
