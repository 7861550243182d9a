/** The durable set of accepted inner event ids, and the process-wide cache in front of it
    (src/ui/helpers/chat_storage.rs). */
module InnerIds {

  import opened Wrappers
  import opened ChatTypes
  import opened Text

  type Path = string

  // ----- The file format: one id a line -----

  function LowerHex(c: char): char {
    if 'A' <= c <= 'F' then c - 'A' + 'a' else c
  }

  /** Reads 64 hexadecimal digits of either case. */
  function ParseId(s: string): (r: Option<EventId>)
    ensures r.Some? ==> |s| == 64
  {
    var lower := seq(|s|, i requires 0 <= i < |s| => LowerHex(s[i]));
    if IsEventHex(lower) then Some(lower) else None
  }

  function IdsOfLines(lines: seq<string>): set<EventId> {
    if lines == [] then {}
    else
      var n := |lines| - 1;
      IdsOfLines(lines[..n]) +
      match ParseId(Trim(lines[n])) case Some(id) => {id} case None => {}
  }

  function ParsedIds(content: string): set<EventId> {
    IdsOfLines(Lines(content))
  }

  // ----- The store -----

  /** What is in memory and what is on disk. */
  datatype Store = Store(cache: map<Path, set<EventId>>, files: map<Path, string>)

  function FileText(files: map<Path, string>, path: Path): string {
    if path in files then files[path] else ""
  }

  /** The ids on disk. A file that cannot be read counts as empty. */
  function Loaded(s: Store, path: Path, readOk: bool): set<EventId> {
    if path in s.files && readOk then ParsedIds(s.files[path]) else {}
  }

  /** Brings the ids of `path` into memory, once. */
  function Touched(s: Store, path: Path, readOk: bool): Store {
    if path in s.cache then s else s.(cache := s.cache[path := Loaded(s, path, readOk)])
  }

  function Remembered(s: Store, path: Path, id: EventId, readOk: bool, appendOk: bool): (Store, bool) {
    var t := Touched(s, path, readOk);
    if id in t.cache[path] || !appendOk then (t, false)
    else (Store(t.cache[path := t.cache[path] + {id}], t.files[path := FileText(t.files, path) + (id + "\n")]), true)
  }

  // ----- The program -----

  class InnerIdStore {
    var cache: map<Path, set<EventId>>
    var files: map<Path, string>

    function View(): Store
      reads this
    {
      Store(cache, files)
    }

    constructor (files: map<Path, string>)
      ensures View() == Store(map[], files)
    {
      this.files := files;
      cache := map[];
    }

    /** A restart of the process: the disk stays, the cache is gone. */
    method Restart()
      modifies this
      ensures View() == Store(map[], old(files))
    {
      cache := map[];
    }

    method WithInnerIdSet(path: Path, readOk: bool)
      modifies this`cache
      ensures View() == Touched(old(View()), path, readOk) && path in cache
    {
      if path !in cache {
        var ids: set<EventId> := {};
        if path in files && readOk {
          var lines := Lines(files[path]);
          for k := 0 to |lines|
            invariant ids == IdsOfLines(lines[..k])
            invariant View() == old(View())
          {
            assert lines[..k + 1][..k] == lines[..k];
            match ParseId(Trim(lines[k])) {
              case Some(id) => ids := ids + {id};
              case None =>
            }
          }
          assert lines[..|lines|] == lines;
        }
        cache := cache[path := ids];
      }
    }

    method IsKnown(path: Path, id: EventId, readOk: bool) returns (known: bool)
      modifies this`cache
      ensures View() == Touched(old(View()), path, readOk)
      ensures known == (id in Touched(old(View()), path, readOk).cache[path])
    {
      WithInnerIdSet(path, readOk);
      known := id in cache[path];
    }

    /** Records an accepted id. A failed append takes the id out of the cache again. */
    method Remember(path: Path, id: EventId, readOk: bool, appendOk: bool) returns (recorded: bool)
      modifies this
      ensures (View(), recorded) == Remembered(old(View()), path, id, readOk, appendOk)
    {
      WithInnerIdSet(path, readOk);
      if id in cache[path] {
        return false;
      }
      ghost var before := cache;
      cache := cache[path := cache[path] + {id}];
      if !appendOk {
        cache := cache[path := cache[path] - {id}];
        assert cache[path] == before[path];
        assert cache == before;
        return false;
      }
      files := files[path := FileText(files, path) + (id + "\n")];
      recorded := true;
    }
  }

  // ----- Appending a line -----

  /** The lines that end in a line break. */
  function CompleteLines(s: string): seq<string>
    decreases |s|
  {
    var k := NewlineAt(s);
    if k == |s| then [] else [DropCr(s[..k])] + CompleteLines(s[k + 1..])
  }

  /** What stands behind the last line break. */
  function Tail(s: string): string
    decreases |s|
  {
    var k := NewlineAt(s);
    if k == |s| then s else Tail(s[k + 1..])
  }

  lemma FirstLine(s: string)
    requires NewlineAt(s) < |s|
    ensures var k := NewlineAt(s);
            && Lines(s) == [DropCr(s[..k])] + Lines(s[k + 1..])
            && CompleteLines(s) == [DropCr(s[..k])] + CompleteLines(s[k + 1..])
            && Tail(s) == Tail(s[k + 1..])
  {
  }

  function TailLine(tail: string): seq<string> {
    if tail == "" then [] else [tail]
  }

  lemma {:induction false} LinesAreComplete(s: string)
    ensures Lines(s) == CompleteLines(s) + TailLine(Tail(s))
    decreases |s|
  {
    var k := NewlineAt(s);
    if k < |s| {
      FirstLine(s);
      LinesAreComplete(s[k + 1..]);
    }
  }

  lemma NewlineAtIs(s: string, k: nat)
    requires k < |s| && s[k] == '\n' && forall i :: 0 <= i < k ==> s[i] != '\n'
    ensures NewlineAt(s) == k
  {
  }

  /** An appended line is glued to the tail of the file. */
  lemma {:induction false} LinesOfAppend(s: string, x: string)
    requires IsLine(x) && x != ""
    ensures Lines(s + (x + "\n")) == CompleteLines(s) + [Tail(s) + x]
    decreases |s|
  {
    var k := NewlineAt(s);
    if k < |s| {
      LinesOfAppend(s[k + 1..], x);
      FirstLineThenAppend(s, x);
    } else {
      AppendToLine(s, x);
    }
  }

  lemma FirstLineThenAppend(s: string, x: string)
    requires NewlineAt(s) < |s|
    requires var rest := s[NewlineAt(s) + 1..];
             Lines(rest + (x + "\n")) == CompleteLines(rest) + [Tail(rest) + x]
    ensures Lines(s + (x + "\n")) == CompleteLines(s) + [Tail(s) + x]
  {
    FirstLine(s);
    FirstLineOfAppend(s, x + "\n");
  }

  lemma AppendToLine(s: string, x: string)
    requires NewlineAt(s) == |s| && IsLine(x) && x != ""
    ensures Lines(s + (x + "\n")) == [s + x]
  {
    var all := s + (x + "\n");
    NewlineAtIs(all, |s| + |x|);
    FirstLine(all);
    assert all[..|s| + |x|] == s + x && all[|s| + |x| + 1..] == "";
  }

  lemma FirstLineOfAppend(s: string, more: string)
    requires NewlineAt(s) < |s|
    ensures var k := NewlineAt(s); Lines(s + more) == [DropCr(s[..k])] + Lines(s[k + 1..] + more)
  {
    var k := NewlineAt(s);
    NewlineAtIs(s + more, k);
    FirstLine(s + more);
    assert (s + more)[..k] == s[..k] && (s + more)[k + 1..] == s[k + 1..] + more;
  }

  lemma IdsOfPush(lines: seq<string>, line: string)
    ensures IdsOfLines(lines + [line])
         == IdsOfLines(lines) + match ParseId(Trim(line)) case Some(id) => {id} case None => {}
  {
    assert (lines + [line])[..|lines|] == lines;
  }

  lemma ParseOwnId(id: EventId)
    ensures ParseId(id) == Some(id)
    ensures IsLine(id) && IsTrimmed(id)
  {
    forall i | 0 <= i < |id|
      ensures LowerHex(id[i]) == id[i] && id[i] != '\n' && id[i] != '\r' && !IsSpace(id[i])
    {
      assert id[i] in HEX_DIGITS;
    }
    assert seq(|id|, i requires 0 <= i < |id| => LowerHex(id[i])) == id;
  }

  lemma {:induction false} TrimStartGlued(tail: string, id: EventId)
    ensures Trim(tail) == "" ==> TrimStart(tail + id) == id
    ensures Trim(tail) != "" ==> |TrimStart(tail + id)| > |id|
    decreases |tail|
  {
    ParseOwnId(id);
    if tail == "" {
      assert tail + id == id;
    } else if IsSpace(tail[0]) {
      assert (tail + id)[1..] == tail[1..] + id;
      TrimStartGlued(tail[1..], id);
    } else {
      TrimKeepsText(tail);
    }
  }

  lemma {:induction false} TrimStartIsSuffix(s: string)
    ensures |TrimStart(s)| <= |s| && TrimStart(s) == s[|s| - |TrimStart(s)|..]
  {
    if s != "" && IsSpace(s[0]) {
      TrimStartIsSuffix(s[1..]);
    }
  }

  /** An id glued to a blank tail reads as the id; glued to anything else it reads as nothing. */
  lemma ParseGlued(tail: string, id: EventId)
    ensures ParseId(Trim(tail + id)) == if Trim(tail) == "" then Some(id) else None
  {
    ParseOwnId(id);
    TrimStartGlued(tail, id);
    var t := TrimStart(tail + id);
    TrimStartIsSuffix(tail + id);
    assert (tail + id)[|tail + id| - 1] == id[|id| - 1];
    assert t[|t| - 1] == id[|id| - 1];
    assert Trim(tail + id) == t;
  }

  /** An append adds exactly its id to the ids on disk if and only if the file has nothing but white space
      behind its last line break. Otherwise the new id is lost, and so is the one it is glued to. */
  lemma AppendAddsIdIff(content: string, id: EventId)
    requires id !in ParsedIds(content)
    ensures ParsedIds(content + (id + "\n")) == ParsedIds(content) + {id} <==> Trim(Tail(content)) == ""
  {
    var complete, tail := CompleteLines(content), Tail(content);
    ParseOwnId(id);
    LinesAreComplete(content);
    LinesOfAppend(content, id);
    IdsOfPush(complete, tail + id);
    IdsOfPush(complete, tail);
    assert complete + [] == complete;
    ParseGlued(tail, id);
  }

  lemma {:induction false} TailOfAppend(s: string, x: string)
    requires IsLine(x)
    ensures Tail(s + (x + "\n")) == ""
    decreases |s|
  {
    var k := NewlineAt(s);
    var all := s + (x + "\n");
    if k < |s| {
      NewlineAtIs(all, k);
      assert all[k + 1..] == s[k + 1..] + (x + "\n");
      TailOfAppend(s[k + 1..], x);
    } else {
      NewlineAtIs(all, |s| + |x|);
      assert all[|s| + |x| + 1..] == "";
    }
  }

  // ----- Runs -----

  datatype Op =
    | KnownOp(path: Path, id: EventId, readOk: bool)
    | RememberOp(path: Path, id: EventId, readOk: bool, appendOk: bool)
    | RestartOp

  /** The store after `op`, and the answer of a remember. */
  function AfterOp(s: Store, op: Op): (Store, bool) {
    match op
    case KnownOp(path, _, readOk) => (Touched(s, path, readOk), false)
    case RememberOp(path, id, readOk, appendOk) => Remembered(s, path, id, readOk, appendOk)
    case RestartOp => (Store(map[], s.files), false)
  }

  function AfterOps(s: Store, ops: seq<Op>): Store {
    if ops == [] then s else AfterOp(AfterOps(s, ops[..|ops| - 1]), ops[|ops| - 1]).0
  }

  /** Did the `k`-th operation record its id? */
  predicate Recorded(s: Store, ops: seq<Op>, k: nat)
    requires k < |ops|
  {
    AfterOp(AfterOps(s, ops[..k]), ops[k]).1
  }

  function IdsOnDisk(s: Store, path: Path): set<EventId> {
    ParsedIds(FileText(s.files, path))
  }

  /** Every cached set is the set its file parses to, and every file is ready for another line. */
  ghost predicate Agrees(s: Store) {
    && (forall path :: path in s.cache ==> s.cache[path] == IdsOnDisk(s, path))
    && (forall path :: path in s.files ==> Trim(Tail(s.files[path])) == "")
  }

  predicate ReadsSucceed(ops: seq<Op>) {
    forall k :: 0 <= k < |ops| ==> !ops[k].RestartOp? ==> ops[k].readOk
  }

  /** Loading agrees with the file exactly when the read succeeds or there is nothing to read. */
  lemma LoadAgreesIff(s: Store, path: Path, readOk: bool)
    requires path !in s.cache
    ensures Touched(s, path, readOk).cache[path] == IdsOnDisk(s, path) <==> readOk || IdsOnDisk(s, path) == {}
  {
    assert Lines("") == [];
    assert IdsOfLines([]) == {};
  }

  /** Under agreement, touching a path makes it agree too. */
  lemma TouchedAgrees(s: Store, path: Path)
    requires Agrees(s)
    ensures Agrees(Touched(s, path, true)) && Touched(s, path, true).cache[path] == IdsOnDisk(s, path)
    ensures Trim(Tail(FileText(s.files, path))) == ""
  {
    LoadAgreesIff(s.(cache := s.cache - {path}), path, true);
    assert Tail("") == "" && Trim("") == "";
  }

  lemma AppendKeepsReady(content: string, id: EventId)
    requires Trim(Tail(content)) == "" && id !in ParsedIds(content)
    ensures ParsedIds(content + (id + "\n")) == ParsedIds(content) + {id}
    ensures Trim(Tail(content + (id + "\n"))) == ""
  {
    AppendAddsIdIff(content, id);
    ParseOwnId(id);
    TailOfAppend(content, id);
    assert Trim("") == "";
  }

  /** `Remember` says yes exactly when the id was not on disk and the append went through; then the id is on
      disk, and nothing else changed there. */
  lemma RememberMeaning(s: Store, path: Path, id: EventId, appendOk: bool)
    requires Agrees(s)
    ensures var (after, recorded) := Remembered(s, path, id, true, appendOk);
            && (recorded <==> id !in IdsOnDisk(s, path) && appendOk)
            && IdsOnDisk(after, path) == IdsOnDisk(s, path) + (if recorded then {id} else {})
            && (forall p :: p != path ==> FileText(after.files, p) == FileText(s.files, p))
  {
    TouchedAgrees(s, path);
    if id !in IdsOnDisk(s, path) {
      AppendKeepsReady(FileText(s.files, path), id);
    }
  }

  /** Either way the cache still agrees with the files. */
  lemma RememberAgrees(s: Store, path: Path, id: EventId, appendOk: bool)
    requires Agrees(s)
    ensures Agrees(Remembered(s, path, id, true, appendOk).0)
  {
    TouchedAgrees(s, path);
    if id !in IdsOnDisk(s, path) {
      AppendKeepsReady(FileText(s.files, path), id);
    }
  }

  lemma StepAgrees(s: Store, op: Op)
    requires Agrees(s) && (!op.RestartOp? ==> op.readOk)
    ensures Agrees(AfterOp(s, op).0)
    ensures forall path :: IdsOnDisk(s, path) <= IdsOnDisk(AfterOp(s, op).0, path)
  {
    match op
    case RestartOp =>
    case KnownOp(path, _, _) => LoadAgreesIff(s.(cache := s.cache - {path}), path, true);
    case RememberOp(path, id, _, appendOk) =>
      RememberAgrees(s, path, id, appendOk);
      RememberMeaning(s, path, id, appendOk);
  }

  /** After any run of known, remember and restart, with any appends failing, the cache agrees with the files. */
  lemma {:induction false} RunAgrees(s: Store, ops: seq<Op>)
    requires Agrees(s) && ReadsSucceed(ops)
    ensures Agrees(AfterOps(s, ops))
    ensures forall path :: IdsOnDisk(s, path) <= IdsOnDisk(AfterOps(s, ops), path)
  {
    if ops != [] {
      var n := |ops| - 1;
      RunAgrees(s, ops[..n]);
      StepAgrees(AfterOps(s, ops[..n]), ops[n]);
    }
  }

  /** An id stays on disk. */
  lemma {:induction false} StaysOnDisk(s: Store, ops: seq<Op>, i: nat, j: nat, path: Path, id: EventId)
    requires Agrees(s) && ReadsSucceed(ops) && i <= j <= |ops|
    requires id in IdsOnDisk(AfterOps(s, ops[..i]), path)
    ensures id in IdsOnDisk(AfterOps(s, ops[..j]), path)
    decreases j - i
  {
    if i < j {
      DiskGrowsAt(s, ops, i, path);
      StaysOnDisk(s, ops, i + 1, j, path, id);
    }
  }

  lemma DiskGrowsAt(s: Store, ops: seq<Op>, j: nat, path: Path)
    requires Agrees(s) && ReadsSucceed(ops) && j < |ops|
    ensures IdsOnDisk(AfterOps(s, ops[..j]), path) <= IdsOnDisk(AfterOps(s, ops[..j + 1]), path)
  {
    RunAgrees(s, ops[..j]);
    StepAgrees(AfterOps(s, ops[..j]), ops[j]);
    assert ops[..j + 1][..j] == ops[..j];
  }

  lemma RecordedIffNotOnDisk(s: Store, ops: seq<Op>, k: nat)
    requires Agrees(s) && ReadsSucceed(ops)
    requires k < |ops| && ops[k].RememberOp?
    ensures Recorded(s, ops, k) <==> ops[k].id !in IdsOnDisk(AfterOps(s, ops[..k]), ops[k].path) && ops[k].appendOk
    ensures Recorded(s, ops, k) ==> ops[k].id in IdsOnDisk(AfterOps(s, ops[..k + 1]), ops[k].path)
  {
    RunAgrees(s, ops[..k]);
    RememberMeaning(AfterOps(s, ops[..k]), ops[k].path, ops[k].id, ops[k].appendOk);
    assert ops[..k + 1][..k] == ops[..k];
  }

  /** No id is recorded twice for one file, restarts included. */
  lemma RecordedAtMostOnce(s: Store, ops: seq<Op>, i: nat, j: nat)
    requires Agrees(s) && ReadsSucceed(ops)
    requires i < j < |ops| && ops[i].RememberOp? && ops[j].RememberOp?
    requires ops[i].path == ops[j].path && ops[i].id == ops[j].id
    requires Recorded(s, ops, i)
    ensures !Recorded(s, ops, j)
  {
    RecordedIffNotOnDisk(s, ops, i);
    StaysOnDisk(s, ops, i + 1, j, ops[i].path, ops[i].id);
    RecordedIffNotOnDisk(s, ops, j);
  }

  /** A failed read is remembered as an empty file: on the first touch of a path, an id that is on disk is recorded
      again if and only if the read fails. */
  lemma FailedReadRepeats(s: Store, path: Path, id: EventId, readOk: bool)
    requires path !in s.cache && id in IdsOnDisk(s, path)
    ensures var (after, recorded) := Remembered(s, path, id, readOk, true);
            && (recorded <==> !readOk)
            && FileText(after.files, path) == FileText(s.files, path) + if readOk then "" else id + "\n"
  {
    assert Lines("") == [] && IdsOfLines([]) == {};
    assert FileText(s.files, path) + "" == FileText(s.files, path);
  }

  // ----- Reading and keeping -----

  /** The digit `d` is how `c` reads, in either case. */
  predicate ReadsAs(c: char, d: char) {
    || (c in "0123456789abcdef" && d == c)
    || (c == 'A' && d == 'a') || (c == 'B' && d == 'b') || (c == 'C' && d == 'c')
    || (c == 'D' && d == 'd') || (c == 'E' && d == 'e') || (c == 'F' && d == 'f')
  }

  /** A line is an id exactly when it is 64 hexadecimal digits of either case. */
  lemma ParseIdIff(s: string, id: EventId)
    ensures ParseId(s) == Some(id) <==> |s| == 64 && forall i :: 0 <= i < 64 ==> ReadsAs(s[i], id[i])
  {
    var lower := seq(|s|, i requires 0 <= i < |s| => LowerHex(s[i]));
    forall i | 0 <= i < |s|
      ensures lower[i] in HEX_DIGITS <==> exists d :: ReadsAs(s[i], d)
      ensures lower[i] in HEX_DIGITS ==> ReadsAs(s[i], lower[i])
    {
      DigitReads(s[i]);
    }
    if ParseId(s) == Some(id) {
      assert lower == id;
    }
    if |s| == 64 && forall i :: 0 <= i < 64 ==> ReadsAs(s[i], id[i]) {
      forall i | 0 <= i < 64
        ensures lower[i] == id[i]
      {
        DigitReads(s[i]);
      }
      assert lower == id;
    }
  }

  lemma DigitReads(c: char)
    ensures LowerHex(c) in HEX_DIGITS ==> ReadsAs(c, LowerHex(c))
    ensures forall d :: ReadsAs(c, d) ==> d == LowerHex(c) && d in HEX_DIGITS
  {
  }

  /** The file is read on the first touch only: from then on what is known does not depend on reads. */
  lemma ReadOnce(s: Store, path: Path, readOk: bool, again: bool)
    ensures var t := Touched(s, path, readOk); Touched(t, path, again) == t && path in t.cache
    ensures path in s.cache ==> Touched(s, path, readOk) == s
  {
  }

  /** A restart forgets whatever went wrong in memory and keeps the disk: the next successful read agrees with it. */
  lemma RestartHeals(s: Store, path: Path)
    ensures var restarted := AfterOp(s, RestartOp).0;
            && restarted.files == s.files
            && Touched(restarted, path, true).cache[path] == IdsOnDisk(s, path)
  {
    LoadAgreesIff(Store(map[], s.files), path, true);
  }
}
