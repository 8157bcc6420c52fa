/** begin_op / log_write / end_op / commit (log.c) as a state machine in which any number of
    processes interleave, each block write of a commit is a step of its own, and the machine
    may crash at any point, also while it recovers. */
module LogProtocol {
  import opened Words
  import opened Sequences
  import opened LogSpec

  // Where a process is in its file-system call.
  datatype Phase =
    | Idle
    | InOp(op: nat, used: nat)                       // between begin_op and end_op; used = blocks it put in the header
    | Checked(op: nat, used: nat, bn: nat, v: Block) // log_write passed its tests, has not taken log.lock yet
    | Committer                                      // its end_op set log.committing and runs commit()
  {
    predicate Active() { InOp? || Checked? }
  }

  // The machine is up, or recover_from_log has done k block writes for header h.
  datatype Mode = Up | Rebooting(k: nat, h: Block, listed: seq<nat>)

  // One log_write: operation op logged value v for home block bn.
  datatype Rec = Rec(op: nat, bn: nat, v: Block)

  datatype State = State(
    disk: Disk,
    mem: Disk,              // what the buffer cache holds for every block
    homes: seq<nat>,        // log.lh.block[..log.lh.n]
    outstanding: int,
    committing: bool,
    written: nat,           // block writes the running commit has done
    h0: Block,              // header block when the running commit started
    procs: seq<Phase>,
    mode: Mode,
    nextOp: nat,
    base: Disk,             // contents when the history starts
    recs: seq<Rec>,         // every log_write not lost in a crash
    durable: nat,           // recs[..durable] survive a crash now
    full: Disk,             // contents with all of recs
    kept: Disk)             // contents with recs[..durable]

  datatype Event =
    | Begin(p: nat)
    | Check(p: nat, bn: nat, v: Block)
    | Record(p: nat)
    | End(p: nat)
    | CommitStepEv(p: nat)
    | CommitDone(p: nat)
    | Crash
    | RecoverStepEv
    | RecoverDone

  // ---- the steps ----

  // log_write's first test (log.c:215): it panics when this holds.
  predicate TooBig(g: Geometry, s: State) { |s.homes| >= LOGSIZE || |s.homes| >= g.size - 1 }

  predicate Running(s: State, p: nat) { s.mode.Up? && p < |s.procs| }

  // The header's block list after log_write of bn: absorbed if already there, appended if not.
  function Absorb(homes: seq<nat>, bn: nat): seq<nat> {
    if bn in homes then homes else homes + [bn]
  }

  // Number of block writes commit() makes for a transaction of n blocks.
  function WriteCount(n: nat): nat { if n == 0 then 0 else 2 * n + 2 }

  // Everything commit() reads and writes exists (the disk driver panics otherwise).
  predicate Addressable(g: Geometry, d: Disk, homes: seq<nat>) {
    && Entries(homes) && g.start + 1 + |homes| <= |d|
    && forall i :: 0 <= i < |homes| ==> homes[i] < |d|
  }

  // The next block write of the running commit, from the cache, the header and the log.
  function NextCommitWrite(g: Geometry, s: State): Write
    requires Addressable(g, s.disk, s.homes) && |s.mem| == |s.disk| && s.written < WriteCount(|s.homes|)
  {
    var n := |s.homes|;
    if s.written < n then Write(g.start + 1 + s.written, s.mem[s.homes[s.written]])
    else if s.written == n then Write(g.start, PutHeader(s.disk[g.start], s.homes))
    else NextInstallWrite(g, s.disk, s.homes, s.written - n - 1)
  }

  // install_trans copies from the log; after the last block the header is erased.
  function NextInstallWrite(g: Geometry, d: Disk, homes: seq<nat>, k: nat): Write
    requires Addressable(g, d, homes) && k <= |homes|
  {
    if k < |homes| then Write(homes[k], LogBlock(g, d, k)) else Write(g.start, PutHeader(d[g.start], []))
  }

  // What read_head makes of a header block (a count past the array never happens, see Safe).
  function ReadHeader(h: Block): seq<nat> {
    if HeaderCount(h) <= LOGSIZE then HeaderEntries(h) else []
  }

  predicate Enabled(g: Geometry, s: State, ev: Event) {
    match ev
    case Begin(p) =>
      && Running(s, p) && s.procs[p].Idle? && !s.committing
      && |s.homes| + (s.outstanding + 1) * MAXOPBLOCKS <= LOGSIZE
    case Check(p, bn, v) =>
      && Running(s, p) && s.procs[p].InOp?
      && !TooBig(g, s) && s.outstanding >= 1
      && bn < |s.disk| && !g.InLog(bn)
    case Record(p) => Running(s, p) && s.procs[p].Checked? && s.procs[p].bn < |s.mem|
    case End(p) => Running(s, p) && s.procs[p].InOp? && !s.committing
    case CommitStepEv(p) =>
      && Running(s, p) && s.procs[p].Committer? && s.written < WriteCount(|s.homes|)
      && Addressable(g, s.disk, s.homes) && |s.mem| == |s.disk|
    case CommitDone(p) => Running(s, p) && s.procs[p].Committer? && s.written == WriteCount(|s.homes|)
    case Crash => g.start < |s.disk| && s.durable <= |s.recs|
    case RecoverStepEv =>
      s.mode.Rebooting? && s.mode.k <= |s.mode.listed| && Addressable(g, s.disk, s.mode.listed)
    case RecoverDone => s.mode.Rebooting? && s.mode.k == |s.mode.listed| + 1
  }

  function DoBegin(s: State, p: nat): State
    requires Running(s, p)
  {
    s.(outstanding := s.outstanding + 1, procs := s.procs[p := InOp(s.nextOp, 0)], nextOp := s.nextOp + 1)
  }

  function DoCheck(s: State, p: nat, bn: nat, v: Block): State
    requires Running(s, p) && s.procs[p].InOp?
  {
    s.(procs := s.procs[p := Checked(s.procs[p].op, s.procs[p].used, bn, v)])
  }

  function DoRecord(s: State, p: nat): State
    requires Running(s, p) && s.procs[p].Checked? && s.procs[p].bn < |s.mem|
  {
    var c := s.procs[p];
    s.(homes := Absorb(s.homes, c.bn), mem := s.mem[c.bn := c.v],
       procs := s.procs[p := Recorded(s.homes, c)], recs := s.recs + [Rec(c.op, c.bn, c.v)],
       full := if c.bn < |s.full| then s.full[c.bn := c.v] else s.full)
  }

  // The process after its log_write: a block that is absorbed costs it nothing.
  function Recorded(homes: seq<nat>, c: Phase): Phase
    requires c.Checked?
  { InOp(c.op, if c.bn in homes then c.used else c.used + 1) }

  // end_op: the last operation out becomes the committer.
  function DoEnd(g: Geometry, s: State, p: nat): State
    requires Running(s, p) && g.start < |s.disk|
  {
    if s.outstanding - 1 == 0 then
      s.(outstanding := 0, committing := true, written := 0, h0 := s.disk[g.start], procs := s.procs[p := Committer])
    else
      s.(outstanding := s.outstanding - 1, procs := s.procs[p := Idle])
  }

  function DoCommitStep(g: Geometry, s: State): State
    requires s.written < WriteCount(|s.homes|) && Addressable(g, s.disk, s.homes) && |s.mem| == |s.disk|
  {
    s.(disk := Put(s.disk, NextCommitWrite(g, s)), written := s.written + 1,
       durable := if s.written == |s.homes| then |s.recs| else s.durable,
       kept := if s.written == |s.homes| then s.full else s.kept)
  }

  function DoCommitDone(s: State, p: nat): State
    requires Running(s, p)
  {
    s.(homes := [], committing := false, written := 0, procs := s.procs[p := Idle])
  }

  // All memory is lost; so are the log_writes that had not been committed.
  function DoCrash(g: Geometry, s: State): State
    requires g.start < |s.disk| && s.durable <= |s.recs|
  {
    s.(mem := s.disk, homes := [], outstanding := 0, committing := false, written := 0,
       procs := seq(|s.procs|, _ => Idle),
       mode := Rebooting(0, s.disk[g.start], ReadHeader(s.disk[g.start])),
       recs := s.recs[..s.durable], full := s.kept)
  }

  function DoRecoverStep(g: Geometry, s: State): State
    requires s.mode.Rebooting? && s.mode.k <= |s.mode.listed| && Addressable(g, s.disk, s.mode.listed)
  {
    s.(disk := Put(s.disk, NextInstallWrite(g, s.disk, s.mode.listed, s.mode.k)), mode := s.mode.(k := s.mode.k + 1))
  }

  function Do(g: Geometry, s: State, ev: Event): State
    requires Enabled(g, s, ev) && g.start < |s.disk|
  {
    match ev
    case Begin(p) => DoBegin(s, p)
    case Check(p, bn, v) => DoCheck(s, p, bn, v)
    case Record(p) => DoRecord(s, p)
    case End(p) => DoEnd(g, s, p)
    case CommitStepEv(p) => DoCommitStep(g, s)
    case CommitDone(p) => DoCommitDone(s, p)
    case Crash => DoCrash(g, s)
    case RecoverStepEv => DoRecoverStep(g, s)
    case RecoverDone => s.(mode := Up, mem := s.disk)
  }

  // ---- concurrency: the reservation and the single committer ----

  function Sum(ps: seq<Phase>, w: Phase -> nat): nat {
    if ps == [] then 0 else Sum(ps[..|ps| - 1], w) + w(ps[|ps| - 1])
  }

  lemma {:induction false} SumUpdate(ps: seq<Phase>, i: nat, ph: Phase, w: Phase -> nat)
    requires i < |ps|
    ensures Sum(ps[i := ph], w) + w(ps[i]) == Sum(ps, w) + w(ph)
  {
    var k := |ps| - 1;
    if i == k {
      assert ps[i := ph][..k] == ps[..k];
    } else {
      assert ps[i := ph][..k] == ps[..k][i := ph];
      SumUpdate(ps[..k], i, ph, w);
    }
  }

  lemma {:induction false} SumZero(ps: seq<Phase>, w: Phase -> nat)
    requires forall i :: 0 <= i < |ps| ==> w(ps[i]) == 0
    ensures Sum(ps, w) == 0
  {
    if ps != [] { SumZero(ps[..|ps| - 1], w); }
  }

  lemma {:induction false} SumAtLeast(ps: seq<Phase>, i: nat, w: Phase -> nat)
    requires i < |ps|
    ensures Sum(ps, w) >= w(ps[i])
  {
    if i < |ps| - 1 { SumAtLeast(ps[..|ps| - 1], i, w); }
  }

  function ActiveOf(ph: Phase): nat { if ph.Active() then 1 else 0 }
  function LeftOf(ph: Phase): nat { if ph.Active() && ph.used <= MAXOPBLOCKS then MAXOPBLOCKS - ph.used else 0 }
  function CommitterOf(ph: Phase): nat { if ph.Committer? then 1 else 0 }

  // What begin_op has reserved and is not used is at most MAXOPBLOCKS per operation.
  lemma {:induction false} LeftBound(ps: seq<Phase>)
    ensures Sum(ps, LeftOf) <= Sum(ps, ActiveOf) * MAXOPBLOCKS
  {
    if ps != [] { LeftBound(ps[..|ps| - 1]); }
  }

  predicate PhasesOk(g: Geometry, s: State) {
    forall p :: 0 <= p < |s.procs| && s.procs[p].Checked? ==> s.procs[p].bn < |s.disk| && !g.InLog(s.procs[p].bn)
  }

  // One process at most commits, and while it does no operation is outstanding.
  predicate Controlled(g: Geometry, s: State) {
    && PhasesOk(g, s)
    && s.outstanding == Sum(s.procs, ActiveOf)
    && Sum(s.procs, CommitterOf) == (if s.committing then 1 else 0)
    && (s.committing ==> s.outstanding == 0)
    && (!s.committing ==> s.written == 0)
    && (s.mode.Rebooting? ==> !s.committing && s.outstanding == 0 && s.homes == [])
  }

  // No operation in progress has put more than max blocks in the header.
  predicate UsedAtMost(s: State, max: nat) {
    forall p :: 0 <= p < |s.procs| && s.procs[p].Active() ==> s.procs[p].used <= max
  }

  // Blocks in the header plus all that is reserved and unused fit the header.
  predicate Reserved(s: State) { |s.homes| + Sum(s.procs, LeftOf) <= LOGSIZE }

  lemma SumsUpdate(s: State, p: nat, ph: Phase)
    requires p < |s.procs|
    ensures var ps := s.procs[p := ph];
            && Sum(ps, ActiveOf) + ActiveOf(s.procs[p]) == Sum(s.procs, ActiveOf) + ActiveOf(ph)
            && Sum(ps, LeftOf) + LeftOf(s.procs[p]) == Sum(s.procs, LeftOf) + LeftOf(ph)
            && Sum(ps, CommitterOf) + CommitterOf(s.procs[p]) == Sum(s.procs, CommitterOf) + CommitterOf(ph)
  {
    SumUpdate(s.procs, p, ph, ActiveOf);
    SumUpdate(s.procs, p, ph, LeftOf);
    SumUpdate(s.procs, p, ph, CommitterOf);
  }

  lemma ControlledCrash(g: Geometry, s: State)
    requires Enabled(g, s, Crash)
    ensures Controlled(g, DoCrash(g, s)) && Reserved(DoCrash(g, s))
  {
    var ps := DoCrash(g, s).procs;
    SumZero(ps, ActiveOf); SumZero(ps, LeftOf); SumZero(ps, CommitterOf);
  }

  lemma ControlledCommit(g: Geometry, s: State, p: nat)
    requires Controlled(g, s)
    ensures Enabled(g, s, CommitStepEv(p)) ==> s.committing && Controlled(g, DoCommitStep(g, s))
    ensures Enabled(g, s, CommitDone(p)) ==> s.committing && Controlled(g, DoCommitDone(s, p))
  {
    if Running(s, p) {
      SumAtLeast(s.procs, p, CommitterOf);
      SumsUpdate(s, p, Idle);
    }
  }

  lemma ControlledStep(g: Geometry, s: State, ev: Event)
    requires Controlled(g, s) && Enabled(g, s, ev) && g.start < |s.disk|
    ensures Controlled(g, Do(g, s, ev)) == true
  {
    match ev
    case Begin(p) => SumsUpdate(s, p, InOp(s.nextOp, 0));
    case Check(p, bn, v) => SumsUpdate(s, p, Checked(s.procs[p].op, s.procs[p].used, bn, v));
    case Record(p) => SumsUpdate(s, p, Recorded(s.homes, s.procs[p]));
    case End(p) => SumsUpdate(s, p, if s.outstanding == 1 then Committer else Idle);
    case CommitStepEv(p) => ControlledCommit(g, s, p);
    case CommitDone(p) => ControlledCommit(g, s, p);
    case Crash => ControlledCrash(g, s);
    case RecoverStepEv =>
    case RecoverDone =>
  }

  // The reservation holds as long as no operation uses more than was reserved for it.
  lemma ReservedStep(g: Geometry, s: State, ev: Event)
    requires Controlled(g, s) && Reserved(s) && Enabled(g, s, ev) && g.start < |s.disk|
    requires UsedAtMost(Do(g, s, ev), MAXOPBLOCKS)
    ensures Reserved(Do(g, s, ev)) == true
  {
    match ev
    case Begin(p) =>
      LeftBound(s.procs);
      SumsUpdate(s, p, InOp(s.nextOp, 0));
    case Check(p, bn, v) => SumsUpdate(s, p, Checked(s.procs[p].op, s.procs[p].used, bn, v));
    case Record(p) =>
      SumsUpdate(s, p, Recorded(s.homes, s.procs[p]));
      assert Do(g, s, ev).procs[p].used <= MAXOPBLOCKS;
    case End(p) => SumsUpdate(s, p, if s.outstanding == 1 then Committer else Idle);
    case CommitStepEv(p) =>
    case CommitDone(p) => SumsUpdate(s, p, Idle);
    case Crash => ControlledCrash(g, s);
    case RecoverStepEv =>
    case RecoverDone =>
  }

  // ---- history: whole operations ----

  predicate RecsInRange(g: Geometry, size: nat, recs: seq<Rec>) {
    forall i :: 0 <= i < |recs| ==> recs[i].bn < size && !g.InLog(recs[i].bn)
  }

  // The contents after a sequence of log_writes.
  function Replay(base: Disk, recs: seq<Rec>): (r: Disk)
    requires forall i :: 0 <= i < |recs| ==> recs[i].bn < |base|
    ensures |r| == |base|
  {
    if recs == [] then base
    else
      var k := |recs| - 1;
      Replay(base, recs[..k])[recs[k].bn := recs[k].v]
  }

  // No operation in progress has an id used before or by another process.
  predicate OpsFresh(s: State) {
    && (forall p :: 0 <= p < |s.procs| && s.procs[p].Active() ==> s.procs[p].op < s.nextOp)
    && (forall p, q :: 0 <= p < q < |s.procs| && s.procs[p].Active() && s.procs[q].Active() ==>
       s.procs[p].op != s.procs[q].op)
  }

  predicate NoneDurable(recs: seq<Rec>, durable: nat, op: nat)
    requires durable <= |recs|
  {
    forall i :: 0 <= i < durable ==> recs[i].op != op
  }

  // No operation is split between the durable log_writes and the rest: one with a durable
  // log_write is not in progress, and all its log_writes are durable.
  predicate Whole(s: State) {
    && s.durable <= |s.recs|
    && (forall i :: 0 <= i < |s.recs| ==> s.recs[i].op < s.nextOp)
    && (forall p :: 0 <= p < |s.procs| && s.procs[p].Active() ==> NoneDurable(s.recs, s.durable, s.procs[p].op))
    && (forall j :: s.durable <= j < |s.recs| ==> NoneDurable(s.recs, s.durable, s.recs[j].op))
  }

  lemma NoneActive(g: Geometry, s: State)
    requires Controlled(g, s) && s.committing
    ensures forall p :: 0 <= p < |s.procs| ==> !s.procs[p].Active()
  {
    forall p | 0 <= p < |s.procs| ensures !s.procs[p].Active() { SumAtLeast(s.procs, p, ActiveOf); }
  }

  lemma WholeRecord(g: Geometry, s: State, p: nat)
    requires OpsFresh(s) && Whole(s) && Enabled(g, s, Record(p))
    ensures Whole(DoRecord(s, p)) && OpsFresh(DoRecord(s, p))
  {
    var t := DoRecord(s, p);
    forall op | NoneDurable(s.recs, s.durable, op) ensures NoneDurable(t.recs, t.durable, op) {}
  }

  lemma WholeUpdate(s: State, p: nat, ph: Phase, n: nat)
    requires OpsFresh(s) && Whole(s) && p < |s.procs| && s.nextOp <= n
    requires ph.Active() ==> (s.procs[p].Active() && ph.op == s.procs[p].op) || s.nextOp <= ph.op < n
    ensures var t := s.(procs := s.procs[p := ph], nextOp := n); Whole(t) && OpsFresh(t)
  {}

  lemma WholeCommit(g: Geometry, s: State, p: nat)
    requires Controlled(g, s) && Whole(s) && OpsFresh(s) && Enabled(g, s, CommitStepEv(p))
    ensures Whole(DoCommitStep(g, s)) && OpsFresh(DoCommitStep(g, s))
  {
    ControlledCommit(g, s, p);
    NoneActive(g, s);
  }

  lemma WholeStep(g: Geometry, s: State, ev: Event)
    requires Controlled(g, s) && Whole(s) && OpsFresh(s) && Enabled(g, s, ev) && g.start < |s.disk|
    ensures Whole(Do(g, s, ev)) == OpsFresh(Do(g, s, ev)) == true
  {
    match ev
    case Begin(p) => WholeUpdate(s, p, InOp(s.nextOp, 0), s.nextOp + 1);
    case Check(p, bn, v) => WholeUpdate(s, p, Checked(s.procs[p].op, s.procs[p].used, bn, v), s.nextOp);
    case Record(p) => WholeRecord(g, s, p);
    case End(p) => WholeUpdate(s, p, if s.outstanding == 1 then Committer else Idle, s.nextOp);
    case CommitStepEv(p) => WholeCommit(g, s, p);
    case CommitDone(p) => WholeUpdate(s, p, Idle, s.nextOp);
    case Crash =>
    case RecoverStepEv =>
    case RecoverDone =>
  }

  predicate Sizes(g: Geometry, s: State) {
    && g.Fits(s.disk) && |s.mem| == |s.disk| == |s.base| == |s.full| == |s.kept|
    && RecsInRange(g, |s.base|, s.recs) && s.durable <= |s.recs|
  }

  // full and kept are what replaying the history gives; a log_write that is not durable has its
  // block in the header.
  predicate Replayed(g: Geometry, s: State) {
    && Sizes(g, s)
    && s.full == Replay(s.base, s.recs)
    && s.kept == Replay(s.base, s.recs[..s.durable])
    && (s.mode.Rebooting? ==> s.durable == |s.recs|)
    && (s.mode.Up? ==> if s.written <= |s.homes| then Covered(s) else s.durable == |s.recs|)
  }

  predicate Covered(s: State)
    requires s.durable <= |s.recs|
  {
    forall i :: s.durable <= i < |s.recs| ==> s.recs[i].bn in s.homes
  }

  lemma ReplayedRecord(g: Geometry, s: State, p: nat)
    requires Replayed(g, s) && s.written == 0 && PhasesOk(g, s) && Enabled(g, s, Record(p))
    ensures Replayed(g, DoRecord(s, p))
  {
    var t := DoRecord(s, p);
    assert t.recs[..|s.recs|] == s.recs;
    assert t.recs[..s.durable] == s.recs[..s.durable];
    forall i | 0 <= i < |t.recs| ensures t.recs[i].bn < |s.base| && !g.InLog(t.recs[i].bn) {
      if i < |s.recs| { assert t.recs[i] == s.recs[i]; }
    }
    forall i | t.durable <= i < |t.recs| ensures t.recs[i].bn in t.homes {
      if i < |s.recs| { assert t.recs[i] == s.recs[i] && s.recs[i].bn in s.homes; }
    }
  }

  lemma ReplayedCommit(g: Geometry, s: State, p: nat)
    requires Replayed(g, s)
    ensures Enabled(g, s, CommitStepEv(p)) ==> Replayed(g, DoCommitStep(g, s))
    ensures Enabled(g, s, CommitDone(p)) ==> Replayed(g, DoCommitDone(s, p))
  {
    assert s.recs[..|s.recs|] == s.recs;
  }

  lemma ReplayedStep(g: Geometry, s: State, ev: Event)
    requires Replayed(g, s) && Controlled(g, s) && Enabled(g, s, ev)
    ensures Replayed(g, Do(g, s, ev)) == true
  {
    match ev
    case Begin(p) =>
    case Check(p, bn, v) =>
    case Record(p) =>
      if s.committing { NoneActive(g, s); }
      ReplayedRecord(g, s, p);
    case End(p) =>
    case CommitStepEv(p) => ReplayedCommit(g, s, p);
    case CommitDone(p) => ReplayedCommit(g, s, p);
    case Crash => assert s.recs[..s.durable][..s.durable] == s.recs[..s.durable];
    case RecoverStepEv =>
    case RecoverDone => assert s.recs[..s.durable] == s.recs;
  }

  // A block whose log_writes are all durable has the same content in both.
  lemma {:induction false} Untouched(base: Disk, recs: seq<Rec>, k: nat, b: nat)
    requires k <= |recs| && b < |base|
    requires forall i :: 0 <= i < |recs| ==> recs[i].bn < |base|
    requires forall i :: k <= i < |recs| ==> recs[i].bn != b
    ensures Replay(base, recs)[b] == Replay(base, recs[..k])[b]
  {
    if k == |recs| {
      assert recs[..k] == recs;
    } else {
      var n := |recs| - 1;
      Untouched(base, recs[..n], k, b);
      assert recs[..n][..k] == recs[..k];
    }
  }

  // Outside the header's blocks the full and the durable contents agree.
  lemma ReplayedAgree(g: Geometry, s: State)
    requires Replayed(g, s) && s.mode.Up?
    ensures forall b :: 0 <= b < |s.base| && b !in s.homes ==> s.full[b] == s.kept[b]
  {
    forall b | 0 <= b < |s.base| && b !in s.homes ensures s.full[b] == s.kept[b] {
      Untouched(s.base, s.recs, s.durable, b);
    }
  }

  // ---- disk: what a crash would leave ----

  predicate SameHome(g: Geometry, c: Disk, d: Disk) {
    |c| == |d| && forall b :: 0 <= b < |c| && !g.InLog(b) ==> c[b] == d[b]
  }

  lemma HeldSame(g: Geometry, d: Disk, homes: seq<nat>, c: Disk, c': Disk)
    requires Held(g, d, homes, c) && SameHome(g, c, c')
    ensures Held(g, d, homes, c')
  {}

  // The header's list: distinct home blocks.
  predicate Listed(g: Geometry, size: nat, homes: seq<nat>) {
    Distinct(homes) && forall i :: 0 <= i < |homes| ==> homes[i] < size && !g.InLog(homes[i])
  }

  function Vals(mem: Disk, homes: seq<nat>): (vals: seq<Block>)
    requires forall i :: 0 <= i < |homes| ==> homes[i] < |mem|
    ensures |vals| == |homes| && forall i :: 0 <= i < |vals| ==> vals[i] == mem[homes[i]]
  { seq(|homes|, i requires 0 <= i < |homes| => mem[homes[i]]) }

  // Memory shows every log_write, and the header lists the blocks whose log_writes are not durable.
  predicate MemOk(g: Geometry, size: nat, s: State) {
    && Listed(g, size, s.homes) && |s.mem| == size
    && SameHome(g, s.mem, s.full)
  }

  // The running commit has done `written` block writes, with h the header block that lists the
  // transaction and e the erased one.
  predicate CommitOk(g: Geometry, s: State, vals: seq<Block>, h: Block, e: Block) {
    if s.written <= |s.homes| then WritingLog(g, s.disk, s.kept, s.h0, vals, s.written)
    else Recovering(g, s.disk, s.kept, h, e, s.homes, vals, s.written - |s.homes| - 1)
  }

  // The machine is up: the disk holds the durable log_writes.
  predicate UpOk(g: Geometry, s: State) {
    && g.Fits(s.disk) && MemOk(g, |s.disk|, s)
    && if s.committing then
         && Entries(s.homes) && Reads(s.h0, []) && |s.homes| <= g.size - 1
         && var h := PutHeader(s.h0, s.homes);
            CommitOk(g, s, Vals(s.mem, s.homes), h, PutHeader(h, []))
       else
         Clean(g, s.disk, s.kept)
  }

  // The machine is recovering.
  ghost predicate RebootOk(g: Geometry, s: State)
    requires s.mode.Rebooting?
  {
    && s.full == s.kept && Reads(s.mode.h, s.mode.listed)
    && exists vals :: Recovering(g, s.disk, s.kept, s.mode.h, PutHeader(s.mode.h, []), s.mode.listed, vals, s.mode.k)
  }

  ghost predicate DiskOk(g: Geometry, s: State) {
    if s.mode.Up? then UpOk(g, s) else RebootOk(g, s)
  }

  // Installing the header's blocks from memory turns the durable contents into the full ones.
  lemma CommitInstallsAll(g: Geometry, s: State)
    requires MemOk(g, |s.disk|, s) && |s.kept| == |s.disk|
    requires forall b :: 0 <= b < |s.disk| && b !in s.homes ==> s.full[b] == s.kept[b]
    ensures SameHome(g, Installed(s.kept, s.homes, Vals(s.mem, s.homes)), s.full)
  {
    var c := Installed(s.kept, s.homes, Vals(s.mem, s.homes));
    forall b | 0 <= b < |c| && !g.InLog(b) ensures c[b] == s.full[b] {
      if b in s.homes { var i :| 0 <= i < |s.homes| && s.homes[i] == b; }
    }
  }

  // In every such state the disk durably holds the durable log_writes.
  lemma DiskOkDurable(g: Geometry, s: State)
    requires DiskOk(g, s)
    ensures Durable(g, s.disk, s.kept)
  {
    if s.mode.Rebooting? {
      var h, e := s.mode.h, PutHeader(s.mode.h, []);
      var vals :| Recovering(g, s.disk, s.kept, h, e, s.mode.listed, vals, s.mode.k);
      HeaderRoundTrip(h, []);
      RecoveringIsDurable(g, s.disk, s.kept, h, e, s.mode.listed, vals, s.mode.k);
    } else if s.committing && s.written > |s.homes| {
      var h := PutHeader(s.h0, s.homes);
      HeaderRoundTrip(s.h0, s.homes);
      HeaderRoundTrip(h, []);
      RecoveringIsDurable(g, s.disk, s.kept, h, PutHeader(h, []), s.homes, Vals(s.mem, s.homes),
          s.written - |s.homes| - 1);
    }
  }

  lemma DiskRecord(g: Geometry, s: State, p: nat)
    requires UpOk(g, s) && !s.committing && PhasesOk(g, s) && Enabled(g, s, Record(p))
    ensures UpOk(g, DoRecord(s, p))
  {}

  // The transaction that a commit is about to write fits the header array and the log.
  predicate Safe(g: Geometry, s: State) { |s.homes| <= LOGSIZE && |s.homes| <= g.size - 1 }

  lemma DiskEnd(g: Geometry, s: State, p: nat)
    requires UpOk(g, s) && Controlled(g, s) && Safe(g, s) && Enabled(g, s, End(p))
    ensures UpOk(g, DoEnd(g, s, p))
  {}

  // write_log copies one more block.
  lemma DiskWriteLog(g: Geometry, s: State)
    requires UpOk(g, s) && s.committing && s.written < |s.homes|
    ensures Addressable(g, s.disk, s.homes) && UpOk(g, DoCommitStep(g, s))
  {
    LogBlockStep(g, s.disk, s.kept, s.written, Vals(s.mem, s.homes)[s.written]);
  }

  // write_head commits: all log_writes so far become durable at once.
  lemma DiskHead(g: Geometry, s: State)
    requires UpOk(g, s) && s.committing && s.written == |s.homes| > 0
    requires forall b :: 0 <= b < |s.disk| && b !in s.homes ==> s.full[b] == s.kept[b]
    ensures Addressable(g, s.disk, s.homes) && UpOk(g, DoCommitStep(g, s))
  {
    var t, vals := DoCommitStep(g, s), Vals(s.mem, s.homes);
    HeadStep(g, s.disk, s.kept, s.homes, vals, PutHeader(s.h0, s.homes));
    CommitInstallsAll(g, s);
    HeldSame(g, t.disk, s.homes, Installed(s.kept, s.homes, vals), s.full);
  }

  // Reading the block to install back from the log gives the block that was logged.
  lemma NextInstall(g: Geometry, d: Disk, content: Disk, h: Block, e: Block, homes: seq<nat>, vals: seq<Block>, k: nat)
    requires Recovering(g, d, content, h, e, homes, vals, k) && k <= |homes| && e == PutHeader(h, [])
    ensures Addressable(g, d, homes)
    ensures var w := NextInstallWrite(g, d, homes, k);
            w.bn < |d| && Recovering(g, Put(d, w), content, h, e, homes, vals, k + 1)
  {
    RecoveryStep(g, d, content, h, e, homes, vals, k);
    assert NextInstallWrite(g, d, homes, k) == RecoveryWrite(g, e, homes, vals, k);
  }

  // install_trans copies one more block home, or the header is erased.
  lemma DiskInstall(g: Geometry, s: State)
    requires UpOk(g, s) && s.committing && |s.homes| < s.written < WriteCount(|s.homes|)
    ensures Addressable(g, s.disk, s.homes) && UpOk(g, DoCommitStep(g, s))
  {
    var h := PutHeader(s.h0, s.homes);
    NextInstall(g, s.disk, s.kept, h, PutHeader(h, []), s.homes, Vals(s.mem, s.homes), s.written - |s.homes| - 1);
  }

  lemma DiskCommitDone(g: Geometry, s: State, p: nat)
    requires UpOk(g, s) && s.committing && Enabled(g, s, CommitDone(p))
    ensures UpOk(g, DoCommitDone(s, p))
  {
    if s.homes != [] { HeaderRoundTrip(PutHeader(s.h0, s.homes), []); }
  }

  lemma DiskCrash(g: Geometry, s: State)
    requires DiskOk(g, s) && Enabled(g, s, Crash)
    ensures RebootOk(g, DoCrash(g, s))
  {
    var t := DoCrash(g, s);
    DiskOkDurable(g, s);
    assert Recovering(g, t.disk, t.kept, t.mode.h, PutHeader(t.mode.h, []), t.mode.listed, LogBlocks(g, s.disk), 0);
  }

  lemma DiskRecover(g: Geometry, s: State)
    requires s.mode.Rebooting? && RebootOk(g, s) && Enabled(g, s, RecoverStepEv)
    ensures RebootOk(g, DoRecoverStep(g, s))
  {
    var t := DoRecoverStep(g, s);
    var m, e := s.mode, PutHeader(s.mode.h, []);
    var vals :| Recovering(g, s.disk, s.kept, m.h, e, m.listed, vals, m.k);
    NextInstall(g, s.disk, s.kept, m.h, e, m.listed, vals, m.k);
    assert Recovering(g, t.disk, t.kept, m.h, e, m.listed, vals, m.k + 1);
  }

  lemma DiskRecoverDone(g: Geometry, s: State)
    requires s.mode.Rebooting? && RebootOk(g, s) && Controlled(g, s) && Enabled(g, s, RecoverDone)
    ensures UpOk(g, s.(mode := Up, mem := s.disk))
  {
    HeaderRoundTrip(s.mode.h, []);
  }

  lemma DiskStep(g: Geometry, s: State, ev: Event)
    requires DiskOk(g, s) && Controlled(g, s) && Replayed(g, s) && Enabled(g, s, ev)
    requires ev.End? ==> Safe(g, s)
    ensures DiskOk(g, Do(g, s, ev)) == true
  {
    match ev
    case Begin(p) =>
    case Check(p, bn, v) =>
    case Record(p) =>
      if s.committing { NoneActive(g, s); }
      DiskRecord(g, s, p);
    case End(p) => DiskEnd(g, s, p);
    case CommitStepEv(p) =>
      ControlledCommit(g, s, p);
      if s.written < |s.homes| {
        DiskWriteLog(g, s);
      } else if s.written == |s.homes| {
        ReplayedAgree(g, s);
        DiskHead(g, s);
      } else {
        DiskInstall(g, s);
      }
    case CommitDone(p) =>
      ControlledCommit(g, s, p);
      DiskCommitDone(g, s, p);
    case Crash => DiskCrash(g, s);
    case RecoverStepEv => DiskRecover(g, s);
    case RecoverDone => DiskRecoverDone(g, s);
  }

  // ---- runs ----

  predicate Init(g: Geometry, s: State) {
    && Clean(g, s.disk, s.disk) && s.mem == s.base == s.full == s.kept == s.disk
    && s.homes == [] && s.outstanding == 0 && !s.committing && s.written == 0
    && (forall p :: 0 <= p < |s.procs| ==> s.procs[p].Idle?)
    && s.mode.Up? && s.recs == [] && s.durable == 0
  }

  predicate Valid(g: Geometry, s: State, evs: seq<Event>)
    decreases |evs|
  {
    evs == [] ||
    (g.start < |s.disk| && Enabled(g, s, evs[0]) && Valid(g, Do(g, s, evs[0]), evs[1..]))
  }

  function Final(g: Geometry, s: State, evs: seq<Event>): State
    requires Valid(g, s, evs)
    decreases |evs|
  {
    if evs == [] then s else Final(g, Do(g, s, evs[0]), evs[1..])
  }

  // The header array does not overflow on the way, and no commit starts with more blocks than the
  // log has.
  predicate SafeRun(g: Geometry, s: State, evs: seq<Event>)
    requires Valid(g, s, evs)
    decreases |evs|
  {
    |s.homes| <= LOGSIZE &&
    (evs == [] || ((evs[0].End? ==> Safe(g, s)) && SafeRun(g, Do(g, s, evs[0]), evs[1..])))
  }

  // No operation on the way puts more than max blocks in the header, however often it calls
  // log_write for them.
  predicate Within(g: Geometry, s: State, evs: seq<Event>, max: nat)
    requires Valid(g, s, evs)
    decreases |evs|
  {
    UsedAtMost(s, max) && (evs == [] || Within(g, Do(g, s, evs[0]), evs[1..], max))
  }

  ghost predicate Inv(g: Geometry, s: State) {
    Controlled(g, s) && OpsFresh(s) && Whole(s) && Replayed(g, s) && DiskOk(g, s)
  }

  lemma InitInv(g: Geometry, s: State)
    requires Init(g, s)
    ensures Inv(g, s) && Reserved(s)
  {
    SumZero(s.procs, ActiveOf); SumZero(s.procs, LeftOf); SumZero(s.procs, CommitterOf);
  }

  lemma InvStep(g: Geometry, s: State, ev: Event)
    requires Inv(g, s) && Enabled(g, s, ev) && (ev.End? ==> Safe(g, s))
    ensures Inv(g, Do(g, s, ev)) == true
  {
    ControlledStep(g, s, ev);
    WholeStep(g, s, ev);
    ReplayedStep(g, s, ev);
    DiskStep(g, s, ev);
  }

  lemma {:induction false} InvRun(g: Geometry, s: State, evs: seq<Event>)
    requires Inv(g, s) && Valid(g, s, evs) && SafeRun(g, s, evs)
    ensures Inv(g, Final(g, s, evs)) == true
    decreases |evs|
  {
    if evs != [] {
      InvStep(g, s, evs[0]);
      InvRun(g, Do(g, s, evs[0]), evs[1..]);
    }
  }

  lemma {:induction false} ControlledRun(g: Geometry, s: State, evs: seq<Event>)
    requires Controlled(g, s) && Valid(g, s, evs)
    ensures Controlled(g, Final(g, s, evs)) == true
    decreases |evs|
  {
    if evs != [] {
      ControlledStep(g, s, evs[0]);
      ControlledRun(g, Do(g, s, evs[0]), evs[1..]);
    }
  }

  lemma {:induction false} ReservedRun(g: Geometry, s: State, evs: seq<Event>)
    requires Controlled(g, s) && Reserved(s) && Valid(g, s, evs) && Within(g, s, evs, MAXOPBLOCKS)
    ensures Reserved(Final(g, s, evs)) == true
    decreases |evs|
  {
    if evs != [] {
      ControlledStep(g, s, evs[0]);
      ReservedStep(g, s, evs[0]);
      ReservedRun(g, Do(g, s, evs[0]), evs[1..]);
    }
  }

  lemma InvMeans(g: Geometry, t: State)
    requires Inv(g, t)
    ensures Sizes(g, t) && LogOk(g, t.disk)
    ensures SameHome(g, Recover(g, t.disk), t.kept)
    ensures t.kept == Replay(t.base, t.recs[..t.durable]) && t.full == Replay(t.base, t.recs)
    ensures t.mode.Up? ==> SameHome(g, t.mem, t.full)
    ensures t.mode.Up? && t.homes == [] ==> t.durable == |t.recs|
  {
    DiskOkDurable(g, t);
    RecoverDurable(g, t.disk, t.kept);
  }

  // Crash safety of whole runs: in every interleaving, with any number of crashes anywhere (also
  // inside recovery), a reboot now would bring back exactly the effect of the durable log_writes;
  // no operation is split between those and the rest, and none of them is still in progress; while
  // the machine is up, memory shows the effect of all log_writes; and with no log_write pending,
  // all are durable.
  lemma DurableRuns(g: Geometry, s: State, evs: seq<Event>)
    requires Init(g, s) && Valid(g, s, evs) && SafeRun(g, s, evs)
    ensures var t := Final(g, s, evs);
            && Sizes(g, t)
            && LogOk(g, t.disk)
            && SameHome(g, Recover(g, t.disk), Replay(t.base, t.recs[..t.durable]))
            && (t.mode.Up? ==> SameHome(g, t.mem, Replay(t.base, t.recs)))
            && (forall i, j :: 0 <= i < t.durable <= j < |t.recs| ==> t.recs[i].op != t.recs[j].op)
            && (forall i, p :: 0 <= i < t.durable && 0 <= p < |t.procs| && t.procs[p].Active() ==>
               t.recs[i].op != t.procs[p].op)
            && (t.mode.Up? && t.homes == [] ==> t.durable == |t.recs|)
  {
    InitInv(g, s);
    InvRun(g, s, evs);
    InvMeans(g, Final(g, s, evs));
  }

  // log_write absorbs a block that is in the header already.
  lemma {:induction false} DistinctRun(g: Geometry, s: State, evs: seq<Event>)
    requires Distinct(s.homes) && Valid(g, s, evs)
    ensures Distinct(Final(g, s, evs).homes) == true
    decreases |evs|
  {
    if evs != [] { DistinctRun(g, Do(g, s, evs[0]), evs[1..]); }
  }

  // In every interleaving the header lists no block twice, and a commit runs only with no operation
  // in progress, so end_op never finds one running and log_write is always inside a transaction.
  lemma ControlledRuns(g: Geometry, s: State, evs: seq<Event>)
    requires Init(g, s) && Valid(g, s, evs)
    ensures var t := Final(g, s, evs);
            && Distinct(t.homes)
            && (t.committing ==> t.outstanding == 0)
            && (forall p :: 0 <= p < |t.procs| && t.procs[p].Active() ==> !t.committing && t.outstanding >= 1)
  {
    var t := Final(g, s, evs);
    InitInv(g, s);
    ControlledRun(g, s, evs);
    DistinctRun(g, s, evs);
    forall p | 0 <= p < |t.procs| && t.procs[p].Active() ensures !t.committing && t.outstanding >= 1 {
      SumAtLeast(t.procs, p, ActiveOf);
    }
  }

  // In every interleaving in which no operation puts more than MAXOPBLOCKS blocks in the header: its
  // blocks and what is reserved and unused fit the header array. If the log has more than LOGSIZE
  // blocks, log_write panics exactly when the header is full, and then every operation in progress
  // has used all of its reservation: only log_writes of blocks listed already can meet the panic.
  lemma ReservationRuns(g: Geometry, s: State, evs: seq<Event>)
    requires Init(g, s) && Valid(g, s, evs) && Within(g, s, evs, MAXOPBLOCKS)
    ensures var t := Final(g, s, evs);
            && |t.homes| + Sum(t.procs, LeftOf) <= LOGSIZE
            && (LOGSIZE < g.size ==> (TooBig(g, t) <==> |t.homes| == LOGSIZE))
            && (LOGSIZE < g.size && TooBig(g, t) ==>
                  forall p :: 0 <= p < |t.procs| && t.procs[p].Active() ==> t.procs[p].used == MAXOPBLOCKS)
  {
    var t := Final(g, s, evs);
    InitInv(g, s);
    ReservedRun(g, s, evs);
    WithinFinal(g, s, evs, MAXOPBLOCKS);
    forall p | 0 <= p < |t.procs| && t.procs[p].Active() ensures t.procs[p].used + Sum(t.procs, LeftOf) >= MAXOPBLOCKS {
      SumAtLeast(t.procs, p, LeftOf);
    }
  }

  lemma {:induction false} WithinFinal(g: Geometry, s: State, evs: seq<Event>, max: nat)
    requires Valid(g, s, evs) && Within(g, s, evs, max)
    ensures UsedAtMost(Final(g, s, evs), max)
    decreases |evs|
  {
    if evs != [] { WithinFinal(g, Do(g, s, evs[0]), evs[1..], max); }
  }

  // While a commit runs, only its own end or a crash changes the header or the logged contents.
  lemma HeaderFrozen(g: Geometry, s: State, ev: Event)
    requires Controlled(g, s) && s.committing && s.mode.Up? && Enabled(g, s, ev) && g.start < |s.disk|
    requires !ev.CommitDone? && !ev.Crash?
    ensures var t := Do(g, s, ev);
            t.homes == s.homes && t.mem == s.mem && t.recs == s.recs && t.committing && t.outstanding == 0
  {
    NoneActive(g, s);
  }

  // ---- the steps of a commit and of a recovery, as sequences of block writes ----

  function Repeat(ev: Event, k: nat): seq<Event> { seq(k, _ => ev) }

  lemma RepeatRest(ev: Event, k: nat, evs: seq<Event>) returns (rest: seq<Event>)
    requires k > 0 && evs == Repeat(ev, k)
    ensures |evs| == k && evs[0] == ev && rest == evs[1..] == Repeat(ev, k - 1)
  {
    rest := evs[1..];
  }

  // The commit that runs writes ws, from disk d0 on.
  predicate CommitRunning(g: Geometry, s: State, p: nat, d0: Disk, ws: seq<Write>) {
    && Running(s, p) && s.procs[p].Committer? && s.committing && Entries(s.homes) && Listed(g, |s.mem|, s.homes)
    && ws == CommitWrites(g, s.h0, s.homes, Vals(s.mem, s.homes))
    && InRange(d0, ws) && s.written <= |ws| && s.disk == Apply(d0, ws, s.written)
  }

  // What the next write is, by how far the commit has got.
  lemma NextLogWrite(g: Geometry, s: State, vals: seq<Block>, h: Block, e: Block)
    requires UpOk(g, s) && s.committing && vals == Vals(s.mem, s.homes) && h == PutHeader(s.h0, s.homes)
    requires s.written <= |s.homes| && s.homes != []
    ensures Addressable(g, s.disk, s.homes) && NextCommitWrite(g, s) == CommitWrite(g, h, e, s.homes, vals, s.written)
  {}

  lemma NextHomeWrite(g: Geometry, s: State, vals: seq<Block>, h: Block, e: Block)
    requires UpOk(g, s) && s.committing && vals == Vals(s.mem, s.homes) && h == PutHeader(s.h0, s.homes)
    requires |s.homes| < s.written < WriteCount(|s.homes|) && e == PutHeader(h, [])
    ensures Addressable(g, s.disk, s.homes) && NextCommitWrite(g, s) == CommitWrite(g, h, e, s.homes, vals, s.written)
  {
    NextInstall(g, s.disk, s.kept, h, e, s.homes, vals, s.written - |s.homes| - 1);
  }

  lemma NextWriteIs(g: Geometry, s: State, p: nat, d0: Disk, ws: seq<Write>)
    requires UpOk(g, s) == true
    requires CommitRunning(g, s, p, d0, ws) && s.written < |ws| && |s.mem| == |s.disk|
    ensures Enabled(g, s, CommitStepEv(p)) && NextCommitWrite(g, s) == ws[s.written]
  {
    var vals, h := Vals(s.mem, s.homes), PutHeader(s.h0, s.homes);
    var e := PutHeader(h, []);
    if s.written <= |s.homes| {
      NextLogWrite(g, s, vals, h, e);
    } else {
      NextHomeWrite(g, s, vals, h, e);
    }
  }

  lemma CommitRunningNext(g: Geometry, s: State, t: State, p: nat, d0: Disk, ws: seq<Write>)
    requires CommitRunning(g, s, p, d0, ws) && s.written < |ws| && ws[s.written].bn < |s.disk|
    requires t == s.(disk := Put(s.disk, ws[s.written]), written := s.written + 1, durable := t.durable, kept := t.kept)
    ensures CommitRunning(g, t, p, d0, ws) == true
  {}

  lemma InvUp(g: Geometry, s: State)
    requires Inv(g, s) && s.mode.Up?
    ensures UpOk(g, s) == true
    ensures g.start < |s.disk| == |s.mem|
  {}

  lemma CommitStepOne(g: Geometry, s: State, p: nat, d0: Disk, ws: seq<Write>) returns (t: State)
    requires Inv(g, s) == true
    requires CommitRunning(g, s, p, d0, ws) && s.written < |ws|
    ensures g.start < |s.disk| && Enabled(g, s, CommitStepEv(p)) && t == Do(g, s, CommitStepEv(p))
    ensures Inv(g, t) == true
    ensures CommitRunning(g, t, p, d0, ws) == true
    ensures t.written == s.written + 1
    ensures t == s.(disk := t.disk, written := t.written, durable := t.durable, kept := t.kept)
  {
    InvUp(g, s);
    NextWriteIs(g, s, p, d0, ws);
    InvStep(g, s, CommitStepEv(p));
    t := Do(g, s, CommitStepEv(p));
    CommitRunningNext(g, s, t, p, d0, ws);
  }

  // Taking the steps evs, the commit has made its next k writes and come from s to t.
  ghost predicate Committed(g: Geometry, s: State, p: nat, d0: Disk, ws: seq<Write>, k: nat, evs: seq<Event>,
      t: State) {
    && Ran(g, s, evs, t) && Inv(g, t) && CommitRunning(g, t, p, d0, ws)
    && t.written == s.written + k && t == CommitState(s, t.disk, t.written)
  }

  // s when its commit has done k block writes, with disk d.
  function CommitState(s: State, d: Disk, k: nat): State {
    var past := k > |s.homes|;
    s.(disk := d, written := k, durable := if past then |s.recs| else s.durable,
       kept := if past then s.full else s.kept)
  }

  lemma CommittedNone(g: Geometry, s: State, p: nat, d0: Disk, ws: seq<Write>, evs: seq<Event>)
    requires s.written > |s.homes| ==> s.durable == |s.recs| && s.kept == s.full
    requires Inv(g, s) && CommitRunning(g, s, p, d0, ws) && evs == []
    ensures Committed(g, s, p, d0, ws, 0, evs, s) == true
  {}

  lemma CommittedMore(g: Geometry, s: State, p: nat, d0: Disk, ws: seq<Write>, k: nat, evs: seq<Event>, s1: State,
      t: State)
    requires k > 0 && |evs| > 0 && evs[0] == CommitStepEv(p) && Committed(g, s1, p, d0, ws, k - 1, evs[1..], t)
    requires g.start < |s.disk| && Enabled(g, s, evs[0]) && s1 == Do(g, s, evs[0])
    requires s.written > |s.homes| ==> s.durable == |s.recs| && s.kept == s.full
    ensures Committed(g, s, p, d0, ws, k, evs, t) == true
  {}

  // Taking k more steps makes the next k writes.
  lemma {:induction false} CommitSteps(g: Geometry, s: State, p: nat, d0: Disk, ws: seq<Write>, k: nat, evs: seq<Event>)
    returns (t: State)
    requires Inv(g, s) == true
    requires CommitRunning(g, s, p, d0, ws) == true
    requires s.written + k <= |ws| && evs == Repeat(CommitStepEv(p), k)
    requires s.written > |s.homes| ==> s.durable == |s.recs| && s.kept == s.full
    ensures Committed(g, s, p, d0, ws, k, evs, t) == true
    decreases k
  {
    if k == 0 {
      CommittedNone(g, s, p, d0, ws, evs);
      t := s;
    } else {
      var s1 := CommitStepOne(g, s, p, d0, ws);
      var rest := RepeatRest(CommitStepEv(p), k, evs);
      t := CommitSteps(g, s1, p, d0, ws, k - 1, rest);
      CommittedMore(g, s, p, d0, ws, k, evs, s1, t);
    }
  }

  // The recovery that runs writes what RebootWrites says, for the disk d0 it found.
  predicate RecoveryRunning(g: Geometry, s: State, d0: Disk) {
    && s.mode.Rebooting? && LogOk(g, d0) && s.mode.h == d0[g.start] && s.mode.listed == HeaderEntries(d0[g.start])
    && s.mode.k <= |RebootWrites(g, d0)| && s.disk == Apply(d0, RebootWrites(g, d0), s.mode.k)
  }

  // Until its last write recovery leaves the log alone.
  lemma LogUntouched(g: Geometry, d0: Disk, k: nat, b: nat)
    requires LogOk(g, d0) && k <= |HeaderEntries(d0[g.start])| && g.InLog(b)
    ensures Apply(d0, RebootWrites(g, d0), k)[b] == d0[b]
  {
    ApplyBetween(d0, RebootWrites(g, d0), 0, k, b);
  }

  lemma NextRecoveryIs(g: Geometry, s: State, d0: Disk)
    requires RecoveryRunning(g, s, d0) && s.mode.k < |RebootWrites(g, d0)|
    ensures Enabled(g, s, RecoverStepEv)
    ensures NextInstallWrite(g, s.disk, s.mode.listed, s.mode.k) == RebootWrites(g, d0)[s.mode.k]
  {
    var k := s.mode.k;
    LogUntouched(g, d0, k, g.start);
    if k < |s.mode.listed| { LogUntouched(g, d0, k, g.start + 1 + k); }
  }

  lemma RecoveryRunningNext(g: Geometry, s: State, d0: Disk)
    requires RecoveryRunning(g, s, d0) && s.mode.k < |RebootWrites(g, d0)| && Enabled(g, s, RecoverStepEv)
    requires NextInstallWrite(g, s.disk, s.mode.listed, s.mode.k) == RebootWrites(g, d0)[s.mode.k]
    ensures g.start < |s.disk| && RecoveryRunning(g, Do(g, s, RecoverStepEv), d0) == true
  {}

  lemma RecoverStepOne(g: Geometry, s: State, d0: Disk) returns (t: State)
    requires Inv(g, s) == true
    requires RecoveryRunning(g, s, d0) && s.mode.k < |RebootWrites(g, d0)|
    ensures g.start < |s.disk| && Enabled(g, s, RecoverStepEv) && t == Do(g, s, RecoverStepEv)
    ensures Inv(g, t) == true
    ensures RecoveryRunning(g, t, d0) == true
    ensures t.mode.k == s.mode.k + 1 && t == s.(disk := t.disk, mode := t.mode)
  {
    NextRecoveryIs(g, s, d0);
    InvStep(g, s, RecoverStepEv);
    RecoveryRunningNext(g, s, d0);
    t := Do(g, s, RecoverStepEv);
  }

  // Taking the steps evs, recovery has made its next k writes and come from s to t.
  ghost predicate Recovered(g: Geometry, s: State, d0: Disk, k: nat, evs: seq<Event>, t: State) {
    && Ran(g, s, evs, t) && Inv(g, t) && RecoveryRunning(g, t, d0)
    && s.mode.Rebooting? && t.mode.k == s.mode.k + k && t == s.(disk := t.disk, mode := t.mode)
  }

  lemma RecoveredNone(g: Geometry, s: State, d0: Disk, evs: seq<Event>)
    requires Inv(g, s) && RecoveryRunning(g, s, d0) && evs == []
    ensures Recovered(g, s, d0, 0, evs, s) == true
  {}

  lemma RecoveredMore(g: Geometry, s: State, d0: Disk, k: nat, evs: seq<Event>, s1: State, t: State)
    requires k > 0 && |evs| > 0 && evs[0] == RecoverStepEv && Recovered(g, s1, d0, k - 1, evs[1..], t)
    requires g.start < |s.disk| && Enabled(g, s, evs[0]) && s1 == Do(g, s, evs[0])
    ensures Recovered(g, s, d0, k, evs, t) == true
  {}

  lemma {:induction false} RecoverSteps(g: Geometry, s: State, d0: Disk, k: nat, evs: seq<Event>) returns (t: State)
    requires Inv(g, s) == true
    requires RecoveryRunning(g, s, d0) == true
    requires s.mode.Rebooting? && LogOk(g, d0) && s.mode.k + k <= |RebootWrites(g, d0)| &&
             evs == Repeat(RecoverStepEv, k)
    ensures Recovered(g, s, d0, k, evs, t) == true
    decreases k
  {
    if k == 0 {
      RecoveredNone(g, s, d0, evs);
      t := s;
    } else {
      var s1 := RecoverStepOne(g, s, d0);
      var rest := RepeatRest(RecoverStepEv, k, evs);
      t := RecoverSteps(g, s1, d0, k - 1, rest);
      RecoveredMore(g, s, d0, k, evs, s1, t);
    }
  }

  // The events evs lead from s to t.
  predicate Ran(g: Geometry, s: State, evs: seq<Event>, t: State) { Valid(g, s, evs) && Final(g, s, evs) == t }

  lemma RanCons(g: Geometry, s: State, ev: Event, s1: State, evs: seq<Event>, t: State)
    requires g.start < |s.disk| && Enabled(g, s, ev) && s1 == Do(g, s, ev) && Ran(g, s1, evs, t)
    ensures Ran(g, s, [ev] + evs, t) == true
  {
    assert ([ev] + evs)[1..] == evs;
  }

  lemma {:induction false} RanSnoc(g: Geometry, s: State, evs: seq<Event>, t: State, ev: Event, u: State)
    requires Ran(g, s, evs, t) == true
    requires g.start < |t.disk| && Enabled(g, t, ev) && u == Do(g, t, ev)
    ensures Ran(g, s, evs + [ev], u) == true
    decreases |evs|
  {
    if evs == [] {
      assert evs + [ev] == [ev] + [];
      RanCons(g, s, ev, u, [], u);
    } else {
      var s1 := Do(g, s, evs[0]);
      RanSnoc(g, s1, evs[1..], t, ev, u);
      assert evs + [ev] == [evs[0]] + (evs[1..] + [ev]);
      RanCons(g, s, evs[0], s1, evs[1..] + [ev], u);
    }
  }

  // What the commit of s writes.
  function WritesOf(g: Geometry, s: State): seq<Write>
    requires Entries(s.homes) && g.start < |s.disk| && forall i :: 0 <= i < |s.homes| ==> s.homes[i] < |s.mem|
  { CommitWrites(g, s.disk[g.start], s.homes, Vals(s.mem, s.homes)) }

  // The protocol after the first k block writes of the end_op of p, which is the last out of s.
  function InCommit(g: Geometry, s: State, p: nat, k: nat): State
    requires Running(s, p) && Entries(s.homes) && g.start < |s.disk| && forall i :: 0 <= i < |s.homes| ==>
             s.homes[i] < |s.mem|
    requires InRange(s.disk, WritesOf(g, s)) && k <= |WritesOf(g, s)|
  {
    CommitState(DoEnd(g, s, p), Apply(s.disk, WritesOf(g, s), k), k)
  }

  // The end_op that commits is a run of the protocol: as far as its k-th block write, or to the end.
  lemma CommitIsRun(g: Geometry, s: State, p: nat, k: nat, u: State) returns (evs: seq<Event>)
    requires Inv(g, s) && Safe(g, s) && Running(s, p) && s.procs[p].InOp? && s.outstanding == 1
    requires Listed(g, |s.mem|, s.homes) && Entries(s.homes) && InRange(s.disk, WritesOf(g, s)) && k <= |WritesOf(g, s)|
    requires u == InCommit(g, s, p, k)
    ensures Ran(g, s, evs, u) == true
    ensures Inv(g, u) == true
    ensures g.start < |u.disk| && (k == |WritesOf(g, s)| ==> Enabled(g, u, CommitDone(p)))
  {
    var s1 := AtEnd(g, s, p);
    evs := Repeat(CommitStepEv(p), k);
    var t := CommitSteps(g, s1, p, s.disk, WritesOf(g, s), k, evs);
    RanCons(g, s, End(p), s1, evs, t);
    evs := [End(p)] + evs;
  }

  // A process in an operation finds no commit running: the panic of end_op is out of reach.
  lemma AtEnd(g: Geometry, s: State, p: nat) returns (s1: State)
    requires Inv(g, s) && Running(s, p) && s.procs[p].InOp? && Safe(g, s)
    ensures g.start < |s.disk| && Enabled(g, s, End(p)) && s1 == Do(g, s, End(p))
    ensures Inv(g, s1) == true
  {
    if s.committing { NoneActive(g, s); }
    InvStep(g, s, End(p));
    s1 := DoEnd(g, s, p);
  }

  // And when it is through.
  lemma CommitRunEnds(g: Geometry, s: State, p: nat, evs: seq<Event>, u: State) returns (evs': seq<Event>)
    requires Ran(g, s, evs, u) && Inv(g, u) && g.start < |u.disk| && Enabled(g, u, CommitDone(p))
    ensures Ran(g, s, evs', DoCommitDone(u, p)) == true
    ensures Inv(g, DoCommitDone(u, p)) == true
  {
    InvStep(g, u, CommitDone(p));
    RanSnoc(g, s, evs, u, CommitDone(p), DoCommitDone(u, p));
    evs' := evs + [CommitDone(p)];
  }

  // A machine that has just come up after a crash.
  predicate JustCrashed(g: Geometry, s: State) {
    && LogOk(g, s.disk) && s.mode == Rebooting(0, s.disk[g.start], HeaderEntries(s.disk[g.start]))
    && s.homes == [] && s.outstanding == 0 && !s.committing
  }

  // After the first k block writes of its recovery.
  function InRecovery(g: Geometry, s: State, k: nat): State
    requires JustCrashed(g, s) && k <= |RebootWrites(g, s.disk)|
  { s.(disk := Apply(s.disk, RebootWrites(g, s.disk), k), mode := s.mode.(k := k)) }

  // recover_from_log is a run of the protocol, as far as its k-th block write.
  lemma RecoveryIsRun(g: Geometry, s: State, k: nat, u: State) returns (evs: seq<Event>)
    requires Inv(g, s) && JustCrashed(g, s) && k <= |RebootWrites(g, s.disk)| && u == InRecovery(g, s, k)
    ensures Ran(g, s, evs, u) == true
    ensures Inv(g, u) == true
    ensures k == |RebootWrites(g, s.disk)| ==> Enabled(g, u, RecoverDone)
  {
    evs := Repeat(RecoverStepEv, k);
    var t := RecoverSteps(g, s, s.disk, k, evs);
  }

  // ---- does the header's block list always fit the log? ----

  // A transaction of operations that keep to their reservation never outgrows the log of more than
  // LOGSIZE blocks.
  lemma {:induction false} BigLogIsSafe(g: Geometry, s: State, evs: seq<Event>)
    requires Controlled(g, s) && Reserved(s) && Valid(g, s, evs) && Within(g, s, evs, MAXOPBLOCKS) && LOGSIZE < g.size
    ensures SafeRun(g, s, evs) && Safe(g, Final(g, s, evs))
    decreases |evs|
  {
    if evs != [] {
      ControlledStep(g, s, evs[0]);
      ReservedStep(g, s, evs[0]);
      BigLogIsSafe(g, Do(g, s, evs[0]), evs[1..]);
    }
  }

  predicate NothingLogged(s: State) {
    s.homes == [] && forall p :: 0 <= p < |s.procs| ==> !s.procs[p].Checked?
  }

  // A log of one block (its header) refuses every log_write.
  lemma {:induction false} EmptyLogIsSafe(g: Geometry, s: State, evs: seq<Event>)
    requires NothingLogged(s) && Valid(g, s, evs) && g.size == 1
    ensures Safe(g, Final(g, s, evs))
    decreases |evs|
  {
    if evs != [] {
      EmptyLogIsSafe(g, Do(g, s, evs[0]), evs[1..]);
    }
  }

  // A run in which no operation puts more than max blocks in the header.
  predicate Run(g: Geometry, s: State, evs: seq<Event>, max: nat) { Valid(g, s, evs) && Within(g, s, evs, max) }

  lemma RunCons(g: Geometry, s: State, ev: Event, evs: seq<Event>, max: nat)
    requires g.start < |s.disk| && Enabled(g, s, ev) && UsedAtMost(s, max) && Run(g, Do(g, s, ev), evs, max)
    ensures Run(g, s, [ev] + evs, max) == true
    ensures Final(g, s, [ev] + evs) == Final(g, Do(g, s, ev), evs)
  {
    assert ([ev] + evs)[1..] == evs;
  }

  lemma RunFrom(g: Geometry, s: State, ev: Event, s1: State, evs: seq<Event>, max: nat)
    requires g.start < |s.disk| && Enabled(g, s, ev) && UsedAtMost(s, max) && s1 == Do(g, s, ev) && Run(g, s1, evs, max)
    ensures Run(g, s, [ev] + evs, max) == true
    ensures Final(g, s, [ev] + evs) == Final(g, s1, evs)
  {
    RunCons(g, s, ev, evs, max);
  }

  lemma {:induction false} RunConcat(g: Geometry, s: State, a: seq<Event>, b: seq<Event>, max: nat)
    requires Run(g, s, a, max) && Run(g, Final(g, s, a), b, max)
    ensures Run(g, s, a + b, max) == true
    ensures Final(g, s, a + b) == Final(g, Final(g, s, a), b)
    decreases |a|
  {
    if a == [] {
      assert a + b == b;
    } else {
      var s1 := Do(g, s, a[0]);
      RunConcat(g, s1, a[1..], b, max);
      assert a + b == [a[0]] + (a[1..] + b);
      RunFrom(g, s, a[0], s1, a[1..] + b, max);
    }
  }

  // A run to t.
  predicate Leads(g: Geometry, s: State, evs: seq<Event>, max: nat, t: State) {
    Run(g, s, evs, max) && Final(g, s, evs) == t
  }

  lemma LeadsOn(g: Geometry, s: State, a: seq<Event>, t: State, b: seq<Event>, u: State, max: nat)
    requires Leads(g, s, a, max, t) && Leads(g, t, b, max, u)
    ensures Leads(g, s, a + b, max, u) == true
  {
    RunConcat(g, s, a, b, max);
  }

  // The header lists the n blocks right behind the log, and o operations run.
  predicate Filled(g: Geometry, s: State, o: nat, n: nat, max: nat) {
    && s.mode.Up? && !s.committing && s.outstanding == o >= 1 && |s.procs| >= 3 && UsedAtMost(s, max)
    && g.start + g.size + LOGSIZE < |s.disk| == |s.mem|
    && |s.homes| == n && forall i :: 0 <= i < n ==> s.homes[i] == g.start + g.size + i
  }

  // Process p makes one log_write of the next block.
  lemma FillOne(g: Geometry, s: State, o: nat, p: nat, n: nat, max: nat) returns (evs: seq<Event>, t: State)
    requires Filled(g, s, o, n, max) && p < 3 && s.procs[p].InOp? && s.procs[p].used < max
    requires 1 <= g.size && n < LOGSIZE && n < g.size - 1
    ensures Leads(g, s, evs, max, t) == true
    ensures Filled(g, t, o, n + 1, max) == true && t.nextOp == s.nextOp
    ensures t.procs == s.procs[p := InOp(s.procs[p].op, s.procs[p].used + 1)]
  {
    var bn := g.start + g.size + n;
    var s1 := DoCheck(s, p, bn, ZeroBlock());
    assert bn !in s.homes;
    t := DoRecord(s1, p);
    assert t.procs == s.procs[p := InOp(s.procs[p].op, s.procs[p].used + 1)];
    RunFrom(g, s1, Record(p), t, [], max);
    RunFrom(g, s, Check(p, bn, ZeroBlock()), s1, [Record(p)] + [], max);
    evs := [Check(p, bn, ZeroBlock())] + ([Record(p)] + []);
  }

  // Process p makes c log_writes.
  lemma {:induction false} Fill(g: Geometry, s: State, o: nat, p: nat, n: nat, c: nat, max: nat)
      returns (evs: seq<Event>, t: State)
    requires Filled(g, s, o, n, max) == true
    requires p < 3 <= |s.procs| && s.procs[p].InOp? && s.procs[p].used + c <= max
    requires 1 <= g.size && n + c <= LOGSIZE && n + c <= g.size - 1
    ensures Leads(g, s, evs, max, t) == true
    ensures Filled(g, t, o, n + c, max) == true
    ensures t.procs == s.procs[p := InOp(s.procs[p].op, s.procs[p].used + c)]
    decreases c
  {
    if c == 0 {
      evs, t := [], s;
      assert s.procs[p := s.procs[p]] == s.procs;
    } else {
      var a, t1 := FillOne(g, s, o, p, n, max);
      var b;
      b, t := Fill(g, t1, o, p, n + 1, c - 1, max);
      LeadsOn(g, s, a, t1, b, t, max);
      evs := a + b;
    }
  }

  predicate Roomy(g: Geometry, s: State) { |s.procs| >= 3 && g.start + g.size + LOGSIZE < |s.disk| }

  lemma BeginThree(g: Geometry, s: State, max: nat) returns (evs: seq<Event>, t: State)
    requires Init(g, s) && Roomy(g, s)
    ensures Leads(g, s, evs, max, t) == true
    ensures Filled(g, t, 3, 0, max) && forall p :: 0 <= p < 3 ==> t.procs[p].InOp? && t.procs[p].used == 0
  {
    var s1 := DoBegin(s, 0);
    var s2 := DoBegin(s1, 1);
    t := DoBegin(s2, 2);
    RunFrom(g, s2, Begin(2), t, [], max);
    RunFrom(g, s1, Begin(1), s2, [Begin(2)] + [], max);
    RunFrom(g, s, Begin(0), s1, [Begin(1)] + ([Begin(2)] + []), max);
    evs := [Begin(0)] + ([Begin(1)] + ([Begin(2)] + []));
  }

  // Three operations put a, b and c blocks in the header.
  lemma FillThree(g: Geometry, s: State, a: nat, b: nat, c: nat, max: nat) returns (evs: seq<Event>, t: State)
    requires Init(g, s) && Roomy(g, s) && a <= max && b <= max && c <= max
    requires a + b + c <= LOGSIZE && a + b + c <= g.size - 1
    ensures Leads(g, s, evs, max, t) == true
    ensures Filled(g, t, 3, a + b + c, max) && t.procs[0].InOp? && t.procs[1].InOp?
    ensures t.procs[0].used == a && t.procs[1].used == b
  {
    var e0, t0 := BeginThree(g, s, max);
    var e1, t1 := Fill(g, t0, 3, 0, 0, a, max);
    var e2, t2 := Fill(g, t1, 3, 1, a, b, max);
    var e3;
    e3, t := Fill(g, t2, 3, 2, a + b, c, max);
    LeadsOn(g, s, e0, t0, e1, t1, max);
    LeadsOn(g, s, e0 + e1, t1, e2, t2, max);
    LeadsOn(g, s, e0 + e1 + e2, t2, e3, t, max);
    evs := e0 + e1 + e2 + e3;
  }

  // How many blocks the header and the log have room for.
  function Capacity(g: Geometry): int { if g.size - 1 < LOGSIZE then g.size - 1 else LOGSIZE }

  // Two processes pass log_write's test before either takes the lock.
  lemma Race(g: Geometry, s: State, o: nat, max: nat) returns (evs: seq<Event>)
    requires 2 <= g.size && Filled(g, s, o, Capacity(g) - 1, max)
    requires forall p :: 0 <= p < 2 ==> s.procs[p].InOp? && s.procs[p].used < max
    ensures Run(g, s, evs, max) == true && !Safe(g, Final(g, s, evs))
  {
    var bn, z := g.start + g.size + Capacity(g) - 1, ZeroBlock();
    var s1 := DoCheck(s, 0, bn, z);
    var s2 := DoCheck(s1, 1, bn + 1, z);
    var s3 := DoRecord(s2, 0);
    assert bn !in s.homes && bn + 1 !in s.homes;
    assert s3.homes == s.homes + [bn];
    var s4 := DoRecord(s3, 1);
    RunFrom(g, s3, Record(1), s4, [], max);
    RunFrom(g, s2, Record(0), s3, [Record(1)] + [], max);
    RunFrom(g, s1, Check(1, bn + 1, z), s2, [Record(0)] + ([Record(1)] + []), max);
    evs := [Check(1, bn + 1, z)] + ([Record(0)] + ([Record(1)] + []));
    RunFrom(g, s, Check(0, bn, z), s1, evs, max);
    evs := [Check(0, bn, z)] + evs;
  }

  // Operations that may use more than was reserved for them can overrun any log.
  lemma GreedyOverrun(g: Geometry, s: State, max: nat) returns (evs: seq<Event>)
    requires Init(g, s) && Roomy(g, s) && 2 <= g.size && max > MAXOPBLOCKS
    ensures Run(g, s, evs, max) == true && !Safe(g, Final(g, s, evs))
  {
    var n, most := Capacity(g) - 1, MAXOPBLOCKS;
    var a := if n < most then n else most;
    var b := if n - a < most then n - a else most;
    var e0, t := FillThree(g, s, a, b, n - a - b, max);
    var e1 := Race(g, t, 3, max);
    RunConcat(g, s, e0, e1, max);
    evs := e0 + e1;
  }

  // While process 0 stays in its operation, process 1 runs one of a single block.
  lemma ShortOperation(g: Geometry, s: State, n: nat, max: nat) returns (evs: seq<Event>, t: State)
    requires Filled(g, s, 1, n, max) && s.procs[0].InOp? && s.procs[0].used == 0 && s.procs[1].Idle? && max >= 1
    requires 1 <= g.size && n < MAXOPBLOCKS && n < g.size - 1
    ensures Leads(g, s, evs, max, t) == true
    ensures Filled(g, t, 1, n + 1, max) == true && t.procs == s.procs
  {
    var s1 := DoBegin(s, 1);
    var e, s2 := FillOne(g, s1, 2, 1, n, max);
    t := DoEnd(g, s2, 1);
    assert t.procs == s.procs;
    RunFrom(g, s2, End(1), t, [], max);
    LeadsOn(g, s1, e, s2, [End(1)] + [], t, max);
    RunFrom(g, s, Begin(1), s1, e + ([End(1)] + []), max);
    evs := [Begin(1)] + (e + ([End(1)] + []));
  }

  lemma {:induction false} ShortOperations(g: Geometry, s: State, n: nat, c: nat, max: nat)
      returns (evs: seq<Event>, t: State)
    requires Filled(g, s, 1, n, max) == true
    requires |s.procs| >= 3 && s.procs[0].InOp? && s.procs[0].used == 0 && s.procs[1].Idle? && max >= 1
    requires 1 <= g.size && n + c <= MAXOPBLOCKS && n + c <= g.size - 1
    ensures Leads(g, s, evs, max, t) == true
    ensures Filled(g, t, 1, n + c, max) == true && t.procs == s.procs
    decreases c
  {
    if c == 0 {
      evs, t := [], s;
    } else {
      var a, t1 := ShortOperation(g, s, n, max);
      var b;
      b, t := ShortOperations(g, t1, n + 1, c - 1, max);
      LeadsOn(g, s, a, t1, b, t, max);
      evs := a + b;
    }
  }

  // So the header has h blocks when both operations begin to fill it: n in all, and each may log more.
  lemma FillBoth(g: Geometry, s: State, h: nat, a: nat, b: nat, max: nat) returns (evs: seq<Event>, t: State)
    requires Filled(g, s, 1, h, max) && s.procs[0].InOp? && s.procs[0].used == 0 && s.procs[1].Idle?
    requires h <= MAXOPBLOCKS && a < max && b < max && h + a + b <= LOGSIZE && h + a + b <= g.size - 1
    ensures Leads(g, s, evs, max, t) == true
    ensures Filled(g, t, 2, h + a + b, max) && forall p :: 0 <= p < 2 ==> t.procs[p].InOp? && t.procs[p].used < max
  {
    var s1 := DoBegin(s, 1);
    RunFrom(g, s, Begin(1), s1, [], max);
    var e1, t1 := Fill(g, s1, 2, 0, h, a, max);
    var e2;
    e2, t := Fill(g, t1, 2, 1, h + a, b, max);
    LeadsOn(g, s1, e1, t1, e2, t, max);
    LeadsOn(g, s, [Begin(1)] + [], s1, e1 + e2, t, max);
    evs := [Begin(1)] + [] + (e1 + e2);
  }

  // Operations that keep to the bound max overrun a log of 2 to MAXOPBLOCKS + 2 * max blocks: one stays
  // open, short ones fill ten places, a second one begins, and both pass the test for the last place.
  lemma ModestOverrun(g: Geometry, s: State, max: nat) returns (evs: seq<Event>)
    requires Init(g, s) && Roomy(g, s)
    requires 1 <= max <= MAXOPBLOCKS && 2 <= g.size <= MAXOPBLOCKS + 2 * max
    ensures Run(g, s, evs, max) == true && !Safe(g, Final(g, s, evs))
  {
    var n := Capacity(g) - 1;
    var h := if n < MAXOPBLOCKS then n else MAXOPBLOCKS;
    var a := if n - h < max then n - h else max - 1;
    var s1 := DoBegin(s, 0);
    RunFrom(g, s, Begin(0), s1, [], max);
    var e1, t1 := ShortOperations(g, s1, 0, h, max);
    var e2, t2 := FillBoth(g, t1, h, a, n - h - a, max);
    var e3 := Race(g, t2, 2, max);
    LeadsOn(g, s1, e1, t1, e2, t2, max);
    LeadsOn(g, s, [Begin(0)] + [], s1, e1 + e2, t2, max);
    RunConcat(g, s, [Begin(0)] + [] + (e1 + e2), e3, max);
    evs := [Begin(0)] + [] + (e1 + e2) + e3;
  }

  // What the operations in progress may still put in the header if the bound is max.
  function LeftUpTo(max: nat): Phase -> nat {
    (ph: Phase) => if ph.Active() && ph.used <= max then max - ph.used else 0
  }

  lemma LeftMore(n: nat, ph: Phase, max: nat)
    ensures n * max + LeftUpTo(max)(ph) <= (n + ActiveOf(ph)) * max
  {}

  lemma {:induction false} LeftUpToBound(ps: seq<Phase>, max: nat)
    ensures Sum(ps, LeftUpTo(max)) <= Sum(ps, ActiveOf) * max
  {
    if ps != [] {
      var k := |ps| - 1;
      LeftUpToBound(ps[..k], max);
      LeftMore(Sum(ps[..k], ActiveOf), ps[k], max);
    }
  }

  // With a bound of at most MAXOPBLOCKS: a second operation finds at most ten places taken, a third none.
  predicate Modest(s: State, max: nat) {
    && |s.homes| + Sum(s.procs, LeftUpTo(max)) <= MAXOPBLOCKS + 2 * max
    && (s.outstanding == 0 && !s.committing ==> s.homes == [])
  }

  lemma ModestStep(g: Geometry, s: State, ev: Event, max: nat)
    requires Controlled(g, s) && Modest(s, max) && Enabled(g, s, ev) && g.start < |s.disk| && max <= MAXOPBLOCKS
    requires UsedAtMost(Do(g, s, ev), max)
    ensures Modest(Do(g, s, ev), max) == true
  {
    var w, t := LeftUpTo(max), Do(g, s, ev);
    match ev
    case Begin(p) => ModestBegin(g, s, p, max);
    case Check(p, bn, v) => SumUpdate(s.procs, p, t.procs[p], w);
    case Record(p) =>
      SumUpdate(s.procs, p, t.procs[p], w);
      SumAtLeast(s.procs, p, ActiveOf);
      assert t.procs[p].used <= max;
    case End(p) => SumUpdate(s.procs, p, t.procs[p], w);
    case CommitStepEv(p) => ControlledCommit(g, s, p);
    case CommitDone(p) => SumUpdate(s.procs, p, Idle, w);
    case Crash => SumZero(t.procs, w);
    case RecoverStepEv =>
    case RecoverDone =>
  }

  lemma ModestBegin(g: Geometry, s: State, p: nat, max: nat)
    requires Controlled(g, s) && Modest(s, max) && Enabled(g, s, Begin(p)) && max <= MAXOPBLOCKS
    ensures Modest(DoBegin(s, p), max) == true
  {
    SumUpdate(s.procs, p, InOp(s.nextOp, 0), LeftUpTo(max));
    LeftUpToBound(s.procs, max);
    assert s.outstanding <= 2;
    assert Sum(s.procs, LeftUpTo(max)) <= s.outstanding * max;
  }

  lemma {:induction false} ModestIsSafe(g: Geometry, s: State, evs: seq<Event>, max: nat)
    requires Controlled(g, s) && Modest(s, max) && Valid(g, s, evs) && Within(g, s, evs, max)
    requires max <= MAXOPBLOCKS && MAXOPBLOCKS + 2 * max < g.size
    ensures SafeRun(g, s, evs) == true && Safe(g, Final(g, s, evs)) == true
    decreases |evs|
  {
    if evs != [] {
      ControlledStep(g, s, evs[0]);
      ModestStep(g, s, evs[0], max);
      ModestIsSafe(g, Do(g, s, evs[0]), evs[1..], max);
    }
  }

  lemma RecordUses(g: Geometry, s: State, ev: Event)
    requires g.start < |s.disk| && Enabled(g, s, ev) && s.homes == []
    ensures ev.Record? ==> !UsedAtMost(Do(g, s, ev), 0)
  {
    var t := Do(g, s, ev);
    if ev.Record? { assert t.procs[ev.p].Active() && t.procs[ev.p].used > 0; }
  }

  // No block ever gets into the header.
  lemma {:induction false} IdleIsSafe(g: Geometry, s: State, evs: seq<Event>)
    requires s.homes == [] && Valid(g, s, evs) && Within(g, s, evs, 0) && 1 <= g.size
    ensures SafeRun(g, s, evs) == true && Safe(g, Final(g, s, evs))
    decreases |evs|
  {
    if evs != [] {
      var t := Do(g, s, evs[0]);
      RecordUses(g, s, evs[0]);
      IdleIsSafe(g, t, evs[1..]);
    }
  }

  // A log of this many blocks is large enough for operations of at most max blocks each.
  predicate LargeEnough(g: Geometry, max: nat) {
    g.size == 1 || max == 0 || (max <= MAXOPBLOCKS && MAXOPBLOCKS + 2 * max < g.size)
  }

  lemma FitsAll(g: Geometry, s: State, max: nat, evs: seq<Event>)
    requires Init(g, s) && LargeEnough(g, max) && Run(g, s, evs, max)
    ensures Safe(g, Final(g, s, evs))
  {
    if g.size == 1 {
      EmptyLogIsSafe(g, s, evs);
    } else if max == 0 {
      IdleIsSafe(g, s, evs);
    } else {
      InitInv(g, s);
      SumZero(s.procs, LeftUpTo(max));
      ModestIsSafe(g, s, evs, max);
    }
  }

  // Any other can be overrun: log_write tests the count without the lock, so two operations can both
  // pass it for the last place.
  lemma LogOverruns(g: Geometry, s: State, max: nat) returns (evs: seq<Event>)
    requires Init(g, s) && Roomy(g, s) && !LargeEnough(g, max)
    ensures Run(g, s, evs, max) == true && !Safe(g, Final(g, s, evs))
  {
    if max > MAXOPBLOCKS {
      evs := GreedyOverrun(g, s, max);
    } else {
      evs := ModestOverrun(g, s, max);
    }
  }

  // So, whatever operations may use: the header's list fits in every run exactly when the log has no
  // room at all, or they use nothing, or they use no more than was reserved and the log has room for
  // two of them and ten blocks more. (mkfs gives the log exactly LOGSIZE blocks: enough for operations
  // of nine blocks, not of ten.)
  lemma LogFitsIff(g: Geometry, s: State, max: nat)
    requires Init(g, s) && Roomy(g, s)
    ensures (forall evs :: Run(g, s, evs, max) ==> Safe(g, Final(g, s, evs))) <==> LargeEnough(g, max)
  {
    if LargeEnough(g, max) {
      forall evs | Run(g, s, evs, max) ensures Safe(g, Final(g, s, evs)) { FitsAll(g, s, max, evs); }
    } else {
      var evs := LogOverruns(g, s, max);
    }
  }

  // The count is tested before the list is searched, so a log_write that would only be absorbed can
  // panic although every operation has kept to its reservation.
  lemma AbsorbPanics(g: Geometry, s: State) returns (evs: seq<Event>, bn: nat)
    requires Init(g, s) && Roomy(g, s) && LOGSIZE < g.size
    ensures Run(g, s, evs, MAXOPBLOCKS) == true
    ensures var t := Final(g, s, evs);
            && |t.procs| > 0 && t.procs[0].InOp? && bn in t.homes && bn < |t.mem|
            && TooBig(g, t) && !Enabled(g, t, Check(0, bn, t.mem[bn]))
  {
    var t;
    evs, t := FillThree(g, s, MAXOPBLOCKS, MAXOPBLOCKS, MAXOPBLOCKS, MAXOPBLOCKS);
    bn := g.start + g.size;
    assert t.homes[0] == bn;
  }
}
