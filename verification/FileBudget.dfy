/** How much of the log file operations use. begin_op reserves MAXOPBLOCKS blocks for each operation; what
    writei and itrunc log is bounded by the size of the write, and for filewrite's chunks that is more. */
module FileBudget {
  import opened Words
  import opened Sequences
  import opened FsSpec
  import opened FileSteps
  import opened FileCrashes
  import opened LogSpec
  import L = LogProtocol

  // ---- what an operation has used is paid for by where its file operations have logged ----

  predicate Paid(sb: Super, f: Fs, homes: seq<nat>, wk: Work, ph: L.Phase, spent: nat)
    requires Whole(sb, f)
  {
    && (ph.Active() ==> ph.used <= spent + if wk.At? then |wk.places| else 0)
    && (wk.At? ==> wk.j.op.i < |f.rows| && Placed(sb, f, wk.j, wk.places, homes))
  }

  predicate Budgeted(sb: Super, y: Sys) {
    && Whole(sb, y.f) && |y.works| == |y.s.procs| == |y.spent|
    && forall p :: 0 <= p < |y.works| ==> Paid(sb, y.f, y.s.homes, y.works[p], y.s.procs[p], y.spent[p])
  }

  // A log_write of p, seen by another process.
  lemma OtherPaid(sb: Super, f: Fs, c: seq<byte>, j: Job, b: nat, homes: seq<nat>, homes': seq<nat>, wk: Work,
      ph: L.Phase, spent: nat)
    requires StepOk(sb, f, j, b) && JobOk(sb, f, c, j) && Paid(sb, f, homes, wk, ph, spent)
    requires (wk.At? ==> wk.j.op.i != j.op.i) && forall h :: h in homes ==> h in homes'
    ensures Whole(sb, StepFs(sb, f, j, b)) && Paid(sb, StepFs(sb, f, j, b), homes', wk, ph, spent) == true
  {
    StepWhole(sb, f, c, j, b);
    if wk.At? { PlacedKept(sb, f, StepFs(sb, f, j, b), wk.j, wk.places, homes, homes'); }
  }

  // And by p itself: a place where it has logged before costs nothing.
  lemma OwnPaid(sb: Super, f: Fs, c: seq<byte>, j: Job, b: nat, homes: seq<nat>, wk: Work, ph: L.Phase, spent: nat)
    requires StepOk(sb, f, j, b) && JobOk(sb, f, c, j) && Paid(sb, f, homes, wk, ph, spent)
    requires wk.At? && wk.j == j && ph.Checked? && ph.bn == StepWrite(sb, f, j, b).bn
    ensures Whole(sb, StepFs(sb, f, j, b))
    ensures var wk' := At(StepJob(sb, f, j, b), 0, wk.places + {StepPlace(sb, f, j, b)});
            var homes' := L.Absorb(homes, ph.bn);
            Paid(sb, StepFs(sb, f, j, b), homes', wk', L.Recorded(homes, ph), spent) == true
  {
    PlacedStep(sb, f, c, j, b, wk.places, homes, L.Absorb(homes, ph.bn));
  }

  // ---- every step keeps the budget ----

  // A job that ends leaves no more than its bound.
  lemma PaidEnd(sb: Super, f: Fs, homes: seq<nat>, wk: Work, ph: L.Phase, spent: nat)
    requires Whole(sb, f) && Paid(sb, f, homes, wk, ph, spent) && wk.At?
    ensures Paid(sb, f, homes, Nothing, ph, spent + Bound(sb, wk.j.op)) == true
  {
    PlacesFit(sb, wk.j.op, wk.places);
  }

  // The parts of a log_write that the budget is about.
  predicate RecordView(sb: Super, y: Sys, p: nat, j: Job, b: nat, y1: Sys)
    requires Working(y, p) && CanGoOn(sb, y.f, j, b) && |y.works| == |y.s.procs| == |y.spent| && y.s.procs[p].Checked?
  {
    var wk := At(StepJob(sb, y.f, j, b), 0, y.works[p].places + {StepPlace(sb, y.f, j, b)});
    && y1.f == StepFs(sb, y.f, j, b) && y1.s.homes == L.Absorb(y.s.homes, y.s.procs[p].bn)
    && y1.s.procs == y.s.procs[p := L.Recorded(y.s.homes, y.s.procs[p])]
    && y1.works == y.works[p := if wk.j.st.Done? then Nothing else wk]
    && y1.spent == y.spent[p := y.spent[p] + if wk.j.st.Done? then Bound(sb, j.op) else 0]
  }

  lemma RecordViews(sb: Super, g: Geometry, y: Sys, p: nat)
    requires Enabled(sb, g, y, RecordBlock(p))
    ensures RecordView(sb, y, p, y.works[p].j, y.works[p].pick, Do(sb, g, y, RecordBlock(p))) == true
  {
    assert y.spent[p := y.spent[p]] == y.spent;
  }

  lemma RecordPaid(sb: Super, y: Sys, p: nat, c: seq<byte>, j: Job, b: nat, y1: Sys)
    requires Working(y, p) && CanGoOn(sb, y.f, j, b) && Budgeted(sb, y) && y.s.procs[p].Checked?
    requires RecordView(sb, y, p, j, b, y1) && JobOk(sb, y.f, c, j) && y.works[p].j == j
    requires y.s.procs[p].bn == StepWrite(sb, y.f, j, b).bn
    requires forall q :: 0 <= q < |y.works| && q != p && y.works[q].At? ==> y.works[q].j.op.i != j.op.i
    ensures Budgeted(sb, y1) == true
  {
    var wk, ph, homes' := y.works[p], y.s.procs[p], L.Absorb(y.s.homes, y.s.procs[p].bn);
    StepWhole(sb, y.f, c, j, b);
    forall q | 0 <= q < |y.works| && q != p
      ensures Paid(sb, y1.f, homes', y.works[q], y.s.procs[q], y.spent[q]) {
      assert Paid(sb, y.f, y.s.homes, y.works[q], y.s.procs[q], y.spent[q]);
      OtherPaid(sb, y.f, c, j, b, y.s.homes, homes', y.works[q], y.s.procs[q], y.spent[q]);
    }
    assert Paid(sb, y.f, y.s.homes, wk, ph, y.spent[p]);
    OwnPaid(sb, y.f, c, j, b, y.s.homes, wk, ph, y.spent[p]);
    var wk' := At(StepJob(sb, y.f, j, b), 0, wk.places + {StepPlace(sb, y.f, j, b)});
    PaidEnd(sb, y1.f, homes', wk', y1.s.procs[p], y.spent[p]);
  }

  lemma BudgetRecord(sb: Super, g: Geometry, files0: seq<seq<byte>>, y: Sys, p: nat)
    requires UpOk(sb, files0, y) && Budgeted(sb, y) && y.s.mode.Up? && Enabled(sb, g, y, RecordBlock(p))
    ensures Budgeted(sb, Do(sb, g, y, RecordBlock(p))) == true
  {
    var wk := y.works[p];
    RecordViews(sb, g, y, p);
    assert WorkOk(sb, y.f, y.files, wk, y.s.procs[p]);
    RecordPaid(sb, y, p, y.files[wk.j.op.i], wk.j, wk.pick, Do(sb, g, y, RecordBlock(p)));
  }

  lemma BudgetCheck(sb: Super, g: Geometry, y: Sys, p: nat, b: nat)
    requires Budgeted(sb, y) && Enabled(sb, g, y, CheckBlock(p, b))
    ensures Budgeted(sb, Do(sb, g, y, CheckBlock(p, b))) == true
  {
    var y1 := Do(sb, g, y, CheckBlock(p, b));
    forall q | 0 <= q < |y1.works| ensures Paid(sb, y1.f, y1.s.homes, y1.works[q], y1.s.procs[q], y1.spent[q]) {
      assert Paid(sb, y.f, y.s.homes, y.works[q], y.s.procs[q], y.spent[q]);
    }
  }

  lemma BudgetStart(sb: Super, g: Geometry, y: Sys, p: nat, op: FileOp)
    requires Budgeted(sb, y) && Enabled(sb, g, y, StartFile(p, op))
    ensures Budgeted(sb, Do(sb, g, y, StartFile(p, op))) == true
  {
    var y1, wk := Do(sb, g, y, StartFile(p, op)), At(Start(y.f.rows[op.i], y.f.inodes[op.i], op), 0, {});
    assert Paid(sb, y.f, y.s.homes, y.works[p], y.s.procs[p], y.spent[p]);
    assert Paid(sb, y.f, y.s.homes, wk, y.s.procs[p], y.spent[p]);
    PaidEnd(sb, y.f, y.s.homes, wk, y.s.procs[p], y.spent[p]);
    forall q | 0 <= q < |y1.works| ensures Paid(sb, y1.f, y1.s.homes, y1.works[q], y1.s.procs[q], y1.spent[q]) {
      assert Paid(sb, y.f, y.s.homes, y.works[q], y.s.procs[q], y.spent[q]);
    }
  }

  // begin_op, end_op or the end of a commit, for a process that is at no file.
  lemma BudgetPhase(sb: Super, g: Geometry, y: Sys, e: L.Event)
    requires Budgeted(sb, y) && Enabled(sb, g, y, Log(e)) && (e.Begin? || e.End? || e.CommitDone?)
    requires !Working(y, e.p) && (e.CommitDone? ==> y.works == Nobody(|y.works|))
    ensures Budgeted(sb, Do(sb, g, y, Log(e))) == true
  {
    var y1 := Do(sb, g, y, Log(e));
    forall q | 0 <= q < |y1.works| ensures Paid(sb, y1.f, y1.s.homes, y1.works[q], y1.s.procs[q], y1.spent[q]) {
      assert Paid(sb, y.f, y.s.homes, y.works[q], y.s.procs[q], y.spent[q]);
    }
  }

  lemma BudgetNobody(sb: Super, y: Sys)
    requires Whole(sb, y.f) && |y.works| == |y.s.procs| == |y.spent| && y.works == Nobody(|y.works|)
    requires forall p :: 0 <= p < |y.s.procs| ==> !y.s.procs[p].Active()
    ensures Budgeted(sb, y) == true
  {}

  lemma NobodyCommits(sb: Super, g: Geometry, files0: seq<seq<byte>>, y: Sys, p: nat)
    requires SysInv(sb, g, files0, y) && L.Enabled(g, y.s, L.CommitDone(p))
    ensures y.works == Nobody(|y.works|)
  {
    InvFacts(g, y.s);
    L.ControlledCommit(g, y.s, p);
    L.NoneActive(g, y.s);
    NobodyLeft(sb, y.f, y.files, y.works, y.s.procs);
  }

  lemma BudgetLogPhase(sb: Super, g: Geometry, files0: seq<seq<byte>>, y: Sys, e: L.Event)
    requires SysInv(sb, g, files0, y) && Budgeted(sb, y) && Enabled(sb, g, y, Log(e))
    requires e.Begin? || e.End? || e.CommitDone?
    ensures Budgeted(sb, Do(sb, g, y, Log(e))) == true
  {
    assert WorkOk(sb, y.f, y.files, y.works[e.p], y.s.procs[e.p]);
    if e.CommitDone? { NobodyCommits(sb, g, files0, y, e.p); }
    BudgetPhase(sb, g, y, e);
  }

  lemma BudgetRecover(sb: Super, g: Geometry, files0: seq<seq<byte>>, y: Sys)
    requires SysInv(sb, g, files0, y) && Enabled(sb, g, y, Log(L.RecoverDone))
    ensures Budgeted(sb, Do(sb, g, y, Log(L.RecoverDone))) == true
  {
    InvFacts(g, y.s);
    BudgetNobody(sb, Do(sb, g, y, Log(L.RecoverDone)));
  }

  lemma BudgetLog(sb: Super, g: Geometry, files0: seq<seq<byte>>, y: Sys, e: L.Event)
    requires SysInv(sb, g, files0, y) && (y.s.mode.Up? ==> Budgeted(sb, y)) && Enabled(sb, g, y, Log(e))
    ensures var y1 := Do(sb, g, y, Log(e)); y1.s.mode.Up? ==> Budgeted(sb, y1) == true
  {
    if e.Begin? || e.End? || e.CommitDone? { BudgetLogPhase(sb, g, files0, y, e); }
    else if e.RecoverDone? { BudgetRecover(sb, g, files0, y); }
  }

  // ---- operations that keep to max ----

  // The file operations an operation has run and is at have bounds of at most max in all.
  predicate Limited(sb: Super, y: Sys, max: nat) {
    && |y.works| == |y.s.procs| == |y.spent|
    && forall p :: 0 <= p < |y.works| && y.s.procs[p].Active() ==>
         y.spent[p] + (if y.works[p].At? then Bound(sb, y.works[p].j.op) else 0) <= max
  }

  lemma LimitedUsed(sb: Super, y: Sys, max: nat)
    requires Budgeted(sb, y) && Limited(sb, y, max)
    ensures L.UsedAtMost(y.s, max)
  {
    forall p | 0 <= p < |y.s.procs| && y.s.procs[p].Active() ensures y.s.procs[p].used <= max {
      assert Paid(sb, y.f, y.s.homes, y.works[p], y.s.procs[p], y.spent[p]);
      if y.works[p].At? { PlacesFit(sb, y.works[p].j.op, y.works[p].places); }
    }
  }

  // A file operation is only started if max allows it.
  predicate Affordable(sb: Super, y: Sys, ev: Event, max: nat) {
    ev.StartFile? && ev.p < |y.spent| ==> y.spent[ev.p] + Bound(sb, ev.op) <= max
  }

  // Files are worked at only inside operations.
  predicate InOperations(y: Sys) {
    |y.works| == |y.s.procs| && forall p :: 0 <= p < |y.works| && y.works[p].At? ==> y.s.procs[p].Active()
  }

  lemma LimitedLog(sb: Super, g: Geometry, y: Sys, e: L.Event, max: nat)
    requires Limited(sb, y, max) && InOperations(y) && Enabled(sb, g, y, Log(e))
    ensures Limited(sb, Do(sb, g, y, Log(e)), max) == true
  {}

  lemma LimitedStep(sb: Super, g: Geometry, y: Sys, ev: Event, max: nat)
    requires Limited(sb, y, max) && InOperations(y) && Enabled(sb, g, y, ev) && Affordable(sb, y, ev, max)
    ensures Limited(sb, Do(sb, g, y, ev), max) == true
  {
    match ev
    case StartFile(p, op) => StartDo(sb, g, y, p, op);
    case CheckBlock(p, b) =>
    case RecordBlock(p) => RecordViews(sb, g, y, p);
    case Log(e) => LimitedLog(sb, g, y, e, max);
  }

  ghost predicate Within(sb: Super, g: Geometry, files0: seq<seq<byte>>, y: Sys, max: nat) {
    SysInv(sb, g, files0, y) && (y.s.mode.Up? ==> Budgeted(sb, y)) && Limited(sb, y, max) && L.Modest(y.s, max)
  }

  lemma SysInOperations(sb: Super, g: Geometry, files0: seq<seq<byte>>, y: Sys)
    requires SysInv(sb, g, files0, y)
    ensures InOperations(y)
  {
    if y.s.mode.Up? {
      forall p | 0 <= p < |y.works| && y.works[p].At? ensures y.s.procs[p].Active() {
        assert WorkOk(sb, y.f, y.files, y.works[p], y.s.procs[p]);
      }
    }
  }

  lemma BudgetStep(sb: Super, g: Geometry, files0: seq<seq<byte>>, y: Sys, ev: Event)
    requires SysInv(sb, g, files0, y) && (y.s.mode.Up? ==> Budgeted(sb, y)) && Enabled(sb, g, y, ev)
    ensures var y1 := Do(sb, g, y, ev); y1.s.mode.Up? ==> Budgeted(sb, y1) == true
  {
    match ev
    case StartFile(p, op) => BudgetStart(sb, g, y, p, op);
    case CheckBlock(p, b) => BudgetCheck(sb, g, y, p, b);
    case RecordBlock(p) => BudgetRecord(sb, g, files0, y, p);
    case Log(e) => BudgetLog(sb, g, files0, y, e);
  }

  // The event of the log that goes with an event of the system, if any.
  lemma LogStep(sb: Super, g: Geometry, y: Sys, ev: Event, max: nat)
    requires Enabled(sb, g, y, ev) && L.Controlled(g, y.s) && L.Modest(y.s, max) && max <= MAXOPBLOCKS
    requires L.UsedAtMost(Do(sb, g, y, ev).s, max)
    ensures L.Modest(Do(sb, g, y, ev).s, max) == true
  {
    match ev
    case StartFile(p, op) => StartDo(sb, g, y, p, op);
    case CheckBlock(p, b) =>
      var w := StepWrite(sb, y.f, y.works[p].j, b);
      L.ModestStep(g, y.s, L.Check(p, w.bn, w.data), max);
    case RecordBlock(p) =>
      RecordDo(sb, g, y, p);
      L.ModestStep(g, y.s, L.Record(p), max);
    case Log(e) => L.ModestStep(g, y.s, e, max);
  }

  lemma WithinStep(sb: Super, g: Geometry, files0: seq<seq<byte>>, y: Sys, ev: Event, max: nat)
    requires Within(sb, g, files0, y, max) && Enabled(sb, g, y, ev) && Affordable(sb, y, ev, max)
    requires max <= MAXOPBLOCKS && MAXOPBLOCKS + 2 * max < g.size
    ensures L.Safe(g, y.s) && Within(sb, g, files0, Do(sb, g, y, ev), max) == true
  {
    var y1 := Do(sb, g, y, ev);
    SysStep(sb, g, files0, y, ev);
    BudgetStep(sb, g, files0, y, ev);
    SysInOperations(sb, g, files0, y);
    LimitedStep(sb, g, y, ev, max);
    InvFacts(g, y.s);
    InvFacts(g, y1.s);
    if y1.s.mode.Up? { LimitedUsed(sb, y1, max); }
    LogStep(sb, g, y, ev, max);
  }

  // On the way every operation starts only file operations whose bounds are at most max in all.
  predicate AffordableRun(sb: Super, g: Geometry, y: Sys, evs: seq<Event>, max: nat)
    requires Valid(sb, g, y, evs)
    decreases |evs|
  { evs == [] || (Affordable(sb, y, evs[0], max) && AffordableRun(sb, g, Do(sb, g, y, evs[0]), evs[1..], max)) }

  lemma {:induction false} WithinRun(sb: Super, g: Geometry, files0: seq<seq<byte>>, y: Sys, evs: seq<Event>, max: nat)
    requires Within(sb, g, files0, y, max) && Valid(sb, g, y, evs) && AffordableRun(sb, g, y, evs, max)
    requires max <= MAXOPBLOCKS && MAXOPBLOCKS + 2 * max < g.size
    ensures SafeRun(sb, g, y, evs) == true && L.Safe(g, Final(sb, g, y, evs).s)
    decreases |evs|
  {
    if evs != [] {
      WithinStep(sb, g, files0, y, evs[0], max);
      WithinRun(sb, g, files0, Do(sb, g, y, evs[0]), evs[1..], max);
    }
  }

  // Where every operation keeps to max, and the log has room for two operations and ten blocks more, no run
  // overruns it: then FilesSurvive holds of every run.
  lemma FilesFit(sb: Super, g: Geometry, y: Sys, evs: seq<Event>, max: nat)
    requires FileCrashes.Init(sb, g, y) && Valid(sb, g, y, evs) && AffordableRun(sb, g, y, evs, max)
    requires max <= MAXOPBLOCKS && MAXOPBLOCKS + 2 * max < g.size
    ensures SafeRun(sb, g, y, evs) && L.Safe(g, Final(sb, g, y, evs).s)
  {
    InitSys(sb, g, y);
    L.SumZero(y.s.procs, L.LeftUpTo(max));
    WithinRun(sb, g, y.files, y, evs, max);
  }

  // ---- filewrite ----

  // filewrite's chunk (file.c:132).
  const CHUNK := (LOGSIZE - 1 - 1 - 2) / 2 * BSIZE

  // It takes 13 blocks of data or 14, more than begin_op reserves; and no log is large enough for that.
  lemma ChunkSpan(sb: Super, g: Geometry, op: FileOp)
    requires op.WriteFile? && |op.src| == CHUNK
    ensures 13 <= Span(op) <= 14 && MAXOPBLOCKS < Span(op) <= Bound(sb, op) <= BitmapBlocks(sb) + 16
    ensures g.size > 1 ==> !L.LargeEnough(g, Bound(sb, op))
  {}

  lemma {:induction false} BudgetRun(sb: Super, g: Geometry, files0: seq<seq<byte>>, y: Sys, evs: seq<Event>)
    requires SysInv(sb, g, files0, y) && (y.s.mode.Up? ==> Budgeted(sb, y))
    requires Valid(sb, g, y, evs) && SafeRun(sb, g, y, evs)
    ensures var t := Final(sb, g, y, evs);
            SysInv(sb, g, files0, t) == true && (t.s.mode.Up? ==> Budgeted(sb, t) == true)
    decreases |evs|
  {
    if evs != [] {
      SysStep(sb, g, files0, y, evs[0]);
      BudgetStep(sb, g, files0, y, evs[0]);
      BudgetRun(sb, g, files0, Do(sb, g, y, evs[0]), evs[1..]);
    }
  }

  // The blocks of data of a write.
  function DataBlocks(row: seq<nat>, op: FileOp): (r: seq<nat>)
    requires |row| == SLOTS && op.WriteFile? && FileSteps.End(op) <= MAXFILE * BSIZE
    ensures |r| == Span(op)
  { seq(Span(op), m requires 0 <= m < Span(op) => row[FileSlot(First(op) + m)]) }

  // Process p has written all its data, and has the inode to save.
  predicate Written(sb: Super, y: Sys, p: nat) {
    && Working(y, p) && y.works[p].j.op.WriteFile? && y.works[p].j.st.Save? && y.works[p].j.op.i < |y.f.rows|
    && Whole(sb, y.f) && FileSteps.End(y.works[p].j.op) <= MAXFILE * BSIZE
    && y.works[p].j.cur == FileSteps.End(y.works[p].j.op)
  }

  function BlocksOf(sb: Super, y: Sys, p: nat): seq<nat>
    requires Written(sb, y, p)
  { DataBlocks(y.f.rows[y.works[p].j.op.i], y.works[p].j.op) }

  // Block x is in the header, and is number who.1 of file who.0.
  predicate LoggedAs(y: Sys, x: nat, who: (nat, nat)) { x in y.s.homes && x in y.f.owner && y.f.owner[x] == who }

  // They are in the header, and each is the file's own.
  lemma DataLogged(sb: Super, y: Sys, p: nat, m: nat)
    requires Budgeted(sb, y) && Written(sb, y, p) && m < Span(y.works[p].j.op)
    ensures LoggedAs(y, BlocksOf(sb, y, p)[m], (y.works[p].j.op.i, FileSlot(First(y.works[p].j.op) + m))) == true
  {
    var wk := y.works[p];
    var n := First(wk.j.op) + m;
    assert Paid(sb, y.f, y.s.homes, wk, y.s.procs[p], y.spent[p]);
    assert Data(FileSlot(n)) in wk.places;
    assert BlockAt(sb, y.f, wk.j, Data(FileSlot(n))) == BlocksOf(sb, y, p)[m];
    SlotIn(sb, y.f, wk.j.op.i, FileSlot(n));
  }

  // So the header has all the data of all writes that are so far.
  lemma ThreeWrites(sb: Super, g: Geometry, y: Sys, evs: seq<Event>, p: nat, q: nat, r: nat)
    requires FileCrashes.Init(sb, g, y) && Valid(sb, g, y, evs) && SafeRun(sb, g, y, evs)
    requires var t := Final(sb, g, y, evs);
             t.s.mode.Up? && p < q < r && Written(sb, t, p) && Written(sb, t, q) && Written(sb, t, r)
    ensures var t := Final(sb, g, y, evs);
            Span(t.works[p].j.op) + Span(t.works[q].j.op) + Span(t.works[r].j.op) <= |t.s.homes|
  {
    var t := Final(sb, g, y, evs);
    InitSys(sb, g, y);
    BudgetNobody(sb, y);
    BudgetRun(sb, g, y.files, y, evs);
    InvFacts(g, t.s);
    var xp, xq, xr := BlocksOf(sb, t, p), BlocksOf(sb, t, q), BlocksOf(sb, t, r);
    DataAllLogged(sb, t, p);
    DataAllLogged(sb, t, q);
    DataAllLogged(sb, t, r);
    ThreeDistinct(t, xp, xq, xr, t.works[p].j.op, t.works[q].j.op, t.works[r].j.op);
    DistinctFits(xp + xq + xr, t.s.homes);
  }

  // Whose the i-th of the blocks of three writes is.
  function Whose(a: FileOp, b: FileOp, c: FileOp, i: nat): (nat, nat)
    requires a.WriteFile? && b.WriteFile? && c.WriteFile?
  {
    if i < Span(a) then (a.i, FileSlot(First(a) + i))
    else if i < Span(a) + Span(b) then (b.i, FileSlot(First(b) + (i - Span(a))))
    else (c.i, FileSlot(First(c) + (i - Span(a) - Span(b))))
  }

  lemma WhoseDiffer(a: FileOp, b: FileOp, c: FileOp, i: nat, k: nat)
    requires a.WriteFile? && b.WriteFile? && c.WriteFile? && a.i != b.i && a.i != c.i && b.i != c.i && i < k
    ensures Whose(a, b, c, i) != Whose(a, b, c, k)
  {}

  lemma At3(a: seq<nat>, b: seq<nat>, c: seq<nat>, i: nat)
    requires i < |a| + |b| + |c|
    ensures (a + b + c)[i] == if i < |a| then a[i] else if i < |a| + |b| then b[i - |a|] else c[i - |a| - |b|]
  {}

  // All of xs are logged, as the data of op.
  predicate AllLogged(y: Sys, xs: seq<nat>, op: FileOp) {
    && op.WriteFile? && |xs| == Span(op)
    && forall m :: 0 <= m < |xs| ==> LoggedAs(y, xs[m], (op.i, FileSlot(First(op) + m)))
  }

  lemma DataAllLogged(sb: Super, y: Sys, p: nat)
    requires Budgeted(sb, y) && Written(sb, y, p)
    ensures AllLogged(y, BlocksOf(sb, y, p), y.works[p].j.op) == true
  {
    forall m | 0 <= m < Span(y.works[p].j.op)
      ensures LoggedAs(y, BlocksOf(sb, y, p)[m], (y.works[p].j.op.i, FileSlot(First(y.works[p].j.op) + m))) {
      DataLogged(sb, y, p, m);
    }
  }

  lemma LoggedBy(y: Sys, xa: seq<nat>, xb: seq<nat>, xc: seq<nat>, a: FileOp, b: FileOp, c: FileOp, i: nat)
    requires AllLogged(y, xa, a) && AllLogged(y, xb, b) && AllLogged(y, xc, c) && i < |xa| + |xb| + |xc|
    ensures LoggedAs(y, (xa + xb + xc)[i], Whose(a, b, c, i)) == true
  {
    At3(xa, xb, xc, i);
  }

  lemma ThreeDistinct(y: Sys, xa: seq<nat>, xb: seq<nat>, xc: seq<nat>, a: FileOp, b: FileOp, c: FileOp)
    requires AllLogged(y, xa, a) && AllLogged(y, xb, b) && AllLogged(y, xc, c)
    requires a.i != b.i && a.i != c.i && b.i != c.i
    ensures Distinct(xa + xb + xc) && forall i :: 0 <= i < |xa + xb + xc| ==> (xa + xb + xc)[i] in y.s.homes
  {
    var all := xa + xb + xc;
    forall i | 0 <= i < |all| ensures all[i] in y.s.homes { LoggedBy(y, xa, xb, xc, a, b, c, i); }
    forall i, k | 0 <= i < k < |all| ensures all[i] != all[k] {
      LoggedBy(y, xa, xb, xc, a, b, c, i);
      LoggedBy(y, xa, xb, xc, a, b, c, k);
      WhoseDiffer(a, b, c, i, k);
    }
  }
}
