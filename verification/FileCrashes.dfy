/** File operations over the log. Processes run writei and itrunc inside begin_op and end_op, interleaved at
    every log_write; commits run, and the machine crashes anywhere and recovers. After recovery the files
    are those after the operations that were durable, and no others. */
module FileCrashes {
  import opened Words
  import opened FsSpec
  import opened FileSteps
  import opened LogSpec
  import L = LogProtocol

  // ---- what operations do to the files ----

  function Effect(files: seq<seq<byte>>, op: FileOp): seq<seq<byte>> {
    if op.i < |files| && Fits(files[op.i], op) then files[op.i := Result(files[op.i], op)] else files
  }

  // A file operation that has come to its end, as part of operation id of the log.
  datatype Ended = Ended(id: nat, op: FileOp)

  function Effects(files: seq<seq<byte>>, done: seq<Ended>): seq<seq<byte>> {
    if done == [] then files else Effect(Effects(files, done[..|done| - 1]), done[|done| - 1].op)
  }

  lemma EffectsNext(files: seq<seq<byte>>, done: seq<Ended>, e: Ended)
    ensures Effects(files, done + [e]) == Effect(Effects(files, done), e.op)
  {
    assert (done + [e])[..|done|] == done;
  }

  // ---- the system ----

  // What a process is at: pick is the block that its balloc has found, places are where it has logged.
  datatype Work = Nothing | At(j: Job, pick: nat, places: set<Place>)

  // What a crash would leave of the files, and how many operations of the history are in it.
  datatype Saved = Saved(f: Fs, files: seq<seq<byte>>, n: nat)

  datatype Sys = Sys(
    s: L.State,                    // the log
    f: Fs,                         // the file system as memory has it
    works: seq<Work>,              // by process
    files: seq<seq<byte>>,         // what the files are, operations in progress left out
    done: seq<Ended>,              // the file operations not lost in a crash
    saved: Saved,
    spent: seq<nat>)               // by process, the bounds of the file operations done since begin_op

  datatype Event =
    | Log(ev: L.Event)             // begin_op, end_op, a block write of a commit or of recovery, a crash
    | StartFile(p: nat, op: FileOp)
    | CheckBlock(p: nat, b: nat)   // log_write up to its tests; the buffer is locked from bread to brelse
    | RecordBlock(p: nat)          // the rest of log_write

  predicate Working(y: Sys, p: nat) { p < |y.works| && y.works[p].At? }

  // Somebody has the inode locked.
  predicate Locked(works: seq<Work>, i: nat) { exists p :: 0 <= p < |works| && works[p].At? && works[p].j.op.i == i }

  // Somebody has the buffer locked.
  predicate Busy(procs: seq<L.Phase>, bn: nat) {
    exists q :: 0 <= q < |procs| && procs[q].Checked? && procs[q].bn == bn
  }

  predicate Enabled(sb: Super, g: Geometry, y: Sys, ev: Event) {
    && g.start < |y.s.disk| && |y.works| == |y.s.procs| == |y.spent|
    && match ev
       case Log(e) => L.Enabled(g, y.s, e) && !e.Check? && !e.Record? && (e.End? ==> !Working(y, e.p))
       case StartFile(p, op) =>
         && L.Running(y.s, p) && y.s.procs[p].InOp? && !Working(y, p)
         && Whole(sb, y.f) && |y.files| == |y.f.inodes| && op.i < |y.files| && !Locked(y.works, op.i)
         && Fits(y.files[op.i], op) && (op.WriteFile? ==> !IsDevice(y.f.inodes[op.i]))
       case CheckBlock(p, b) =>
         && Working(y, p) && StepOk(sb, y.f, y.works[p].j, b)
         && var w := StepWrite(sb, y.f, y.works[p].j, b);
            L.Enabled(g, y.s, L.Check(p, w.bn, w.data)) && !Busy(y.s.procs, w.bn)
       case RecordBlock(p) =>
         && L.Enabled(g, y.s, L.Record(p)) && Working(y, p) && y.works[p].j.op.i < |y.files|
         && CanGoOn(sb, y.f, y.works[p].j, y.works[p].pick)
         && (y.works[p].j.op.WriteFile? ==> y.works[p].j.op.off <= |y.files[y.works[p].j.op.i]|)
  }

  // A process has come to wk: if that is the end of its job, the operation is done.
  function Advance(sb: Super, y: Sys, p: nat, wk: Work): Sys
    requires p < |y.works| && p < |y.spent| && p < |y.s.procs| && y.s.procs[p].Active()
    requires wk.At? && wk.j.op.i < |y.files| && (wk.j.op.WriteFile? ==> wk.j.op.off <= |y.files[wk.j.op.i]|)
  {
    var op := wk.j.op;
    if wk.j.st.Done? then
      y.(works := y.works[p := Nothing], files := y.files[op.i := Result(y.files[op.i], op)],
         done := y.done + [Ended(y.s.procs[p].op, op)], spent := y.spent[p := y.spent[p] + Bound(sb, op)])
    else y.(works := y.works[p := wk])
  }

  function Nobody(n: nat): seq<Work> { seq(n, _ => Nothing) }

  function DoLog(g: Geometry, y: Sys, e: L.Event): Sys
    requires L.Enabled(g, y.s, e) && g.start < |y.s.disk| && |y.spent| == |y.s.procs|
  {
    var y1 := y.(s := L.Do(g, y.s, e));
    match e
    case Begin(p) => y1.(spent := y.spent[p := 0])
    case CommitStepEv(p) => if y.s.written == |y.s.homes| then y1.(saved := Saved(y.f, y.files, |y.done|)) else y1
    case Crash => y1.(works := Nobody(|y.works|))
    case RecoverDone =>
      y1.(f := y.saved.f, files := y.saved.files, works := Nobody(|y.works|),
          done := if y.saved.n <= |y.done| then y.done[..y.saved.n] else y.done)
    case _ => y1
  }

  function Do(sb: Super, g: Geometry, y: Sys, ev: Event): Sys
    requires Enabled(sb, g, y, ev)
  {
    match ev
    case Log(e) => DoLog(g, y, e)
    case StartFile(p, op) => Advance(sb, y, p, At(Start(y.f.rows[op.i], y.f.inodes[op.i], op), 0, {}))
    case CheckBlock(p, b) =>
      var w := StepWrite(sb, y.f, y.works[p].j, b);
      y.(s := L.DoCheck(y.s, p, w.bn, w.data), works := y.works[p := y.works[p].(pick := b)])
    case RecordBlock(p) =>
      var j, b := y.works[p].j, y.works[p].pick;
      var y1 := y.(s := L.DoRecord(y.s, p), f := StepFs(sb, y.f, j, b));
      Advance(sb, y1, p, At(StepJob(sb, y.f, j, b), 0, y.works[p].places + {StepPlace(sb, y.f, j, b)}))
  }

  // ---- what always holds ----

  // Process p, with phase ph in the log, is where its job should be; past log_write's tests, it holds the
  // block that its step makes.
  predicate WorkOk(sb: Super, f: Fs, files: seq<seq<byte>>, wk: Work, ph: L.Phase)
    requires Whole(sb, f) && |files| == |f.inodes|
  {
    && (ph.Checked? ==> wk.At?)
    && (wk.At? ==>
          && ph.Active() && wk.j.op.i < |files| && JobOk(sb, f, files[wk.j.op.i], wk.j)
          && (ph.Checked? ==> StepOk(sb, f, wk.j, wk.pick) && StepWrite(sb, f, wk.j, wk.pick) == Write(ph.bn, ph.v)))
  }

  // No inode is locked twice, nor any buffer.
  predicate Alone(works: seq<Work>) {
    forall p, q :: 0 <= p < q < |works| && works[p].At? && works[q].At? ==> works[p].j.op.i != works[q].j.op.i
  }

  predicate BufferOnce(procs: seq<L.Phase>) {
    forall p, q :: 0 <= p < q < |procs| && procs[p].Checked? && procs[q].Checked? ==> procs[p].bn != procs[q].bn
  }

  // All files are what files says, but for those that somebody is at.
  predicate Kept(sb: Super, f: Fs, files: seq<seq<byte>>, works: seq<Work>, procs: seq<L.Phase>) {
    && Whole(sb, f) && |files| == |f.inodes| && |works| == |procs|
    && (forall p :: 0 <= p < |works| ==> WorkOk(sb, f, files, works[p], procs[p]))
    && Alone(works) && BufferOnce(procs)
    && (forall i :: 0 <= i < |files| && !Locked(works, i) ==> Quiet(sb, f, files[i], i))
  }

  // ---- a log_write of one process, seen by the others ----

  // What a process is about to log is not changed by what others do to other blocks.
  lemma WriteStable(sb: Super, f: Fs, f': Fs, j: Job, b: nat)
    requires StepOk(sb, f, j, b) && Whole(sb, f') && Untouched(sb, f, f', j.op.i)
    requires var bn := StepWrite(sb, f, j, b).bn; f'.disk[bn] == f.disk[bn]
    ensures StepOk(sb, f', j, b) && StepWrite(sb, f', j, b) == StepWrite(sb, f, j, b)
  {
    match j.st
    case Take(k) =>
      BitmapBlockIn(sb, f.disk, b);
      assert Marked(sb, f'.disk, b) == Marked(sb, f.disk, b);
    case Clear(k, b') =>
    case Link(k, b') =>
    case Fill =>
    case Save =>
    case Free(n) =>
  }

  lemma OtherWork(sb: Super, f: Fs, c: seq<byte>, j: Job, b: nat, files: seq<seq<byte>>, wk: Work, ph: L.Phase)
    requires StepOk(sb, f, j, b) && JobOk(sb, f, c, j) && |files| == |f.inodes| && WorkOk(sb, f, files, wk, ph)
    requires wk.At? && wk.j.op.i != j.op.i && (ph.Checked? ==> ph.bn != StepWrite(sb, f, j, b).bn)
    ensures Whole(sb, StepFs(sb, f, j, b)) && WorkOk(sb, StepFs(sb, f, j, b), files, wk, ph) == true
  {
    var f', i := StepFs(sb, f, j, b), wk.j.op.i;
    StepSpares(sb, f, c, j, b, i);
    JobKept(sb, f, f', files[i], wk.j);
    if ph.Checked? { WriteStable(sb, f, f', wk.j, wk.pick); }
  }

  // ---- every step keeps it ----

  // A process that is at no file comes to another phase of the log.
  lemma KeptPhase(sb: Super, f: Fs, files: seq<seq<byte>>, works: seq<Work>, procs: seq<L.Phase>, p: nat, ph: L.Phase)
    requires Kept(sb, f, files, works, procs) && p < |works| && !works[p].At? && !ph.Checked?
    ensures Kept(sb, f, files, works, procs[p := ph]) == true
  {}

  lemma KeptCheck(sb: Super, f: Fs, files: seq<seq<byte>>, works: seq<Work>, procs: seq<L.Phase>, p: nat, b: nat,
      ph: L.Phase)
    requires Kept(sb, f, files, works, procs) && p < |works| && works[p].At? && StepOk(sb, f, works[p].j, b)
    requires ph.Checked? && Write(ph.bn, ph.v) == StepWrite(sb, f, works[p].j, b) && !Busy(procs, ph.bn)
    ensures Kept(sb, f, files, works[p := works[p].(pick := b)], procs[p := ph]) == true
  {
    var works', procs' := works[p := works[p].(pick := b)], procs[p := ph];
    forall i | Locked(works, i) ensures Locked(works', i) {
      var q :| 0 <= q < |works| && works[q].At? && works[q].j.op.i == i;
      assert works'[q].At? && works'[q].j.op.i == i;
    }
  }

  // All is kept but file i, which nobody of works is at.
  predicate KeptBut(sb: Super, f: Fs, files: seq<seq<byte>>, works: seq<Work>, procs: seq<L.Phase>, i: nat) {
    && Whole(sb, f) && |files| == |f.inodes| && |works| == |procs| && !Locked(works, i)
    && (forall p :: 0 <= p < |works| ==> WorkOk(sb, f, files, works[p], procs[p]))
    && Alone(works) && BufferOnce(procs)
    && (forall k :: 0 <= k < |files| && k != i && !Locked(works, k) ==> Quiet(sb, f, files[k], k))
  }

  lemma LockedMore(works: seq<Work>, p: nat, wk: Work, i: nat)
    requires p < |works| && !works[p].At?
    ensures Locked(works[p := wk], i) <==> Locked(works, i) || (wk.At? && wk.j.op.i == i)
  {
    if Locked(works, i) {
      var q :| 0 <= q < |works| && works[q].At? && works[q].j.op.i == i;
      assert works[p := wk][q] == works[q];
    }
    if wk.At? && wk.j.op.i == i { assert works[p := wk][p] == wk; }
  }

  // p comes to j at its file, and all else is kept.
  lemma KeptAdvance(sb: Super, f: Fs, files: seq<seq<byte>>, works: seq<Work>, procs: seq<L.Phase>, p: nat, j: Job,
      places: set<Place>)
    requires KeptBut(sb, f, files, works, procs, j.op.i) && p < |works| && !works[p].At? && procs[p].InOp?
    requires j.op.i < |files| && (j.op.WriteFile? ==> j.op.off <= |files[j.op.i]|)
    requires Advanced(sb, f, files[j.op.i], j)
    ensures j.st.Done? ==> Kept(sb, f, files[j.op.i := Result(files[j.op.i], j.op)], works, procs) == true
    ensures !j.st.Done? ==> Kept(sb, f, files, works[p := At(j, 0, places)], procs) == true
  {
    var works', i := works[p := At(j, 0, places)], j.op.i;
    if j.st.Done? {
      forall q | 0 <= q < |works|
        ensures WorkOk(sb, f, files[i := Result(files[i], j.op)], works[q], procs[q]) {
        if works[q].At? { assert works[q].j.op.i != i; }
      }
    } else {
      forall q | 0 <= q < |works| && works[q].At? ensures works[q].j.op.i != i {}
      forall k | 0 <= k < |files| && !Locked(works', k) ensures Quiet(sb, f, files[k], k) {
        LockedMore(works, p, At(j, 0, places), k);
      }
    }
  }

  // p leaves its file: the rest is kept.
  lemma KeptRest(sb: Super, f: Fs, files: seq<seq<byte>>, works: seq<Work>, procs: seq<L.Phase>, p: nat, ph: L.Phase)
    requires Kept(sb, f, files, works, procs) && p < |works| && works[p].At? && ph.InOp?
    ensures KeptBut(sb, f, files, works[p := Nothing], procs[p := ph], works[p].j.op.i) == true
  {
    var rest, i := works[p := Nothing], works[p].j.op.i;
    forall k ensures Locked(works, k) <==> Locked(rest, k) || k == i {
      LockedMore(rest, p, works[p], k);
      assert rest[p := works[p]] == works;
    }
    forall q | 0 <= q < |works| && rest[q].At? ensures rest[q].j.op.i != i {}
  }

  // A step at file i: the rest is kept.
  lemma KeptStep(sb: Super, f: Fs, files: seq<seq<byte>>, works: seq<Work>, procs: seq<L.Phase>, j: Job, b: nat)
    requires KeptBut(sb, f, files, works, procs, j.op.i) && j.op.i < |files| && StepOk(sb, f, j, b)
    requires JobOk(sb, f, files[j.op.i], j) && !Busy(procs, StepWrite(sb, f, j, b).bn)
    ensures KeptBut(sb, StepFs(sb, f, j, b), files, works, procs, j.op.i) == true
  {
    var f', i, c := StepFs(sb, f, j, b), j.op.i, files[j.op.i];
    StepWhole(sb, f, c, j, b);
    forall q | 0 <= q < |works| ensures WorkOk(sb, f', files, works[q], procs[q]) {
      if works[q].At? {
        assert works[q].j.op.i != i;
        OtherWork(sb, f, c, j, b, files, works[q], procs[q]);
      }
    }
    forall k | 0 <= k < |files| && k != i && !Locked(works, k) ensures Quiet(sb, f', files[k], k) {
      StepSpares(sb, f, c, j, b, k);
      QuietKept(sb, f, f', files[k], k);
    }
  }

  // ---- the system ----

  predicate InDone(done: seq<Ended>, n: nat, id: nat)
    requires n <= |done|
  { exists e :: 0 <= e < n && done[e].id == id }

  predicate AtWork(works: seq<Work>, procs: seq<L.Phase>, id: nat) {
    exists p :: 0 <= p < |works| && p < |procs| && works[p].At? && procs[p].Active() && procs[p].op == id
  }

  // The operations whose log_writes are durable are those among the first n that are done.
  predicate Recorded(done: seq<Ended>, n: nat, works: seq<Work>, s: L.State) {
    && n <= |done| && s.durable <= |s.recs|
    && (forall e :: 0 <= e < |done| ==> done[e].id < s.nextOp)
    && (forall k :: 0 <= k < s.durable ==> InDone(done, n, s.recs[k].op))
    && (forall k :: s.durable <= k < |s.recs| ==> !InDone(done, n, s.recs[k].op))
    && (forall p :: 0 <= p < |s.procs| && s.procs[p].Active() ==> !InDone(done, n, s.procs[p].op))
    && (s.mode.Up? ==>
          forall k :: 0 <= k < |s.recs| ==> InDone(done, |done|, s.recs[k].op) || AtWork(works, s.procs, s.recs[k].op))
  }

  // What a reboot now would find.
  predicate SavedOk(sb: Super, files0: seq<seq<byte>>, y: Sys) {
    && AllQuiet(sb, y.saved.f, y.saved.files) && y.saved.f.disk == y.s.kept && y.saved.n <= |y.done|
    && y.saved.files == Effects(files0, y.done[..y.saved.n])
  }

  predicate UpOk(sb: Super, files0: seq<seq<byte>>, y: Sys) {
    && Kept(sb, y.f, y.files, y.works, y.s.procs) && y.f.disk == y.s.full && y.files == Effects(files0, y.done)
  }

  ghost predicate SysInv(sb: Super, g: Geometry, files0: seq<seq<byte>>, y: Sys) {
    && g.start + g.size <= sb.inodestart && |y.works| == |y.s.procs| == |y.spent| && L.Inv(g, y.s)
    && SavedOk(sb, files0, y) && Recorded(y.done, y.saved.n, y.works, y.s)
    && if y.s.mode.Up? then UpOk(sb, files0, y) else y.works == Nobody(|y.works|)
  }

  // ---- the steps ----

  // Past log_write's tests, p's job can take its step, and what p holds is what the step makes.
  lemma HoldsStep(sb: Super, f: Fs, files: seq<seq<byte>>, works: seq<Work>, procs: seq<L.Phase>, p: nat)
    requires Kept(sb, f, files, works, procs) && p < |works| && procs[p].Checked?
    ensures works[p].At? && works[p].j.op.i < |files| && Fits(files[works[p].j.op.i], works[p].j.op)
    ensures JobOk(sb, f, files[works[p].j.op.i], works[p].j) == true
    ensures CanGoOn(sb, f, works[p].j, works[p].pick) == true
    ensures StepWrite(sb, f, works[p].j, works[p].pick) == Write(procs[p].bn, procs[p].v)
  {
    assert WorkOk(sb, f, files, works[p], procs[p]);
  }

  // The rest of p's log_write.
  lemma KeptRecord(sb: Super, f: Fs, files: seq<seq<byte>>, works: seq<Work>, procs: seq<L.Phase>, p: nat, ph: L.Phase,
      j: Job, b: nat, places: set<Place>)
    requires Kept(sb, f, files, works, procs) && p < |works| && procs[p].Checked? && ph.InOp?
    requires works[p].At? && works[p].j == j && works[p].pick == b
    ensures j.op.i < |files| && JobOk(sb, f, files[j.op.i], j) && CanGoOn(sb, f, j, b)
    ensures StepWrite(sb, f, j, b) == Write(procs[p].bn, procs[p].v)
    ensures var f', j' := StepFs(sb, f, j, b), StepJob(sb, f, j, b);
            if j'.st.Done?
            then Kept(sb, f', files[j.op.i := Result(files[j.op.i], j.op)], works[p := Nothing], procs[p := ph]) == true
            else Kept(sb, f', files, works[p := At(j', 0, places)], procs[p := ph]) == true
  {
    HoldsStep(sb, f, files, works, procs, p);
    var rest, procs', j' := works[p := Nothing], procs[p := ph], StepJob(sb, f, j, b);
    KeptRest(sb, f, files, works, procs, p, ph);
    NotBusy(procs, p, ph);
    KeptStep(sb, f, files, rest, procs', j, b);
    StepAdvances(sb, f, files[j.op.i], j, b);
    KeptAdvance(sb, StepFs(sb, f, j, b), files, rest, procs', p, j', places);
    assert rest[p := At(j', 0, places)] == works[p := At(j', 0, places)];
  }

  lemma RecordFiles(sb: Super, g: Geometry, files0: seq<seq<byte>>, y: Sys, p: nat)
    requires UpOk(sb, files0, y) && y.s.mode.Up? && Enabled(sb, g, y, RecordBlock(p)) && |y.s.full| == |y.s.mem|
    ensures UpOk(sb, files0, Do(sb, g, y, RecordBlock(p))) == true
  {
    var wk := y.works[p];
    KeptRecord(sb, y.f, y.files, y.works, y.s.procs, p, L.Recorded(y.s.homes, y.s.procs[p]), wk.j, wk.pick,
        wk.places + {StepPlace(sb, y.f, wk.j, wk.pick)});
    DoneFiles(files0, y, Do(sb, g, y, RecordBlock(p)), wk.j.op);
  }

  lemma NotBusy(procs: seq<L.Phase>, p: nat, ph: L.Phase)
    requires BufferOnce(procs) && p < |procs| && procs[p].Checked? && !ph.Checked?
    ensures !Busy(procs[p := ph], procs[p].bn)
  {}

  // The files are the effect of what is done.
  lemma DoneFiles(files0: seq<seq<byte>>, y: Sys, y1: Sys, op: FileOp)
    requires y.files == Effects(files0, y.done) && op.i < |y.files| && Fits(y.files[op.i], op)
    requires (y1.files == y.files && y1.done == y.done) ||
             (&& y1.files == y.files[op.i := Result(y.files[op.i], op)]
              && exists id :: y1.done == y.done + [Ended(id, op)])
    ensures y1.files == Effects(files0, y1.done)
  {
    if y1.done != y.done {
      var id :| y1.done == y.done + [Ended(id, op)];
      EffectsNext(files0, y.done, Ended(id, op));
    }
  }

  lemma CheckFiles(sb: Super, g: Geometry, files0: seq<seq<byte>>, y: Sys, p: nat, b: nat)
    requires UpOk(sb, files0, y) && y.s.mode.Up? && Enabled(sb, g, y, CheckBlock(p, b))
    ensures UpOk(sb, files0, Do(sb, g, y, CheckBlock(p, b))) == true
  {
    var y1 := Do(sb, g, y, CheckBlock(p, b));
    KeptCheck(sb, y.f, y.files, y.works, y.s.procs, p, b, y1.s.procs[p]);
  }

  lemma StartFiles(sb: Super, g: Geometry, files0: seq<seq<byte>>, y: Sys, p: nat, op: FileOp)
    requires UpOk(sb, files0, y) && Enabled(sb, g, y, StartFile(p, op))
    ensures UpOk(sb, files0, Do(sb, g, y, StartFile(p, op))) == true
  {
    var i := op.i;
    Starts(sb, y.f, y.files[i], op);
    KeptAdvance(sb, y.f, y.files, y.works, y.s.procs, p, Start(y.f.rows[i], y.f.inodes[i], op), {});
    assert y.works[p := Nothing] == y.works;
    DoneFiles(files0, y, Do(sb, g, y, StartFile(p, op)), op);
  }

  // With no operation in progress, nobody is at a file.
  lemma NobodyLeft(sb: Super, f: Fs, files: seq<seq<byte>>, works: seq<Work>, procs: seq<L.Phase>)
    requires Kept(sb, f, files, works, procs) && forall p :: 0 <= p < |procs| ==> !procs[p].Active()
    ensures works == Nobody(|works|) && AllQuiet(sb, f, files) == true
  {
    forall p | 0 <= p < |works| ensures works[p] == Nothing { assert WorkOk(sb, f, files, works[p], procs[p]); }
  }

  lemma KeptNobody(sb: Super, f: Fs, files: seq<seq<byte>>, procs: seq<L.Phase>)
    requires AllQuiet(sb, f, files) && forall p :: 0 <= p < |procs| ==> !procs[p].Checked?
    ensures Kept(sb, f, files, Nobody(|procs|), procs) == true
  {}

  // begin_op, end_op and the end of a commit change the phase of one process.
  lemma PhaseFiles(sb: Super, g: Geometry, files0: seq<seq<byte>>, y: Sys, e: L.Event)
    requires UpOk(sb, files0, y) && Enabled(sb, g, y, Log(e)) && y.s.mode.Up? && (e.Begin? || e.End? || e.CommitDone?)
    ensures UpOk(sb, files0, Do(sb, g, y, Log(e))) == true
  {
    assert WorkOk(sb, y.f, y.files, y.works[e.p], y.s.procs[e.p]);
    KeptPhase(sb, y.f, y.files, y.works, y.s.procs, e.p, L.Do(g, y.s, e).procs[e.p]);
  }

  // A block write of a commit: when it is the header's, all that is in memory is saved.
  lemma CommitFiles(sb: Super, g: Geometry, files0: seq<seq<byte>>, y: Sys, p: nat)
    requires UpOk(sb, files0, y) && SavedOk(sb, files0, y) && L.Controlled(g, y.s)
    requires Enabled(sb, g, y, Log(L.CommitStepEv(p)))
    ensures UpOk(sb, files0, Do(sb, g, y, Log(L.CommitStepEv(p)))) == true
    ensures SavedOk(sb, files0, Do(sb, g, y, Log(L.CommitStepEv(p)))) == true
    ensures y.works == Nobody(|y.works|) && forall q :: 0 <= q < |y.s.procs| ==> !y.s.procs[q].Active()
  {
    L.ControlledCommit(g, y.s, p);
    L.NoneActive(g, y.s);
    NobodyLeft(sb, y.f, y.files, y.works, y.s.procs);
    assert y.done[..|y.done|] == y.done;
  }

  lemma RecoveredFiles(sb: Super, g: Geometry, files0: seq<seq<byte>>, y: Sys)
    requires SavedOk(sb, files0, y) && Enabled(sb, g, y, Log(L.RecoverDone)) && y.s.full == y.s.kept
    requires forall p :: 0 <= p < |y.s.procs| ==> !y.s.procs[p].Checked?
    ensures UpOk(sb, files0, Do(sb, g, y, Log(L.RecoverDone))) == true
    ensures SavedOk(sb, files0, Do(sb, g, y, Log(L.RecoverDone))) == true
  {
    KeptNobody(sb, y.saved.f, y.saved.files, y.s.procs);
    assert y.done[..y.saved.n][..y.saved.n] == y.done[..y.saved.n];
  }

  // ---- which operations are saved ----

  lemma InDoneMore(done: seq<Ended>, n: nat, e: Ended, id: nat)
    requires n <= |done|
    ensures InDone(done + [e], n, id) == InDone(done, n, id)
    ensures InDone(done + [e], |done| + 1, id) <==> InDone(done, |done|, id) || e.id == id
  {
    if InDone(done, n, id) {
      var x :| 0 <= x < n && done[x].id == id;
      assert (done + [e])[x].id == id;
    }
    if InDone(done, |done|, id) {
      var x :| 0 <= x < |done| && done[x].id == id;
      assert (done + [e])[x].id == id;
    }
    if e.id == id { assert (done + [e])[|done|].id == id; }
    if InDone(done + [e], n, id) {
      var x :| 0 <= x < n && (done + [e])[x].id == id;
      assert done[x].id == id;
    }
    if InDone(done + [e], |done| + 1, id) && e.id != id {
      var x :| 0 <= x < |done| + 1 && (done + [e])[x].id == id;
      assert done[x].id == id;
    }
  }

  // A process of an operation in progress comes to another file, or to none.
  lemma AtWorkMore(works: seq<Work>, procs: seq<L.Phase>, p: nat, wk: Work, ph: L.Phase, id: nat)
    requires |works| == |procs| && p < |works| && AtWork(works, procs, id)
    requires procs[p].Active() ==> ph.Active() && ph.op == procs[p].op
    ensures AtWork(works[p := wk], procs[p := ph], id) || (!wk.At? && procs[p].Active() && procs[p].op == id)
  {
    var q :| 0 <= q < |works| && works[q].At? && procs[q].Active() && procs[q].op == id;
    if q != p || wk.At? {
      assert works[p := wk][q].At? && procs[p := ph][q].Active() && procs[p := ph][q].op == id;
    }
  }

  // p goes on with its job in operation id, perhaps with a log_write, perhaps to the end of the job.
  lemma RecordedWork(done: seq<Ended>, n: nat, works: seq<Work>, s: L.State, p: nat, wk: Work, op: FileOp, t: L.State)
    requires Recorded(done, n, works, s) && |works| == |s.procs| && L.Running(s, p) && s.procs[p].Active()
    requires s.procs[p].op < s.nextOp && t.mode == s.mode && t.nextOp == s.nextOp && t.durable == s.durable
    requires |t.procs| == |s.procs| && t.procs == s.procs[p := t.procs[p]]
    requires t.procs[p].Active() && t.procs[p].op == s.procs[p].op
    requires t.recs == s.recs || (|t.recs| == |s.recs| + 1 && t.recs[..|s.recs|] == s.recs && works[p].At? &&
             t.recs[|s.recs|].op == s.procs[p].op)
    ensures wk.At? ==> Recorded(done, n, works[p := wk], t) == true
    ensures !wk.At? ==> Recorded(done + [Ended(s.procs[p].op, op)], n, works[p := wk], t) == true
  {
    var id := s.procs[p].op;
    var done', works' := if wk.At? then done else done + [Ended(id, op)], works[p := wk];
    forall x ensures InDone(done', n, x) == InDone(done, n, x) {
      if !wk.At? { InDoneMore(done, n, Ended(id, op), x); }
    }
    forall k | 0 <= k < |t.recs| ensures k < |s.recs| ==> t.recs[k] == s.recs[k] {
      if k < |s.recs| { assert t.recs[..|s.recs|][k] == t.recs[k]; }
    }
    forall k | 0 <= k < |t.recs| ensures InDone(done', |done'|, t.recs[k].op) || AtWork(works', t.procs, t.recs[k].op) {
      var x := t.recs[k].op;
      if !wk.At? { InDoneMore(done, n, Ended(id, op), x); }
      if k < |s.recs| && AtWork(works, s.procs, x) { AtWorkMore(works, s.procs, p, wk, t.procs[p], x); }
      if wk.At? && x == id { assert works'[p].At? && t.procs[p].op == id; }
    }
  }

  // begin_op, end_op and the end of a commit.
  lemma RecordedPhase(done: seq<Ended>, n: nat, works: seq<Work>, s: L.State, p: nat, t: L.State)
    requires Recorded(done, n, works, s) && |works| == |s.procs| && L.Running(s, p) && !works[p].At?
    requires t.mode == s.mode && t.nextOp >= s.nextOp && t.durable == s.durable && t.recs == s.recs
    requires |t.procs| == |s.procs| && t.procs == s.procs[p := t.procs[p]]
    requires t.procs[p].Active() ==> t.procs[p].op == s.nextOp
    ensures Recorded(done, n, works, t) == true
  {
    forall k | 0 <= k < |s.recs| && AtWork(works, s.procs, s.recs[k].op)
      ensures AtWork(works, t.procs, s.recs[k].op) {
      var q :| 0 <= q < |works| && works[q].At? && s.procs[q].Active() && s.procs[q].op == s.recs[k].op;
      assert t.procs[q] == s.procs[q];
    }
  }

  lemma RecordedCommit(done: seq<Ended>, n: nat, works: seq<Work>, s: L.State, t: L.State)
    requires Recorded(done, n, works, s) && s.mode.Up? && works == Nobody(|works|)
    requires forall p :: 0 <= p < |s.procs| ==> !s.procs[p].Active()
    requires t.mode == s.mode && t.nextOp == s.nextOp && t.recs == s.recs && t.procs == s.procs
    requires t.durable == s.durable || t.durable == |s.recs|
    ensures t.durable == s.durable ==> Recorded(done, n, works, t) == true
    ensures t.durable == |s.recs| ==> Recorded(done, |done|, works, t) == true
  {
    forall k | 0 <= k < |s.recs| ensures InDone(done, |done|, s.recs[k].op) {
      assert !AtWork(works, s.procs, s.recs[k].op);
    }
  }

  lemma RecordedCrash(done: seq<Ended>, n: nat, works: seq<Work>, works': seq<Work>, s: L.State, t: L.State)
    requires Recorded(done, n, works, s) && t.mode.Rebooting? && t.nextOp == s.nextOp && t.recs == s.recs[..s.durable]
    requires t.durable == s.durable && forall p :: 0 <= p < |t.procs| ==> !t.procs[p].Active()
    ensures Recorded(done, n, works', t) == true
  {}

  lemma RecordedRecover(done: seq<Ended>, n: nat, works: seq<Work>, works': seq<Work>, s: L.State, t: L.State)
    requires Recorded(done, n, works, s) && t.nextOp == s.nextOp && t.recs == s.recs && t.procs == s.procs
    requires t.durable == s.durable == |s.recs| && forall p :: 0 <= p < |s.procs| ==> !s.procs[p].Active()
    ensures Recorded(done[..n], n, works', t) == true
  {
    forall x ensures InDone(done[..n], n, x) == InDone(done, n, x) {
      if InDone(done, n, x) {
        var e :| 0 <= e < n && done[e].id == x;
        assert done[..n][e].id == x;
      }
    }
  }

  // ---- the invariant of the system ----

  lemma InvFacts(g: Geometry, s: L.State)
    requires L.Inv(g, s)
    ensures L.Controlled(g, s) && |s.full| == |s.mem| == |s.disk| && g.Fits(s.disk)
    ensures forall p :: 0 <= p < |s.procs| && s.procs[p].Active() ==> s.procs[p].op < s.nextOp
    ensures s.mode.Rebooting? ==> s.full == s.kept && s.durable == |s.recs|
    ensures s.mode.Rebooting? ==> forall p :: 0 <= p < |s.procs| ==> !s.procs[p].Active()
  {
    if s.mode.Rebooting? {
      forall p | 0 <= p < |s.procs| ensures !s.procs[p].Active() { L.SumAtLeast(s.procs, p, L.ActiveOf); }
    }
  }

  // What a process does at its file, as the log and the history see it.
  predicate Worked(y: Sys, p: nat, op: FileOp, y1: Sys) {
    && p < |y.works| && p < |y.s.procs| && y.s.procs[p].Active() && y1.saved == y.saved && |y1.works| == |y.works|
    && |y1.spent| == |y.spent|
    && y1.works == y.works[p := y1.works[p]]
    && y1.done == if y1.works[p].At? then y.done else y.done + [Ended(y.s.procs[p].op, op)]
  }

  lemma RecordDo(sb: Super, g: Geometry, y: Sys, p: nat)
    requires Enabled(sb, g, y, RecordBlock(p))
    ensures Do(sb, g, y, RecordBlock(p)).s == L.DoRecord(y.s, p)
    ensures Worked(y, p, y.works[p].j.op, Do(sb, g, y, RecordBlock(p))) == true
  {}

  lemma StartDo(sb: Super, g: Geometry, y: Sys, p: nat, op: FileOp)
    requires Enabled(sb, g, y, StartFile(p, op))
    ensures Do(sb, g, y, StartFile(p, op)).s == y.s && Worked(y, p, op, Do(sb, g, y, StartFile(p, op))) == true
  {}

  // More may be done; what is saved stays.
  lemma SavedMore(sb: Super, files0: seq<seq<byte>>, y: Sys, y1: Sys)
    requires SavedOk(sb, files0, y) && y1.saved == y.saved && y1.s.kept == y.s.kept
    requires y1.done == y.done || exists e :: y1.done == y.done + [e]
    ensures SavedOk(sb, files0, y1) == true
  {
    assert y1.done[..y.saved.n] == y.done[..y.saved.n];
  }

  lemma RecordedRecord(y: Sys, p: nat, op: FileOp, y1: Sys)
    requires Recorded(y.done, y.saved.n, y.works, y.s) && |y.works| == |y.s.procs| && Worked(y, p, op, y1)
    requires L.Running(y.s, p) && y.s.procs[p].Checked? && y.s.procs[p].bn < |y.s.mem| && y1.s == L.DoRecord(y.s, p)
    requires y.works[p].At? && y.s.procs[p].op < y.s.nextOp
    ensures Recorded(y1.done, y1.saved.n, y1.works, y1.s) == true
  {
    RecordedWork(y.done, y.saved.n, y.works, y.s, p, y1.works[p], op, y1.s);
  }

  lemma SysParts(sb: Super, g: Geometry, files0: seq<seq<byte>>, y: Sys)
    requires g.start + g.size <= sb.inodestart && |y.works| == |y.s.procs| == |y.spent| && L.Inv(g, y.s) == true
    requires SavedOk(sb, files0, y) == true && Recorded(y.done, y.saved.n, y.works, y.s) == true
    requires if y.s.mode.Up? then UpOk(sb, files0, y) == true else y.works == Nobody(|y.works|)
    ensures SysInv(sb, g, files0, y) == true
  {}

  lemma SysRecord(sb: Super, g: Geometry, files0: seq<seq<byte>>, y: Sys, p: nat)
    requires SysInv(sb, g, files0, y) && Enabled(sb, g, y, RecordBlock(p))
    ensures SysInv(sb, g, files0, Do(sb, g, y, RecordBlock(p))) == true
  {
    var y1 := Do(sb, g, y, RecordBlock(p));
    RecordDo(sb, g, y, p);
    InvFacts(g, y.s);
    L.InvStep(g, y.s, L.Record(p));
    RecordFiles(sb, g, files0, y, p);
    RecordedRecord(y, p, y.works[p].j.op, y1);
    SavedMore(sb, files0, y, y1);
    SysParts(sb, g, files0, y1);
  }

  lemma SysCheck(sb: Super, g: Geometry, files0: seq<seq<byte>>, y: Sys, p: nat, b: nat)
    requires SysInv(sb, g, files0, y) && Enabled(sb, g, y, CheckBlock(p, b))
    ensures SysInv(sb, g, files0, Do(sb, g, y, CheckBlock(p, b))) == true
  {
    var y1, w := Do(sb, g, y, CheckBlock(p, b)), StepWrite(sb, y.f, y.works[p].j, b);
    InvFacts(g, y.s);
    L.InvStep(g, y.s, L.Check(p, w.bn, w.data));
    CheckFiles(sb, g, files0, y, p, b);
    RecordedWork(y.done, y.saved.n, y.works, y.s, p, y1.works[p], y.works[p].j.op, y1.s);
    SavedMore(sb, files0, y, y1);
    SysParts(sb, g, files0, y1);
  }

  lemma SysStart(sb: Super, g: Geometry, files0: seq<seq<byte>>, y: Sys, p: nat, op: FileOp)
    requires SysInv(sb, g, files0, y) && Enabled(sb, g, y, StartFile(p, op))
    ensures SysInv(sb, g, files0, Do(sb, g, y, StartFile(p, op))) == true
  {
    var y1 := Do(sb, g, y, StartFile(p, op));
    StartDo(sb, g, y, p, op);
    InvFacts(g, y.s);
    StartRest(sb, g, files0, y, p, op);
    SysParts(sb, g, files0, y1);
  }

  // All but what the log keeps of itself.
  predicate SysRest(sb: Super, files0: seq<seq<byte>>, y: Sys) {
    && |y.works| == |y.s.procs| == |y.spent| && SavedOk(sb, files0, y) == true
    && Recorded(y.done, y.saved.n, y.works, y.s) == true && y.s.mode.Up? && UpOk(sb, files0, y) == true
  }

  lemma PhaseRest(sb: Super, g: Geometry, files0: seq<seq<byte>>, y: Sys, e: L.Event)
    requires SysRest(sb, files0, y) == true && Enabled(sb, g, y, Log(e)) && (e.Begin? || e.End? || e.CommitDone?)
    ensures SysRest(sb, files0, Do(sb, g, y, Log(e))) == true
  {
    var y1 := Do(sb, g, y, Log(e));
    assert WorkOk(sb, y.f, y.files, y.works[e.p], y.s.procs[e.p]);
    PhaseFiles(sb, g, files0, y, e);
    RecordedPhase(y.done, y.saved.n, y.works, y.s, e.p, y1.s);
    SavedMore(sb, files0, y, y1);
  }

  lemma StartRest(sb: Super, g: Geometry, files0: seq<seq<byte>>, y: Sys, p: nat, op: FileOp)
    requires SysRest(sb, files0, y) == true && Enabled(sb, g, y, StartFile(p, op)) && y.s.procs[p].op < y.s.nextOp
    ensures SysRest(sb, files0, Do(sb, g, y, StartFile(p, op))) == true
  {
    var y1 := Do(sb, g, y, StartFile(p, op));
    StartDo(sb, g, y, p, op);
    StartFiles(sb, g, files0, y, p, op);
    RecordedWork(y.done, y.saved.n, y.works, y.s, p, y1.works[p], op, y1.s);
    SavedMore(sb, files0, y, y1);
  }

  lemma SysPhase(sb: Super, g: Geometry, files0: seq<seq<byte>>, y: Sys, e: L.Event)
    requires SysInv(sb, g, files0, y) && Enabled(sb, g, y, Log(e)) && (e.Begin? || e.End? || e.CommitDone?)
    requires e.End? ==> L.Safe(g, y.s)
    ensures SysInv(sb, g, files0, Do(sb, g, y, Log(e))) == true
  {
    var y1 := Do(sb, g, y, Log(e));
    InvFacts(g, y.s);
    L.InvStep(g, y.s, e);
    PhaseRest(sb, g, files0, y, e);
    SysParts(sb, g, files0, y1);
  }

  lemma SysCommit(sb: Super, g: Geometry, files0: seq<seq<byte>>, y: Sys, p: nat)
    requires SysInv(sb, g, files0, y) && Enabled(sb, g, y, Log(L.CommitStepEv(p)))
    ensures SysInv(sb, g, files0, Do(sb, g, y, Log(L.CommitStepEv(p)))) == true
  {
    InvFacts(g, y.s);
    L.InvStep(g, y.s, L.CommitStepEv(p));
    CommitFiles(sb, g, files0, y, p);
    RecordedCommit(y.done, y.saved.n, y.works, y.s, L.Do(g, y.s, L.CommitStepEv(p)));
  }

  lemma SysCrash(sb: Super, g: Geometry, files0: seq<seq<byte>>, y: Sys)
    requires SysInv(sb, g, files0, y) && Enabled(sb, g, y, Log(L.Crash))
    ensures SysInv(sb, g, files0, Do(sb, g, y, Log(L.Crash))) == true
  {
    var y1 := Do(sb, g, y, Log(L.Crash));
    L.InvStep(g, y.s, L.Crash);
    RecordedCrash(y.done, y.saved.n, y.works, y1.works, y.s, y1.s);
    SavedMore(sb, files0, y, y1);
    SysParts(sb, g, files0, y1);
  }

  lemma SysRecover(sb: Super, g: Geometry, files0: seq<seq<byte>>, y: Sys)
    requires SysInv(sb, g, files0, y) && Enabled(sb, g, y, Log(L.RecoverDone))
    ensures SysInv(sb, g, files0, Do(sb, g, y, Log(L.RecoverDone))) == true
  {
    var y1 := Do(sb, g, y, Log(L.RecoverDone));
    InvFacts(g, y.s);
    L.InvStep(g, y.s, L.RecoverDone);
    RecordedRecover(y.done, y.saved.n, y.works, y1.works, y.s, y1.s);
    RecoveredFiles(sb, g, files0, y);
    SysParts(sb, g, files0, y1);
  }

  lemma SysRecoverStep(sb: Super, g: Geometry, files0: seq<seq<byte>>, y: Sys)
    requires SysInv(sb, g, files0, y) && Enabled(sb, g, y, Log(L.RecoverStepEv))
    ensures SysInv(sb, g, files0, Do(sb, g, y, Log(L.RecoverStepEv))) == true
  {
    var y1 := Do(sb, g, y, Log(L.RecoverStepEv));
    L.InvStep(g, y.s, L.RecoverStepEv);
    SavedMore(sb, files0, y, y1);
    SysParts(sb, g, files0, y1);
  }

  lemma SysStep(sb: Super, g: Geometry, files0: seq<seq<byte>>, y: Sys, ev: Event)
    requires SysInv(sb, g, files0, y) && Enabled(sb, g, y, ev) && (ev.Log? && ev.ev.End? ==> L.Safe(g, y.s))
    ensures SysInv(sb, g, files0, Do(sb, g, y, ev)) == true
  {
    match ev
    case StartFile(p, op) => SysStart(sb, g, files0, y, p, op);
    case CheckBlock(p, b) => SysCheck(sb, g, files0, y, p, b);
    case RecordBlock(p) => SysRecord(sb, g, files0, y, p);
    case Log(e) =>
      if e.Begin? || e.End? || e.CommitDone? { SysPhase(sb, g, files0, y, e); }
      else if e.CommitStepEv? { SysCommit(sb, g, files0, y, e.p); }
      else if e.Crash? { SysCrash(sb, g, files0, y); }
      else if e.RecoverDone? { SysRecover(sb, g, files0, y); }
      else { SysRecoverStep(sb, g, files0, y); }
  }

  // ---- runs ----

  // A formatted disk, and the machine just up.
  predicate Init(sb: Super, g: Geometry, y: Sys) {
    && L.Init(g, y.s) && g.start + g.size <= sb.inodestart && AllQuiet(sb, y.f, y.files) && y.f.disk == y.s.disk
    && y.works == Nobody(|y.s.procs|) && y.done == [] && y.saved == Saved(y.f, y.files, 0) && |y.spent| == |y.s.procs|
  }

  predicate Valid(sb: Super, g: Geometry, y: Sys, evs: seq<Event>)
    decreases |evs|
  { evs == [] || (Enabled(sb, g, y, evs[0]) && Valid(sb, g, Do(sb, g, y, evs[0]), evs[1..])) }

  function Final(sb: Super, g: Geometry, y: Sys, evs: seq<Event>): Sys
    requires Valid(sb, g, y, evs)
    decreases |evs|
  { if evs == [] then y else Final(sb, g, Do(sb, g, y, evs[0]), evs[1..]) }

  // No commit starts with more blocks than the log has.
  predicate SafeRun(sb: Super, g: Geometry, y: Sys, evs: seq<Event>)
    requires Valid(sb, g, y, evs)
    decreases |evs|
  {
    evs == [] || ((evs[0].Log? && evs[0].ev.End? ==> L.Safe(g, y.s)) && SafeRun(sb, g, Do(sb, g, y, evs[0]), evs[1..]))
  }

  lemma InitSys(sb: Super, g: Geometry, y: Sys)
    requires Init(sb, g, y)
    ensures SysInv(sb, g, y.files, y) == true
  {
    L.InitInv(g, y.s);
    KeptNobody(sb, y.f, y.files, y.s.procs);
  }

  lemma {:induction false} SysRun(sb: Super, g: Geometry, files0: seq<seq<byte>>, y: Sys, evs: seq<Event>)
    requires SysInv(sb, g, files0, y) && Valid(sb, g, y, evs) && SafeRun(sb, g, y, evs)
    ensures SysInv(sb, g, files0, Final(sb, g, y, evs)) == true
    decreases |evs|
  {
    if evs != [] {
      SysStep(sb, g, files0, y, evs[0]);
      SysRun(sb, g, files0, Do(sb, g, y, evs[0]), evs[1..]);
    }
  }

  // ---- only the blocks from the inode blocks on matter ----

  predicate SameFrom(first: nat, d: Disk, d': Disk) {
    |d'| == |d| && forall c :: first <= c < |d| ==> d'[c] == d[c]
  }

  lemma WholeFrom(sb: Super, f: Fs, d': Disk)
    requires Whole(sb, f) && SameFrom(sb.inodestart, f.disk, d')
    ensures Whole(sb, f.(disk := d')) == true
  {
    UsedFrame(sb, f.disk, d');
  }

  lemma QuietFrom(sb: Super, f: Fs, c: seq<byte>, i: nat, d': Disk)
    requires Whole(sb, f) && Whole(sb, f.(disk := d')) && SameFrom(sb.inodestart, f.disk, d')
    requires i < |f.inodes| && Quiet(sb, f, c, i)
    ensures Quiet(sb, f.(disk := d'), c, i) == true
  {
    InodeIn(sb, f.disk, i);
    forall k | 0 <= k < SLOTS && f.rows[i][k] != 0 ensures d'[f.rows[i][k]] == f.disk[f.rows[i][k]] {
      SlotIn(sb, f, i, k);
    }
    BytesKept(f.disk, d', f.rows[i], c);
    if f.inodes[i].addrs[NDIRECT] != 0 { assert f.rows[i][NDIRECT] != 0; }
    assert Row(d', f.inodes[i]) == f.rows[i];
  }

  lemma SameFiles(sb: Super, f: Fs, files: seq<seq<byte>>, d': Disk)
    requires AllQuiet(sb, f, files) && SameFrom(sb.inodestart, f.disk, d')
    ensures AllQuiet(sb, f.(disk := d'), files) == true
  {
    WholeFrom(sb, f, d');
    forall i | 0 <= i < |files| ensures Quiet(sb, f.(disk := d'), files[i], i) { QuietFrom(sb, f, files[i], i, d'); }
  }

  // Crash safety of files: in every run of any number of processes that run file operations at the same
  // time, interleaved at every log_write, with commits, crashes anywhere and recoveries. A reboot now finds
  // a sound file system, whose files are what the operations saved have made of them, in the order in which
  // they ended. Those are the operations whose log_writes are durable, and no others.
  lemma FilesSurvive(sb: Super, g: Geometry, y: Sys, evs: seq<Event>)
    requires Init(sb, g, y) && Valid(sb, g, y, evs) && SafeRun(sb, g, y, evs)
    ensures var t := Final(sb, g, y, evs);
            && LogOk(g, t.s.disk) && AllQuiet(sb, t.saved.f.(disk := Recover(g, t.s.disk)), t.saved.files)
            && t.saved.n <= |t.done| && t.saved.files == Effects(y.files, t.done[..t.saved.n])
            && t.s.durable <= |t.s.recs|
            && (forall k :: 0 <= k < |t.s.recs| ==> (k < t.s.durable <==> InDone(t.done, t.saved.n, t.s.recs[k].op)))
  {
    var t := Final(sb, g, y, evs);
    InitSys(sb, g, y);
    SysRun(sb, g, y.files, y, evs);
    L.InvMeans(g, t.s);
    SameFiles(sb, t.saved.f, t.saved.files, Recover(g, t.s.disk));
  }

  // And while the machine is up and nobody is at a file, memory has the files that all operations that
  // have ended have made.
  lemma FilesNow(sb: Super, g: Geometry, y: Sys, evs: seq<Event>)
    requires Init(sb, g, y) && Valid(sb, g, y, evs) && SafeRun(sb, g, y, evs)
    ensures var t := Final(sb, g, y, evs);
            t.s.mode.Up? ==>
              && t.files == Effects(y.files, t.done) && Whole(sb, t.f) && |t.f.inodes| == |t.files|
              && L.SameHome(g, t.s.mem, t.f.disk)
              && (forall i :: 0 <= i < |t.files| && !Locked(t.works, i) ==> Quiet(sb, t.f, t.files[i], i))
  {
    InitSys(sb, g, y);
    SysRun(sb, g, y.files, y, evs);
    L.InvMeans(g, Final(sb, g, y, evs).s);
  }

  lemma RecordReady(sb: Super, g: Geometry, files0: seq<seq<byte>>, t: Sys, p: nat)
    requires SysInv(sb, g, files0, t) == true && L.Running(t.s, p) && t.s.procs[p].Checked?
    ensures Enabled(sb, g, t, RecordBlock(p)) == true
  {
    InvFacts(g, t.s);
    HoldsStep(sb, t.f, t.files, t.works, t.s.procs, p);
  }

  // The rest of a log_write never has to wait: what it holds is still what its step makes.
  lemma RecordGoesOn(sb: Super, g: Geometry, y: Sys, evs: seq<Event>, p: nat)
    requires Init(sb, g, y) && Valid(sb, g, y, evs) && SafeRun(sb, g, y, evs)
    requires var t := Final(sb, g, y, evs); L.Running(t.s, p) && t.s.procs[p].Checked?
    ensures Enabled(sb, g, Final(sb, g, y, evs), RecordBlock(p))
  {
    InitSys(sb, g, y);
    SysRun(sb, g, y.files, y, evs);
    RecordReady(sb, g, y.files, Final(sb, g, y, evs), p);
  }
}
