/** A call of writei or itrunc, as fs.c makes it, is a run of the system of FileCrashes: what it logs is what
    the events of one process record, one log_write after the other. */
module FileCalls {
  import opened Words
  import opened FsSpec
  import opened FileSteps
  import opened FileCrashes
  import opened LogSpec
  import L = LogProtocol
  import F = FileSystem

  // ---- the header ----

  function AbsorbAll(homes: seq<nat>, ns: seq<nat>): seq<nat>
    decreases |ns|
  { if ns == [] then homes else AbsorbAll(L.Absorb(homes, ns[0]), ns[1..]) }

  lemma {:induction false} AbsorbGrows(homes: seq<nat>, ns: seq<nat>)
    ensures |homes| <= |AbsorbAll(homes, ns)|
    decreases |ns|
  {
    if ns != [] { AbsorbGrows(L.Absorb(homes, ns[0]), ns[1..]); }
  }

  // It grows by no more than the blocks that are new.
  lemma {:induction false} AbsorbSize(homes: seq<nat>, ns: seq<nat>)
    ensures |AbsorbAll(homes, ns)| <= |homes| + |SetOf(ns) - SetOf(homes)|
    decreases |ns|
  {
    if ns != [] {
      var homes', rest := L.Absorb(homes, ns[0]), ns[1..];
      AbsorbSize(homes', rest);
      var a, b := SetOf(ns) - SetOf(homes), SetOf(rest) - SetOf(homes');
      if ns[0] in homes {
        SubsetSize(b, a);
      } else {
        assert ns[0] in a && ns[0] in homes';
        SubsetSize(b, a - {ns[0]});
      }
    }
  }

  function Recs(id: nat, ws: seq<LogSpec.Write>): (r: seq<L.Rec>)
    ensures |r| == |ws|
  { seq(|ws|, k requires 0 <= k < |ws| => L.Rec(id, ws[k].bn, ws[k].data)) }

  // ---- runs ----

  predicate StepTo(sb: Super, g: Geometry, y: Sys, ev: Event, y': Sys) {
    Enabled(sb, g, y, ev) && y' == Do(sb, g, y, ev)
  }

  predicate StepAt(sb: Super, g: Geometry, ys: seq<Sys>, evs: seq<Event>, k: nat)
    requires |ys| == |evs| + 1 && k < |evs|
  { StepTo(sb, g, ys[k], evs[k], ys[k + 1]) == true }

  predicate Path(sb: Super, g: Geometry, ys: seq<Sys>, evs: seq<Event>) {
    |ys| == |evs| + 1 && forall k :: 0 <= k < |evs| ==> StepAt(sb, g, ys, evs, k)
  }

  ghost predicate Leads(sb: Super, g: Geometry, y: Sys, evs: seq<Event>, t: Sys) {
    exists ys :: Path(sb, g, ys, evs) && ys[0] == y && ys[|evs|] == t
  }

  lemma LeadsOne(sb: Super, g: Geometry, y: Sys, ev: Event)
    requires Enabled(sb, g, y, ev)
    ensures Leads(sb, g, y, [ev], Do(sb, g, y, ev)) == true
  {
    assert Path(sb, g, [y, Do(sb, g, y, ev)], [ev]);
  }

  lemma LeadsThen(sb: Super, g: Geometry, y: Sys, a: seq<Event>, y1: Sys, b: seq<Event>, t: Sys)
    requires Leads(sb, g, y, a, y1) == true && Leads(sb, g, y1, b, t) == true
    ensures Leads(sb, g, y, a + b, t) == true
  {
    var ps :| Path(sb, g, ps, a) && ps[0] == y && ps[|a|] == y1;
    var qs :| Path(sb, g, qs, b) && qs[0] == y1 && qs[|b|] == t;
    var rs := ps + qs[1..];
    forall k | 0 <= k < |a + b| ensures StepAt(sb, g, rs, a + b, k) {
      if k < |a| { assert StepAt(sb, g, ps, a, k); } else { assert StepAt(sb, g, qs, b, k - |a|); }
    }
    assert Path(sb, g, rs, a + b);
  }

  lemma {:induction false} LeadsRun(sb: Super, g: Geometry, y: Sys, evs: seq<Event>, t: Sys)
    requires Leads(sb, g, y, evs, t) == true
    ensures Valid(sb, g, y, evs) == true && Final(sb, g, y, evs) == t
    decreases |evs|
  {
    var ps :| Path(sb, g, ps, evs) && ps[0] == y && ps[|evs|] == t;
    if evs != [] {
      assert StepAt(sb, g, ps, evs, 0);
      var qs, rest := ps[1..], evs[1..];
      forall k | 0 <= k < |rest| ensures StepAt(sb, g, qs, rest, k) { assert StepAt(sb, g, ps, evs, k + 1); }
      assert Path(sb, g, qs, rest) && qs[0] == ps[1] && qs[|rest|] == t;
      LeadsRun(sb, g, ps[1], rest, t);
    }
  }

  // ---- one log_write ----

  predicate NoneChecked(procs: seq<L.Phase>) { forall q :: 0 <= q < |procs| ==> !procs[q].Checked? }

  // Process p is in an operation, and nobody is in the middle of a log_write.
  predicate Able(sb: Super, g: Geometry, y: Sys, p: nat) {
    && g.start + g.size <= sb.inodestart && g.start < |y.s.disk| && |y.works| == |y.s.procs| == |y.spent|
    && L.Running(y.s, p) && y.s.procs[p].InOp? && y.s.outstanding >= 1 && NoneChecked(y.s.procs)
    && |y.f.disk| == |y.s.disk| == |y.s.mem|
  }

  // It is at a file.
  predicate Ready(sb: Super, g: Geometry, y: Sys, p: nat) {
    && Able(sb, g, y, p) && Working(y, p) && y.works[p].j.op.i < |y.files|
    && Fits(y.files[y.works[p].j.op.i], y.works[p].j.op)
  }

  lemma CheckReady(sb: Super, g: Geometry, y: Sys, p: nat, b: nat)
    requires Ready(sb, g, y, p) && CanGoOn(sb, y.f, y.works[p].j, b) == true && !L.TooBig(g, y.s)
    ensures Enabled(sb, g, y, CheckBlock(p, b)) == true
    ensures Enabled(sb, g, Do(sb, g, y, CheckBlock(p, b)), RecordBlock(p)) == true
  {}

  // What the two halves of a log_write do.
  predicate Logged(sb: Super, g: Geometry, y: Sys, p: nat, go: Went, y': Sys)
    requires Ready(sb, g, y, p)
  {
    && Able(sb, g, y', p) && y'.f == go.f && y'.s.homes == L.Absorb(y.s.homes, go.w.bn)
    && y'.s.recs == y.s.recs + [L.Rec(y.s.procs[p].op, go.w.bn, go.w.data)]
    && y'.s.disk == y.s.disk && y'.s.durable == y.s.durable && y'.s.procs[p].op == y.s.procs[p].op
    && var op := y.works[p].j.op;
       if go.j.st.Done? then
         && y'.works[p] == Nothing && y'.done == y.done + [Ended(y.s.procs[p].op, op)]
         && y'.files == y.files[op.i := Result(y.files[op.i], op)]
       else y'.works[p].At? && y'.works[p].j == go.j && y'.done == y.done && y'.files == y.files
  }

  // What the second half does.
  predicate Moved(y: Sys, p: nat, go: Went, y': Sys)
    requires p < |y.s.procs| && y.s.procs[p].Active() && Working(y, p) && y.works[p].j.op.i < |y.files|
    requires Fits(y.files[y.works[p].j.op.i], y.works[p].j.op)
  {
    && y'.f == go.f && |y'.works| == |y.works| && |y'.spent| == |y.spent|
    && var op := y.works[p].j.op;
       if go.j.st.Done? then
         && y'.works[p] == Nothing && y'.done == y.done + [Ended(y.s.procs[p].op, op)]
         && y'.files == y.files[op.i := Result(y.files[op.i], op)]
       else y'.works[p].At? && y'.works[p].j == go.j && y'.done == y.done && y'.files == y.files
  }

  lemma RecordMoves(sb: Super, g: Geometry, y: Sys, p: nat)
    requires Enabled(sb, g, y, RecordBlock(p)) && Fits(y.files[y.works[p].j.op.i], y.works[p].j.op)
    ensures var y' := Do(sb, g, y, RecordBlock(p));
            && y'.s == L.DoRecord(y.s, p)
            && Moved(y, p, Go(sb, y.f, y.works[p].j, y.works[p].pick), y') == true
  {}

  lemma CheckMoves(sb: Super, g: Geometry, y: Sys, p: nat, b: nat)
    requires Ready(sb, g, y, p) && Enabled(sb, g, y, CheckBlock(p, b)) && CanGoOn(sb, y.f, y.works[p].j, b) == true
    ensures var y1, w := Do(sb, g, y, CheckBlock(p, b)), Go(sb, y.f, y.works[p].j, b).w;
            y1 == y.(s := L.DoCheck(y.s, p, w.bn, w.data), works := y.works[p := y.works[p].(pick := b)])
  {}

  lemma MovedLogged(sb: Super, g: Geometry, y: Sys, p: nat, b: nat, go: Went, y1: Sys, y': Sys)
    requires Ready(sb, g, y, p) && |go.f.disk| == |y.f.disk| && go.w.bn < |y.s.mem|
    requires y1 == y.(s := L.DoCheck(y.s, p, go.w.bn, go.w.data), works := y.works[p := y.works[p].(pick := b)])
    requires y'.s == L.DoRecord(y1.s, p) && Moved(y1, p, go, y')
    ensures Logged(sb, g, y, p, go, y') == true
  {}

  lemma LogsOne(sb: Super, g: Geometry, y: Sys, p: nat, b: nat) returns (y': Sys)
    requires Ready(sb, g, y, p) && CanGoOn(sb, y.f, y.works[p].j, b) == true && !L.TooBig(g, y.s)
    ensures Leads(sb, g, y, [CheckBlock(p, b)] + [RecordBlock(p)], y') == true
    ensures Logged(sb, g, y, p, Go(sb, y.f, y.works[p].j, b), y') == true
  {
    CheckReady(sb, g, y, p, b);
    var y1 := Do(sb, g, y, CheckBlock(p, b));
    CheckMoves(sb, g, y, p, b);
    RecordMoves(sb, g, y1, p);
    y' := Do(sb, g, y1, RecordBlock(p));
    MovedLogged(sb, g, y, p, b, Go(sb, y.f, y.works[p].j, b), y1, y');
    LeadsOne(sb, g, y, CheckBlock(p, b));
    LeadsOne(sb, g, y1, RecordBlock(p));
    LeadsThen(sb, g, y, [CheckBlock(p, b)], y1, [RecordBlock(p)], y');
  }

  // ---- a whole call ----

  // The call op of process p, from y to t: all it logged is recorded, in order, and it has come to its end.
  predicate CallRan(y: Sys, p: nat, op: FileOp, ws: seq<LogSpec.Write>, f': Fs, t: Sys) {
    && p < |y.s.procs| && y.s.procs[p].InOp? && op.i < |y.files| && Fits(y.files[op.i], op)
    && t.f == f' && t.s.homes == AbsorbAll(y.s.homes, Numbers(ws)) && t.s.disk == y.s.disk
    && t.s.recs == y.s.recs + Recs(y.s.procs[p].op, ws) && t.s.durable == y.s.durable
    && p < |t.works| && t.works[p] == Nothing && t.done == y.done + [Ended(y.s.procs[p].op, op)]
    && t.files == y.files[op.i := Result(y.files[op.i], op)]
  }

  // log_write's test of the header passes all the way.
  predicate Room(g: Geometry, homes: seq<nat>, ws: seq<LogSpec.Write>) {
    |AbsorbAll(homes, Numbers(ws))| < LOGSIZE && |AbsorbAll(homes, Numbers(ws))| < g.size - 1
  }

  lemma RoomNow(g: Geometry, s: L.State, ws: seq<LogSpec.Write>)
    requires Room(g, s.homes, ws)
    ensures !L.TooBig(g, s)
    ensures ws != [] ==> Room(g, L.Absorb(s.homes, ws[0].bn), ws[1..])
  {
    AbsorbGrows(s.homes, Numbers(ws));
    if ws != [] { assert Numbers(ws)[1..] == Numbers(ws[1..]); }
  }

  lemma AbsorbFirst(homes: seq<nat>, ws: seq<LogSpec.Write>)
    requires ws != []
    ensures AbsorbAll(homes, Numbers(ws)) == AbsorbAll(L.Absorb(homes, ws[0].bn), Numbers(ws[1..]))
  {
    assert Numbers(ws)[1..] == Numbers(ws[1..]);
  }

  lemma RecsFirst(recs: seq<L.Rec>, id: nat, ws: seq<LogSpec.Write>)
    requires ws != []
    ensures recs + Recs(id, ws) == recs + [L.Rec(id, ws[0].bn, ws[0].data)] + Recs(id, ws[1..])
  {}

  // One log_write, and then the rest of the call.
  lemma RanMore(sb: Super, g: Geometry, y: Sys, p: nat, go: Went, y1: Sys, ws: seq<LogSpec.Write>, f': Fs, t: Sys)
    requires Ready(sb, g, y, p) && Logged(sb, g, y, p, go, y1) && ws != [] && ws[0] == go.w
    requires if go.j.st.Done? then t == y1 && f' == y1.f && ws[1..] == []
             else CallRan(y1, p, y.works[p].j.op, ws[1..], f', t)
    ensures CallRan(y, p, y.works[p].j.op, ws, f', t) == true
  {
    AbsorbFirst(y.s.homes, ws);
    RecsFirst(y.s.recs, y.s.procs[p].op, ws);
  }

  lemma FirstOfRun(sb: Super, g: Geometry, y: Sys, p: nat, tr: Trace, f': Fs, j': Job)
      returns (evs: seq<Event>, go: Went, y1: Sys, rest: Trace)
    requires Ready(sb, g, y, p) && Room(g, y.s.homes, tr.ws) && !y.works[p].j.st.Done?
    requires Ran(sb, y.f, y.works[p].j, tr, f', j') == true && j'.st.Done?
    ensures tr.bs != [] && tr.ws != [] && go.w == tr.ws[0] && rest == Trace(tr.bs[1..], tr.ws[1..])
    ensures Leads(sb, g, y, evs, y1) == true && Logged(sb, g, y, p, go, y1) == true && go.j.op == y.works[p].j.op
    ensures Ran(sb, y1.f, go.j, rest, f', j') == true && Room(g, y1.s.homes, rest.ws)
    ensures go.j.st.Done? ==> f' == y1.f && rest.ws == []
  {
    var j := y.works[p].j;
    RanFirst(sb, y.f, j, tr, f', j');
    var b := tr.bs[0];
    go, rest := Go(sb, y.f, j, b), Trace(tr.bs[1..], tr.ws[1..]);
    RoomNow(g, y.s, tr.ws);
    y1 := LogsOne(sb, g, y, p, b);
    evs := [CheckBlock(p, b)] + [RecordBlock(p)];
    if go.j.st.Done? { DoneStays(sb, go.f, go.j, rest, f', j'); }
  }

  lemma DoneStays(sb: Super, f: Fs, j: Job, tr: Trace, f': Fs, j': Job)
    requires Ran(sb, f, j, tr, f', j') == true && j.st.Done?
    ensures f' == f && tr == Trace([], [])
  {
    RanFirst(sb, f, j, tr, f', j');
  }

  lemma {:induction false} StepsAreRun(sb: Super, g: Geometry, y: Sys, p: nat, tr: Trace, f': Fs, j': Job)
      returns (evs: seq<Event>, t: Sys)
    requires Ready(sb, g, y, p) && Room(g, y.s.homes, tr.ws) && !y.works[p].j.st.Done?
    requires Ran(sb, y.f, y.works[p].j, tr, f', j') == true && j'.st.Done?
    ensures Leads(sb, g, y, evs, t) == true && CallRan(y, p, y.works[p].j.op, tr.ws, f', t) == true
    decreases |tr.bs|
  {
    var go, y1, rest;
    evs, go, y1, rest := FirstOfRun(sb, g, y, p, tr, f', j');
    t := y1;
    if !go.j.st.Done? {
      var more;
      more, t := StepsAreRun(sb, g, y1, p, rest, f', j');
      LeadsThen(sb, g, y, evs, y1, more, t);
      evs := evs + more;
    }
    RanMore(sb, g, y, p, go, y1, tr.ws, f', t);
  }

  lemma StartJob(sb: Super, g: Geometry, y: Sys, p: nat, op: FileOp)
    requires Enabled(sb, g, y, StartFile(p, op)) && Able(sb, g, y, p)
    ensures var y1, j := Do(sb, g, y, StartFile(p, op)), Start(y.f.rows[op.i], y.f.inodes[op.i], op);
            && y1.s == y.s && y1.f == y.f
            && if j.st.Done? then CallRan(y, p, op, [], y.f, y1) == true
               else Ready(sb, g, y1, p) == true && y1.works[p].j == j && y1.files == y.files && y1.done == y.done
  {
    assert Recs(y.s.procs[p].op, []) == [];
  }

  lemma StartIsRun(sb: Super, g: Geometry, y: Sys, p: nat, op: FileOp, j: Job, tr: Trace, f': Fs, j': Job)
      returns (evs: seq<Event>, t: Sys)
    requires Enabled(sb, g, y, StartFile(p, op)) == true && Able(sb, g, y, p) && Room(g, y.s.homes, tr.ws)
    requires j == Start(y.f.rows[op.i], y.f.inodes[op.i], op) && Ran(sb, y.f, j, tr, f', j') == true && j'.st.Done?
    ensures Leads(sb, g, y, evs, t) == true && CallRan(y, p, op, tr.ws, f', t) == true
  {
    StartJob(sb, g, y, p, op);
    LeadsOne(sb, g, y, StartFile(p, op));
    var y1 := Do(sb, g, y, StartFile(p, op));
    evs, t := [StartFile(p, op)], y1;
    if j.st.Done? {
      DoneStays(sb, y.f, j, tr, f', j');
    } else {
      var more;
      more, t := StepsAreRun(sb, g, y1, p, tr, f', j');
      LeadsThen(sb, g, y, evs, y1, more, t);
      evs := evs + more;
    }
  }

  lemma StartRoom(sb: Super, g: Geometry, homes: seq<nat>, op: FileOp, ws: seq<LogSpec.Write>)
    requires |homes| + Bound(sb, op) < LOGSIZE && |homes| + Bound(sb, op) < g.size - 1
    requires |SetOf(Numbers(ws))| <= Bound(sb, op)
    ensures Room(g, homes, ws)
  {
    AbsorbSize(homes, Numbers(ws));
    SubsetSize(SetOf(Numbers(ws)) - SetOf(homes), SetOf(Numbers(ws)));
  }

  lemma SysAble(sb: Super, g: Geometry, files0: seq<seq<byte>>, y: Sys, p: nat)
    requires SysInv(sb, g, files0, y) && L.Running(y.s, p) && y.s.procs[p].InOp? && NoneChecked(y.s.procs)
    ensures Able(sb, g, y, p) == true
  {
    InvFacts(g, y.s);
    L.SumAtLeast(y.s.procs, p, L.ActiveOf);
  }

  // What fs.c does in a call of writei or itrunc, and logs, the process of the system does and records, in
  // any state that a run can reach, if nobody is in the middle of a log_write and the header has room.
  lemma CallIsRun(sb: Super, g: Geometry, files0: seq<seq<byte>>, y: Sys, p: nat, op: FileOp, tr: Trace, f': Fs)
      returns (evs: seq<Event>)
    requires SysInv(sb, g, files0, y) && Enabled(sb, g, y, StartFile(p, op)) && NoneChecked(y.s.procs)
    requires F.CallDid(sb, y.f, op, tr, f')
    requires |y.s.homes| + Bound(sb, op) < LOGSIZE && |y.s.homes| + Bound(sb, op) < g.size - 1
    ensures Valid(sb, g, y, evs) == true && CallRan(y, p, op, tr.ws, f', Final(sb, g, y, evs)) == true
  {
    var j := Start(y.f.rows[op.i], y.f.inodes[op.i], op);
    var j' :| Ran(sb, y.f, j, tr, f', j') && j'.st.Done?;
    StartRoom(sb, g, y.s.homes, op, tr.ws);
    SysAble(sb, g, files0, y, p);
    var t;
    evs, t := StartIsRun(sb, g, y, p, op, j, tr, f', j');
    LeadsRun(sb, g, y, evs, t);
  }
}
