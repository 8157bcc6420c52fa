/** What the redo log does to the disk (log.c), as sequences of block writes, and what
    is left after a crash between any two of them. */
module LogSpec {
  import opened Words
  import opened Sequences

  const MAXOPBLOCKS := 10
  const LOGSIZE := 30          // MAXOPBLOCKS * 3

  type Disk = seq<Block>
  datatype Write = Write(bn: nat, data: Block)

  // Where the log lives: its header is block `start`, log blocks follow.
  datatype Geometry = Geometry(start: nat, size: nat) {
    predicate InLog(bn: nat) { start <= bn < start + size }
    predicate Fits(d: Disk) { 1 <= size && start + size <= |d| < 0x8000_0000 }
  }

  // ---- the header block ----

  function HeaderCount(b: Block): int { Signed(Word(b, 0)) }

  function HeaderEntry(b: Block, i: nat): word
    requires i < LOGSIZE
  { Word(b, 1 + i) }

  function HeaderEntries(b: Block): seq<word>
    requires HeaderCount(b) <= LOGSIZE
  {
    if HeaderCount(b) <= 0 then [] else seq(HeaderCount(b), i requires 0 <= i < HeaderCount(b) => HeaderEntry(b, i))
  }

  // A list of home blocks that fits the header array.
  predicate Entries(homes: seq<nat>) {
    |homes| <= LOGSIZE && forall i :: 0 <= i < |homes| ==> homes[i] < 0x8000_0000
  }

  // The loop of write_head: copy the entries into the buffer, leaving the rest of it alone.
  function PutEntries(b: Block, homes: seq<nat>): Block
    requires Entries(homes)
  {
    if homes == [] then b
    else
      var k := |homes| - 1;
      SetWord(PutEntries(b, homes[..k]), 1 + k, homes[k])
  }

  function PutHeader(b: Block, homes: seq<nat>): Block
    requires Entries(homes)
  {
    PutEntries(SetWord(b, 0, |homes|), homes)
  }

  lemma {:induction false} PutEntriesWords(b: Block, homes: seq<nat>, j: nat)
    requires Entries(homes) && j < WORDS
    ensures Word(PutEntries(b, homes), j) == if 1 <= j <= |homes| then homes[j - 1] else Word(b, j)
  {
    if homes != [] {
      var k := |homes| - 1;
      PutEntriesWords(b, homes[..k], j);
      WordOfSetWord(PutEntries(b, homes[..k]), 1 + k, homes[k], j);
    }
  }

  // The header block b, read back by read_head, lists exactly `homes`.
  predicate Reads(b: Block, homes: seq<nat>) {
    HeaderCount(b) <= LOGSIZE && HeaderEntries(b) == homes
  }

  // The header read back is the header written, whatever the block held before.
  lemma HeaderRoundTrip(b: Block, homes: seq<nat>)
    requires Entries(homes)
    ensures HeaderCount(PutHeader(b, homes)) == |homes|
    ensures Reads(PutHeader(b, homes), homes)
  {
    var h := PutHeader(b, homes);
    PutEntriesWords(SetWord(b, 0, |homes|), homes, 0);
    WordOfSetWord(b, 0, |homes|, 0);
    forall i | 0 <= i < |homes| ensures HeaderEntry(h, i) == homes[i] {
      PutEntriesWords(SetWord(b, 0, |homes|), homes, 1 + i);
    }
  }

  // ---- block writes ----

  predicate InRange(d: Disk, ws: seq<Write>) {
    forall i :: 0 <= i < |ws| ==> ws[i].bn < |d|
  }

  function Put(d: Disk, w: Write): Disk
    requires w.bn < |d|
  { d[w.bn := w.data] }

  // The disk after the first k of a sequence of block writes.
  function Apply(d: Disk, ws: seq<Write>, k: nat): (r: Disk)
    requires InRange(d, ws) && k <= |ws|
    ensures |r| == |d|
  {
    if k == 0 then d else Put(Apply(d, ws, k - 1), ws[k - 1])
  }

  // A block that writes i to j - 1 are not for keeps its content through them.
  lemma {:induction false} ApplyBetween(d: Disk, ws: seq<Write>, i: nat, j: nat, b: nat)
    requires InRange(d, ws) && i <= j <= |ws| && b < |d| && forall t :: i <= t < j ==> ws[t].bn != b
    ensures Apply(d, ws, j)[b] == Apply(d, ws, i)[b]
    decreases j
  {
    if i < j { ApplyBetween(d, ws, i, j - 1, b); }
  }

  // Block i of the log, behind the header.
  function LogBlock(g: Geometry, d: Disk, i: nat): Block
    requires g.start + 1 + i < |d|
  { d[g.start + 1 + i] }

  // Home blocks of a transaction: distinct, on the disk, outside the log, and few enough.
  predicate Homes(g: Geometry, size: nat, homes: seq<nat>) {
    && Entries(homes)
    && |homes| <= g.size - 1
    && Distinct(homes)
    && forall i :: 0 <= i < |homes| ==> homes[i] < size && !g.InLog(homes[i])
  }

  // The k-th block write of commit(): write_log, write_head, install_trans, write_head.
  // h is the header block with the transaction, e the header block once erased.
  function CommitWrite(g: Geometry, h: Block, e: Block, homes: seq<nat>, vals: seq<Block>, k: nat): Write
    requires |homes| == |vals| && k < 2 * |homes| + 2
  {
    var n := |homes|;
    if k < n then Write(g.start + 1 + k, vals[k])
    else if k == n then Write(g.start, h)
    else RecoveryWrite(g, e, homes, vals, k - n - 1)
  }

  // The k-th block write of recover_from_log(): install_trans, then write_head.
  function RecoveryWrite(g: Geometry, e: Block, homes: seq<nat>, vals: seq<Block>, k: nat): Write
    requires k <= |homes| == |vals|
  {
    if k < |homes| then Write(homes[k], vals[k]) else Write(g.start, e)
  }

  // All block writes of commit(), in order, for a header block that held h0 before; an empty
  // transaction writes nothing.
  function CommitWrites(g: Geometry, h0: Block, homes: seq<nat>, vals: seq<Block>): seq<Write>
    requires Entries(homes) && |homes| == |vals|
  {
    var h := PutHeader(h0, homes);
    var e := PutHeader(h, []);
    if homes == [] then []
    else seq(2 * |homes| + 2, k requires 0 <= k < 2 * |homes| + 2 => CommitWrite(g, h, e, homes, vals, k))
  }

  // All block writes of recover_from_log(), in order, for a header listing `homes`.
  function RecoveryWrites(g: Geometry, e: Block, homes: seq<nat>, vals: seq<Block>): seq<Write>
    requires |homes| == |vals|
  {
    seq(|homes| + 1, k requires 0 <= k <= |homes| => RecoveryWrite(g, e, homes, vals, k))
  }

  // ---- what the disk durably holds ----

  // `content` with the blocks of a transaction replaced.
  function Installed(content: Disk, homes: seq<nat>, vals: seq<Block>): (r: Disk)
    requires |homes| == |vals| && Distinct(homes)
    requires forall i :: 0 <= i < |homes| ==> homes[i] < |content|
    ensures |r| == |content|
    ensures forall i :: 0 <= i < |homes| ==> r[homes[i]] == vals[i]
    ensures forall b :: 0 <= b < |content| && b !in homes ==> r[b] == content[b]
  {
    if homes == [] then content
    else
      var k := |homes| - 1;
      Installed(content, homes[..k], vals[..k])[homes[k] := vals[k]]
  }

  // A disk whose header lists `homes` holds `content`: the listed blocks have their content in
  // the log, whatever their home location holds; every other home block is in place.
  predicate Held(g: Geometry, d: Disk, homes: seq<nat>, content: Disk) {
    && g.Fits(d) && |content| == |d| && Homes(g, |d|, homes)
    && (forall i :: 0 <= i < |homes| ==> content[homes[i]] == LogBlock(g, d, i))
    && (forall b :: 0 <= b < |d| && !g.InLog(b) && b !in homes ==> d[b] == content[b])
  }

  // The disk durably holds `content`: a recovery will find it.
  predicate Durable(g: Geometry, d: Disk, content: Disk) {
    && g.Fits(d)
    && HeaderCount(d[g.start]) <= LOGSIZE
    && Held(g, d, HeaderEntries(d[g.start]), content)
  }

  // Nothing to redo: the header is empty and every home block is in place.
  predicate Clean(g: Geometry, d: Disk, content: Disk) {
    g.Fits(d) && Reads(d[g.start], []) && Held(g, d, [], content)
  }

  // ---- single block writes ----

  // Writing a log block behind an empty header changes nothing durable.
  lemma LogBlockStep(g: Geometry, d: Disk, content: Disk, k: nat, v: Block)
    requires Held(g, d, [], content) && k < g.size - 1
    ensures Held(g, d[g.start + 1 + k := v], [], content)
  {}

  // write_head is the commit point: a header listing the transaction holds the new contents.
  lemma HeadStep(g: Geometry, d: Disk, content: Disk, homes: seq<nat>, vals: seq<Block>, h: Block)
    requires Held(g, d, [], content) && Homes(g, |d|, homes) && |vals| == |homes|
    requires forall i :: 0 <= i < |homes| ==> LogBlock(g, d, i) == vals[i]
    ensures Held(g, d[g.start := h], homes, Installed(content, homes, vals))
  {}

  // Installing a logged block in its home location.
  lemma InstallStep(g: Geometry, d: Disk, content: Disk, homes: seq<nat>, k: nat)
    requires Held(g, d, homes, content) && k < |homes|
    ensures Held(g, d[homes[k] := LogBlock(g, d, k)], homes, content)
  {}

  // Once all logged blocks are in place, the header may be erased.
  lemma EraseStep(g: Geometry, d: Disk, content: Disk, homes: seq<nat>, h: Block)
    requires Held(g, d, homes, content)
    requires forall i :: 0 <= i < |homes| ==> d[homes[i]] == LogBlock(g, d, i)
    ensures Held(g, d[g.start := h], [], content)
  {
    forall b | 0 <= b < |d| && !g.InLog(b) ensures d[b] == content[b] {
      if b in homes { var i :| 0 <= i < |homes| && homes[i] == b; }
    }
  }

  // ---- recovery, one block write at a time ----

  // The header lists the transaction, and install_trans has installed its first k blocks.
  predicate Installing(g: Geometry, d: Disk, content: Disk, h: Block, homes: seq<nat>, vals: seq<Block>, k: nat) {
    && Held(g, d, homes, content) && d[g.start] == h && k <= |homes| == |vals|
    && (forall i :: 0 <= i < |homes| ==> LogBlock(g, d, i) == vals[i])
    && (forall i :: 0 <= i < k ==> d[homes[i]] == vals[i])
  }

  // recover_from_log() has done k of its block writes.
  predicate Recovering(g: Geometry, d: Disk, content: Disk, h: Block, e: Block, homes: seq<nat>, vals: seq<Block>,
      k: nat) {
    if k <= |homes| then Installing(g, d, content, h, homes, vals, k)
    else k == |homes| + 1 && Held(g, d, [], content) && d[g.start] == e
  }

  lemma InstallNext(g: Geometry, d: Disk, content: Disk, h: Block, homes: seq<nat>, vals: seq<Block>, k: nat)
    requires Installing(g, d, content, h, homes, vals, k) && k < |homes|
    ensures Installing(g, d[homes[k] := vals[k]], content, h, homes, vals, k + 1)
  {
    InstallStep(g, d, content, homes, k);
  }

  lemma RecoveryStep(g: Geometry, d: Disk, content: Disk, h: Block, e: Block, homes: seq<nat>, vals: seq<Block>, k: nat)
    requires Recovering(g, d, content, h, e, homes, vals, k) && k <= |homes|
    ensures RecoveryWrite(g, e, homes, vals, k).bn < |d|
    ensures Recovering(g, Put(d, RecoveryWrite(g, e, homes, vals, k)), content, h, e, homes, vals, k + 1)
  {
    if k < |homes| {
      InstallNext(g, d, content, h, homes, vals, k);
    } else {
      EraseStep(g, d, content, homes, e);
    }
  }

  lemma RecoveringIsDurable(g: Geometry, d: Disk, content: Disk, h: Block, e: Block, homes: seq<nat>, vals: seq<Block>,
      k: nat)
    requires Recovering(g, d, content, h, e, homes, vals, k) && Reads(h, homes) && Reads(e, [])
    ensures Durable(g, d, content)
    ensures k == |homes| + 1 ==> Clean(g, d, content)
  {}

  // The blocks held in the log for the transaction in the header.
  function LogBlocks(g: Geometry, d: Disk): (vals: seq<Block>)
    requires LogOk(g, d)
    ensures |vals| == |HeaderEntries(d[g.start])|
    ensures forall i :: 0 <= i < |vals| ==> vals[i] == LogBlock(g, d, i)
  {
    d[g.start + 1..g.start + 1 + |HeaderEntries(d[g.start])|]
  }

  // The header on disk lists a transaction that fits the log.
  predicate LogOk(g: Geometry, d: Disk) {
    && g.Fits(d)
    && HeaderCount(d[g.start]) <= LOGSIZE
    && Homes(g, |d|, HeaderEntries(d[g.start]))
  }

  // What recovery writes when the machine reboots with disk d.
  function RebootWrites(g: Geometry, d: Disk): (ws: seq<Write>)
    requires LogOk(g, d)
    ensures InRange(d, ws)
  {
    RecoveryWrites(g, PutHeader(d[g.start], []), HeaderEntries(d[g.start]), LogBlocks(g, d))
  }

  // The disk after the first k block writes of recovery; the machine may crash there.
  function CrashedRecovery(g: Geometry, d: Disk, k: nat): Disk
    requires LogOk(g, d) && k <= |RebootWrites(g, d)|
  {
    Apply(d, RebootWrites(g, d), k)
  }

  lemma {:induction false} RecoveryPrefix(g: Geometry, d: Disk, content: Disk, h: Block, e: Block, homes: seq<nat>,
      vals: seq<Block>, ws: seq<Write>, k: nat)
    returns (c: Disk)
    requires Recovering(g, d, content, h, e, homes, vals, 0) == true
    requires |vals| == |homes| && InRange(d, ws) && k <= |ws| == |homes| + 1
    requires forall i :: 0 <= i < |ws| ==> ws[i] == RecoveryWrite(g, e, homes, vals, i)
    ensures c == Apply(d, ws, k) && Recovering(g, c, content, h, e, homes, vals, k) == true
  {
    if k == 0 {
      c := d;
    } else {
      var b := RecoveryPrefix(g, d, content, h, e, homes, vals, ws, k - 1);
      c := Apply(d, ws, k);
      RecoveryNext(g, b, content, h, e, homes, vals, ws[k - 1], k, c);
    }
  }

  lemma RecoveryNext(g: Geometry, b: Disk, content: Disk, h: Block, e: Block, homes: seq<nat>, vals: seq<Block>,
      w: Write, k: nat, c: Disk)
    requires 0 < k <= |homes| + 1 && |vals| == |homes| && w == RecoveryWrite(g, e, homes, vals, k - 1)
    requires Recovering(g, b, content, h, e, homes, vals, k - 1) == true
    requires w.bn < |b| && c == Put(b, w)
    ensures Recovering(g, c, content, h, e, homes, vals, k) == true
  {
    RecoveryStep(g, b, content, h, e, homes, vals, k - 1);
  }

  // Recovery stopped after any block write keeps the content durable; run to the end, it leaves
  // the disk clean.
  lemma CrashedRecoveryIsDurable(g: Geometry, d: Disk, content: Disk, k: nat)
    requires Durable(g, d, content) && k <= |RebootWrites(g, d)|
    ensures Durable(g, CrashedRecovery(g, d, k), content)
    ensures k == |RebootWrites(g, d)| ==> Clean(g, CrashedRecovery(g, d, k), content)
  {
    var h, e := d[g.start], PutHeader(d[g.start], []);
    HeaderRoundTrip(h, []);
    var _ := RecoveryPrefix(g, d, content, h, e, HeaderEntries(h), LogBlocks(g, d), RebootWrites(g, d), k);
    RecoveringIsDurable(g, CrashedRecovery(g, d, k), content, h, e, HeaderEntries(h), LogBlocks(g, d), k);
  }

  function Recover(g: Geometry, d: Disk): Disk
    requires LogOk(g, d)
  {
    Apply(d, RebootWrites(g, d), |RebootWrites(g, d)|)
  }

  lemma RecoverDurable(g: Geometry, d: Disk, content: Disk)
    requires Durable(g, d, content)
    ensures Clean(g, Recover(g, d), content)
  {
    var ws := RebootWrites(g, d);
    CrashedRecoveryIsDurable(g, d, content, |ws|);
  }

  // ---- commit, one block write at a time ----

  // write_log has copied k blocks.
  predicate WritingLog(g: Geometry, d: Disk, content: Disk, h0: Block, vals: seq<Block>, k: nat) {
    && Held(g, d, [], content) && d[g.start] == h0 && k <= |vals| <= g.size - 1
    && forall i :: 0 <= i < k ==> LogBlock(g, d, i) == vals[i]
  }

  // commit() of the transaction has done k of its block writes; `content` was durable before,
  // the header block held h0 before.
  predicate Committing(g: Geometry, d: Disk, content: Disk, h0: Block, h: Block, e: Block, homes: seq<nat>,
      vals: seq<Block>, k: nat) {
    && |content| == |d| && Homes(g, |d|, homes) && |vals| == |homes|
    && if k <= |homes| then WritingLog(g, d, content, h0, vals, k)
       else Recovering(g, d, Installed(content, homes, vals), h, e, homes, vals, k - |homes| - 1)
  }

  lemma CommitStep(g: Geometry, d: Disk, content: Disk, h0: Block, h: Block, e: Block, homes: seq<nat>,
      vals: seq<Block>, k: nat)
    requires Committing(g, d, content, h0, h, e, homes, vals, k) && k < 2 * |homes| + 2
    ensures CommitWrite(g, h, e, homes, vals, k).bn < |d|
    ensures Committing(g, Put(d, CommitWrite(g, h, e, homes, vals, k)), content, h0, h, e, homes, vals, k + 1)
  {
    var n := |homes|;
    if k < n {
      LogBlockStep(g, d, content, k, vals[k]);
    } else if k == n {
      HeadStep(g, d, content, homes, vals, h);
    } else {
      RecoveryStep(g, d, Installed(content, homes, vals), h, e, homes, vals, k - n - 1);
    }
  }

  // The content a recovery will find after k block writes of a commit: the old one until the
  // header with the transaction is written, the new one from then on.
  function CommitContent(content: Disk, homes: seq<nat>, vals: seq<Block>, k: nat): Disk
    requires |homes| == |vals| && Distinct(homes)
    requires forall i :: 0 <= i < |homes| ==> homes[i] < |content|
  {
    if k <= |homes| then content else Installed(content, homes, vals)
  }

  lemma CommittingIsDurable(g: Geometry, d: Disk, content: Disk, h0: Block, h: Block, e: Block, homes: seq<nat>,
      vals: seq<Block>, k: nat)
    requires Committing(g, d, content, h0, h, e, homes, vals, k) && Reads(h0, []) && Reads(h, homes) && Reads(e, [])
    ensures Durable(g, d, CommitContent(content, homes, vals, k))
    ensures k == 2 * |homes| + 2 ==> Clean(g, d, CommitContent(content, homes, vals, k))
  {
    if k > |homes| {
      RecoveringIsDurable(g, d, Installed(content, homes, vals), h, e, homes, vals, k - |homes| - 1);
    }
  }

  lemma CommitInRange(g: Geometry, d: Disk, homes: seq<nat>, vals: seq<Block>)
    requires g.Fits(d) && Homes(g, |d|, homes) && |vals| == |homes|
    ensures InRange(d, CommitWrites(g, d[g.start], homes, vals))
  {}

  // The disk after the first k block writes of a commit that started from disk d.
  function CrashedCommit(g: Geometry, d: Disk, homes: seq<nat>, vals: seq<Block>, k: nat): Disk
    requires g.Fits(d) && Homes(g, |d|, homes) && |vals| == |homes|
    requires k <= |CommitWrites(g, d[g.start], homes, vals)|
  {
    CommitInRange(g, d, homes, vals);
    Apply(d, CommitWrites(g, d[g.start], homes, vals), k)
  }

  lemma {:induction false} CommitPrefix(g: Geometry, d: Disk, content: Disk, h0: Block, h: Block, e: Block,
      homes: seq<nat>, vals: seq<Block>, ws: seq<Write>, k: nat)
    returns (c: Disk)
    requires Committing(g, d, content, h0, h, e, homes, vals, 0) == true
    requires |homes| == |vals| && InRange(d, ws) && k <= |ws| <= 2 * |homes| + 2
    requires forall i :: 0 <= i < |ws| ==> ws[i] == CommitWrite(g, h, e, homes, vals, i)
    ensures c == Apply(d, ws, k) && Committing(g, c, content, h0, h, e, homes, vals, k) == true
  {
    if k == 0 {
      c := d;
    } else {
      var b := CommitPrefix(g, d, content, h0, h, e, homes, vals, ws, k - 1);
      c := Apply(d, ws, k);
      CommitNext(g, b, content, h0, h, e, homes, vals, ws[k - 1], k, c);
    }
  }

  lemma CommitNext(g: Geometry, b: Disk, content: Disk, h0: Block, h: Block, e: Block, homes: seq<nat>,
      vals: seq<Block>, w: Write, k: nat, c: Disk)
    requires 0 < k <= 2 * |homes| + 2 && |homes| == |vals| && w == CommitWrite(g, h, e, homes, vals, k - 1)
    requires Committing(g, b, content, h0, h, e, homes, vals, k - 1) == true
    requires w.bn < |b| && c == Put(b, w)
    ensures Committing(g, c, content, h0, h, e, homes, vals, k) == true
  {
    CommitStep(g, b, content, h0, h, e, homes, vals, k - 1);
  }

  lemma CrashedCommitIsDurable(g: Geometry, d: Disk, homes: seq<nat>, vals: seq<Block>, k: nat)
    requires Clean(g, d, d) && Homes(g, |d|, homes) && |vals| == |homes|
    requires k <= |CommitWrites(g, d[g.start], homes, vals)|
    ensures Durable(g, CrashedCommit(g, d, homes, vals, k), CommitContent(d, homes, vals, k))
  {
    var h := PutHeader(d[g.start], homes);
    var e := PutHeader(h, []);
    HeaderRoundTrip(d[g.start], homes);
    HeaderRoundTrip(h, []);
    CommitInRange(g, d, homes, vals);
    var _ := CommitPrefix(g, d, d, d[g.start], h, e, homes, vals, CommitWrites(g, d[g.start], homes, vals), k);
    CommittingIsDurable(g, CrashedCommit(g, d, homes, vals, k), d, d[g.start], h, e, homes, vals, k);
  }

  // ---- crash atomicity ----

  // The disk after crashing inside each of several successive recoveries; a crash point past
  // the last write of a recovery counts as a crash right after it.
  function AfterCrashes(g: Geometry, d: Disk, crashes: seq<nat>): Disk
    decreases |crashes|
  {
    if crashes == [] || !LogOk(g, d) then d
    else
      var k := if crashes[0] <= |RebootWrites(g, d)| then crashes[0] else |RebootWrites(g, d)|;
      AfterCrashes(g, CrashedRecovery(g, d, k), crashes[1..])
  }

  lemma {:induction false} CrashesKeepDurable(g: Geometry, d: Disk, content: Disk, crashes: seq<nat>)
    requires Durable(g, d, content)
    ensures Durable(g, AfterCrashes(g, d, crashes), content)
    decreases |crashes|
  {
    if crashes != [] {
      var k := if crashes[0] <= |RebootWrites(g, d)| then crashes[0] else |RebootWrites(g, d)|;
      CrashedRecoveryIsDurable(g, d, content, k);
      CrashesKeepDurable(g, CrashedRecovery(g, d, k), content, crashes[1..]);
    }
  }

  // A transaction is all or nothing: crash after any block write of its commit, then crash any
  // number of times during recovery; the recovery that completes finds every home block old, or
  // every one new, and new exactly when the header with the transaction had been written.
  lemma CrashAtomicity(g: Geometry, d: Disk, homes: seq<nat>, vals: seq<Block>, k: nat, crashes: seq<nat>)
    requires Clean(g, d, d) && Homes(g, |d|, homes) && |vals| == |homes|
    requires k <= |CommitWrites(g, d[g.start], homes, vals)|
    ensures var c := AfterCrashes(g, CrashedCommit(g, d, homes, vals, k), crashes);
            && LogOk(g, c)
            && var r := Recover(g, c);
               && |r| == |d| && Reads(r[g.start], [])
               && (forall b :: 0 <= b < |d| && !g.InLog(b) && (k <= |homes| || b !in homes) ==> r[b] == d[b])
               && (forall i :: 0 <= i < |homes| && k > |homes| ==> r[homes[i]] == vals[i])
  {
    var e := CrashedCommit(g, d, homes, vals, k);
    var content := CommitContent(d, homes, vals, k);
    CrashedCommitIsDurable(g, d, homes, vals, k);
    CrashesKeepDurable(g, e, content, crashes);
    RecoverDurable(g, AfterCrashes(g, e, crashes), content);
  }
}
