/** A multi-file cache transaction: stage, back up, replace, and on any failure roll back. */
module Batch {
  import opened Wrappers
  import opened Disk

  datatype Entry = Entry(destination: Path, stage: Option<Path>, backup: Option<Path>, existed: bool, replaced: bool)

  datatype StageResult = Staged | StageClosed | Duplicate | StageIoError | Rejected

  datatype Cause = NotRegular | BackupFailed | InspectFailed | ReplaceFailed | SyncFailed

  datatype CommitResult = Committed | CommitClosed | Failed(cause: Cause, rolledBack: bool, cleaned: bool)

  /** What a Commit starts from: the disk, and per entry its destination, its stage and the staged content. */
  datatype Txn = Txn(orig: Files, dests: seq<Path>, stages: seq<Path>, news: seq<Node>, firstTemp: nat)
  {
    ghost predicate WellFormed() {
      && |dests| == |stages| == |news|
      && (forall i :: 0 <= i < |dests| ==> dests[i].Formal? && stages[i].Temp? && stages[i].id < firstTemp)
      && (forall i, j :: 0 <= i < j < |dests| ==> dests[i] != dests[j] && stages[i] != stages[j])
    }

    /** Paths that are neither a destination, nor a stage, nor created since the Commit began. */
    ghost predicate Foreign(p: Path) {
      p !in dests && p !in stages && (p.Temp? ==> p.id < firstTemp)
    }
  }

  // ---------- what a reader of the disk may see ----------

  /** At a destination: the full old state (content or absence) or the full staged content, and, if
      there was an old content, a copy of it either in place or in a backup made by this Commit. */
  ghost predicate DestSafe(t: Txn, i: nat, s: Files)
    requires t.WellFormed() && i < |t.dests|
  {
    var d := t.dests[i];
    && (Same(t.orig, s, d) || (d in s && s[d] == t.news[i]))
    && (d in t.orig ==> exists p :: p in s && s[p] == t.orig[d] && (p == d || (p.Temp? && t.firstTemp <= p.id)))
  }

  /** A crash in this state loses nothing, and nothing outside the transaction has changed. */
  ghost predicate Safe(t: Txn, s: Files)
    requires t.WellFormed()
  {
    && (forall i :: 0 <= i < |t.dests| ==> DestSafe(t, i, s))
    && (forall p :: t.Foreign(p) ==> Same(t.orig, s, p))
  }

  /** Every destination holds its staged content, and nothing outside the transaction has changed. */
  ghost predicate Installed(t: Txn, s: Files)
    requires t.WellFormed()
  {
    && (forall i :: 0 <= i < |t.dests| ==> t.dests[i] in s && s[t.dests[i]] == t.news[i])
    && (forall p :: t.Foreign(p) ==> Same(t.orig, s, p))
  }

  ghost predicate AllSafe(t: Txn, states: seq<Files>)
    requires t.WellFormed()
  {
    forall k :: 0 <= k < |states| ==> Safe(t, states[k])
  }

  ghost predicate AllInstalled(t: Txn, states: seq<Files>)
    requires t.WellFormed()
  {
    forall k :: 0 <= k < |states| ==> Installed(t, states[k])
  }

  // ---------- what a crash may leave ----------

  /** The first n destinations hold their staged contents, and every other configured file is as it was. */
  ghost predicate DoneUpTo(t: Txn, n: nat, s: Files)
    requires t.WellFormed() && n <= |t.dests|
  {
    && (forall i :: 0 <= i < n ==> t.dests[i] in s && s[t.dests[i]] == t.news[i])
    && (forall i :: n <= i < |t.dests| ==> Same(t.orig, s, t.dests[i]))
    && (forall p: Path :: p.Formal? && p !in t.dests ==> Same(t.orig, s, p))
  }

  /** The new contents are in place in the order of the destinations, up to some point. */
  ghost predicate PartlyDone(t: Txn, s: Files)
    requires t.WellFormed()
  {
    exists n: nat :: n <= |t.dests| && DoneUpTo(t, n, s)
  }

  ghost predicate AllPartlyDone(t: Txn, states: seq<Files>)
    requires t.WellFormed()
  {
    forall k :: 0 <= k < |states| ==> PartlyDone(t, states[k])
  }

  lemma PartlyDoneConcat(t: Txn, a: seq<Files>, b: seq<Files>)
    requires t.WellFormed() && AllPartlyDone(t, a) && AllPartlyDone(t, b)
    ensures AllPartlyDone(t, a + b)
  {
  }

  /** The staged content is the old one. */
  ghost predicate Harmless(t: Txn, i: nat)
    requires t.WellFormed() && i < |t.dests|
  {
    t.dests[i] in t.orig && t.orig[t.dests[i]] == t.news[i]
  }

  /** The first n entries are replaced, and of the others only such as make no difference. */
  ghost predicate ReplacedUpTo(t: Txn, es: seq<Entry>, n: nat) {
    && t.WellFormed() && n <= |es| == |t.dests|
    && (forall i :: 0 <= i < n ==> es[i].replaced)
    && (forall i :: n <= i < |es| && es[i].replaced ==> Harmless(t, i))
  }

  /** Every destination is as it was. */
  ghost predicate AsBefore(t: Txn, s: Files) {
    forall i :: 0 <= i < |t.dests| ==> Same(t.orig, s, t.dests[i])
  }

  /** A rollback has come down to entry i: unless it has left an entry replaced that makes a difference, all is still in
      order. */
  ghost predicate Undone(t: Txn, es: seq<Entry>, i: nat, n: nat, states: seq<Files>)
    requires t.WellFormed()
  {
    |es| == |t.dests| &&
    ((forall j :: i <= j < |es| && es[j].replaced ==> Harmless(t, j)) ==>
       ReplacedUpTo(t, es, if i < n then i else n) && AllPartlyDone(t, states))
  }

  lemma NothingUndone(t: Txn, es: seq<Entry>, n: nat, states: seq<Files>)
    requires ReplacedUpTo(t, es, n) && states == []
    ensures Undone(t, es, |es|, n, states)
  {
  }

  lemma AllUndone(t: Txn, es: seq<Entry>, n: nat, states: seq<Files>)
    requires t.WellFormed() && Undone(t, es, 0, n, states)
    ensures ReplacedUpTo(t, es, 0) ==> AllPartlyDone(t, states)
  {
    hide AllPartlyDone;
  }

  lemma UndoneOneMore(t: Txn, es: seq<Entry>, es': seq<Entry>, i: nat, n: nat, states: seq<Files>, s: Files, next: nat)
    requires t.WellFormed() && Undone(t, es, i + 1, n, states) && TxnOk(t, es', s, next)
    requires i < |es| == |es'| && (es'[i].replaced ==> es[i].replaced) && forall j :: 0 <= j < |es| && j != i ==> es'[j] == es[j]
    ensures Undone(t, es', i, n, states + [s]) && (es' == es ==> Undone(t, es', i, n, states))
  {
    hide TxnOk, PartlyDone, Harmless;
    var k := if i < n then i else n;
    if forall j :: i <= j < |es'| && es'[j].replaced ==> Harmless(t, j) {
      assert forall j :: i + 1 <= j < |es| && es[j].replaced ==> es'[j].replaced && Harmless(t, j);
      assert ReplacedUpTo(t, es', k);
      RecordedIsDone(t, es', s, next, k);
    }
  }

  lemma AsBeforeIsHarmless(t: Txn, es: seq<Entry>, s: Files, next: nat)
    requires TxnOk(t, es, s, next) && AsBefore(t, s)
    ensures ReplacedUpTo(t, es, 0)
  {
    forall i | 0 <= i < |es| && es[i].replaced ensures Harmless(t, i) {
      assert EntryOk(t, i, es[i], s) && Same(t.orig, s, t.dests[i]);
    }
  }

  lemma RecordedIsDone(t: Txn, es: seq<Entry>, s: Files, next: nat, n: nat)
    requires TxnOk(t, es, s, next) && ReplacedUpTo(t, es, n)
    ensures DoneUpTo(t, n, s) && PartlyDone(t, s)
  {
    assert |es| == |t.dests|;
    forall i | 0 <= i < n ensures t.dests[i] in s && s[t.dests[i]] == t.news[i] {
      assert EntryOk(t, i, es[i], s);
    }
    forall i | n <= i < |t.dests| ensures Same(t.orig, s, t.dests[i]) {
      assert EntryOk(t, i, es[i], s);
    }
    forall p: Path | p.Formal? && p !in t.dests ensures Same(t.orig, s, p) {
      assert t.Foreign(p);
    }
    assert DoneUpTo(t, n, s);
  }

  /** Temporary files make no difference. */
  lemma PartlyDoneStill(t: Txn, s: Files, s': Files)
    requires t.WellFormed() && PartlyDone(t, s) && forall p: Path :: p.Formal? ==> Same(s, s', p)
    ensures PartlyDone(t, s')
  {
    var n: nat :| n <= |t.dests| && DoneUpTo(t, n, s);
    assert DoneUpTo(t, n, s') by {
      assert forall i :: 0 <= i < |t.dests| ==> Same(s, s', t.dests[i]);
      assert forall p: Path :: p.Formal? && p !in t.dests ==> Same(t.orig, s, p) && Same(s, s', p);
    }
  }

  /** A cleanup after a rollback that left nothing replaced. */
  lemma CleanupPartlyDone(t: Txn, es: seq<Entry>, s: Files, next: nat, es': seq<Entry>, s': Files,
                          before: seq<Files>, states: seq<Files>)
    requires TxnOk(t, es, s, next) && ShrunkLog(s, states, Removable(es))
    requires |es'| == |es| && CleanedUpTo(es, es', |es|, s, s') && Shrunk(s, s', Removable(es)) && AsBefore(t, s')
    requires ReplacedUpTo(t, es, 0) ==> AllPartlyDone(t, before)
    ensures AllPartlyDone(t, before + states)
  {
    CleanupKeepsTxn(t, es, s, next, es', s');
    AsBeforeIsHarmless(t, es', s', next);
    assert forall i :: 0 <= i < |es| ==> CleanedEntry(es[i], es'[i], s, s');
    RecordedIsDone(t, es, s, next, 0);
    RemovableIsTemporary(t, es, s, next);
    hide Removable, TxnOk, CleanedUpTo, CleanedEntry;
    forall k | 0 <= k < |states| ensures PartlyDone(t, states[k]) {
      assert Shrunk(s, states[k], Removable(es));
      PartlyDoneStill(t, s, states[k]);
    }
  }

  lemma InstalledIsDone(t: Txn, s: Files)
    requires t.WellFormed() && Installed(t, s)
    ensures PartlyDone(t, s)
  {
    assert forall p: Path :: p.Formal? && p !in t.dests ==> t.Foreign(p);
    assert DoneUpTo(t, |t.dests|, s);
  }

  lemma AllInstalledAreDone(t: Txn, states: seq<Files>)
    requires t.WellFormed() && AllInstalled(t, states)
    ensures AllPartlyDone(t, states)
  {
    forall k | 0 <= k < |states| ensures PartlyDone(t, states[k]) {
      InstalledIsDone(t, states[k]);
    }
  }

  // ---------- the bookkeeping the batch keeps about itself ----------

  /** One entry's record agrees with the disk. A replaced entry that existed still has its backup. */
  ghost predicate EntryOk(t: Txn, i: nat, e: Entry, s: Files)
    requires t.WellFormed() && i < |t.dests|
  {
    var d := t.dests[i];
    && e.destination == d
    && (e.stage.Some? ==> e.stage.value == t.stages[i] && t.stages[i] in s && s[t.stages[i]] == t.news[i])
    && (e.backup.Some? ==> d in t.orig && e.backup.value in s && s[e.backup.value] == t.orig[d])
    && (if e.replaced
        then d in s && s[d] == t.news[i] && e.stage.None? && (e.existed <==> d in t.orig) && (e.existed ==> e.backup.Some?)
        else Same(t.orig, s, d))
  }

  ghost predicate BackupsOk(t: Txn, es: seq<Entry>, next: nat) {
    && (forall i :: 0 <= i < |es| && es[i].backup.Some? ==> es[i].backup.value.Temp? && t.firstTemp <= es[i].backup.value.id < next)
    && (forall i, j :: 0 <= i < j < |es| && es[i].backup.Some? && es[j].backup.Some? ==> es[i].backup.value != es[j].backup.value)
  }

  ghost predicate TxnOk(t: Txn, es: seq<Entry>, s: Files, next: nat) {
    && t.WellFormed() && |es| == |t.dests|
    && BackupsOk(t, es, next) && t.firstTemp <= next
    && (forall i :: 0 <= i < |es| ==> EntryOk(t, i, es[i], s))
    && (forall p :: t.Foreign(p) ==> Same(t.orig, s, p))
  }

  lemma TxnOkIsSafe(t: Txn, es: seq<Entry>, s: Files, next: nat)
    requires TxnOk(t, es, s, next)
    ensures Safe(t, s)
  {
    forall i | 0 <= i < |t.dests| ensures DestSafe(t, i, s) {
      assert EntryOk(t, i, es[i], s);
      var d := t.dests[i];
      if d in t.orig {
        var p := if es[i].replaced then es[i].backup.value else d;
        assert p in s && s[p] == t.orig[d];
      }
    }
  }

  /** Changing only temporary files made since the Commit began that no entry owns keeps everything. */
  lemma UnownedTempKeepsTxn(t: Txn, es: seq<Entry>, s: Files, next: nat, s': Files, next': nat)
    requires TxnOk(t, es, s, next) && next <= next'
    requires OnlyTempsSince(next, s, s')
    ensures TxnOk(t, es, s', next')
  {
    forall i | 0 <= i < |es| ensures EntryOk(t, i, es[i], s') {
      assert EntryOk(t, i, es[i], s);
      assert Same(s, s', t.dests[i]) && Same(s, s', t.stages[i]);
      if es[i].backup.Some? { assert Same(s, s', es[i].backup.value); }
    }
    forall p | t.Foreign(p) ensures Same(t.orig, s', p) {
      assert Same(s, s', p);
    }
  }

  /** That holds all along the way to such a file. */
  lemma BackupLog(t: Txn, es: seq<Entry>, s: Files, next: nat, states: seq<Files>, next': nat)
    requires TxnOk(t, es, s, next) && next <= next'
    requires forall k :: 0 <= k < |states| ==> OnlyTempsSince(next, s, states[k])
    ensures AllSafe(t, states) && (ReplacedUpTo(t, es, 0) ==> AllPartlyDone(t, states))
  {
    assert t.WellFormed();
    hide TxnOk, Safe, PartlyDone, OnlyTempsSince, Txn.WellFormed;
    forall k | 0 <= k < |states| ensures Safe(t, states[k]) && (ReplacedUpTo(t, es, 0) ==> PartlyDone(t, states[k])) {
      UnownedTempKeepsTxn(t, es, s, next, states[k], next');
      TxnOkIsSafe(t, es, states[k], next');
      if ReplacedUpTo(t, es, 0) {
        RecordedIsDone(t, es, states[k], next', 0);
      }
    }
  }

  /** The new record of entry i agrees with the new disk, and the operation touched only paths of entry i. */
  lemma EntryStepKeepsTxn(t: Txn, es: seq<Entry>, s: Files, next: nat, i: nat, e: Entry, s': Files)
    requires TxnOk(t, es, s, next) && i < |es|
    requires EntryOk(t, i, e, s')
    requires e.backup.Some? ==> e.backup == es[i].backup
    requires forall p :: p != t.dests[i] && p != t.stages[i] && (es[i].backup.Some? ==> p != es[i].backup.value) ==> Same(s, s', p)
    ensures TxnOk(t, es[i := e], s', next)
  {
    var es' := es[i := e];
    forall j | 0 <= j < |es'| ensures EntryOk(t, j, es'[j], s') {
      if j != i {
        assert EntryOk(t, j, es[j], s);
        assert Same(s, s', t.dests[j]) && Same(s, s', t.stages[j]);
        if es[j].backup.Some? {
          var b := es[j].backup.value;
          assert b != t.dests[i] && b != t.stages[i];
          assert Same(s, s', b);
        }
      }
    }
    forall p | t.Foreign(p) ensures Same(t.orig, s', p) {
      assert Same(s, s', p);
    }
  }

  /** Entry i takes over the backup just written under the next temporary name. */
  lemma AdoptBackup(t: Txn, es: seq<Entry>, s: Files, next: nat, i: nat, e: Entry, s': Files, next': nat)
    requires TxnOk(t, es, s, next) && i < |es| && next < next'
    requires OnlyTempsSince(next, s, s')
    requires !es[i].replaced && t.dests[i] in t.orig
    requires e == es[i].(existed := true, backup := Some(Temp(next)))
    requires Temp(next) in s' && s'[Temp(next)] == t.orig[t.dests[i]]
    ensures TxnOk(t, es[i := e], s', next')
  {
    UnownedTempKeepsTxn(t, es, s, next, s', next');
    var es' := es[i := e];
    forall j | 0 <= j < |es'| ensures EntryOk(t, j, es'[j], s') {
      assert EntryOk(t, j, es[j], s');
    }
  }

  // ---------- removing transaction files ----------

  /** The temporary files a cleanup may delete: stages, and backups of entries that are not left replaced. */
  function Removable(es: seq<Entry>): (r: set<Path>) {
    (set e | e in es && e.stage.Some? :: e.stage.value)
    + (set e | e in es && e.backup.Some? && !e.replaced :: e.backup.value)
  }

  /** s' is s with some of the paths in `gone` deleted. */
  ghost predicate Shrunk(s: Files, s': Files, gone: set<Path>) {
    forall p :: if p in gone && p !in s' then true else Same(s, s', p)
  }

  /** e' is e after a cleanup: it forgot only files that are gone, and kept a replaced entry's backup. */
  ghost predicate CleanedEntry(e: Entry, e': Entry, s: Files, s': Files) {
    && e'.destination == e.destination && e'.existed == e.existed && e'.replaced == e.replaced
    && (e'.stage.Some? ==> e'.stage == e.stage && Same(s, s', e.stage.value))
    && (e'.backup.Some? ==> e'.backup == e.backup && Same(s, s', e.backup.value))
    && (e.stage.Some? && e'.stage.None? ==> e.stage.value !in s')
    && (e.backup.Some? && e'.backup.None? ==> !e.replaced && e.backup.value !in s')
  }

  /** Temporary names owned by a batch: all temporary, all different. */
  ghost predicate Owned(es: seq<Entry>) {
    && (forall i :: 0 <= i < |es| ==> es[i].destination.Formal?
                                      && (es[i].stage.Some? ==> es[i].stage.value.Temp?)
                                      && (es[i].backup.Some? ==> es[i].backup.value.Temp?))
    && (forall i, j :: 0 <= i < j < |es| && es[i].stage.Some? ==> es[i].stage != es[j].stage)
    && (forall i, j :: 0 <= i < j < |es| && es[i].backup.Some? ==> es[i].backup != es[j].backup)
    && (forall i, j :: 0 <= i < |es| && 0 <= j < |es| && es[i].stage.Some? ==> es[i].stage != es[j].backup)
  }

  lemma TxnOkOwned(t: Txn, es: seq<Entry>, s: Files, next: nat)
    requires TxnOk(t, es, s, next)
    ensures Owned(es)
  {
    forall i | 0 <= i < |es| ensures EntryOk(t, i, es[i], s) {}
    forall i, j | 0 <= i < |es| && 0 <= j < |es| && es[i].stage.Some? ensures es[i].stage != es[j].backup {
      assert EntryOk(t, i, es[i], s);
    }
  }

  ghost predicate ShrunkLog(s: Files, states: seq<Files>, gone: set<Path>) {
    forall k :: 0 <= k < |states| ==> Shrunk(s, states[k], gone)
  }

  /** The first n entries have been cleaned, the rest are as they were and still have their files. */
  ghost predicate CleanedUpTo(es0: seq<Entry>, es: seq<Entry>, n: nat, s0: Files, s: Files)
    requires n <= |es| == |es0|
  {
    && (forall j :: 0 <= j < n ==> CleanedEntry(es0[j], es[j], s0, s))
    && (forall j :: n <= j < |es| ==> es[j] == es0[j] && Untouched(es0[j], s0, s))
  }

  ghost predicate Untouched(e: Entry, s: Files, s': Files) {
    && (e.stage.Some? ==> Same(s, s', e.stage.value))
    && (e.backup.Some? ==> Same(s, s', e.backup.value))
  }

  lemma RemovableOfOne(e: Entry)
    ensures Removable([e]) ==
            (if e.stage.Some? then {e.stage.value} else {}) + (if e.backup.Some? && !e.replaced then {e.backup.value} else {})
  {
    assert e in [e];
  }

  lemma RemovableOfMember(es: seq<Entry>, i: nat)
    requires i < |es|
    ensures Removable([es[i]]) <= Removable(es)
  {
    RemovableOfOne(es[i]);
    assert es[i] in es;
  }

  lemma RemovableEmpty(es: seq<Entry>)
    requires forall j :: 0 <= j < |es| ==> Removable([es[j]]) == {}
    ensures Removable(es) == {}
  {
    forall j | 0 <= j < |es| ensures es[j].stage.None? && (es[j].backup.Some? ==> es[j].replaced) {
      RemovableOfOne(es[j]);
    }
  }

  lemma OthersUntouched(es: seq<Entry>, i: nat, j: nat, s: Files, s': Files)
    requires i < |es| && j < |es| && i != j && Owned(es) && Shrunk(s, s', Removable([es[i]]))
    ensures Untouched(es[j], s, s')
  {
    RemovableOfOne(es[i]);
    var gone := Removable([es[i]]);
    if es[j].stage.Some? {
      assert es[j].stage.value !in gone;
    }
    if es[j].backup.Some? {
      assert es[j].backup.value !in gone;
    }
  }

  lemma CleanedTransitive(e: Entry, e': Entry, s0: Files, s: Files, s': Files)
    requires CleanedEntry(e, e', s0, s) && Untouched(e, s, s')
    ensures CleanedEntry(e, e', s0, s')
  {
  }

  lemma CleanedAfterUntouched(e: Entry, e': Entry, s0: Files, s: Files, s': Files)
    requires Untouched(e, s0, s) && CleanedEntry(e, e', s, s')
    ensures CleanedEntry(e, e', s0, s')
  {
  }

  /** A cleanup leaves fewer files to remove, and what failed restores depend on. */
  lemma CleanedShrinks(es0: seq<Entry>, es: seq<Entry>, s0: Files, s: Files)
    requires |es| == |es0| && CleanedUpTo(es0, es, |es|, s0, s)
    ensures Removable(es) <= Removable(es0)
    ensures forall i :: 0 <= i < |es| && es0[i].replaced ==> es[i].replaced && es[i].backup == es0[i].backup
  {
    forall p | p in Removable(es) ensures p in Removable(es0) {
      var i :| 0 <= i < |es| && p in Removable([es[i]]);
      assert CleanedEntry(es0[i], es[i], s0, s);
      RemovableOfMember(es0, i);
    }
    forall i | 0 <= i < |es| && es0[i].replaced ensures es[i].replaced && es[i].backup == es0[i].backup {
      assert CleanedEntry(es0[i], es[i], s0, s);
    }
  }

  /** Cleaning entry i disturbs no other entry's files. */
  lemma CleanStep(es0: seq<Entry>, es: seq<Entry>, i: nat, left: Entry, s0: Files, s: Files, s': Files)
    requires i < |es| == |es0| && Owned(es0) && CleanedUpTo(es0, es, i, s0, s)
    requires CleanedEntry(es[i], left, s, s') && Shrunk(s, s', Removable([es[i]]))
    ensures CleanedUpTo(es0, es[i := left], i + 1, s0, s')
  {
    CleanedAfterUntouched(es0[i], left, s0, s, s');
    forall j | 0 <= j < i ensures CleanedEntry(es0[j], es[j], s0, s') {
      OthersUntouched(es0, i, j, s, s');
      CleanedTransitive(es0[j], es[j], s0, s, s');
    }
    forall j | i < j < |es| ensures Untouched(es0[j], s0, s') {
      OthersUntouched(es0, i, j, s, s');
      assert Untouched(es0[j], s0, s);
    }
  }

  lemma CleanupKeepsTxn(t: Txn, es: seq<Entry>, s: Files, next: nat, es': seq<Entry>, s': Files)
    requires TxnOk(t, es, s, next) && Shrunk(s, s', Removable(es)) && |es'| == |es|
    requires CleanedUpTo(es, es', |es|, s, s')
    ensures TxnOk(t, es', s', next)
  {
    RemovableIsTemporary(t, es, s, next);
    forall i | 0 <= i < |es| ensures EntryOk(t, i, es'[i], s') {
      assert EntryOk(t, i, es[i], s) && CleanedEntry(es[i], es'[i], s, s');
      assert Same(s, s', t.dests[i]);
    }
    forall p | t.Foreign(p) ensures Same(t.orig, s', p) {
      assert Same(s, s', p);
    }
  }

  lemma RemovableIsTemporary(t: Txn, es: seq<Entry>, s: Files, next: nat)
    requires TxnOk(t, es, s, next)
    ensures forall p :: p in Removable(es) ==> p.Temp? && (p in t.stages || t.firstTemp <= p.id)
  {
    forall p | p in Removable(es) ensures p.Temp? && (p in t.stages || t.firstTemp <= p.id) {
      var i :| 0 <= i < |es| && ((es[i].stage.Some? && es[i].stage.value == p) || (es[i].backup.Some? && es[i].backup.value == p));
      assert EntryOk(t, i, es[i], s);
    }
  }

  lemma CleanupIsSafe(t: Txn, es: seq<Entry>, s: Files, next: nat, s': Files)
    requires TxnOk(t, es, s, next) && Owned(es) && Shrunk(s, s', Removable(es))
    ensures Safe(t, s')
  {
    RemovableIsTemporary(t, es, s, next);
    forall i | 0 <= i < |t.dests| ensures DestSafe(t, i, s') {
      assert EntryOk(t, i, es[i], s);
      var d := t.dests[i];
      assert Same(s, s', d);
      if d in t.orig {
        var p := if es[i].replaced then es[i].backup.value else d;
        assert p !in Removable(es);
        assert Same(s, s', p);
        assert p in s' && s'[p] == t.orig[d];
      }
    }
    forall p | t.Foreign(p) ensures Same(t.orig, s', p) {
      assert Same(s, s', p);
    }
  }

  /** An open batch owns one complete stage file per distinct destination. */
  ghost predicate OpenOn(es: seq<Entry>, destinations: set<Path>, s: Files) {
    && Owned(es)
    && destinations == (set e | e in es :: e.destination)
    && (forall i :: 0 <= i < |es| ==>
          && es[i].backup.None? && !es[i].replaced && !es[i].existed
          && es[i].stage.Some? && es[i].stage.value in s && s[es[i].stage.value].Regular?)
    && (forall i, j :: 0 <= i < j < |es| ==> es[i].destination != es[j].destination)
  }

  lemma OpenWithOneMore(es: seq<Entry>, destinations: set<Path>, s: Files, e: Entry)
    requires OpenOn(es, destinations, s) && e.destination !in destinations && e.destination.Formal?
    requires e.backup.None? && !e.replaced && !e.existed
    requires e.stage.Some? && e.stage.value.Temp? && e.stage.value in s && s[e.stage.value].Regular?
    requires forall i :: 0 <= i < |es| ==> es[i].stage != e.stage
    ensures OpenOn(es + [e], destinations + {e.destination}, s)
  {
    OwnedWithOneMore(es, e);
    hide Owned;
    assert forall i :: 0 <= i < |es| ==> es[i] in es && es[i].destination in destinations;
    var more := es + [e];
    assert forall x :: x in more <==> x in es || x == e;
  }

  lemma OwnedWithOneMore(es: seq<Entry>, e: Entry)
    requires Owned(es) && e.destination.Formal? && e.backup.None? && e.stage.Some? && e.stage.value.Temp?
    requires forall i :: 0 <= i < |es| ==> es[i].stage != e.stage && es[i].backup.None?
    ensures Owned(es + [e])
  {
  }

  lemma PendingIsOk(es: seq<Entry>, destinations: set<Path>, s: Files, next: nat, t: Txn)
    requires OpenOn(es, destinations, s) && (forall p :: p in s && p.Temp? ==> p.id < next)
    requires t.orig == s && |t.dests| == |t.stages| == |t.news| == |es| && t.firstTemp == next
    requires forall i :: 0 <= i < |es| ==>
               t.dests[i] == es[i].destination && t.stages[i] == es[i].stage.value && t.news[i] == s[t.stages[i]]
    ensures TxnOk(t, es, s, next)
  {
    assert forall i, j :: 0 <= i < j < |es| ==> es[i].stage != es[j].stage;
  }

  /** s and s' differ only in temporary files numbered `next` or later. */
  ghost predicate OnlyTempsSince(next: nat, s: Files, s': Files) {
    forall p: Path :: !(p.Temp? && next <= p.id) ==> Same(s, s', p)
  }

  lemma StagesSurvive(es: seq<Entry>, destinations: set<Path>, next: nat, s: Files, s': Files)
    requires OpenOn(es, destinations, s) && OnlyTempsSince(next, s, s')
    requires forall p :: p in s && p.Temp? ==> p.id < next
    ensures OpenOn(es, destinations, s')
    ensures forall i :: 0 <= i < |es| ==> es[i].stage.value.id < next
  {
    forall i | 0 <= i < |es|
      ensures es[i].stage.value in s' && s'[es[i].stage.value].Regular? && es[i].stage.value.id < next
    {
      assert Same(s, s', es[i].stage.value);
    }
  }

  /** From entry i on, only those stay replaced whose own restore failed. */
  predicate LeftFailed(es: seq<Entry>, i: nat, failures: seq<Op>) {
    forall j :: i <= j < |es| && es[j].replaced ==> RestoreFailed(es[j], failures)
  }

  /** A failed restore stays on record. */
  lemma LeftFailedStill(es: seq<Entry>, i: nat, start: seq<Op>, before: seq<Op>, after: seq<Op>)
    requires start <= before <= after && LeftFailed(es, i, before[|start|..])
    ensures LeftFailed(es, i, after[|start|..])
  {
    assert after[|start|..] == before[|start|..] + after[|before|..];
  }

  lemma NothingLeft(es: seq<Entry>, failures: seq<Op>)
    ensures LeftFailed(es, |es|, failures)
  {
  }

  lemma LeftFailedOneMore(es: seq<Entry>, es': seq<Entry>, i: nat, start: seq<Op>, before: seq<Op>, after: seq<Op>)
    requires start <= before <= after && LeftFailed(es, i + 1, before[|start|..])
    requires i < |es| == |es'| && forall j :: 0 <= j < |es| && j != i ==> es'[j] == es[j]
    requires es'[i].replaced ==> RestoreFailed(es'[i], after[|before|..])
    ensures LeftFailed(es', i, after[|start|..])
  {
    assert after[|start|..] == before[|start|..] + after[|before|..];
  }

  /** The one operation that would have undone this entry is among the failures. */
  predicate RestoreFailed(e: Entry, failures: seq<Op>) {
    if e.existed
    then e.backup.Some? && RenameOp(e.backup.value, e.destination) in failures
    else RemoveOp(e.destination) in failures
  }

  /** Every destination is as it was before the Commit, except those whose own restore failed;
      each of these that existed still has a backup holding exactly its old content. */
  ghost predicate RolledBackExceptFailures(t: Txn, es: seq<Entry>, s: Files, failures: seq<Op>)
    requires t.WellFormed()
  {
    |es| == |t.dests| &&
    forall i :: 0 <= i < |es| ==>
      var e, d := es[i], t.dests[i];
      && e.destination == d
      && (if e.replaced
          then RestoreFailed(e, failures) && (e.existed <==> d in t.orig)
               && (d in t.orig ==> e.backup.Some? && e.backup.value in s && s[e.backup.value] == t.orig[d]
                                   && e.backup.value.Temp? && t.firstTemp <= e.backup.value.id)
          else Same(t.orig, s, d))
  }

  /** The operation that would have put p back to what it was failed, and what p held is kept in the file that it would
      have come from, a temporary file numbered `first` or later that is not among the removable ones. */
  ghost predicate NotRestored(p: Path, first: nat, before: Files, after: Files, failures: seq<Op>, removable: set<Path>) {
    if p in before
    then exists b: Path :: IsBackup(b, p, first, after, failures) && b !in removable && after[b] == before[p]
    else RemoveOp(p) in failures
  }

  ghost predicate IsBackup(b: Path, p: Path, first: nat, after: Files, failures: seq<Op>) {
    b.Temp? && first <= b.id && RenameOp(b, p) in failures && b in after
  }

  /** Every configured file is as it was before, or could not be restored, with its old content kept. */
  ghost predicate KeptOrLost(first: nat, before: Files, after: Files, failures: seq<Op>, removable: set<Path>) {
    forall p: Path :: p.Formal? ==> Same(before, after, p) || NotRestored(p, first, before, after, failures, removable)
  }

  lemma RetainedIsNotRemovable(es: seq<Entry>, i: nat)
    requires Owned(es) && i < |es| && es[i].replaced && es[i].backup.Some?
    ensures es[i].backup.value !in Removable(es)
  {
  }

  /** What a failed Commit means for the configured files. */
  lemma CommitKeptOrLost(t: Txn, es: seq<Entry>, after: Files, failures: seq<Op>)
    requires t.WellFormed() && Owned(es) && Safe(t, after) && RolledBackExceptFailures(t, es, after, failures)
    ensures KeptOrLost(t.firstTemp, t.orig, after, failures, Removable(es))
  {
    forall p: Path | p.Formal? && !Same(t.orig, after, p)
      ensures NotRestored(p, t.firstTemp, t.orig, after, failures, Removable(es))
    {
      assert !t.Foreign(p);
      var i :| 0 <= i < |t.dests| && t.dests[i] == p;
      assert es[i].destination == p && es[i].replaced;
      if p in t.orig {
        RetainedIsNotRemovable(es, i);
        assert IsBackup(es[i].backup.value, p, t.firstTemp, after, failures);
      }
    }
  }

  /** Seen from an earlier moment with the same configured files. */
  lemma KeptSince(first0: nat, first: nat, before0: Files, before: Files, after: Files, failures: seq<Op>, all: seq<Op>,
                  removable: set<Path>)
    requires KeptOrLost(first, before, after, failures, removable) && first0 <= first
    requires (forall p: Path :: p.Formal? ==> Same(before0, before, p)) && forall op :: op in failures ==> op in all
    ensures KeptOrLost(first0, before0, after, all, removable)
  {
    forall p: Path | p.Formal? && !Same(before0, after, p) ensures NotRestored(p, first0, before0, after, all, removable) {
      assert Same(before0, before, p) && !Same(before, after, p);
      if p in before {
        var b: Path :| IsBackup(b, p, first, after, failures) && b !in removable && after[b] == before[p];
        assert IsBackup(b, p, first0, after, all);
      }
    }
  }

  /** Removing what is removable takes nothing of this away. */
  lemma KeptByCleanup(first: nat, before: Files, middle: Files, after: Files, failures: seq<Op>, all: seq<Op>,
                      removable: set<Path>)
    requires KeptOrLost(first, before, middle, failures, removable) && forall op :: op in failures ==> op in all
    requires (forall p :: p !in removable ==> Same(middle, after, p)) && forall p: Path :: p.Formal? ==> p !in removable
    ensures KeptOrLost(first, before, after, all, {})
  {
    forall p: Path | p.Formal? && !Same(before, after, p) ensures NotRestored(p, first, before, after, all, {}) {
      assert Same(middle, after, p) && !Same(before, middle, p);
      if p in before {
        var b: Path :| IsBackup(b, p, first, middle, failures) && b !in removable && middle[b] == before[p];
        assert Same(middle, after, b) && IsBackup(b, p, first, after, all);
      }
    }
  }

  predicate Unbacked(e: Entry) {
    e.stage.Some? && e.backup.None? && !e.replaced && !e.existed
  }

  /** Ready to be replaced: the stage is in place, and the old content, if any, is in a backup. */
  ghost predicate BackedUp(t: Txn, i: nat, e: Entry)
    requires i < |t.dests|
  {
    e.stage.Some? && !e.replaced && (e.existed <==> t.dests[i] in t.orig) && (e.existed ==> e.backup.Some?)
  }

  /** There is nothing at this destination, or a regular file. */
  predicate Plain(t: Txn, i: nat)
    requires i < |t.dests|
  {
    t.dests[i] in t.orig ==> t.orig[t.dests[i]].Regular?
  }

  predicate AllPlain(t: Txn) {
    forall i :: 0 <= i < |t.dests| ==> Plain(t, i)
  }

  lemma AllSafeConcat(t: Txn, a: seq<Files>, b: seq<Files>)
    requires t.WellFormed() && AllSafe(t, a) && AllSafe(t, b)
    ensures AllSafe(t, a + b)
  {
  }

  lemma ReplacedIsInstalled(t: Txn, es: seq<Entry>, s: Files, next: nat)
    requires TxnOk(t, es, s, next) && forall i :: 0 <= i < |es| ==> es[i].replaced
    ensures Installed(t, s) && forall i :: 0 <= i < |es| ==> es[i].stage.None?
  {
    forall i | 0 <= i < |es| ensures es[i].stage.None? && t.dests[i] in s && s[t.dests[i]] == t.news[i] {
      assert EntryOk(t, i, es[i], s);
    }
  }

  lemma InstalledWithoutBackup(t: Txn, s: Files, backup: Path)
    requires t.WellFormed() && Installed(t, s) && backup.Temp? && t.firstTemp <= backup.id
    ensures Installed(t, s - {backup})
  {
  }

  lemma EntriesOwnedAfterDrop(es: seq<Entry>, es': seq<Entry>)
    requires Owned(es) && |es| == |es'| && forall i :: 0 <= i < |es| ==> es[i].replaced && es[i].stage.None?
    requires forall i :: 0 <= i < |es| ==> es'[i] == es[i] || es'[i] == es[i].(backup := None)
    ensures Owned(es') && Removable(es') == {}
  {
  }

  lemma CleanupLogSafe(t: Txn, es: seq<Entry>, s: Files, next: nat, states: seq<Files>)
    requires TxnOk(t, es, s, next) && Owned(es) && ShrunkLog(s, states, Removable(es))
    ensures AllSafe(t, states)
  {
    forall k | 0 <= k < |states| ensures Safe(t, states[k]) {
      CleanupIsSafe(t, es, s, next, states[k]);
    }
  }

  /** A cleanup after a rollback: safe before, during and after. */
  lemma CleanupSafe(t: Txn, es: seq<Entry>, s: Files, next: nat, before: seq<Files>, during: seq<Files>, s': Files)
    requires TxnOk(t, es, s, next) && Owned(es) && AllSafe(t, before)
    requires ShrunkLog(s, during, Removable(es)) && Shrunk(s, s', Removable(es))
    ensures AllSafe(t, before + during) && Safe(t, s')
  {
    CleanupLogSafe(t, es, s, next, during);
    CleanupIsSafe(t, es, s, next, s');
  }

  /** What a rollback left standing is what the failed Commit leaves standing after its cleanup. */
  lemma CleanupOutcome(t: Txn, es: seq<Entry>, s: Files, next: nat, es': seq<Entry>, s': Files, failures: seq<Op>)
    requires TxnOk(t, es, s, next) && Shrunk(s, s', Removable(es)) && |es'| == |es| && CleanedUpTo(es, es', |es|, s, s')
    requires forall i :: 0 <= i < |es| && es[i].replaced ==> RestoreFailed(es[i], failures)
    ensures RolledBackExceptFailures(t, es', s', failures)
    ensures (forall i :: 0 <= i < |es| ==> !es[i].replaced) ==> forall i :: 0 <= i < |t.dests| ==> Same(t.orig, s', t.dests[i])
  {
    CleanupKeepsTxn(t, es, s, next, es', s');
    forall i | 0 <= i < |es'| ensures EntryOk(t, i, es'[i], s') && CleanedEntry(es[i], es'[i], s, s') {}
  }

  /** A rollback and the cleanup behind it, together. */
  lemma CleanedAfterRollback(t: Txn, es: seq<Entry>, s: Files, next: nat, es': seq<Entry>, s': Files,
                             log0: seq<Files>, log: seq<Files>, log': seq<Files>, f0: seq<Op>, f: seq<Op>, f': seq<Op>)
    requires TxnOk(t, es, s, next) && Owned(es)
    requires log0 <= log <= log' && AllSafe(t, log[|log0|..]) && (ReplacedUpTo(t, es, 0) ==> AllPartlyDone(t, log[|log0|..]))
    requires f0 <= f <= f' && LeftFailed(es, 0, f[|f0|..])
    requires |es'| == |es| && CleanedUpTo(es, es', |es'|, s, s')
    requires Shrunk(s, s', Removable(es)) && ShrunkLog(s, log'[|log|..], Removable(es))
    ensures AllSafe(t, log'[|log0|..]) && Safe(t, s') && RolledBackExceptFailures(t, es', s', f'[|f0|..])
    ensures (forall i :: 0 <= i < |es| ==> !es[i].replaced) ==> forall i :: 0 <= i < |t.dests| ==> Same(t.orig, s', t.dests[i])
    ensures AsBefore(t, s') ==> AllPartlyDone(t, log'[|log0|..])
  {
    assert t.WellFormed() && |t.dests| == |es|;
    assert log'[|log0|..] == log[|log0|..] + log'[|log|..] && f'[|f0|..] == f[|f0|..] + f'[|f|..];
    assert forall i :: 0 <= i < |es| && es[i].replaced ==> RestoreFailed(es[i], f'[|f0|..]);
    hide *;
    CleanupOutcome(t, es, s, next, es', s', f'[|f0|..]);
    CleanupSafe(t, es, s, next, log[|log0|..], log'[|log|..], s');
    if AsBefore(t, s') {
      CleanupPartlyDone(t, es, s, next, es', s', log[|log0|..], log'[|log|..]);
    }
  }

  /** What failed later is among what failed since an earlier point. */
  lemma FailuresSince(t: Txn, es: seq<Entry>, s: Files, start: seq<Op>, middle: seq<Op>, end: seq<Op>)
    requires start <= middle <= end && t.WellFormed() && RolledBackExceptFailures(t, es, s, end[|middle|..])
    ensures RolledBackExceptFailures(t, es, s, end[|start|..])
  {
    var late, all := end[|middle|..], end[|start|..];
    assert all == middle[|start|..] + late;
    assert forall op :: op in late ==> op in all;
  }

  lemma ShrunkFurther(s0: Files, s: Files, gone: set<Path>, states: seq<Files>, s': Files, gone': set<Path>,
                      states': seq<Files>)
    requires Shrunk(s0, s, gone) && ShrunkLog(s0, states, gone) && gone' <= gone
    requires Shrunk(s, s', gone') && ShrunkLog(s, states', gone')
    ensures Shrunk(s0, s', gone) && ShrunkLog(s0, states + states', gone)
  {
    forall k | 0 <= k < |states'| ensures Shrunk(s0, states'[k], gone) {
      assert Shrunk(s, states'[k], gone');
    }
  }

  class Batch {
    const disk: Disk
    var entries: seq<Entry>
    var destinations: set<Path>
    var closed: bool

    constructor (disk: Disk)
      ensures this.disk == disk && entries == [] && destinations == {} && !closed
    {
      this.disk := disk;
      entries, destinations, closed := [], {}, false;
    }

    ghost predicate Open()
      reads this, disk
    {
      !closed && disk.Valid() && OpenOn(entries, destinations, disk.files)
    }

    /** The transaction an open batch would commit now. */
    ghost function Pending(): (t: Txn)
      requires Open()
      reads this, disk
      ensures TxnOk(t, entries, disk.files, disk.next) && t.orig == disk.files
      ensures |t.dests| == |entries|
      ensures forall i :: 0 <= i < |entries| ==>
                && t.dests[i] == entries[i].destination && t.stages[i] == entries[i].stage.value
                && t.news[i] == disk.files[t.stages[i]]
    {
      var es, files := entries, disk.files;
      var stages := seq(|es|, i requires 0 <= i < |es| && es[i].stage.Some? => es[i].stage.value);
      var t := Txn(files,
                   seq(|es|, i requires 0 <= i < |es| => es[i].destination),
                   stages,
                   seq(|es|, i requires 0 <= i < |es| && stages[i] in files => files[stages[i]]),
                   disk.next);
      PendingIsOk(es, destinations, files, disk.next, t);
      t
    }

    /** Writes, syncs and validates a candidate in a new file; a failed candidate is removed if possible. */
    method WriteStage(data: Bytes, validate: Bytes -> bool) returns (r: Result<Path, StageResult>)
      requires disk.Valid()
      modifies disk
      ensures disk.Valid() && old(disk.next) <= disk.next
      ensures r.Failure? ==> r.error.StageIoError? || r.error.Rejected?
      ensures r.Success? ==>
                && validate(data) && r.value == Temp(old(disk.next)) && old(disk.next) < disk.next
                && disk.files == old(disk.files)[r.value := Regular(data)]
      ensures old(disk.log) <= disk.log && old(disk.failures) <= disk.failures
      ensures disk.failures == old(disk.failures) ==> if validate(data) then r.Success? else r == Failure(Rejected)
      ensures OnlyTempsSince(old(disk.next), old(disk.files), disk.files)
      ensures forall k :: old(|disk.log|) <= k < |disk.log| ==> OnlyTempsSince(old(disk.next), old(disk.files), disk.log[k])
    {
      var temp := disk.CreateTemp();
      if temp.None? {
        return Failure(StageIoError);
      }
      var stage := temp.value;
      var written := disk.Write(stage, data);
      if !written {
        var _ := disk.Remove(stage);
        return Failure(StageIoError);
      }
      var staged := disk.Read(stage);
      if staged.None? || !validate(staged.value) {
        var _ := disk.Remove(stage);
        return Failure(Rejected);
      }
      r := Success(stage);
    }

    method AddEntry(destination: Path, stage: Path)
      requires OpenOn(entries, destinations, disk.files) && !closed && disk.Valid()
      requires destination !in destinations && destination.Formal?
      requires stage.Temp? && stage in disk.files && disk.files[stage].Regular?
      requires forall i :: 0 <= i < |entries| ==> entries[i].stage != Some(stage)
      modifies this
      ensures Open() && entries == old(entries) + [Entry(destination, Some(stage), None, false, false)]
      ensures destinations == old(destinations) + {destination}
    {
      var e := Entry(destination, Some(stage), None, false, false);
      OpenWithOneMore(entries, destinations, disk.files, e);
      entries := entries + [e];
      destinations := destinations + {destination};
    }

    /** Writes and validates a candidate beside the destination. No destination is ever touched here. */
    method Stage(destination: Path, data: Bytes, validate: Bytes -> bool) returns (r: StageResult)
      requires closed || Open()
      requires disk.Valid() && destination.Formal?
      modifies this, disk
      ensures disk.Valid() && closed == old(closed) && old(disk.next) <= disk.next
      ensures r.StageClosed? <==> old(closed)
      ensures r.Duplicate? <==> !old(closed) && destination in old(destinations)
      ensures r.StageClosed? || r.Duplicate? ==> unchanged(this) && unchanged(disk)
      ensures old(disk.log) <= disk.log && old(disk.failures) <= disk.failures
      ensures OnlyTempsSince(old(disk.next), old(disk.files), disk.files)
      ensures forall k :: old(|disk.log|) <= k < |disk.log| ==> OnlyTempsSince(old(disk.next), old(disk.files), disk.log[k])
      ensures !closed ==> Open()
      ensures r.Staged? ==>
                && validate(data)
                && entries == old(entries) + [Entry(destination, Some(Temp(old(disk.next))), None, false, false)]
                && destinations == old(destinations) + {destination}
                && disk.files == old(disk.files)[Temp(old(disk.next)) := Regular(data)]
      ensures !r.Staged? ==> unchanged(this)
      ensures disk.failures == old(disk.failures) && !old(closed) && destination !in old(destinations) ==>
                r == if validate(data) then Staged else Rejected
    {
      if closed {
        return StageClosed;
      }
      if destination in destinations {
        return Duplicate;
      }
      var made := disk.Directories();
      if !made {
        return StageIoError;
      }
      var stage := WriteStage(data, validate);
      StagesSurvive(entries, destinations, old(disk.next), old(disk.files), disk.files);
      match stage {
        case Failure(problem) => return problem;
        case Success(path) => AddEntry(destination, path);
      }
      r := Staged;
    }

    /** Copies a regular file to a synced temporary file beside it. */
    method CreateBackup(source: Path) returns (r: Option<Path>)
      requires disk.Valid()
      modifies disk
      ensures disk.Valid() && old(disk.next) <= disk.next && old(disk.failures) <= disk.failures
      ensures r.Some? ==>
                && r.value == Temp(old(disk.next)) && old(disk.next) < disk.next
                && source in old(disk.files) && r.value in disk.files && disk.files[r.value] == old(disk.files)[source]
                && old(disk.files)[source].Regular?
      ensures disk.failures == old(disk.failures) ==> (r.Some? <==> source in old(disk.files) && old(disk.files)[source].Regular?)
      ensures old(disk.log) <= disk.log
      ensures OnlyTempsSince(old(disk.next), old(disk.files), disk.files)
      ensures forall k :: old(|disk.log|) <= k < |disk.log| ==> OnlyTempsSince(old(disk.next), old(disk.files), disk.log[k])
    {
      var content := disk.Read(source);
      if content.None? {
        return None;
      }
      var temp := disk.CreateTemp();
      if temp.None? {
        return None;
      }
      var written := disk.Write(temp.value, content.value);
      if !written {
        var _ := disk.Remove(temp.value);
        return None;
      }
      r := temp;
    }

    /** Deletes one entry's stage, and its backup unless the entry is left replaced. */
    method CleanItem(item: Entry) returns (left: Entry, ok: bool)
      requires disk.Valid() && Owned([item])
      modifies disk
      ensures disk.Valid() && disk.next == old(disk.next)
      ensures old(disk.log) <= disk.log && old(disk.failures) <= disk.failures
      ensures ShrunkLog(old(disk.files), disk.log[old(|disk.log|)..], Removable([item]))
      ensures Shrunk(old(disk.files), disk.files, Removable([item]))
      ensures CleanedEntry(item, left, old(disk.files), disk.files)
      ensures ok ==> Removable([left]) == {}
      ensures disk.failures == old(disk.failures) ==> ok
      ensures Removable([item]) == {} ==> ok && unchanged(disk) && left == item
    {
      left, ok := item, true;
      RemovableOfOne(item);
      assert [item][0].stage != [item][0].backup || item.stage.None?;
      if item.stage.Some? {
        var gone := RemoveOwned(item.stage.value);
        ok := gone;
        left := left.(stage := if gone then None else item.stage);
      }
      if item.backup.Some? && !item.replaced {
        var gone := RemoveOwned(item.backup.value);
        ok := ok && gone;
        left := left.(backup := if gone then None else item.backup);
      }
      RemovableOfOne(left);
    }

    method RemoveOwned(p: Path) returns (gone: bool)
      requires disk.Valid()
      modifies disk
      ensures disk.Valid() && disk.next == old(disk.next)
      ensures disk.log == old(disk.log) + [disk.files] && old(disk.failures) <= disk.failures
      ensures if gone then disk.files == old(disk.files) - {p} else disk.files == old(disk.files)
      ensures disk.failures == old(disk.failures) ==> gone
    {
      var removal := disk.Remove(p);
      gone := !removal.RemoveFailed?;
      assert removal.AlreadyGone? ==> old(disk.files) == old(disk.files) - {p};
    }

    /** Deletes stages, and the backups of entries that are not left replaced. */
    method CleanupTransactionFiles() returns (ok: bool)
      requires disk.Valid() && Owned(entries)
      modifies this`entries, disk
      ensures disk.Valid() && disk.next == old(disk.next) && |entries| == old(|entries|)
      ensures old(disk.log) <= disk.log && old(disk.failures) <= disk.failures
      ensures Shrunk(old(disk.files), disk.files, old(Removable(entries)))
      ensures ShrunkLog(old(disk.files), disk.log[old(|disk.log|)..], old(Removable(entries)))
      ensures CleanedUpTo(old(entries), entries, |entries|, old(disk.files), disk.files)
      ensures Owned(entries)
      ensures ok ==> Removable(entries) == {}
      ensures disk.failures == old(disk.failures) ==> ok
      ensures old(Removable(entries)) == {} ==> ok && unchanged(disk) && entries == old(entries)
    {
      ok := true;
      ghost var es0, gone := entries, Removable(entries);
      var i := 0;
      while i < |entries|
        invariant 0 <= i <= |entries| == |es0|
        invariant disk.Valid() && disk.next == old(disk.next)
        invariant old(disk.log) <= disk.log && old(disk.failures) <= disk.failures
        invariant Shrunk(old(disk.files), disk.files, gone)
        invariant ShrunkLog(old(disk.files), disk.log[old(|disk.log|)..], gone)
        invariant CleanedUpTo(es0, entries, i, old(disk.files), disk.files)
        invariant ok ==> forall j :: 0 <= j < i ==> Removable([entries[j]]) == {}
        invariant disk.failures == old(disk.failures) ==> ok
        invariant gone == {} ==> ok && unchanged(disk) && entries == es0
      {
        var cleaned := CleanTurn(i, es0, old(disk.files), old(|disk.log|));
        ok := ok && cleaned;
        i := i + 1;
      }
      if ok {
        RemovableEmpty(entries);
      }
    }

    /** One turn of that loop, which began with entries es0 on disk s0, when the log had n0 entries. */
    method CleanTurn(i: nat, ghost es0: seq<Entry>, ghost s0: Files, ghost n0: nat) returns (cleaned: bool)
      requires disk.Valid() && Owned(es0) && i < |entries| == |es0| && n0 <= |disk.log|
      requires CleanedUpTo(es0, entries, i, s0, disk.files)
      requires Shrunk(s0, disk.files, Removable(es0)) && ShrunkLog(s0, disk.log[n0..], Removable(es0))
      modifies this`entries, disk
      ensures disk.Valid() && disk.next == old(disk.next) && |entries| == |es0|
      ensures old(disk.log) <= disk.log && old(disk.failures) <= disk.failures
      ensures CleanedUpTo(es0, entries, i + 1, s0, disk.files)
      ensures Shrunk(s0, disk.files, Removable(es0)) && ShrunkLog(s0, disk.log[n0..], Removable(es0))
      ensures cleaned ==> Removable([entries[i]]) == {}
      ensures disk.failures == old(disk.failures) ==> cleaned
      ensures forall j :: 0 <= j < |entries| && j != i ==> entries[j] == old(entries)[j]
      ensures Removable(es0) == {} ==> cleaned && unchanged(disk) && entries == old(entries)
    {
      var item := entries[i];
      assert item == es0[i] && Owned([item]);
      RemovableOfMember(es0, i);
      ghost var s, log := disk.files, disk.log;
      var left;
      left, cleaned := CleanItem(item);
      assert disk.log[n0..] == log[n0..] + disk.log[|log|..];
      ShrunkFurther(s0, s, Removable(es0), log[n0..], disk.files, Removable([item]), disk.log[|log|..]);
      CleanStep(es0, entries, i, left, s0, s, disk.files);
      entries := entries[i := left];
    }

    /** Undoes replacements, last first. An entry stays `replaced` only if undoing that entry failed. */
    method Rollback(ghost t: Txn, ghost n: nat) returns (ok: bool)
      requires disk.Valid() && TxnOk(t, entries, disk.files, disk.next) && ReplacedUpTo(t, entries, n)
      modifies this`entries, disk
      ensures disk.Valid() && disk.next == old(disk.next) && TxnOk(t, entries, disk.files, disk.next)
      ensures old(disk.log) <= disk.log && AllSafe(t, disk.log[old(|disk.log|)..])
      ensures old(disk.failures) <= disk.failures
      ensures LeftFailed(entries, 0, disk.failures[|old(disk.failures)|..])
      ensures ok ==> forall i :: 0 <= i < |entries| ==> !entries[i].replaced
      ensures disk.failures == old(disk.failures) ==> ok
      ensures ReplacedUpTo(t, entries, 0) ==> AllPartlyDone(t, disk.log[|old(disk.log)|..])
    {
      ok := true;
      ghost var next, n0 := disk.next, |disk.log|;
      assert t.WellFormed();
      hide TxnOk, Safe, AllPartlyDone, RestoreFailed, LeftFailed, Txn.WellFormed, ReplacedUpTo, Undone;
      NothingLeft(entries, disk.failures[|old(disk.failures)|..]);
      NothingUndone(t, entries, n, disk.log[n0..]);
      for i := |entries| downto 0
        invariant t.WellFormed() && disk.next == next && disk.Valid() && TxnOk(t, entries, disk.files, next)
        invariant old(disk.log) <= disk.log && AllSafe(t, disk.log[n0..])
        invariant old(disk.failures) <= disk.failures
        invariant LeftFailed(entries, i, disk.failures[|old(disk.failures)|..])
        invariant ok ==> forall j :: i <= j < |entries| ==> !entries[j].replaced
        invariant disk.failures == old(disk.failures) ==> ok
        invariant Undone(t, entries, i, n, disk.log[n0..])
      {
        ghost var es, log, before := entries, disk.log, disk.failures;
        if entries[i].replaced {
          var restored := RestoreItem(t, i);
          ok := ok && restored;
          assert disk.log[n0..] == log[n0..] + [disk.files];
        }
        LeftFailedOneMore(es, entries, i, old(disk.failures), before, disk.failures);
        UndoneOneMore(t, es, entries, i, n, log[n0..], disk.files, next);
      }
      ghost var undone := disk.failures;
      var synced := disk.Directories();
      ok := ok && synced;
      LeftFailedStill(entries, 0, old(disk.failures), undone, disk.failures);
      AllUndone(t, entries, n, disk.log[n0..]);
    }

    /** Puts one replaced destination back: the backup is renamed over it, or a new file is removed. */
    method RestoreItem(ghost t: Txn, i: nat) returns (ok: bool)
      requires disk.Valid() && TxnOk(t, entries, disk.files, disk.next)
      requires i < |entries| && entries[i].replaced
      modifies this`entries, disk
      ensures disk.Valid() && disk.next == old(disk.next) && TxnOk(t, entries, disk.files, disk.next)
      ensures disk.log == old(disk.log) + [disk.files] && Safe(t, disk.files)
      ensures old(disk.failures) <= disk.failures
      ensures exists e :: entries == old(entries)[i := e] && e.replaced == !ok
      ensures !ok ==> entries == old(entries) && RestoreFailed(entries[i], disk.failures[old(|disk.failures|)..])
      ensures disk.failures == old(disk.failures) ==> ok
    {
      var item := entries[i];
      ghost var s, next := disk.files, disk.next;
      assert EntryOk(t, i, item, s);
      if item.existed {
        ok := disk.Rename(item.backup.value, item.destination);
        if ok {
          item := item.(backup := None);
        }
      } else {
        var removal := disk.Remove(item.destination);
        ok := !removal.RemoveFailed?;
      }
      if ok {
        item := item.(replaced := false);
        EntryStepKeepsTxn(t, entries, s, next, i, item, disk.files);
      }
      entries := entries[i := item];
      assert entries == old(entries)[i := item];
      TxnOkIsSafe(t, entries, disk.files, next);
    }

    /** Rolls back and cleans up; whatever could not be undone is left recorded with its backup. */
    method Fail(cause: Cause, ghost t: Txn, ghost n: nat) returns (r: CommitResult)
      requires disk.Valid() && TxnOk(t, entries, disk.files, disk.next) && ReplacedUpTo(t, entries, n)
      modifies this`entries, disk
      ensures disk.Valid() && Owned(entries)
      ensures old(disk.log) <= disk.log && AllSafe(t, disk.log[old(|disk.log|)..])
      ensures old(disk.failures) <= disk.failures
      ensures r.Failed? && r.cause == cause && Safe(t, disk.files)
      ensures RolledBackExceptFailures(t, entries, disk.files, disk.failures[old(|disk.failures|)..])
      ensures r.rolledBack ==> forall i :: 0 <= i < |t.dests| ==> Same(t.orig, disk.files, t.dests[i])
      ensures r.cleaned ==> Removable(entries) == {}
      ensures disk.failures == old(disk.failures) ==> r.rolledBack && r.cleaned
      ensures AsBefore(t, disk.files) ==> AllPartlyDone(t, disk.log[|old(disk.log)|..])
    {
      assert t.WellFormed();
      hide *;
      var rolledBack := Rollback(t, n);
      TxnOkOwned(t, entries, disk.files, disk.next);
      ghost var es, s, log, failures, next := entries, disk.files, disk.log, disk.failures, disk.next;
      var cleaned := CleanupTransactionFiles();
      CleanedAfterRollback(t, es, s, next, entries, disk.files, old(disk.log), log, disk.log,
                           old(disk.failures), failures, disk.failures);
      r := Failed(cause, rolledBack, cleaned);
    }

    /** First pass of Commit: every existing regular destination gets a backup; nothing is replaced yet. */
    method BackUpAll(ghost t: Txn) returns (problem: Option<Cause>)
      requires disk.Valid() && TxnOk(t, entries, disk.files, disk.next)
      requires forall i :: 0 <= i < |entries| ==> Unbacked(entries[i])
      modifies this`entries, disk
      ensures disk.Valid() && TxnOk(t, entries, disk.files, disk.next)
      ensures old(disk.log) <= disk.log && AllSafe(t, disk.log[old(|disk.log|)..])
      ensures old(disk.failures) <= disk.failures
      ensures problem.None? ==> forall i :: 0 <= i < |entries| ==> BackedUp(t, i, entries[i])
      ensures disk.failures == old(disk.failures) ==> problem == if AllPlain(t) then None else Some(NotRegular)
      ensures problem.None? ==> AllPlain(t)
      ensures ReplacedUpTo(t, entries, 0) && AllPartlyDone(t, disk.log[|old(disk.log)|..])
    {
      for i := 0 to |entries|
        invariant |entries| == |t.dests|
        invariant disk.Valid() && TxnOk(t, entries, disk.files, disk.next)
        invariant old(disk.log) <= disk.log && AllSafe(t, disk.log[old(|disk.log|)..])
        invariant old(disk.failures) <= disk.failures
        invariant forall j :: 0 <= j < i ==> BackedUp(t, j, entries[j])
        invariant forall j :: i <= j < |entries| ==> Unbacked(entries[j])
        invariant forall j :: 0 <= j < i ==> Plain(t, j)
        invariant ReplacedUpTo(t, entries, 0) && AllPartlyDone(t, disk.log[|old(disk.log)|..])
      {
        problem := InspectAndBackUp(t, i);
        if problem.Some? {
          return;
        }
      }
      problem := None;
    }

    /** One turn of that pass. */
    method InspectAndBackUp(ghost t: Txn, i: nat) returns (problem: Option<Cause>)
      requires disk.Valid() && TxnOk(t, entries, disk.files, disk.next)
      requires i < |entries| && Unbacked(entries[i])
      modifies this`entries, disk
      ensures disk.Valid() && TxnOk(t, entries, disk.files, disk.next)
      ensures old(disk.log) <= disk.log && AllSafe(t, disk.log[old(|disk.log|)..])
      ensures old(disk.failures) <= disk.failures
      ensures |entries| == old(|entries|) && (problem.None? ==> BackedUp(t, i, entries[i]))
      ensures disk.failures == old(disk.failures) ==> problem == if Plain(t, i) then None else Some(NotRegular)
      ensures problem.None? ==> Plain(t, i)
      ensures forall j :: 0 <= j < |entries| && j != i ==> entries[j] == old(entries)[j]
      ensures ReplacedUpTo(t, old(entries), 0) ==> ReplacedUpTo(t, entries, 0) && AllPartlyDone(t, disk.log[|old(disk.log)|..])
    {
      problem := None;
      var item := entries[i];
      assert EntryOk(t, i, item, disk.files);
      var info := disk.Lstat(item.destination);
      match info {
        case Missing => entries := entries[i := item.(existed := false)];
        case Unreadable => problem := Some(InspectFailed);
        case Found(Special) => problem := Some(NotRegular);
        case Found(Regular(_)) =>
          var ok, _ := BackUpItem(t, i);
          if !ok {
            problem := Some(BackupFailed);
          }
      }
    }

    method BackUpItem(ghost t: Txn, i: nat) returns (ok: bool, ghost e: Entry)
      requires disk.Valid() && TxnOk(t, entries, disk.files, disk.next)
      requires i < |entries| && Unbacked(entries[i]) && t.dests[i] in disk.files
      modifies this`entries, disk
      ensures disk.Valid() && TxnOk(t, entries, disk.files, disk.next)
      ensures old(disk.log) <= disk.log && AllSafe(t, disk.log[old(|disk.log|)..])
      ensures old(disk.failures) <= disk.failures
      ensures entries == old(entries)[i := e] && (ok ==> BackedUp(t, i, e))
      ensures disk.failures == old(disk.failures) && Plain(t, i) ==> ok
      ensures ok ==> Plain(t, i)
      ensures ReplacedUpTo(t, old(entries), 0) ==> ReplacedUpTo(t, entries, 0) && AllPartlyDone(t, disk.log[|old(disk.log)|..])
    {
      var item := entries[i];
      ghost var es, s, next, log := entries, disk.files, disk.next, disk.log;
      assert EntryOk(t, i, item, s);
      var backup := CreateBackup(item.destination);
      BackupLog(t, es, s, next, disk.log[|log|..], disk.next);
      UnownedTempKeepsTxn(t, es, s, next, disk.files, disk.next);
      ok := backup.Some?;
      item := item.(existed := true);
      if ok {
        item := item.(backup := backup);
        AdoptBackup(t, es, s, next, i, item, disk.files, disk.next);
      } else {
        EntryStepKeepsTxn(t, es, disk.files, disk.next, i, item, disk.files);
      }
      entries := entries[i := item];
      e := item;
    }

    /** One turn of the second pass. */
    method ReplaceItem(ghost t: Txn, i: nat) returns (ok: bool)
      requires disk.Valid() && TxnOk(t, entries, disk.files, disk.next)
      requires i < |entries| && BackedUp(t, i, entries[i]) && ReplacedUpTo(t, entries, i)
      modifies this`entries, disk
      ensures disk.Valid() && TxnOk(t, entries, disk.files, disk.next)
      ensures disk.log == old(disk.log) + [disk.files] && Safe(t, disk.files) && PartlyDone(t, disk.files)
      ensures old(disk.failures) <= disk.failures
      ensures if ok then exists e :: entries == old(entries)[i := e] && e.replaced else entries == old(entries)
      ensures ok ==> t.stages[i] !in disk.files
      ensures disk.failures == old(disk.failures) ==> ok
      ensures forall p: Path :: p.Temp? && p in disk.files ==> p in old(disk.files)
    {
      var item := entries[i];
      ghost var s := disk.files;
      assert EntryOk(t, i, item, s);
      ok := disk.Rename(item.stage.value, item.destination);
      if ok {
        item := item.(stage := None, replaced := true);
        EntryStepKeepsTxn(t, entries, s, disk.next, i, item, disk.files);
      }
      entries := entries[i := item];
      TxnOkIsSafe(t, entries, disk.files, disk.next);
      RecordedIsDone(t, entries, disk.files, disk.next, if ok then i + 1 else i);
    }

    /** Second pass of Commit: each stage is renamed over its destination. */
    method ReplaceAll(ghost t: Txn) returns (ok: bool, ghost n: nat)
      requires disk.Valid() && TxnOk(t, entries, disk.files, disk.next)
      requires forall i :: 0 <= i < |entries| ==> BackedUp(t, i, entries[i])
      modifies this`entries, disk
      ensures disk.Valid() && TxnOk(t, entries, disk.files, disk.next)
      ensures old(disk.log) <= disk.log && AllSafe(t, disk.log[old(|disk.log|)..])
      ensures old(disk.failures) <= disk.failures
      ensures ok ==> forall i :: 0 <= i < |entries| ==> entries[i].replaced && t.stages[i] !in disk.files
      ensures ReplacedUpTo(t, entries, n) && AllPartlyDone(t, disk.log[|old(disk.log)|..])
      ensures disk.failures == old(disk.failures) ==> ok
    {
      n := 0;
      assert ReplacedUpTo(t, entries, 0);
      hide TxnOk, Safe, PartlyDone, BackedUp;
      for i := 0 to |entries|
        invariant t.WellFormed() && |entries| == |t.dests|
        invariant disk.Valid() && TxnOk(t, entries, disk.files, disk.next)
        invariant old(disk.log) <= disk.log && AllSafe(t, disk.log[old(|disk.log|)..])
        invariant old(disk.failures) <= disk.failures
        invariant forall j :: 0 <= j < i ==> entries[j].replaced && t.stages[j] !in disk.files
        invariant forall j :: i <= j < |entries| ==> BackedUp(t, j, entries[j])
        invariant n == i && ReplacedUpTo(t, entries, n) && AllPartlyDone(t, disk.log[|old(disk.log)|..])
      {
        ok := ReplaceItem(t, i);
        if !ok {
          return;
        }
        n := i + 1;
      }
      ok := true;
    }

    /** After the commit point: best-effort removal of the backups. A failure here is ignored. */
    method DropBackups(ghost t: Txn)
      requires disk.Valid() && TxnOk(t, entries, disk.files, disk.next)
      requires forall i :: 0 <= i < |entries| ==> entries[i].replaced
      modifies this`entries, disk
      ensures disk.Valid() && |entries| == |t.dests| && Owned(entries)
      ensures old(disk.log) <= disk.log && AllInstalled(t, disk.log[old(|disk.log|)..]) && Installed(t, disk.files)
      ensures old(disk.failures) <= disk.failures
      ensures forall p :: p in disk.files ==> p in old(disk.files)
      ensures forall i :: 0 <= i < |entries| ==> entries[i].replaced && entries[i].stage.None?
    {
      TxnOkOwned(t, entries, disk.files, disk.next);
      ReplacedIsInstalled(t, entries, disk.files, disk.next);
      ghost var es, n0 := entries, |disk.log|;
      for i := 0 to |entries|
        invariant disk.Valid() && |entries| == |es|
        invariant old(disk.log) <= disk.log && AllInstalled(t, disk.log[n0..]) && Installed(t, disk.files)
        invariant old(disk.failures) <= disk.failures
        invariant forall p :: p in disk.files ==> p in old(disk.files)
        invariant forall j :: 0 <= j < |es| ==> entries[j] == es[j] || entries[j] == es[j].(backup := None)
      {
        var item := entries[i];
        if item.backup.Some? {
          InstalledWithoutBackup(t, disk.files, item.backup.value);
          var gone := RemoveOwned(item.backup.value);
          if gone {
            entries := entries[i := item.(backup := None)];
          }
        }
      }
      var _ := disk.Directories();
      EntriesOwnedAfterDrop(es, entries);
    }

    /** Commit up to the commit point: back up, replace, sync. */
    method Install(ghost t: Txn) returns (problem: Option<Cause>, ghost n: nat)
      requires disk.Valid() && TxnOk(t, entries, disk.files, disk.next)
      requires forall i :: 0 <= i < |entries| ==> Unbacked(entries[i])
      modifies this`entries, disk
      ensures disk.Valid() && TxnOk(t, entries, disk.files, disk.next)
      ensures old(disk.log) <= disk.log && AllSafe(t, disk.log[old(|disk.log|)..])
      ensures old(disk.failures) <= disk.failures
      ensures problem.None? ==> forall i :: 0 <= i < |entries| ==> entries[i].replaced && t.stages[i] !in disk.files
      ensures ReplacedUpTo(t, entries, n) && AllPartlyDone(t, disk.log[|old(disk.log)|..])
      ensures disk.failures == old(disk.failures) ==> problem == if AllPlain(t) then None else Some(NotRegular)
      ensures problem.None? ==> AllPlain(t)
    {
      n := 0;
      problem := BackUpAll(t);
      if problem.Some? {
        return;
      }
      ghost var log := disk.log;
      var replaced;
      replaced, n := ReplaceAll(t);
      AllSafeConcat(t, log[old(|disk.log|)..], disk.log[|log|..]);
      PartlyDoneConcat(t, log[old(|disk.log|)..], disk.log[|log|..]);
      assert disk.log[old(|disk.log|)..] == log[old(|disk.log|)..] + disk.log[|log|..];
      if !replaced {
        return Some(ReplaceFailed), n;
      }
      var synced := disk.Directories();
      problem := if synced then None else Some(SyncFailed);
    }

    /** Commit of an open batch: everything up to the commit point, or a rollback; then the backups are dropped. */
    method Replace(ghost t: Txn) returns (r: CommitResult, ghost point: nat)
      requires disk.Valid() && TxnOk(t, entries, disk.files, disk.next)
      requires forall i :: 0 <= i < |entries| ==> Unbacked(entries[i])
      modifies this`entries, disk
      ensures disk.Valid() && Owned(entries) && old(disk.log) <= disk.log
      ensures old(|disk.log|) <= point <= |disk.log|
      ensures AllSafe(t, disk.log[old(|disk.log|)..point]) && AllInstalled(t, disk.log[point..])
      ensures !r.CommitClosed?
      ensures r.Committed? ==>
                && Installed(t, disk.files) && Removable(entries) == {}
                && (forall i :: 0 <= i < |t.stages| ==> t.stages[i] !in disk.files)
      ensures r.Failed? ==>
                && point == |disk.log| && old(disk.failures) <= disk.failures && Safe(t, disk.files)
                && RolledBackExceptFailures(t, entries, disk.files, disk.failures[old(|disk.failures|)..])
                && (r.rolledBack ==> forall i :: 0 <= i < |t.dests| ==> Same(t.orig, disk.files, t.dests[i]))
      ensures disk.failures == old(disk.failures) ==> r == if AllPlain(t) then Committed else Failed(NotRegular, true, true)
      ensures r.Committed? ==> AllPlain(t)
      ensures old(disk.failures) <= disk.failures
      ensures r.Committed? || AsBefore(t, disk.files) ==> AllPartlyDone(t, disk.log[|old(disk.log)|..])
    {
      assert t.WellFormed();
      hide Safe, Installed, TxnOk, Owned, RolledBackExceptFailures, ReplacedUpTo, PartlyDone, Plain, Txn.WellFormed, Unbacked;
      var problem;
      ghost var n;
      problem, n := Install(t);
      ghost var log, failures := disk.log, disk.failures;
      if problem.Some? {
        r := Fail(problem.value, t, n);
        if AsBefore(t, disk.files) {
          PartlyDoneConcat(t, log[old(|disk.log|)..], disk.log[|log|..]);
        }
        point := |disk.log|;
        AllSafeConcat(t, log[old(|disk.log|)..], disk.log[|log|..]);
        assert disk.log[old(|disk.log|)..point] == log[old(|disk.log|)..] + disk.log[|log|..];
        FailuresSince(t, entries, disk.files, old(disk.failures), failures, disk.failures);
      } else {
        point := |disk.log|;
        DropBackups(t);
        AllInstalledAreDone(t, disk.log[point..]);
        PartlyDoneConcat(t, log[old(|disk.log|)..], disk.log[point..]);
        assert disk.log[old(|disk.log|)..point] == log[old(|disk.log|)..];
        assert disk.log[old(|disk.log|)..] == log[old(|disk.log|)..] + disk.log[point..];
        r := Committed;
      }
    }

    /** Replaces every staged destination or none. `point` marks the commit point in the disk's log:
        every state before it is recoverable, every state from it on has all staged contents in place. */
    method Commit() returns (r: CommitResult, ghost point: nat)
      requires disk.Valid() && (closed || Open())
      modifies this, disk
      ensures closed && disk.Valid() && destinations == old(destinations)
      ensures r.CommitClosed? <==> old(closed)
      ensures r.CommitClosed? ==> unchanged(this) && unchanged(disk)
      ensures !r.CommitClosed? ==> Owned(entries) && old(disk.log) <= disk.log
      ensures !r.CommitClosed? ==>
                && old(|disk.log|) <= point <= |disk.log|
                && AllSafe(old(Pending()), disk.log[old(|disk.log|)..point])
                && AllInstalled(old(Pending()), disk.log[point..])
      ensures r.Committed? ==>
                && Installed(old(Pending()), disk.files) && Removable(entries) == {}
                && (forall i :: 0 <= i < |old(Pending()).stages| ==> old(Pending()).stages[i] !in disk.files)
      ensures r.Failed? ==> point == |disk.log| && old(disk.failures) <= disk.failures && Safe(old(Pending()), disk.files)
      ensures r.Failed? ==> RolledBackExceptFailures(old(Pending()), entries, disk.files, disk.failures[old(|disk.failures|)..])
      ensures r.Failed? && r.rolledBack ==>
                forall i :: 0 <= i < |old(Pending()).dests| ==> Same(old(disk.files), disk.files, old(Pending()).dests[i])
      ensures old(disk.failures) <= disk.failures
      ensures !old(closed) && disk.failures == old(disk.failures) ==>
                r == if AllPlain(old(Pending())) then Committed else Failed(NotRegular, true, true)
      ensures r.Committed? ==> AllPlain(old(Pending()))
      ensures r.Committed? || (r.Failed? && AsBefore(old(Pending()), disk.files)) ==>
                AllPartlyDone(old(Pending()), disk.log[|old(disk.log)|..])
    {
      point := |disk.log|;
      if closed {
        return CommitClosed, point;
      }
      ghost var t := Pending();
      closed := true;
      r, point := Replace(t);
    }

    /** Removes only transaction-owned files. It forgets only files that are gone, and never takes up new ones, so a later
        Abort can remove only what this one could not: a backup that a failed restore depends on is safe from them all. */
    method Abort() returns (ok: bool)
      requires disk.Valid() && Owned(entries)
      modifies this`entries, this`closed, disk
      ensures closed && disk.Valid() && Owned(entries) && old(disk.log) <= disk.log && old(disk.failures) <= disk.failures
      ensures |entries| == old(|entries|) && CleanedUpTo(old(entries), entries, |entries|, old(disk.files), disk.files)
      ensures Removable(entries) <= old(Removable(entries))
      ensures forall i :: 0 <= i < |entries| && old(entries)[i].replaced ==>
                entries[i].replaced && entries[i].backup == old(entries)[i].backup
      ensures forall p :: p !in old(Removable(entries)) ==> Same(old(disk.files), disk.files, p)
      ensures forall k :: old(|disk.log|) <= k < |disk.log| ==>
                forall p :: p !in old(Removable(entries)) ==> Same(old(disk.files), disk.log[k], p)
      ensures forall p: Path :: p.Formal? ==> p !in old(Removable(entries))
      ensures forall i :: 0 <= i < |old(entries)| && old(entries)[i].replaced && old(entries)[i].backup.Some? ==>
                old(entries)[i].backup.value !in old(Removable(entries))
      ensures ok ==> Removable(entries) == {}
      ensures disk.failures == old(disk.failures) ==> ok
      ensures old(Removable(entries)) == {} ==> ok && unchanged(disk) && entries == old(entries)
    {
      closed := true;
      ghost var es, s := entries, disk.files;
      ok := CleanupTransactionFiles();
      CleanedShrinks(es, entries, s, disk.files);
    }
  }
}
