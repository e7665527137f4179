/**
  Progress aggregation: the per-slot (bytes sent, bytes total) pairs the panel
  keeps while uploading, their sums, and the overall percentage.
*/
module Progress {
  import opened Assets

  /** What the panel records for one slot's file. */
  datatype FileProgress = FileProgress(sent: nat, total: nat)

  /** Sum of `sent` over the entries of `m` whose slot is listed in `ks`. */
  function SentOver(m: map<Slot, FileProgress>, ks: seq<Slot>): nat
  {
    if ks == [] then 0
    else
      var last := ks[|ks| - 1];
      SentOver(m, ks[..|ks| - 1]) + (if last in m then m[last].sent else 0)
  }

  /** Sum of `total` over the entries of `m` whose slot is listed in `ks`. */
  function TotalOver(m: map<Slot, FileProgress>, ks: seq<Slot>): nat
  {
    if ks == [] then 0
    else
      var last := ks[|ks| - 1];
      TotalOver(m, ks[..|ks| - 1]) + (if last in m then m[last].total else 0)
  }

  /** Bytes sent over all entries (every slot is listed once in AssetTypes). */
  function TotalSent(m: map<Slot, FileProgress>): nat
  {
    SentOver(m, AssetTypes)
  }

  /** Bytes to send over all entries. */
  function TotalBytes(m: map<Slot, FileProgress>): nat
  {
    TotalOver(m, AssetTypes)
  }

  /** The overall percentage, guarded against an empty total. */
  function Percent(sent: nat, total: nat): (r: real)
    ensures total == 0 ==> r == 0.0
    ensures sent <= total ==> 0.0 <= r <= 100.0
    ensures 0 < total && sent == total ==> r == 100.0
  {
    if total > 0 then (sent as real / total as real) * 100.0 else 0.0
  }

  /** For a fixed total, the percentage does not decrease when more bytes are sent. */
  lemma PercentMonotone(a: nat, b: nat, total: nat)
    requires a <= b
    ensures Percent(a, total) <= Percent(b, total)
  {
    if total > 0 {
      var t := total as real;
      assert a as real / t <= b as real / t;
    }
  }

  ghost predicate NoDuplicates(ks: seq<Slot>)
  {
    forall i, j | 0 <= i < j < |ks| :: ks[i] != ks[j]
  }

  ghost predicate SentWithinTotal(m: map<Slot, FileProgress>)
  {
    forall s | s in m :: m[s].sent <= m[s].total
  }

  lemma {:induction false} SentOverWithinTotalOver(m: map<Slot, FileProgress>, ks: seq<Slot>)
    requires SentWithinTotal(m)
    ensures SentOver(m, ks) <= TotalOver(m, ks)
    decreases |ks|
  {
    if ks != [] {
      SentOverWithinTotalOver(m, ks[..|ks| - 1]);
    }
  }

  /** When no entry has sent more than its file's size, neither has the sum. */
  lemma TotalSentWithinTotalBytes(m: map<Slot, FileProgress>)
    requires SentWithinTotal(m)
    ensures TotalSent(m) <= TotalBytes(m)
    ensures 0.0 <= Percent(TotalSent(m), TotalBytes(m)) <= 100.0
  {
    SentOverWithinTotalOver(m, AssetTypes);
  }

  lemma {:induction false} SentOverNothingSent(m: map<Slot, FileProgress>, ks: seq<Slot>)
    requires forall s | s in m :: m[s].sent == 0
    ensures SentOver(m, ks) == 0
    decreases |ks|
  {
    if ks != [] {
      SentOverNothingSent(m, ks[..|ks| - 1]);
    }
  }

  /** Entries that have sent nothing add up to nothing sent and a 0% progress. */
  lemma NothingSentYet(m: map<Slot, FileProgress>)
    requires forall s | s in m :: m[s].sent == 0
    ensures TotalSent(m) == 0 && Percent(TotalSent(m), TotalBytes(m)) == 0.0
  {
    SentOverNothingSent(m, AssetTypes);
  }

  lemma {:induction false} SentOverAllSent(m: map<Slot, FileProgress>, ks: seq<Slot>)
    requires forall s | s in m :: m[s].sent == m[s].total
    ensures SentOver(m, ks) == TotalOver(m, ks)
    decreases |ks|
  {
    if ks != [] {
      SentOverAllSent(m, ks[..|ks| - 1]);
    }
  }

  /** Once every file has been sent in full, the progress reads 100% (unless there is nothing to send). */
  lemma EverythingSent(m: map<Slot, FileProgress>)
    requires forall s | s in m :: m[s].sent == m[s].total
    ensures TotalSent(m) == TotalBytes(m)
    ensures TotalBytes(m) > 0 ==> Percent(TotalSent(m), TotalBytes(m)) == 100.0
  {
    SentOverAllSent(m, AssetTypes);
  }

  lemma {:induction false} SumsOverAfterUpdate(m: map<Slot, FileProgress>, ks: seq<Slot>, k: Slot, v: FileProgress)
    requires NoDuplicates(ks)
    ensures SentOver(m[k := v], ks) + (if k in ks && k in m then m[k].sent else 0)
         == SentOver(m, ks) + (if k in ks then v.sent else 0)
    ensures TotalOver(m[k := v], ks) + (if k in ks && k in m then m[k].total else 0)
         == TotalOver(m, ks) + (if k in ks then v.total else 0)
    decreases |ks|
  {
    if ks != [] {
      var init := ks[..|ks| - 1];
      assert ks == init + [ks[|ks| - 1]];
      assert NoDuplicates(init);
      SumsOverAfterUpdate(m, init, k, v);
      if ks[|ks| - 1] == k {
        assert k !in init;
      }
    }
  }

  /**
    Recording a new entry for one slot changes the sums by exactly the
    difference between the new entry and the one it replaces; no other slot
    contributes differently.
  */
  lemma SumsAfterUpdate(m: map<Slot, FileProgress>, k: Slot, v: FileProgress)
    ensures TotalSent(m[k := v]) + (if k in m then m[k].sent else 0) == TotalSent(m) + v.sent
    ensures TotalBytes(m[k := v]) + (if k in m then m[k].total else 0) == TotalBytes(m) + v.total
  {
    AssetTypesEnumerateSlots();
    SumsOverAfterUpdate(m, AssetTypes, k, v);
  }

  /**
    A progress report that raises one slot's bytes sent, for the same file,
    leaves the total unchanged and does not lower the overall percentage.
  */
  lemma ProgressMonotone(m: map<Slot, FileProgress>, k: Slot, v: FileProgress)
    requires k in m && v.total == m[k].total && m[k].sent <= v.sent
    ensures TotalBytes(m[k := v]) == TotalBytes(m)
    ensures TotalSent(m) <= TotalSent(m[k := v])
    ensures Percent(TotalSent(m), TotalBytes(m)) <= Percent(TotalSent(m[k := v]), TotalBytes(m[k := v]))
  {
    SumsAfterUpdate(m, k, v);
    PercentMonotone(TotalSent(m), TotalSent(m[k := v]), TotalBytes(m));
  }

  /**
    Without those conditions the percentage can fall: an orthophoto half sent
    reads 50%, and a first report for a surface model of the same size, with
    nothing sent yet, brings it down to 25%.
  */
  lemma NewEntryLowersProgress()
    ensures var before := map[Orthophoto := FileProgress(50, 100)];
            var after := before[Dsm := FileProgress(0, 100)];
            && Percent(TotalSent(before), TotalBytes(before)) == 50.0
            && Percent(TotalSent(after), TotalBytes(after)) == 25.0
  {
    var before := map[Orthophoto := FileProgress(50, 100)];
    EverythingSent(map[]);
    NothingSentYet(map[]);
    SumsAfterUpdate(map[], Orthophoto, FileProgress(50, 100));
    assert map[][Orthophoto := FileProgress(50, 100)] == before;
    SumsAfterUpdate(before, Dsm, FileProgress(0, 100));
  }

}
