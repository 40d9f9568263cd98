/** The processor: one cycle of `Processor._run`. It reports the status of every placed command
    whose import file WinDSX has consumed, then takes one command off the queue and writes its
    import file into the first free `^IMPnn.txt` slot of the WinDSX directory. */
module Processing {
  import opened Wrappers
  import opened Text
  import opened Clock
  import opened Dsx
  import opened Commands

  /** `os.path.join` on Windows for a plain file name: a backslash is put between the two unless
      the directory is empty, already ends in a separator, or is a bare drive such as `C:`. */
  function PathJoin(dir: string, name: string): (p: string)
    ensures |p| >= |name| && p[|p| - |name|..] == name
  {
    if |dir| == 0 || dir[|dir| - 1] == '\\' || dir[|dir| - 1] == '/' || (|dir| == 2 && dir[1] == ':') then dir + name
    else dir + "\\" + name
  }

  /** The name of import slot `k`: `^IMP` and the two digits of k. */
  function SlotName(k: nat): (n: string)
    requires k < 100
    ensures |n| == 10
  {
    "^IMP" + [DigitChar(k / 10), DigitChar(k % 10)] + ".txt"
  }

  function Slot(dir: string, k: nat): string
    requires k < 100
  {
    PathJoin(dir, SlotName(k))
  }

  /** A slot name gives back its number. */
  lemma SlotNameNumber(k: nat)
    requires k < 100
    ensures var n := SlotName(k); IsDigit(n[4]) && IsDigit(n[5]) && 10 * DigitValue(n[4]) + DigitValue(n[5]) == k
  {
    var n := SlotName(k);
    assert n[4] == DigitChar(k / 10) && n[5] == DigitChar(k % 10);
  }

  /** The hundred slots of a directory are a hundred different paths. */
  lemma SlotsDistinct(dir: string, j: nat, k: nat)
    requires j < 100 && k < 100 && j != k
    ensures Slot(dir, j) != Slot(dir, k)
  {
    SlotNameNumber(j);
    SlotNameNumber(k);
    var a := Slot(dir, j);
    var b := Slot(dir, k);
    assert a[|a| - 10..] == SlotName(j) && b[|b| - 10..] == SlotName(k);
  }

  /** A slot is free when no file is there and no pending command was given it. */
  predicate Free(dir: string, existing: set<string>, taken: seq<string>, k: nat)
    requires k < 100
  {
    Slot(dir, k) !in existing && Slot(dir, k) !in taken
  }

  /** The first free slot from `k` on, in the order `^IMP00` … `^IMP99`. */
  function FirstFree(dir: string, existing: set<string>, taken: seq<string>, k: nat): Option<string>
    decreases 100 - k
  {
    if k >= 100 then None
    else if Free(dir, existing, taken, k) then Some(Slot(dir, k))
    else FirstFree(dir, existing, taken, k + 1)
  }

  /** `FirstFree` finds the lowest-numbered free slot, and finds none only when all hundred are
      occupied or taken. */
  lemma FirstFreeSpec(dir: string, existing: set<string>, taken: seq<string>, k: nat)
    ensures var r := FirstFree(dir, existing, taken, k);
      (r.None? <==> forall j :: k <= j < 100 ==> !Free(dir, existing, taken, j)) &&
      (r.Some? ==> exists j :: k <= j < 100 && Free(dir, existing, taken, j) && r.value == Slot(dir, j) &&
                     forall i :: k <= i < j ==> !Free(dir, existing, taken, i))
  {
    FirstFreeNone(dir, existing, taken, k);
    FirstFreeSome(dir, existing, taken, k);
  }

  lemma {:induction false} FirstFreeNone(dir: string, existing: set<string>, taken: seq<string>, k: nat)
    decreases 100 - k
    ensures FirstFree(dir, existing, taken, k).None? <==> forall j :: k <= j < 100 ==> !Free(dir, existing, taken, j)
  {
    if k < 100 && !Free(dir, existing, taken, k) {
      FirstFreeNone(dir, existing, taken, k + 1);
    }
  }

  lemma {:induction false} FirstFreeSome(dir: string, existing: set<string>, taken: seq<string>, k: nat)
    decreases 100 - k
    ensures var r := FirstFree(dir, existing, taken, k);
      r.Some? ==> exists j :: k <= j < 100 && Free(dir, existing, taken, j) && r.value == Slot(dir, j) &&
                    forall i :: k <= i < j ==> !Free(dir, existing, taken, i)
  {
    if k < 100 {
      if Free(dir, existing, taken, k) {
        assert FirstFree(dir, existing, taken, k) == Some(Slot(dir, k));
      } else {
        FirstFreeSome(dir, existing, taken, k + 1);
        var r := FirstFree(dir, existing, taken, k + 1);
        if r.Some? {
          var j :| k + 1 <= j < 100 && Free(dir, existing, taken, j) && r.value == Slot(dir, j) &&
                   forall i :: k + 1 <= i < j ==> !Free(dir, existing, taken, i);
          assert forall i :: k <= i < j ==> !Free(dir, existing, taken, i);
        }
      }
    }
  }

  /** The slot found is never the file of a pending command nor a file that exists. */
  lemma FirstFreeIsFree(dir: string, existing: set<string>, taken: seq<string>)
    ensures var r := FirstFree(dir, existing, taken, 0);
      r.Some? ==> r.value !in existing && r.value !in taken
  {
    FirstFreeSpec(dir, existing, taken, 0);
  }

  /** One slot of the search: taken when free, otherwise the search goes on. */
  lemma FirstFreeStep(dir: string, existing: set<string>, taken: seq<string>, k: nat)
    requires k < 100
    ensures FirstFree(dir, existing, taken, k) ==
      if Free(dir, existing, taken, k) then Some(Slot(dir, k)) else FirstFree(dir, existing, taken, k + 1)
  {
  }

  /** The path the loops build for digits `first` and `second` is slot `10 * first + second`. */
  lemma SlotOfDigits(dir: string, first: nat, second: nat)
    requires first < 10 && second < 10
    ensures 10 * first + second < 100
    ensures PathJoin(dir, "^IMP" + [DigitChar(first), DigitChar(second)] + ".txt") == Slot(dir, 10 * first + second)
  {
    var k := 10 * first + second;
    assert k / 10 == first && k % 10 == second;
  }

  /** `_find_unused_file_name`: the two nested digit loops. */
  method FindUnusedFileName(dir: string, existing: set<string>, taken: seq<string>) returns (r: Option<string>)
    ensures r == FirstFree(dir, existing, taken, 0)
  {
    var first := 0;
    while first < 10
      invariant 0 <= first <= 10
      invariant FirstFree(dir, existing, taken, 0) == FirstFree(dir, existing, taken, 10 * first)
    {
      r := SearchRow(dir, existing, taken, first);
      if r.Some? {
        return;
      }
      first := first + 1;
    }
    return None;
  }

  /** The inner loop: the ten slots whose first digit is `first`. */
  method SearchRow(dir: string, existing: set<string>, taken: seq<string>, first: nat) returns (r: Option<string>)
    requires first < 10
    ensures r.Some? ==> r == FirstFree(dir, existing, taken, 10 * first)
    ensures r.None? ==> FirstFree(dir, existing, taken, 10 * first) == FirstFree(dir, existing, taken, 10 * first + 10)
  {
    var second := 0;
    while second < 10
      invariant 0 <= second <= 10
      invariant FirstFree(dir, existing, taken, 10 * first) == FirstFree(dir, existing, taken, 10 * first + second)
    {
      var path := PathJoin(dir, "^IMP" + [DigitChar(first), DigitChar(second)] + ".txt");
      SlotOfDigits(dir, first, second);
      FirstFreeStep(dir, existing, taken, 10 * first + second);
      if path !in existing && path !in taken {
        return Some(path);
      }
      second := second + 1;
    }
    return None;
  }

  /** A command that has been given an import file, and that file. */
  type Placement = (Command, string)

  function Files(ps: seq<Placement>): (fs: seq<string>)
    ensures |fs| == |ps|
  {
    if |ps| == 0 then [] else [ps[0].1] + Files(ps[1..])
  }

  predicate DistinctFiles(ps: seq<Placement>)
  {
    forall i, j :: 0 <= i < j < |ps| ==> ps[i].1 != ps[j].1
  }

  /** The placements whose file still exists: WinDSX has not yet imported them. */
  function Kept(ps: seq<Placement>, existing: set<string>): seq<Placement>
  {
    if |ps| == 0 then []
    else (if ps[0].1 in existing then [ps[0]] else []) + Kept(ps[1..], existing)
  }

  /** A report sent to the webhook server: the command id and its status. */
  type Report = (string, Status)

  /** The reports for the placements whose file is gone, in placement order; each status is
      computed from what the card holder lookup of its command returns at that time. */
  function Reports(ps: seq<Placement>, existing: set<string>, holdersOf: Command -> seq<CardHolder>): seq<Report>
  {
    if |ps| == 0 then []
    else
      var c := ps[0].0;
      (if ps[0].1 in existing then [] else [(c.commandId, c.Status(holdersOf(c)))]) + Reports(ps[1..], existing, holdersOf)
  }

  /** The loop over `_command_to_file`: each placement whose file is gone is reported and dropped. */
  method CheckPlacements(ps: seq<Placement>, existing: set<string>, holdersOf: Command -> seq<CardHolder>)
    returns (kept: seq<Placement>, reports: seq<Report>)
    ensures kept == Kept(ps, existing) && reports == Reports(ps, existing, holdersOf)
  {
    kept, reports := [], [];
    var i := 0;
    while i < |ps|
      invariant 0 <= i <= |ps|
      invariant kept + Kept(ps[i..], existing) == Kept(ps, existing)
      invariant reports + Reports(ps[i..], existing, holdersOf) == Reports(ps, existing, holdersOf)
    {
      assert ps[i..][0] == ps[i] && ps[i..][1..] == ps[i + 1..];
      var c := ps[i].0;
      if ps[i].1 in existing {
        assert Kept(ps[i..], existing) == [ps[i]] + Kept(ps[i + 1..], existing);
        assert Reports(ps[i..], existing, holdersOf) == Reports(ps[i + 1..], existing, holdersOf);
        kept := kept + [ps[i]];
      } else {
        assert Kept(ps[i..], existing) == Kept(ps[i + 1..], existing);
        assert Reports(ps[i..], existing, holdersOf) ==
          [(c.commandId, c.Status(holdersOf(c)))] + Reports(ps[i + 1..], existing, holdersOf);
        reports := reports + [(c.commandId, c.Status(holdersOf(c)))];
      }
      i := i + 1;
    }
  }

  /** Kept placements are exactly those whose file exists, and every placement is either kept or
      reported, never both. */
  lemma {:induction false} CheckPartition(ps: seq<Placement>, existing: set<string>, holdersOf: Command -> seq<CardHolder>)
    ensures |Kept(ps, existing)| + |Reports(ps, existing, holdersOf)| == |ps|
    ensures forall p :: p in Kept(ps, existing) <==> p in ps && p.1 in existing
  {
    if |ps| > 0 {
      CheckPartition(ps[1..], existing, holdersOf);
      assert ps == [ps[0]] + ps[1..];
    }
  }

  /** Every report is the status of a placed command whose file is gone. */
  lemma {:induction false} ReportsOfGone(ps: seq<Placement>, existing: set<string>, holdersOf: Command -> seq<CardHolder>)
    ensures forall r :: r in Reports(ps, existing, holdersOf) ==>
      exists p :: p in ps && p.1 !in existing && r == (p.0.commandId, p.0.Status(holdersOf(p.0)))
  {
    if |ps| > 0 {
      ReportsOfGone(ps[1..], existing, holdersOf);
      assert forall p :: p in ps[1..] ==> p in ps;
    }
  }

  /** Dropping placements keeps the files of the rest distinct. */
  lemma {:induction false} KeptDistinct(ps: seq<Placement>, existing: set<string>)
    requires DistinctFiles(ps)
    ensures DistinctFiles(Kept(ps, existing))
  {
    if |ps| > 0 {
      KeptDistinct(ps[1..], existing);
      CheckPartition(ps[1..], existing, c => []);
      var rest := Kept(ps[1..], existing);
      if ps[0].1 in existing {
        var k := Kept(ps, existing);
        assert k == [ps[0]] + rest;
        forall j | 1 <= j < |k| ensures k[0].1 != k[j].1 {
          assert k[j] == rest[j - 1] && k[j] in ps[1..];
        }
      }
    }
  }

  /** A file name is taken when it belongs to a placement. */
  lemma {:induction false} FilesMembers(ps: seq<Placement>, f: string)
    ensures f in Files(ps) <==> exists i :: 0 <= i < |ps| && ps[i].1 == f
  {
    if |ps| > 0 {
      FilesMembers(ps[1..], f);
      if f in Files(ps[1..]) {
        var i :| 0 <= i < |ps[1..]| && ps[1..][i].1 == f;
        assert ps[i + 1].1 == f;
      }
      if exists i :: 0 <= i < |ps| && ps[i].1 == f {
        var i :| 0 <= i < |ps| && ps[i].1 == f;
        if i > 0 {
          assert ps[1..][i - 1].1 == f;
        }
      }
    }
  }

  /** A new placement on a file no pending command holds keeps the files distinct. */
  lemma AddPlacementDistinct(ps: seq<Placement>, c: Command, f: string)
    requires DistinctFiles(ps) && f !in Files(ps)
    ensures DistinctFiles(ps + [(c, f)])
  {
    FilesMembers(ps, f);
  }

  /** The processor's state: where it writes, the queue it reads, the placed commands in the
      order they were placed, the task_done count, and whether its thread has ended. */
  class Processor {
    const dsxPath: string
    const queue: CommandQueue
    var placements: seq<Placement>
    var taskDone: nat
    var halted: bool

    /** No two pending commands share an import file. */
    predicate Valid()
      reads this
    {
      DistinctFiles(placements)
    }

    constructor (dsxPath: string)
      ensures Valid() && fresh(queue)
      ensures this.dsxPath == dsxPath && queue.items == [] && placements == [] && taskDone == 0 && !halted
    {
      this.dsxPath := dsxPath;
      queue := new CommandQueue();
      placements := [];
      taskDone := 0;
      halted := false;
    }

    /** One cycle, given the files that exist in the directory, the holders each command's
        lookup returns, and for the command placed this cycle its holders, the new udf id and the
        clock. Returns the reports sent, and the import file written with its contents.

        `sys.exit(1)` from `get_dsx_command` is not an `Exception`: it ends the thread, after the
        placement was recorded and the file opened, so that file is left empty and nothing runs
        again. A command for which no slot is free is dropped. */
    method RunCycle(existing: set<string>, holdersOf: Command -> seq<CardHolder>, holders: seq<CardHolder>,
                    locGrp: int, udfNum: int, freshId: string, now: DateTime)
      returns (reports: seq<Report>, written: Option<(string, seq<string>)>)
      requires Valid()
      modifies this, queue
      ensures Valid()
      ensures old(halted) ==> (halted && reports == [] && written == None &&
        placements == old(placements) && queue.items == old(queue.items) && taskDone == old(taskDone))
      ensures !old(halted) ==> reports == Reports(old(placements), existing, holdersOf)
      ensures !old(halted) && (old(queue.items) == [] || old(queue.items)[0].None?) ==>
        !halted && written == None && taskDone == old(taskDone) &&
        placements == Kept(old(placements), existing) && queue.items == (if old(queue.items) == [] then [] else old(queue.items)[1..])
      ensures !old(halted) && old(queue.items) != [] && old(queue.items)[0].Some? ==>
        var c := old(queue.items)[0].value;
        var kept := Kept(old(placements), existing);
        var slot := FirstFree(dsxPath, existing, Files(kept), 0);
        queue.items == old(queue.items)[1..] &&
        (slot.None? ==> !halted && written == None && taskDone == old(taskDone) && placements == kept) &&
        (slot.Some? ==> (placements == kept + [(c, slot.value)] &&
          (|holders| > 1 ==> halted && written == Some((slot.value, [])) && taskDone == old(taskDone)) &&
          (|holders| <= 1 ==> (!halted && taskDone == old(taskDone) + 1 &&
            written == Some((slot.value, Terminated(CommandImportLines(c, locGrp, udfNum, holders, freshId, now))))))))
    {
      reports, written := [], None;
      if halted {
        return;
      }
      var kept;
      kept, reports := CheckPlacements(placements, existing, holdersOf);
      KeptDistinct(placements, existing);
      placements := kept;
      var item := queue.Get();
      if item.None? || item.value.None? {
        return;
      }
      var c := item.value.value;
      var slot := FindUnusedFileName(dsxPath, existing, Files(kept));
      if slot.None? {
        return;
      }
      FirstFreeIsFree(dsxPath, existing, Files(kept));
      AddPlacementDistinct(kept, c, slot.value);
      placements := kept + [(c, slot.value)];
      var dsx := GetDsxCommand(c, locGrp, udfNum, holders, freshId, now);
      if dsx.Err? {
        halted := true;
        written := Some((slot.value, []));
        return;
      }
      var lines := dsx.value.Write();
      written := Some((slot.value, lines));
      taskDone := taskDone + 1;
    }
  }
}
