/** The ACL group combos of the WinDSX database and how card activation finds or creates one. A
    combo is a set of ACL group names stored as rows (AclGrpNameID, ComboID) of AclGrpCombo. */
module ActivationCombos {
  import opened Wrappers
  import opened ActivationBasics

  datatype ComboRow = ComboRow(nameId: nat, comboId: nat, locGrp: nat)

  /** The ACL group names of a combo: `SELECT AclGrpNameID FROM AclGrpCombo WHERE ComboID = ?`. */
  function Members(rows: seq<ComboRow>, combo: nat): set<nat>
  {
    if |rows| == 0 then {}
    else (if rows[0].comboId == combo then {rows[0].nameId} else {}) + Members(rows[1..], combo)
  }

  /** The ComboIDs that occur in the table. */
  function ComboIds(rows: seq<ComboRow>): set<nat>
  {
    if |rows| == 0 then {} else {rows[0].comboId} + ComboIds(rows[1..])
  }

  /** A name belongs to a combo exactly when some row pairs the two. */
  lemma {:induction false} MembersMeans(rows: seq<ComboRow>, combo: nat, x: nat)
    ensures x in Members(rows, combo) <==> exists i :: 0 <= i < |rows| && rows[i] == ComboRow(x, combo, rows[i].locGrp)
  {
    if |rows| > 0 {
      var tail := rows[1..];
      MembersMeans(tail, combo, x);
      if exists i :: 0 <= i < |rows| && rows[i] == ComboRow(x, combo, rows[i].locGrp) {
        var i :| 0 <= i < |rows| && rows[i] == ComboRow(x, combo, rows[i].locGrp);
        if i > 0 {
          assert tail[i - 1] == rows[i];
        }
      }
      if exists i :: 0 <= i < |tail| && tail[i] == ComboRow(x, combo, tail[i].locGrp) {
        var i :| 0 <= i < |tail| && tail[i] == ComboRow(x, combo, tail[i].locGrp);
        assert rows[i + 1] == tail[i];
      }
    }
  }

  lemma {:induction false} MembersAppend(a: seq<ComboRow>, b: seq<ComboRow>, combo: nat)
    ensures Members(a + b, combo) == Members(a, combo) + Members(b, combo)
    ensures ComboIds(a + b) == ComboIds(a) + ComboIds(b)
  {
    if |a| == 0 {
      assert a + b == b;
    } else {
      assert (a + b)[1..] == a[1..] + b;
      MembersAppend(a[1..], b, combo);
    }
  }

  /** A table in which no row has ComboID `c` gives `c` no names. */
  lemma {:induction false} MembersOfOthers(rows: seq<ComboRow>, c: nat)
    requires forall i :: 0 <= i < |rows| ==> rows[i].comboId != c
    ensures Members(rows, c) == {} && c !in ComboIds(rows)
  {
    if |rows| > 0 {
      assert forall i :: 0 <= i < |rows[1..]| ==> rows[1..][i] == rows[i + 1];
      MembersOfOthers(rows[1..], c);
    }
  }

  // ---------------------------------------------------------------------------------------------
  // `itertools.groupby` over the whole table.

  /** `groupby` by ComboID: each run of consecutive rows with one ComboID becomes one group, with
      the set of its ACL group names. */
  function Runs(rows: seq<ComboRow>): (rs: seq<(nat, set<nat>)>)
    ensures |rs| <= |rows| && (|rows| == 0 <==> |rs| == 0)
    ensures |rows| > 0 ==> rs[0].0 == rows[0].comboId
  {
    if |rows| == 0 then []
    else
      var rest := Runs(rows[1..]);
      if |rest| > 0 && rest[0].0 == rows[0].comboId then [(rows[0].comboId, {rows[0].nameId} + rest[0].1)] + rest[1..]
      else [(rows[0].comboId, {rows[0].nameId})] + rest
  }

  function RunIds(rs: seq<(nat, set<nat>)>): set<nat>
  {
    if |rs| == 0 then {} else {rs[0].0} + RunIds(rs[1..])
  }

  /** The groups' ids are exactly the table's ComboIDs. */
  lemma {:induction false} RunsIds(rows: seq<ComboRow>)
    ensures RunIds(Runs(rows)) == ComboIds(rows)
  {
    if |rows| > 0 {
      var rest := Runs(rows[1..]);
      RunsIds(rows[1..]);
      var rs := Runs(rows);
      if |rest| > 0 && rest[0].0 == rows[0].comboId {
        assert rs[1..] == rest[1..];
      } else {
        assert rs[1..] == rest;
      }
    }
  }

  lemma {:induction false} RunIndex(rs: seq<(nat, set<nat>)>, c: nat) returns (k: nat)
    requires c in RunIds(rs)
    ensures k < |rs| && rs[k].0 == c
  {
    if rs[0].0 != c {
      k := RunIndex(rs[1..], c);
      k := k + 1;
    } else {
      k := 0;
    }
  }

  lemma {:induction false} RunIdsHas(rs: seq<(nat, set<nat>)>, k: nat)
    requires k < |rs|
    ensures rs[k].0 in RunIds(rs)
  {
    if k > 0 {
      RunIdsHas(rs[1..], k - 1);
    }
  }

  /** The rows of each combo are adjacent: what `groupby` needs to see each combo whole. */
  predicate Contiguous(rows: seq<ComboRow>)
  {
    forall i, j, k :: 0 <= i < j < k < |rows| && rows[i].comboId == rows[k].comboId ==> rows[j].comboId == rows[i].comboId
  }

  /** In contiguous rows, a later row with the first row's combo means the second row has it too. */
  lemma {:induction false} ContiguousTail(rows: seq<ComboRow>)
    requires Contiguous(rows) && |rows| > 0
    ensures Contiguous(rows[1..])
    ensures forall i :: 1 <= i < |rows| && rows[i].comboId == rows[0].comboId ==> rows[1].comboId == rows[0].comboId
  {
    var tail := rows[1..];
    forall i, j, k | 0 <= i < j < k < |tail| && tail[i].comboId == tail[k].comboId
      ensures tail[j].comboId == tail[i].comboId
    {
      assert tail[i] == rows[i + 1] && tail[j] == rows[j + 1] && tail[k] == rows[k + 1];
    }
  }

  /** With contiguous rows each group holds exactly its combo's names, and no combo forms two
      groups. */
  lemma {:induction false} RunsOfContiguous(rows: seq<ComboRow>)
    requires Contiguous(rows)
    ensures forall k :: 0 <= k < |Runs(rows)| ==> Runs(rows)[k].1 == Members(rows, Runs(rows)[k].0)
    ensures forall j, k :: 0 <= j < k < |Runs(rows)| ==> Runs(rows)[j].0 != Runs(rows)[k].0
  {
    if |rows| > 0 {
      var tail := rows[1..];
      ContiguousTail(rows);
      RunsOfContiguous(tail);
      var rest := Runs(tail);
      var rs := Runs(rows);
      var c := rows[0].comboId;
      if |rest| > 0 && rest[0].0 == c {
        RunsMerged(rows);
      } else {
        // The first row starts a group of its own: by contiguity no later row has its combo.
        assert forall i :: 0 <= i < |tail| ==> tail[i] == rows[i + 1];
        MembersOfOthers(tail, c);
        RunsIds(tail);
        RunIdsAll(rest);
        RunsSplit(rows);
      }
    }
  }

  lemma {:induction false} RunsMerged(rows: seq<ComboRow>)
    requires |rows| > 0 && |Runs(rows[1..])| > 0 && Runs(rows[1..])[0].0 == rows[0].comboId
    requires var rest := Runs(rows[1..]);
      (forall k :: 0 <= k < |rest| ==> rest[k].1 == Members(rows[1..], rest[k].0)) &&
      (forall j, k :: 0 <= j < k < |rest| ==> rest[j].0 != rest[k].0)
    ensures forall k :: 0 <= k < |Runs(rows)| ==> Runs(rows)[k].1 == Members(rows, Runs(rows)[k].0)
    ensures forall j, k :: 0 <= j < k < |Runs(rows)| ==> Runs(rows)[j].0 != Runs(rows)[k].0
  {
    assert Runs(rows)[1..] == Runs(rows[1..])[1..];
  }

  lemma {:induction false} RunsSplit(rows: seq<ComboRow>)
    requires |rows| > 0 && !(|Runs(rows[1..])| > 0 && Runs(rows[1..])[0].0 == rows[0].comboId)
    requires Members(rows[1..], rows[0].comboId) == {}
    requires var rest := Runs(rows[1..]);
      (forall k :: 0 <= k < |rest| ==> rest[k].0 != rows[0].comboId) &&
      (forall k :: 0 <= k < |rest| ==> rest[k].1 == Members(rows[1..], rest[k].0)) &&
      (forall j, k :: 0 <= j < k < |rest| ==> rest[j].0 != rest[k].0)
    ensures forall k :: 0 <= k < |Runs(rows)| ==> Runs(rows)[k].1 == Members(rows, Runs(rows)[k].0)
    ensures forall j, k :: 0 <= j < k < |Runs(rows)| ==> Runs(rows)[j].0 != Runs(rows)[k].0
  {
    assert Runs(rows)[1..] == Runs(rows[1..]);
  }

  lemma {:induction false} RunIdsAll(rs: seq<(nat, set<nat>)>)
    ensures forall k :: 0 <= k < |rs| ==> rs[k].0 in RunIds(rs)
  {
    forall k | 0 <= k < |rs| ensures rs[k].0 in RunIds(rs) {
      RunIdsHas(rs, k);
    }
  }

  /** The combo `_find_or_create_new_combo_id` reuses: the id of the first group whose names are
      exactly the wanted set. */
  function MatchingCombo(rows: seq<ComboRow>, known: set<nat>): Option<nat>
  {
    var runs := Runs(rows);
    match FindFirst(runs, (g: (nat, set<nat>)) => g.1 == known)
    case None => None
    case Some(k) => Some(runs[k].0)
  }

  /** When the rows of each combo are adjacent, the combo reused has exactly the wanted names, and
      one is found whenever some combo has exactly those names. */
  lemma {:induction false} ContiguousMatch(rows: seq<ComboRow>, known: set<nat>)
    requires Contiguous(rows)
    ensures MatchingCombo(rows, known).Some? ==>
      MatchingCombo(rows, known).value in ComboIds(rows) && Members(rows, MatchingCombo(rows, known).value) == known
    ensures MatchingCombo(rows, known).Some? <==> exists c :: c in ComboIds(rows) && Members(rows, c) == known
  {
    RunsOfContiguous(rows);
    RunsIds(rows);
    var runs := Runs(rows);
    var p := (g: (nat, set<nat>)) => g.1 == known;
    if MatchingCombo(rows, known).Some? {
      var k := FindFirst(runs, p).value;
      RunIdsHas(runs, k);
    }
    if exists c :: c in ComboIds(rows) && Members(rows, c) == known {
      var c :| c in ComboIds(rows) && Members(rows, c) == known;
      var k := RunIndex(runs, c);
      assert p(runs[k]);
    }
  }

  /** Rows that are not adjacent mislead `groupby`: here combo 5 holds names 1 and 2, yet it is
      reused for the set {1}, because its first row forms a group {1} of its own. */
  lemma {:induction false} ScatteredComboMisread()
    ensures var rows := [ComboRow(1, 5, 3), ComboRow(2, 6, 3), ComboRow(2, 5, 3)];
      !Contiguous(rows) && MatchingCombo(rows, {1}) == Some(5) && Members(rows, 5) == {1, 2}
  {
    var rows := [ComboRow(1, 5, 3), ComboRow(2, 6, 3), ComboRow(2, 5, 3)];
    assert rows[1..] == [ComboRow(2, 6, 3), ComboRow(2, 5, 3)];
    assert rows[1..][1..] == [ComboRow(2, 5, 3)];
    assert rows[1..][1..][1..] == [];
    assert Runs([ComboRow(2, 5, 3)]) == [(5, {2})];
    assert Runs(rows[1..]) == [(6, {2}), (5, {2})];
    assert Runs(rows) == [(5, {1}), (6, {2}), (5, {2})];
    assert !Contiguous(rows) by {
      assert rows[0].comboId == rows[2].comboId && rows[1].comboId != rows[0].comboId;
    }
  }

  /** The group that `_find_or_create_new_combo_id` looks for: the base combo's names (none for
      a new card) and the ACL group name. */
  function KnownIds(rows: seq<ComboRow>, base: Option<nat>, acl: nat): (known: set<nat>)
    ensures acl in known
    ensures base.Some? ==> Members(rows, base.value) <= known
    ensures forall x :: x in known ==> x == acl || (base.Some? && x in Members(rows, base.value))
  {
    (if base.None? then {} else Members(rows, base.value)) + {acl}
  }

  /** The loop over the groups: the first whose names equal `known`. */
  method FirstMatchingRun(runs: seq<(nat, set<nat>)>, known: set<nat>) returns (r: Option<nat>)
    ensures r == FindFirst(runs, (g: (nat, set<nat>)) => g.1 == known)
  {
    var i := 0;
    while i < |runs|
      invariant 0 <= i <= |runs|
      invariant forall j :: 0 <= j < i ==> runs[j].1 != known
    {
      if runs[i].1 == known {
        return Some(i);
      }
      i := i + 1;
    }
    return None;
  }

  /** `block` holds one row of combo `combo` per name of `names`, each with `locGrp`. */
  predicate OneRowPerName(block: seq<ComboRow>, combo: nat, locGrp: nat, names: set<nat>)
  {
    (forall i :: 0 <= i < |block| ==> block[i].comboId == combo && block[i].locGrp == locGrp && block[i].nameId in names) &&
    (forall i, j :: 0 <= i < j < |block| ==> block[i].nameId != block[j].nameId) &&
    Members(block, combo) == names
  }

  lemma {:induction false} OneRowPerNameStep(block: seq<ComboRow>, combo: nat, locGrp: nat, names: set<nat>, n: nat)
    requires OneRowPerName(block, combo, locGrp, names) && n !in names
    ensures OneRowPerName(block + [ComboRow(n, combo, locGrp)], combo, locGrp, names + {n})
  {
    var row := ComboRow(n, combo, locGrp);
    MembersAppend(block, [row], combo);
    assert Members([row], combo) == {n} by {
      assert [row][1..] == [];
    }
  }

  /** The inserts of a new combo `combo`: one row per name of `known`, in set order. */
  method InsertMembers(known: set<nat>, combo: nat, locGrp: nat) returns (block: seq<ComboRow>)
    ensures OneRowPerName(block, combo, locGrp, known)
  {
    block := [];
    var todo := known;
    ghost var done: set<nat> := {};
    while todo != {}
      invariant todo + done == known && todo !! done
      invariant OneRowPerName(block, combo, locGrp, done)
      decreases |todo|
    {
      var n :| n in todo;
      OneRowPerNameStep(block, combo, locGrp, done, n);
      block := block + [ComboRow(n, combo, locGrp)];
      todo := todo - {n};
      done := done + {n};
    }
  }

  /** A combo created under an id no row has (the first row, then the block) has exactly the
      names it was created for, and leaves the names of every other combo as they were. */
  lemma {:induction false} NewComboMembers(rows: seq<ComboRow>, first: ComboRow, block: seq<ComboRow>, known: set<nat>, c: nat)
    requires forall i :: 0 <= i < |rows| ==> rows[i].comboId != first.comboId
    requires first.nameId in known
    requires forall i :: 0 <= i < |block| ==> block[i].comboId == first.comboId
    requires Members(block, first.comboId) == known
    ensures var all := rows + [first] + block;
      Members(all, first.comboId) == known && (c != first.comboId ==> Members(all, c) == Members(rows, c))
  {
    MembersAppend(rows + [first], block, c);
    MembersAppend(rows, [first], c);
    MembersAppend(rows + [first], block, first.comboId);
    MembersAppend(rows, [first], first.comboId);
    assert [first][1..] == [];
    MembersOfOthers(rows, first.comboId);
    if c != first.comboId {
      MembersOfOthers(block, c);
    }
  }

  /** Appending a new combo as one block under an id no row has keeps every combo contiguous. */
  lemma {:induction false} NewComboContiguous(rows: seq<ComboRow>, block: seq<ComboRow>, combo: nat)
    requires Contiguous(rows)
    requires forall i :: 0 <= i < |rows| ==> rows[i].comboId != combo
    requires forall i :: 0 <= i < |block| ==> block[i].comboId == combo
    ensures Contiguous(rows + block)
  {
    var all := rows + block;
    assert forall i :: 0 <= i < |rows| ==> all[i] == rows[i];
    assert forall i :: |rows| <= i < |all| ==> all[i] == block[i - |rows|];
  }
}
