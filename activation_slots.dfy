/** The five ACL slots of a LocCards row, and the wait for the Comm Server download. */
module ActivationSlots {
  import opened Wrappers

  // ---------------------------------------------------------------------------------------------
  // LocCards slots.

  /** The five ACL columns of a LocCards row. */
  datatype Slots = Slots(acl: int, acl1: int, acl2: int, acl3: int, acl4: int)
  {
    function List(): (l: seq<int>)
      ensures |l| == 5
    {
      [acl, acl1, acl2, acl3, acl4]
    }
  }

  function Min(a: int, b: int): int
  {
    if a < b then a else b
  }

  /** What popping the set into the five slots leaves: the first min(5, |ids|) slots hold
      distinct ids of the set, the rest -1. */
  predicate SlotsFor(ids: set<nat>, s: Slots)
  {
    var l := s.List();
    var n := Min(5, |ids|);
    (forall i :: 0 <= i < n ==> l[i] in ids) &&
    (forall i, j :: 0 <= i < j < n ==> l[i] != l[j]) &&
    (forall i :: n <= i < 5 ==> l[i] == -1)
  }

  /** `if acl_ids: slot = acl_ids.pop()`: an element of the set in whatever order the set gives,
      or the slot's -1 when the set is empty. */
  method PopOr(ids: set<nat>) returns (x: int, rest: set<nat>)
    ensures ids == {} ==> x == -1 && rest == {}
    ensures ids != {} ==> x in ids && rest == ids - {x} && |rest| == |ids| - 1
  {
    if |ids| == 0 {
      x, rest := -1, {};
    } else {
      x :| x in ids;
      rest := ids - {x};
    }
  }

  /** The first slots filled so far: `n` of them were popped from the set and are distinct, the
      others got -1 once the set ran out; `left` is what remains. */
  ghost predicate Filled(ids: set<nat>, vals: seq<int>, n: nat, left: set<nat>)
  {
    n <= |vals| && n + |left| == |ids| && left <= ids && (n < |vals| ==> left == {}) &&
    (forall i :: 0 <= i < n ==> vals[i] in ids && vals[i] !in left) &&
    (forall i, j :: 0 <= i < j < n ==> vals[i] != vals[j]) &&
    (forall i :: n <= i < |vals| ==> vals[i] == -1)
  }

  /** One guarded pop extends the filled slots by one. */
  lemma {:induction false} FillStep(ids: set<nat>, vals: seq<int>, n: nat, before: set<nat>, x: int, rest: set<nat>)
    requires Filled(ids, vals, n, before)
    requires before == {} ==> x == -1 && rest == {}
    requires before != {} ==> x in before && rest == before - {x} && |rest| == |before| - 1
    ensures Filled(ids, vals + [x], if before == {} then n else n + 1, rest)
  {
  }

  lemma {:induction false} FilledSlots(ids: set<nat>, s: Slots, n: nat, left: set<nat>)
    requires Filled(ids, s.List(), n, left)
    ensures SlotsFor(ids, s)
  {
    assert n == Min(5, |ids|);
  }

  /** The five guarded pops of `_create_or_update_loc_cards`. */
  method PopSlots(ids: set<nat>) returns (s: Slots)
    ensures SlotsFor(ids, s)
  {
    ghost var vals: seq<int>, n: nat := [], 0;
    var acl, left0 := PopOr(ids);
    FillStep(ids, vals, n, ids, acl, left0);
    vals, n := vals + [acl], if ids == {} then n else n + 1;
    var acl1, left1 := PopOr(left0);
    FillStep(ids, vals, n, left0, acl1, left1);
    vals, n := vals + [acl1], if left0 == {} then n else n + 1;
    var acl2, left2 := PopOr(left1);
    FillStep(ids, vals, n, left1, acl2, left2);
    vals, n := vals + [acl2], if left1 == {} then n else n + 1;
    var acl3, left3 := PopOr(left2);
    FillStep(ids, vals, n, left2, acl3, left3);
    vals, n := vals + [acl3], if left2 == {} then n else n + 1;
    var acl4, left4 := PopOr(left3);
    FillStep(ids, vals, n, left3, acl4, left4);
    vals, n := vals + [acl4], if left3 == {} then n else n + 1;
    s := Slots(acl, acl1, acl2, acl3, acl4);
    assert s.List() == vals;
    FilledSlots(ids, s, n, left4);
  }

  // ---------------------------------------------------------------------------------------------
  // The download barrier.

  /** The polls of `_encourage_system_update`: `poll(i)` is what the i-th read of LOC.FullDlFlag
      returns. The result is the number of the first poll that reads false, within 30 polls. */
  method AwaitDownload(poll: nat -> bool) returns (r: Option<nat>)
    ensures r.Some? ==> r.value < 30 && !poll(r.value) && forall j :: 0 <= j < r.value ==> poll(j)
    ensures r.None? <==> forall j :: 0 <= j < 30 ==> poll(j)
  {
    var i := 0;
    while i < 30
      invariant 0 <= i <= 30
      invariant forall j :: 0 <= j < i ==> poll(j)
    {
      if !poll(i) {
        return Some(i);
      }
      i := i + 1;
    }
    return None;
  }
}
