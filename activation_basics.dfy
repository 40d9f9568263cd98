/** WinDSX card activation: the find-or-create reconciliation of a card's access against the
    WinDSX Access database. A permission is an ACL group name; cards carry a combo (a set of ACL
    group names), the combo's grants give devices per time zone, each device set must match a
    128-bit device group, each (time zone, device group) pair an ACL entry, and the card's
    LocCards row carries up to five ACL ids. */
module ActivationBasics {
  import opened Wrappers

  /** The exceptions the activation code raises. */
  datatype Raised =
    | NoUdfName        // ValueError: the "ID" UDF name is missing
    | NoCompany        // ValueError: no company of that name
    | NoAclName        // ValueError: the default ACL group name is missing
    | MaxOfEmpty       // ValueError: `max` of an empty list
    | MalformedInsert  // the database refuses the DGRP INSERT statement
    | NoDGrpColumn     // AttributeError: `x.DGrp` on a row of `SELECT Acl FROM ACL`
    | UpdateTimedOut   // "Comm Server update timed out"

  /** The first index of `s` whose element satisfies `p`: what `fetchone`/`fetchval` return for a
      query whose WHERE clause is `p`, in table order. */
  function FindFirst<T>(s: seq<T>, p: T -> bool): (r: Option<nat>)
    ensures r.Some? ==> r.value < |s| && p(s[r.value]) && forall j :: 0 <= j < r.value ==> !p(s[j])
    ensures r.None? ==> forall j :: 0 <= j < |s| ==> !p(s[j])
  {
    if |s| == 0 then None
    else if p(s[0]) then Some(0)
    else match FindFirst(s[1..], p)
      case None => None
      case Some(k) => assert s[1..][k] == s[k + 1]; Some(k + 1)
  }

  /** A lookup gives the same answer on a table whose rows answer the query as before. */
  lemma {:induction false} FindFirstSame<T>(a: seq<T>, b: seq<T>, p: T -> bool)
    requires |a| == |b| && forall i :: 0 <= i < |a| ==> p(a[i]) == p(b[i])
    ensures FindFirst(a, p) == FindFirst(b, p)
  {
    if |a| > 0 && !p(a[0]) {
      FindFirstSame(a[1..], b[1..], p);
    }
  }

  /** A row appended to a table that had no match is the first match. */
  lemma {:induction false} FindFirstAppend<T>(a: seq<T>, x: T, p: T -> bool)
    requires FindFirst(a, p).None? && p(x)
    ensures FindFirst(a + [x], p) == Some(|a|)
  {
    assert (a + [x])[|a|] == x;
    assert forall j :: 0 <= j < |a| ==> (a + [x])[j] == a[j];
  }
}
