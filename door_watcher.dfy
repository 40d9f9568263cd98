/** The door override watcher: a table of doors held open for a while, fed by
    door-control messages and counted down once a second. */
module DoorWatching {
  import opened Wrappers
  import opened DoorOverride

  /** A door the watcher is holding open, with the seconds it has left. */
  datatype Door = Door(device: int, duration: int)

  /** One element of a message's `doors` list; a key the element lacks is None. */
  datatype DoorEntry = DoorEntry(device: Option<int>, open: Option<bool>)

  /** The table is the `_door_states` dictionary in its insertion order.
      The duration stored for a device, if it is tracked. */
  function Lookup(ds: seq<Door>, device: int): Option<int>
  {
    if |ds| == 0 then None
    else if ds[0].device == device then Some(ds[0].duration)
    else Lookup(ds[1..], device)
  }

  predicate Tracked(ds: seq<Door>, device: int)
  {
    Lookup(ds, device).Some?
  }

  /** No device appears twice, as in a dictionary. */
  predicate Distinct(ds: seq<Door>)
  {
    |ds| == 0 || (!Tracked(ds[1..], ds[0].device) && Distinct(ds[1..]))
  }

  lemma {:induction false} TrackedMeans(ds: seq<Door>, device: int)
    ensures Tracked(ds, device) <==> exists i :: 0 <= i < |ds| && ds[i].device == device
  {
    if |ds| > 0 {
      TrackedMeans(ds[1..], device);
      if exists i :: 0 <= i < |ds| && ds[i].device == device {
        var i :| 0 <= i < |ds| && ds[i].device == device;
        if i > 0 {
          assert ds[1..][i - 1].device == device;
        }
      }
      if Tracked(ds[1..], device) {
        var i :| 0 <= i < |ds[1..]| && ds[1..][i].device == device;
        assert ds[i + 1].device == device;
      }
    }
  }

  /** The table never holds two entries for one device. */
  lemma {:induction false} DistinctMeans(ds: seq<Door>)
    ensures Distinct(ds) <==> forall i, j :: 0 <= i < j < |ds| ==> ds[i].device != ds[j].device
  {
    if |ds| > 0 {
      var tail := ds[1..];
      DistinctMeans(tail);
      TrackedMeans(tail, ds[0].device);
      if Distinct(ds) {
        forall i, j | 0 <= i < j < |ds| ensures ds[i].device != ds[j].device {
          assert ds[j] == tail[j - 1];
          if i > 0 {
            assert ds[i] == tail[i - 1];
          }
        }
      }
      if forall i, j :: 0 <= i < j < |ds| ==> ds[i].device != ds[j].device {
        forall i, j | 0 <= i < j < |tail| ensures tail[i].device != tail[j].device {
          assert tail[i] == ds[i + 1] && tail[j] == ds[j + 1];
        }
        forall i | 0 <= i < |tail| ensures tail[i].device != ds[0].device {
          assert tail[i] == ds[i + 1];
        }
      }
    }
  }

  /** `self._door_states[device] = ...` or `door.duration = ...`: set the duration in place,
      or add the device at the end. */
  function Put(ds: seq<Door>, device: int, duration: int): seq<Door>
  {
    if |ds| == 0 then [Door(device, duration)]
    else if ds[0].device == device then [Door(device, duration)] + ds[1..]
    else [ds[0]] + Put(ds[1..], device, duration)
  }

  /** `del self._door_states[device]`. */
  function Remove(ds: seq<Door>, device: int): seq<Door>
  {
    if |ds| == 0 then []
    else if ds[0].device == device then Remove(ds[1..], device)
    else [ds[0]] + Remove(ds[1..], device)
  }

  lemma {:induction false} PutLookup(ds: seq<Door>, device: int, duration: int, x: int)
    ensures Lookup(Put(ds, device, duration), x) == if x == device then Some(duration) else Lookup(ds, x)
  {
    if |ds| > 0 && ds[0].device != device {
      PutLookup(ds[1..], device, duration, x);
    }
  }

  /** An untracked device goes at the end of the table; a tracked one keeps its place. */
  lemma {:induction false} PutPlaces(ds: seq<Door>, device: int, duration: int)
    ensures !Tracked(ds, device) ==> Put(ds, device, duration) == ds + [Door(device, duration)]
    ensures Tracked(ds, device) ==> |Put(ds, device, duration)| == |ds|
  {
    if |ds| > 0 && ds[0].device != device {
      PutPlaces(ds[1..], device, duration);
      assert [ds[0]] + (ds[1..] + [Door(device, duration)]) == ds + [Door(device, duration)];
    }
  }

  lemma {:induction false} RemoveLookup(ds: seq<Door>, device: int, x: int)
    ensures Lookup(Remove(ds, device), x) == if x == device then None else Lookup(ds, x)
  {
    if |ds| > 0 {
      RemoveLookup(ds[1..], device, x);
    }
  }

  /** Removing never adds: the table only shrinks. */
  lemma {:induction false} RemoveShrinks(ds: seq<Door>, device: int)
    ensures |Remove(ds, device)| <= |ds|
    ensures !Tracked(ds, device) ==> Remove(ds, device) == ds
  {
    if |ds| > 0 {
      RemoveShrinks(ds[1..], device);
    }
  }

  lemma {:induction false} PutDistinct(ds: seq<Door>, device: int, duration: int)
    requires Distinct(ds)
    ensures Distinct(Put(ds, device, duration))
  {
    if |ds| > 0 {
      var tail := ds[1..];
      if ds[0].device == device {
        assert Put(ds, device, duration)[1..] == tail;
      } else {
        PutDistinct(tail, device, duration);
        PutLookup(tail, device, duration, ds[0].device);
        assert Put(ds, device, duration)[1..] == Put(tail, device, duration);
      }
    }
  }

  lemma {:induction false} RemoveDistinct(ds: seq<Door>, device: int)
    requires Distinct(ds)
    ensures Distinct(Remove(ds, device))
  {
    if |ds| > 0 {
      var tail := ds[1..];
      RemoveDistinct(tail, device);
      if ds[0].device != device {
        RemoveLookup(tail, device, ds[0].device);
        assert Remove(ds, device)[1..] == Remove(tail, device);
      }
    }
  }

  /** One well-formed entry: open (and set the duration of) or return the device to its time zone. */
  function ApplyEntry(ds: seq<Door>, device: int, open: bool, duration: int): (seq<Door>, seq<string>)
  {
    if open then (Put(ds, device, duration), OpenDoor(device))
    else (Remove(ds, device), TimeZoneDoor(device))
  }

  /** The message's entries in list order, stopping at the first one that lacks a key. */
  function ApplyAll(ds: seq<Door>, entries: seq<DoorEntry>, duration: int): (seq<Door>, seq<string>)
    decreases |entries|
  {
    if |entries| == 0 || entries[0].device.None? || entries[0].open.None? then (ds, [])
    else
      var step := ApplyEntry(ds, entries[0].device.value, entries[0].open.value, duration);
      var rest := ApplyAll(step.0, entries[1..], duration);
      (rest.0, step.1 + rest.1)
  }

  /** After an entry, only its device has changed: an open entry tracks it with the message's
      duration, a close entry untracks it. */
  lemma EntryLookup(ds: seq<Door>, device: int, open: bool, duration: int, x: int)
    ensures Lookup(ApplyEntry(ds, device, open, duration).0, x) ==
      if x != device then Lookup(ds, x) else if open then Some(duration) else None
  {
    if open {
      PutLookup(ds, device, duration, x);
    } else {
      RemoveLookup(ds, device, x);
    }
  }

  /** A later entry for the same device wins over an earlier one. */
  lemma LaterEntryWins(ds: seq<Door>, device: int, open1: bool, open2: bool, duration1: int, duration2: int, x: int)
    ensures var once := ApplyEntry(ds, device, open1, duration1).0;
      Lookup(ApplyEntry(once, device, open2, duration2).0, x) == Lookup(ApplyEntry(ds, device, open2, duration2).0, x)
  {
    var once := ApplyEntry(ds, device, open1, duration1).0;
    EntryLookup(ds, device, open1, duration1, x);
    EntryLookup(once, device, open2, duration2, x);
    EntryLookup(ds, device, open2, duration2, x);
  }

  lemma ApplyEntryDistinct(ds: seq<Door>, device: int, open: bool, duration: int)
    requires Distinct(ds)
    ensures Distinct(ApplyEntry(ds, device, open, duration).0)
  {
    if open {
      PutDistinct(ds, device, duration);
    } else {
      RemoveDistinct(ds, device);
    }
  }

  /** The table after a tick: every door decremented, kept only while time is left. */
  function AfterTick(ds: seq<Door>): seq<Door>
  {
    if |ds| == 0 then []
    else if ds[0].duration - 1 <= 0 then AfterTick(ds[1..])
    else [Door(ds[0].device, ds[0].duration - 1)] + AfterTick(ds[1..])
  }

  /** The sends of a tick: the time-zone command of each door that ran out, in table order. */
  function TickSends(ds: seq<Door>): seq<string>
  {
    if |ds| == 0 then []
    else if ds[0].duration - 1 <= 0 then TimeZoneDoor(ds[0].device) + TickSends(ds[1..])
    else TickSends(ds[1..])
  }

  /** One step of the tick loop. */
  lemma TickStep(items: seq<Door>, i: nat)
    requires i < |items|
    ensures var d := items[i];
      AfterTick(items[i..]) == (if d.duration - 1 <= 0 then [] else [Door(d.device, d.duration - 1)]) + AfterTick(items[i + 1..])
    ensures var d := items[i];
      TickSends(items[i..]) == (if d.duration - 1 <= 0 then TimeZoneDoor(d.device) else []) + TickSends(items[i + 1..])
  {
    assert items[i..][1..] == items[i + 1..];
  }

  /** One step of the message loop: a malformed entry ends it, a well-formed one is applied. */
  lemma ApplyStep(ds: seq<Door>, entries: seq<DoorEntry>, i: nat, duration: int)
    requires i < |entries|
    ensures entries[i].device.None? || entries[i].open.None? ==> ApplyAll(ds, entries[i..], duration) == (ds, [])
    ensures entries[i].device.Some? && entries[i].open.Some? ==>
      var step := ApplyEntry(ds, entries[i].device.value, entries[i].open.value, duration);
      var rest := ApplyAll(step.0, entries[i + 1..], duration);
      ApplyAll(ds, entries[i..], duration) == (rest.0, step.1 + rest.1)
  {
    assert entries[i..][0] == entries[i];
    assert entries[i..][1..] == entries[i + 1..];
  }

  /** After a tick every tracked door lost exactly one second, and those left with none are gone. */
  lemma {:induction false} TickLookup(ds: seq<Door>, x: int)
    requires Distinct(ds)
    ensures Lookup(AfterTick(ds), x) ==
      match Lookup(ds, x)
      case None => None
      case Some(left) => if left - 1 <= 0 then None else Some(left - 1)
  {
    if |ds| > 0 {
      TickLookup(ds[1..], x);
      if ds[0].device == x {
        TickUntracked(ds[1..], x);
      }
      var t := AfterTick(ds);
      if ds[0].duration - 1 > 0 {
        assert t[0] == Door(ds[0].device, ds[0].duration - 1);
        assert t[1..] == AfterTick(ds[1..]);
      }
    }
  }

  /** A device the table does not hold stays untracked through a tick. */
  lemma {:induction false} TickUntracked(ds: seq<Door>, x: int)
    requires !Tracked(ds, x)
    ensures !Tracked(AfterTick(ds), x)
  {
    if |ds| > 0 {
      TickUntracked(ds[1..], x);
      var t := AfterTick(ds);
      if ds[0].duration - 1 > 0 {
        assert t[1..] == AfterTick(ds[1..]);
      }
    }
  }

  lemma {:induction false} TickDistinct(ds: seq<Door>)
    requires Distinct(ds)
    ensures Distinct(AfterTick(ds))
  {
    if |ds| > 0 {
      TickDistinct(ds[1..]);
      TickUntracked(ds[1..], ds[0].device);
      var t := AfterTick(ds);
      if ds[0].duration - 1 > 0 {
        assert t[1..] == AfterTick(ds[1..]);
      }
    }
  }

  /** After a tick every remaining door has time left. */
  lemma {:induction false} TickPositive(ds: seq<Door>)
    ensures forall i :: 0 <= i < |AfterTick(ds)| ==> AfterTick(ds)[i].duration > 0
  {
    if |ds| > 0 {
      TickPositive(ds[1..]);
      var t := AfterTick(ds);
      if ds[0].duration - 1 > 0 {
        forall i | 0 <= i < |t| ensures t[i].duration > 0 {
          if i > 0 {
            assert t[i] == AfterTick(ds[1..])[i - 1];
          }
        }
      }
    }
  }

  /** A tick sends nothing exactly when no door runs out. */
  lemma {:induction false} TickSendsEmpty(ds: seq<Door>)
    ensures TickSends(ds) == [] <==> forall i :: 0 <= i < |ds| ==> ds[i].duration - 1 > 0
  {
    if |ds| > 0 {
      TickSendsEmpty(ds[1..]);
      if forall i :: 0 <= i < |ds[1..]| ==> ds[1..][i].duration - 1 > 0 {
        if ds[0].duration - 1 > 0 {
          forall i | 0 <= i < |ds| ensures ds[i].duration - 1 > 0 {
            if i > 0 {
              assert ds[i] == ds[1..][i - 1];
            }
          }
        }
      } else {
        var i :| 0 <= i < |ds[1..]| && ds[1..][i].duration - 1 <= 0;
        assert ds[i + 1] == ds[1..][i];
      }
    }
  }

  /** The loop of `_on_door_update` over the message's entries; an entry that lacks a key
      raises, which ends the loop with the earlier entries applied. */
  method ApplyEntries(ds: seq<Door>, entries: seq<DoorEntry>, duration: int) returns (table: seq<Door>, out: seq<string>)
    requires Distinct(ds)
    ensures Distinct(table)
    ensures table == ApplyAll(ds, entries, duration).0
    ensures out == ApplyAll(ds, entries, duration).1
  {
    table := ds;
    out := [];
    var i := 0;
    while i < |entries|
      invariant 0 <= i <= |entries|
      invariant Distinct(table)
      invariant ApplyAll(table, entries[i..], duration).0 == ApplyAll(ds, entries, duration).0
      invariant out + ApplyAll(table, entries[i..], duration).1 == ApplyAll(ds, entries, duration).1
    {
      ApplyStep(table, entries, i, duration);
      if entries[i].device.None? || entries[i].open.None? {
        break;
      }
      var device := entries[i].device.value;
      ApplyEntryDistinct(table, device, entries[i].open.value, duration);
      var step := ApplyEntry(table, device, entries[i].open.value, duration);
      ghost var rest := ApplyAll(step.0, entries[i + 1..], duration);
      assert out + ApplyAll(table, entries[i..], duration).1 == out + (step.1 + rest.1);
      table := step.0;
      out := out + step.1;
      i := i + 1;
    }
  }

  /** The loop of one `_run` pass over a snapshot of the table. */
  method CountDown(items: seq<Door>) returns (kept: seq<Door>, out: seq<string>)
    ensures kept == AfterTick(items)
    ensures out == TickSends(items)
  {
    kept := [];
    out := [];
    var i := 0;
    while i < |items|
      invariant 0 <= i <= |items|
      invariant kept + AfterTick(items[i..]) == AfterTick(items)
      invariant out + TickSends(items[i..]) == TickSends(items)
    {
      var door := items[i];
      TickStep(items, i);
      var left := door.duration - 1;
      if left <= 0 {
        out := out + TimeZoneDoor(door.device);
      } else {
        kept := kept + [Door(door.device, left)];
      }
      i := i + 1;
    }
    assert items[i..] == [];
  }

  /** DoorOverrideWatcher: the door table and the sends made to the comm server. */
  class DoorOverrideWatcher {
    var doors: seq<Door>
    var sent: seq<string>

    predicate Valid()
      reads this
    {
      Distinct(doors)
    }

    constructor ()
      ensures doors == [] && sent == [] && Valid()
    {
      doors := [];
      sent := [];
    }

    /** `_on_door_update` for a message with these entries and this duration. */
    method OnDoorUpdate(entries: seq<DoorEntry>, duration: int)
      requires Valid()
      modifies this
      ensures Valid()
      ensures doors == ApplyAll(old(doors), entries, duration).0
      ensures sent == old(sent) + ApplyAll(old(doors), entries, duration).1
    {
      var out;
      doors, out := ApplyEntries(doors, entries, duration);
      sent := sent + out;
    }

    /** One pass of `_run`: every door loses a second, in table order; one that has run out
        is returned to its time zone and dropped. */
    method Tick()
      requires Valid()
      modifies this
      ensures Valid()
      ensures doors == AfterTick(old(doors))
      ensures sent == old(sent) + TickSends(old(doors))
    {
      var out;
      TickDistinct(doors);
      doors, out := CountDown(doors);
      sent := sent + out;
    }
  }
}
