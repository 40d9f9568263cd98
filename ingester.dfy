/** The ingester: one cycle of `Ingester._run`. Requests come from JSON files in the ingest
    directory and from the webhook server; each becomes a command on the shared queue. */
module Ingestion {
  import opened Wrappers
  import opened Commands

  /** A JSON request object; a key it lacks is absent from the map. */
  type Request = map<string, string>

  /** A file found in the ingest directory; None when its text is not JSON. */
  datatype IngestFile = IngestFile(name: string, json: Option<Request>)

  /** The `KeyError` of a request that lacks a field. */
  datatype KeyError = KeyError(key: string)

  /** The request carries every field an enable command is built from. */
  predicate EnableFields(json: Request)
  {
    "id" in json && "first_name" in json && "last_name" in json && "company" in json && "card" in json
  }

  /** The request carries every field a disable command is built from. */
  predicate DisableFields(json: Request)
  {
    "id" in json && "card" in json && "company" in json
  }

  /** `_get_dsx_command`: an enable command built from the request's id, first name, last name,
      company and card, a disable command from its id, card and company, None for any other
      method, and a KeyError naming a field the request lacks when one it needs is missing. */
  function Translate(json: Request): (r: Result<Option<Command>, KeyError>)
    ensures r.Err? <==> ("method" !in json ||
      (json["method"] == "enable" && !EnableFields(json)) ||
      (json["method"] == "disable" && !DisableFields(json)))
    ensures r.Err? ==> r.error.key !in json
    ensures "method" in json && json["method"] == "enable" && EnableFields(json) ==>
      r == Ok(Some(EnableCard(json["id"], json["first_name"], json["last_name"], json["company"], json["card"])))
    ensures "method" in json && json["method"] == "disable" && DisableFields(json) ==>
      r == Ok(Some(DisableCard(json["id"], json["card"], json["company"])))
    ensures "method" in json && json["method"] != "enable" && json["method"] != "disable" ==> r == Ok(None)
  {
    if "method" !in json then Err(KeyError("method"))
    else if json["method"] == "enable" then
      if "id" !in json then Err(KeyError("id"))
      else if "first_name" !in json then Err(KeyError("first_name"))
      else if "last_name" !in json then Err(KeyError("last_name"))
      else if "company" !in json then Err(KeyError("company"))
      else if "card" !in json then Err(KeyError("card"))
      else Ok(Some(EnableCard(json["id"], json["first_name"], json["last_name"], json["company"], json["card"])))
    else if json["method"] == "disable" then
      if "id" !in json then Err(KeyError("id"))
      else if "card" !in json then Err(KeyError("card"))
      else if "company" !in json then Err(KeyError("company"))
      else Ok(Some(DisableCard(json["id"], json["card"], json["company"])))
    else Ok(None)
  }

  /** What the file loop does: the commands queued and the files removed, in order, and whether it
      stopped at a file that could not be read or translated. */
  datatype FileOutcome = FileOutcome(queued: seq<Option<Command>>, removed: seq<string>, failed: bool)

  function Files(files: seq<IngestFile>): FileOutcome
  {
    if |files| == 0 then FileOutcome([], [], false)
    else if files[0].json.None? then FileOutcome([], [], true)
    else match Translate(files[0].json.value)
      case Err(_) => FileOutcome([], [], true)
      case Ok(c) =>
        var rest := Files(files[1..]);
        FileOutcome([c] + rest.queued, [files[0].name] + rest.removed, rest.failed)
  }

  /** What the update loop does: the commands queued, the ids they were queued for, the seen set
      it leaves behind, and whether it stopped at an update that lacked a key. */
  datatype UpdateOutcome = UpdateOutcome(queued: seq<Option<Command>>, ids: seq<string>, seen: set<string>, failed: bool)

  function Updates(seen: set<string>, updates: seq<Request>): UpdateOutcome
    decreases |updates|
  {
    if |updates| == 0 then UpdateOutcome([], [], seen, false)
    else if "id" !in updates[0] then UpdateOutcome([], [], seen, true)
    else
      var id := updates[0]["id"];
      if id in seen then Updates(seen, updates[1..])
      else match Translate(updates[0])
        case Err(_) => UpdateOutcome([], [], seen, true)
        case Ok(c) =>
          var rest := Updates(seen + {id}, updates[1..]);
          UpdateOutcome([c] + rest.queued, [id] + rest.ids, rest.seen, rest.failed)
  }

  /** `updates or []`. */
  function Batch(updates: Option<seq<Request>>): seq<Request>
  {
    if updates.Some? then updates.value else []
  }

  /** The loop over the ingest files: each one read and translated is queued and then removed. */
  method IngestFiles(files: seq<IngestFile>) returns (queued: seq<Option<Command>>, removed: seq<string>, failed: bool)
    ensures FileOutcome(queued, removed, failed) == Files(files)
  {
    queued, removed, failed := [], [], false;
    var i := 0;
    while i < |files|
      invariant 0 <= i <= |files|
      invariant var rest := Files(files[i..]);
        FileOutcome(queued + rest.queued, removed + rest.removed, rest.failed) == Files(files)
    {
      assert files[i..][0] == files[i] && files[i..][1..] == files[i + 1..];
      if files[i].json.None? {
        failed := true;
        return;
      }
      var c := Translate(files[i].json.value);
      if c.Err? {
        failed := true;
        return;
      }
      queued := queued + [c.value];
      removed := removed + [files[i].name];
      i := i + 1;
    }
  }

  /** The loop over the server's updates: an id already seen is skipped, a new one is translated,
      queued and only then marked as seen. */
  method IngestUpdates(seen0: set<string>, updates: seq<Request>)
    returns (queued: seq<Option<Command>>, seen: set<string>, failed: bool)
    ensures var o := Updates(seen0, updates);
      queued == o.queued && seen == o.seen && failed == o.failed
  {
    queued, seen, failed := [], seen0, false;
    var i := 0;
    while i < |updates|
      invariant 0 <= i <= |updates|
      invariant var rest := Updates(seen, updates[i..]); var o := Updates(seen0, updates);
        queued + rest.queued == o.queued && rest.seen == o.seen && rest.failed == o.failed
    {
      assert updates[i..][0] == updates[i] && updates[i..][1..] == updates[i + 1..];
      if "id" !in updates[i] {
        failed := true;
        return;
      }
      var id := updates[i]["id"];
      if id !in seen {
        var c := Translate(updates[i]);
        if c.Err? {
          failed := true;
          return;
        }
        queued := queued + [c.value];
        seen := seen + {id};
      }
      i := i + 1;
    }
  }

  /** The ids an update loop queues for are new and distinct, and each queued command carries its id. */
  lemma {:induction false} UpdatesIds(seen: set<string>, updates: seq<Request>)
    decreases |updates|
    ensures var o := Updates(seen, updates);
      |o.ids| == |o.queued| &&
      (forall k :: 0 <= k < |o.ids| ==> o.ids[k] !in seen) &&
      (forall j, k :: 0 <= j < k < |o.ids| ==> o.ids[j] != o.ids[k]) &&
      (forall k :: 0 <= k < |o.queued| && o.queued[k].Some? ==> o.queued[k].value.commandId == o.ids[k])
  {
    if |updates| > 0 && "id" in updates[0] {
      var id := updates[0]["id"];
      if id in seen {
        UpdatesIds(seen, updates[1..]);
      } else if Translate(updates[0]).Ok? {
        var rest := Updates(seen + {id}, updates[1..]);
        UpdatesIds(seen + {id}, updates[1..]);
        var o := Updates(seen, updates);
        assert o.ids == [id] + rest.ids && o.queued == [Translate(updates[0]).value] + rest.queued;
        forall k | 0 <= k < |o.queued| && o.queued[k].Some? ensures o.queued[k].value.commandId == o.ids[k] {
          if k > 0 {
            assert o.queued[k] == rest.queued[k - 1] && o.ids[k] == rest.ids[k - 1];
          }
        }
        forall j, k | 0 <= j < k < |o.ids| ensures o.ids[j] != o.ids[k] {
          assert o.ids[k] == rest.ids[k - 1];
          if j > 0 {
            assert o.ids[j] == rest.ids[j - 1];
          }
        }
      }
    }
  }

  /** The seen set an update loop leaves is the one it started from plus the ids it queued for. */
  lemma {:induction false} UpdatesSeen(seen: set<string>, updates: seq<Request>)
    decreases |updates|
    ensures var o := Updates(seen, updates); o.seen == seen + (set id | id in o.ids)
  {
    if |updates| > 0 && "id" in updates[0] {
      var id := updates[0]["id"];
      if id in seen {
        UpdatesSeen(seen, updates[1..]);
      } else if Translate(updates[0]).Ok? {
        UpdatesSeen(seen + {id}, updates[1..]);
        var rest := Updates(seen + {id}, updates[1..]);
        assert (set x | x in [id] + rest.ids) == {id} + (set x | x in rest.ids);
      }
    }
  }

  /** Files are not deduplicated: each file up to the first failure is queued once and removed. */
  lemma {:induction false} FilesAllQueued(files: seq<IngestFile>)
    ensures var o := Files(files);
      |o.queued| == |o.removed| <= |files| &&
      (forall k :: 0 <= k < |o.removed| ==> o.removed[k] == files[k].name) &&
      (!o.failed ==> |o.removed| == |files|)
  {
    if |files| > 0 && files[0].json.Some? && Translate(files[0].json.value).Ok? {
      FilesAllQueued(files[1..]);
      var o := Files(files);
      var rest := Files(files[1..]);
      forall k | 0 <= k < |o.removed| ensures o.removed[k] == files[k].name {
        if k > 0 {
          assert o.removed[k] == rest.removed[k - 1] && files[k] == files[1..][k - 1];
        }
      }
    }
  }

  /** Ingester: the seen-id set (`requests_from_api_in_queue`) and the queue it fills. */
  class Ingester {
    const queue: CommandQueue
    var seen: set<string>

    constructor (queue: CommandQueue)
      ensures this.queue == queue && seen == {}
    {
      this.queue := queue;
      seen := {};
    }

    /** One cycle: the ingest files, then the server's updates (`None` counts as an empty batch).
        The first exception abandons the rest of the cycle, updates included; what was queued
        before it stays queued. Returns the files removed. */
    method RunCycle(files: seq<IngestFile>, updates: Option<seq<Request>>) returns (removed: seq<string>)
      modifies this, queue
      ensures var f := Files(files);
        var u := if f.failed then UpdateOutcome([], [], old(seen), false) else Updates(old(seen), Batch(updates));
        removed == f.removed &&
        queue.items == old(queue.items) + f.queued + u.queued &&
        seen == u.seen
    {
      var queued, failed;
      queued, removed, failed := IngestFiles(files);
      PutAll(queued);
      if failed {
        return;
      }
      var more, newSeen, failedUpdate := IngestUpdates(seen, Batch(updates));
      PutAll(more);
      seen := newSeen;
    }

    method PutAll(cs: seq<Option<Command>>)
      modifies queue
      ensures queue.items == old(queue.items) + cs
    {
      var i := 0;
      while i < |cs|
        invariant 0 <= i <= |cs|
        invariant queue.items == old(queue.items) + cs[..i]
      {
        queue.Put(cs[i]);
        assert cs[..i + 1] == cs[..i] + [cs[i]];
        i := i + 1;
      }
      assert cs[..i] == cs;
    }
  }

  /** The seen set only grows, and by exactly the ids queued this cycle, none of which had been
      seen before; this holds also when the batch stops at a bad update. */
  lemma SeenGrows(seen: set<string>, updates: seq<Request>)
    ensures var o := Updates(seen, updates);
      seen <= o.seen && o.seen - seen == (set id | id in o.ids) && (forall id :: id in o.ids ==> id !in seen)
  {
    UpdatesIds(seen, updates);
    UpdatesSeen(seen, updates);
  }

  /** An update whose id is already in the seen set adds nothing: it is not translated or queued. */
  lemma SeenSkipped(seen: set<string>, update: Request, rest: seq<Request>)
    requires "id" in update && update["id"] in seen
    ensures Updates(seen, [update] + rest) == Updates(seen, rest)
  {
    assert ([update] + rest)[1..] == rest;
  }

  /** An update that lacks a key ends the batch, and its id is not marked as seen. */
  lemma FailedNotSeen(seen: set<string>, update: Request, rest: seq<Request>)
    requires "id" in update && update["id"] !in seen && Translate(update).Err?
    ensures Updates(seen, [update] + rest) == UpdateOutcome([], [], seen, true)
  {
  }

  /** A `None` batch is the empty batch. */
  lemma NoneBatch(seen: set<string>)
    ensures Updates(seen, Batch(None)) == UpdateOutcome([], [], seen, false)
  {
  }
}
