/** The two card commands: how a card-holder lookup is classified into a status,
    and the DSX import command each one builds. */
module Commands {
  import opened Wrappers
  import opened Text
  import opened Clock
  import opened Dsx

  /** The fixed status vocabulary reported back to the webhook server. */
  datatype Status = NotDone | Success | ErrorMultipleCardHolders | DeactivateCardNotFound
  {
    function Code(): (s: string)
      ensures |s| > 0
    {
      match this
      case NotDone => "not_done"
      case Success => "success"
      case ErrorMultipleCardHolders => "error_multiple_card_holders"
      case DeactivateCardNotFound => "deactivate_card_not_found"
    }
  }

  function ParseStatus(s: string): Option<Status>
  {
    if s == "not_done" then Some(NotDone)
    else if s == "success" then Some(Success)
    else if s == "error_multiple_card_holders" then Some(ErrorMultipleCardHolders)
    else if s == "deactivate_card_not_found" then Some(DeactivateCardNotFound)
    else None
  }

  /** The four codes are distinct: each reads back as the status it came from. */
  lemma StatusCodeRoundTrip(st: Status)
    ensures ParseStatus(st.Code()) == Some(st)
  {
  }

  /** One row of a card-holder lookup. */
  datatype CardHolder = CardHolder(
    nameId: int,
    firstName: string,
    lastName: string,
    company: string,
    udfId: string,
    card: string,
    cardActive: bool)

  /** `list(dict.fromkeys(...))` over the holders' name ids: first occurrences, in order. */
  function NameIds(holders: seq<CardHolder>): seq<int>
  {
    if |holders| == 0 then []
    else
      var rest := NameIds(holders[..|holders| - 1]);
      var id := holders[|holders| - 1].nameId;
      if id in rest then rest else rest + [id]
  }

  /** The holders disagree about who they are: two rows carry different name ids. */
  predicate SeveralPeople(holders: seq<CardHolder>)
  {
    exists i, j :: 0 <= i < |holders| && 0 <= j < |holders| && holders[i].nameId != holders[j].nameId
  }

  /** The deduplicated list holds exactly the name ids of the holders ... */
  lemma {:induction false} NameIdsMembers(holders: seq<CardHolder>)
    ensures forall x :: x in NameIds(holders) <==> exists i :: 0 <= i < |holders| && holders[i].nameId == x
  {
    if |holders| > 0 {
      var init := holders[..|holders| - 1];
      NameIdsMembers(init);
      forall x | (exists i :: 0 <= i < |holders| && holders[i].nameId == x)
        ensures x in NameIds(holders)
      {
        var i :| 0 <= i < |holders| && holders[i].nameId == x;
        if i < |holders| - 1 {
          assert init[i].nameId == x;
        }
      }
      forall x | x in NameIds(holders)
        ensures exists i :: 0 <= i < |holders| && holders[i].nameId == x
      {
        if x in NameIds(init) {
          var i :| 0 <= i < |init| && init[i].nameId == x;
          assert holders[i].nameId == x;
        } else {
          assert holders[|holders| - 1].nameId == x;
        }
      }
    }
  }

  /** ... each of them once. */
  lemma {:induction false} NameIdsDistinct(holders: seq<CardHolder>)
    ensures forall i, j :: 0 <= i < j < |NameIds(holders)| ==> NameIds(holders)[i] != NameIds(holders)[j]
  {
    if |holders| > 0 {
      NameIdsDistinct(holders[..|holders| - 1]);
    }
  }

  /** More than one distinct name id exactly when two holders differ. */
  lemma NameIdsCount(holders: seq<CardHolder>)
    ensures |NameIds(holders)| > 1 <==> SeveralPeople(holders)
  {
    var ids := NameIds(holders);
    NameIdsMembers(holders);
    if |ids| > 1 {
      NameIdsDistinct(holders);
      assert ids[0] in ids && ids[1] in ids;
      var i :| 0 <= i < |holders| && holders[i].nameId == ids[0];
      var j :| 0 <= j < |holders| && holders[j].nameId == ids[1];
      assert holders[i].nameId != holders[j].nameId;
    }
    if SeveralPeople(holders) {
      var i, j :| 0 <= i < |holders| && 0 <= j < |holders| && holders[i].nameId != holders[j].nameId;
      assert holders[i].nameId in ids && holders[j].nameId in ids;
      var a :| 0 <= a < |ids| && ids[a] == holders[i].nameId;
      var b :| 0 <= b < |ids| && ids[b] == holders[j].nameId;
      assert a != b;
    }
  }

  /** A holder's card is the requested one, as given or without its leading zeros. */
  predicate CardMatches(card: string, cardNum: string)
  {
    card == cardNum || card == LStripZeros(cardNum)
  }

  /** The loop of the enable status: the first matching active card wins. */
  function EnableScan(holders: seq<CardHolder>, cardNum: string): Status
  {
    if |holders| == 0 then NotDone
    else if CardMatches(holders[0].card, cardNum) && holders[0].cardActive then Success
    else EnableScan(holders[1..], cardNum)
  }

  /** `EnableCardCommand.status` over the result of the lookup by name. */
  function EnableStatus(cardNum: string, holders: seq<CardHolder>): Status
  {
    if |NameIds(holders)| > 1 then ErrorMultipleCardHolders else EnableScan(holders, cardNum)
  }

  lemma {:induction false} EnableScanSpec(holders: seq<CardHolder>, cardNum: string)
    ensures EnableScan(holders, cardNum) == Success || EnableScan(holders, cardNum) == NotDone
    ensures EnableScan(holders, cardNum) == Success <==>
      exists i :: 0 <= i < |holders| && CardMatches(holders[i].card, cardNum) && holders[i].cardActive
  {
    if |holders| > 0 {
      EnableScanSpec(holders[1..], cardNum);
      if exists i :: 0 <= i < |holders| && CardMatches(holders[i].card, cardNum) && holders[i].cardActive {
        var i :| 0 <= i < |holders| && CardMatches(holders[i].card, cardNum) && holders[i].cardActive;
        if i > 0 {
          assert holders[1..][i - 1] == holders[i];
        }
      }
      if EnableScan(holders[1..], cardNum) == Success && !(CardMatches(holders[0].card, cardNum) && holders[0].cardActive) {
        var i :| 0 <= i < |holders[1..]| && CardMatches(holders[1..][i].card, cardNum) && holders[1..][i].cardActive;
        assert holders[i + 1] == holders[1..][i];
      }
    }
  }

  /** The enable status: an error when the holders are several people; otherwise success
      exactly when one of them has the card, active; otherwise not done. */
  lemma EnableStatusSpec(cardNum: string, holders: seq<CardHolder>)
    ensures EnableStatus(cardNum, holders) == ErrorMultipleCardHolders <==> SeveralPeople(holders)
    ensures EnableStatus(cardNum, holders) == Success <==>
      !SeveralPeople(holders) &&
      exists i :: 0 <= i < |holders| && CardMatches(holders[i].card, cardNum) && holders[i].cardActive
    ensures EnableStatus(cardNum, holders) != DeactivateCardNotFound
  {
    NameIdsCount(holders);
    EnableScanSpec(holders, cardNum);
  }

  /** The loop of the disable status: the first matching card decides. */
  function DisableScan(holders: seq<CardHolder>, cardNum: string): Status
  {
    if |holders| == 0 then DeactivateCardNotFound
    else if CardMatches(holders[0].card, cardNum) then (if !holders[0].cardActive then Success else NotDone)
    else DisableScan(holders[1..], cardNum)
  }

  /** `DisableCardCommand.status` over the result of the lookup by card number. */
  function DisableStatus(cardNum: string, holders: seq<CardHolder>): Status
  {
    if |NameIds(holders)| > 1 then ErrorMultipleCardHolders else DisableScan(holders, cardNum)
  }

  /** No holder has the card. */
  predicate NoMatch(holders: seq<CardHolder>, cardNum: string)
  {
    forall i :: 0 <= i < |holders| ==> !CardMatches(holders[i].card, cardNum)
  }

  /** Holder `i` is the first one with the card. */
  predicate IsFirstMatch(holders: seq<CardHolder>, cardNum: string, i: int)
  {
    0 <= i < |holders| && CardMatches(holders[i].card, cardNum) &&
    forall j :: 0 <= j < i ==> !CardMatches(holders[j].card, cardNum)
  }

  /** What the first match decides. */
  function MatchStatus(h: CardHolder): Status
  {
    if h.cardActive then NotDone else Success
  }

  lemma {:induction false} DisableScanSpec(holders: seq<CardHolder>, cardNum: string)
    ensures DisableScan(holders, cardNum) != ErrorMultipleCardHolders
    ensures DisableScan(holders, cardNum) == DeactivateCardNotFound <==> NoMatch(holders, cardNum)
    ensures forall i :: IsFirstMatch(holders, cardNum, i) ==> DisableScan(holders, cardNum) == MatchStatus(holders[i])
  {
    if |holders| > 0 {
      var tail := holders[1..];
      DisableScanSpec(tail, cardNum);
      if !CardMatches(holders[0].card, cardNum) {
        forall i | IsFirstMatch(holders, cardNum, i)
          ensures DisableScan(holders, cardNum) == MatchStatus(holders[i])
        {
          assert tail[i - 1] == holders[i];
          forall j | 0 <= j < i - 1 ensures !CardMatches(tail[j].card, cardNum) {
            assert tail[j] == holders[j + 1];
          }
          assert IsFirstMatch(tail, cardNum, i - 1);
        }
        if NoMatch(tail, cardNum) {
          forall i | 0 <= i < |holders| ensures !CardMatches(holders[i].card, cardNum) {
            if i > 0 {
              assert holders[i] == tail[i - 1];
            }
          }
        } else {
          var i :| 0 <= i < |tail| && CardMatches(tail[i].card, cardNum);
          assert holders[i + 1] == tail[i];
        }
      } else {
        assert !NoMatch(holders, cardNum);
        forall i | IsFirstMatch(holders, cardNum, i)
          ensures DisableScan(holders, cardNum) == MatchStatus(holders[i])
        {
          assert i == 0;
        }
      }
    }
  }

  /** The disable status: an error when the holders are several people; otherwise the first
      holder with the card decides (inactive: success, active: not done); no such holder: not found. */
  lemma DisableStatusSpec(cardNum: string, holders: seq<CardHolder>)
    ensures DisableStatus(cardNum, holders) == ErrorMultipleCardHolders <==> SeveralPeople(holders)
    ensures DisableStatus(cardNum, holders) == DeactivateCardNotFound <==>
      !SeveralPeople(holders) && NoMatch(holders, cardNum)
    ensures forall i :: IsFirstMatch(holders, cardNum, i) && !SeveralPeople(holders) ==>
      DisableStatus(cardNum, holders) == MatchStatus(holders[i])
  {
    NameIdsCount(holders);
    DisableScanSpec(holders, cardNum);
  }

  /** A queued request: the two command classes, without their database handle and logger. */
  datatype Command =
    | EnableCard(commandId: string, firstName: string, lastName: string, company: string, cardNum: string)
    | DisableCard(commandId: string, cardNum: string, company: string)
  {
    /** The status of the command, given the holders its own lookup returns
        (by name and company for enable, by card number and company for disable). */
    function Status(holders: seq<CardHolder>): Status
    {
      match this
      case EnableCard(_, _, _, _, cardNum) => EnableStatus(cardNum, holders)
      case DisableCard(_, cardNum, _) => DisableStatus(cardNum, holders)
    }
  }

  /** `sys.exit(1)`: the process ends instead of returning a command. */
  datatype Exit = SystemExit(code: int)

  /** The access level every card is given. */
  const MbdAccess := "MBD Access"

  /** The import file a command builds: header, the name record if any, one udf record, and one
      card record with the MBD Access level, then `P`. */
  function ImportLines(locGrp: int, udfNum: int, name: Option<DsxName>, udfId: string, cardNum: string, stopDate: DateTime)
    : seq<string>
  {
    [HeaderLine(locGrp, udfNum, Some(udfId))] +
    (NameLines(name) + DsxUdf(udfNum, udfId).Lines() + CardLines(LStripZeros(cardNum), cardNum, stopDate, [MbdAccess])) +
    ["P"]
  }

  /** A command holding a name (or none), one udf record and one card with the MBD Access level
      writes exactly the import file of `ImportLines`. */
  lemma BuiltLines(cmd: DsxCommand, name: Option<DsxName>, udfId: string, cardNum: string, stopDate: DateTime)
    requires cmd.name == name && cmd.udfId == Some(udfId) && cmd.udfTable == [DsxUdf(cmd.udfNum, udfId)]
    requires |cmd.cardTable| == 1 && cmd.cardTable[0].cardNum == cardNum && cmd.cardTable[0].code == LStripZeros(cardNum)
    requires cmd.cardTable[0].endDate == stopDate && cmd.cardTable[0].acls == [MbdAccess]
    ensures cmd.Lines() == ImportLines(cmd.locGrp, cmd.udfNum, name, udfId, cardNum, stopDate)
  {
    var card := cmd.cardTable[0];
    assert cmd.cardTable[1..] == [] && cmd.udfTable[1..] == [];
    assert CardTableLines(cmd.cardTable) == card.Lines() + [];
    assert UdfTableLines(cmd.udfTable) == cmd.udfTable[0].Lines() + [];
  }

  /** The udf id of the sole holder, or the fresh one when there is none. */
  function ChosenUdfId(holders: seq<CardHolder>, freshId: string): (id: string)
    requires |holders| <= 1
    ensures |holders| == 1 ==> id == holders[0].udfId
    ensures |holders| == 0 ==> id == freshId
  {
    if |holders| == 1 then holders[0].udfId else freshId
  }

  /** `EnableCardCommand.get_dsx_command`: a name record, one udf record, one enabled card with
      the MBD Access level. `locGrp`/`udfNum` come from the card access system, `freshId` is `uuid4()`. */
  method EnableDsxCommand(locGrp: int, udfNum: int, firstName: string, lastName: string, company: string,
                          cardNum: string, holders: seq<CardHolder>, freshId: string)
    returns (r: Result<DsxCommand, Exit>)
    ensures r.Err? <==> |holders| > 1
    ensures r.Err? ==> r.error == SystemExit(1)
    ensures r.Ok? ==> var cmd := r.value;
      fresh(cmd) && cmd.locGrp == locGrp && cmd.udfNum == udfNum &&
      cmd.name == Some(DsxName(firstName, lastName, company)) &&
      cmd.udfId == Some(ChosenUdfId(holders, freshId)) &&
      cmd.udfTable == [DsxUdf(udfNum, ChosenUdfId(holders, freshId))] &&
      |cmd.cardTable| == 1 && fresh(cmd.cardTable[0]) &&
      cmd.cardTable[0].cardNum == cardNum && cmd.cardTable[0].code == LStripZeros(cardNum) &&
      cmd.cardTable[0].endDate == Never && cmd.cardTable[0].acls == [MbdAccess]
  {
    var cmd := new DsxCommand(locGrp, udfNum);
    if |holders| > 1 {
      return Err(SystemExit(1));
    }
    cmd.SetName(DsxName(firstName, lastName, company));
    var udfId := ChosenUdfId(holders, freshId);
    cmd.SetUdfId(udfId);
    var card := new DsxCard(cardNum);
    card.AddAcl(MbdAccess);
    cmd.AddCard(card);
    r := Ok(cmd);
  }

  /** `DisableCardCommand.get_dsx_command`: no name record, one udf record, one card with the
      MBD Access level stopped at `now`. */
  method DisableDsxCommand(locGrp: int, udfNum: int, cardNum: string, holders: seq<CardHolder>,
                           freshId: string, now: DateTime)
    returns (r: Result<DsxCommand, Exit>)
    ensures r.Err? <==> |holders| > 1
    ensures r.Err? ==> r.error == SystemExit(1)
    ensures r.Ok? ==> var cmd := r.value;
      fresh(cmd) && cmd.locGrp == locGrp && cmd.udfNum == udfNum &&
      cmd.name == None &&
      cmd.udfId == Some(ChosenUdfId(holders, freshId)) &&
      cmd.udfTable == [DsxUdf(udfNum, ChosenUdfId(holders, freshId))] &&
      |cmd.cardTable| == 1 && fresh(cmd.cardTable[0]) &&
      cmd.cardTable[0].cardNum == cardNum && cmd.cardTable[0].code == LStripZeros(cardNum) &&
      cmd.cardTable[0].endDate == WithoutMicroseconds(now) && cmd.cardTable[0].acls == [MbdAccess]
  {
    var cmd := new DsxCommand(locGrp, udfNum);
    if |holders| > 1 {
      return Err(SystemExit(1));
    }
    var udfId := ChosenUdfId(holders, freshId);
    cmd.SetUdfId(udfId);
    var card := new DsxCard(cardNum);
    card.AddAcl(MbdAccess);
    card.Disable(now);
    cmd.AddCard(card);
    r := Ok(cmd);
  }

  /** The import file of either kind of command. */
  function CommandImportLines(command: Command, locGrp: int, udfNum: int, holders: seq<CardHolder>,
                              freshId: string, now: DateTime): seq<string>
    requires |holders| <= 1
  {
    match command
    case EnableCard(_, firstName, lastName, company, cardNum) =>
      ImportLines(locGrp, udfNum, Some(DsxName(firstName, lastName, company)), ChosenUdfId(holders, freshId), cardNum, Never)
    case DisableCard(_, cardNum, _) =>
      ImportLines(locGrp, udfNum, None, ChosenUdfId(holders, freshId), cardNum, WithoutMicroseconds(now))
  }

  /** The queue between the ingester and the processor (`queue.Queue`); None stands for a request
      whose method was neither enable nor disable. */
  class CommandQueue {
    var items: seq<Option<Command>>

    constructor ()
      ensures items == []
    {
      items := [];
    }

    method Put(c: Option<Command>)
      modifies this
      ensures items == old(items) + [c]
    {
      items := items + [c];
    }

    /** `get(block=False)`: the oldest item, or None for the `Empty` exception. */
    method Get() returns (r: Option<Option<Command>>)
      modifies this
      ensures old(items) == [] ==> r == None && items == []
      ensures old(items) != [] ==> r == Some(old(items)[0]) && items == old(items)[1..]
    {
      if items == [] {
        r := None;
      } else {
        r := Some(items[0]);
        items := items[1..];
      }
    }
  }

  /** `command.get_dsx_command()` for either kind of command. */
  method GetDsxCommand(command: Command, locGrp: int, udfNum: int, holders: seq<CardHolder>,
                       freshId: string, now: DateTime)
    returns (r: Result<DsxCommand, Exit>)
    ensures r.Err? <==> |holders| > 1
    ensures r.Ok? ==> fresh(r.value) && |r.value.cardTable| == 1 && fresh(r.value.cardTable[0])
    ensures r.Ok? ==> (r.value.name.Some? <==> command.EnableCard?)
    ensures r.Ok? ==> r.value.Lines() == CommandImportLines(command, locGrp, udfNum, holders, freshId, now)
  {
    match command
    case EnableCard(_, firstName, lastName, company, cardNum) =>
      r := EnableDsxCommand(locGrp, udfNum, firstName, lastName, company, cardNum, holders, freshId);
      if r.Ok? {
        BuiltLines(r.value, Some(DsxName(firstName, lastName, company)), ChosenUdfId(holders, freshId), cardNum, Never);
      }
    case DisableCard(_, cardNum, _) =>
      r := DisableDsxCommand(locGrp, udfNum, cardNum, holders, freshId, now);
      if r.Ok? {
        BuiltLines(r.value, None, ChosenUdfId(holders, freshId), cardNum, WithoutMicroseconds(now));
      }
  }
}
