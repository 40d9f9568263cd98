/** `WinDSXCardActivations`: activating and deactivating a card against the WinDSX Access
    database, over the tables it reads and writes. */
module Activations {
  import opened Wrappers
  import opened Text
  import opened Clock
  import opened ActivationBasics
  import opened ActivationCombos
  import opened ActivationAccess
  import opened ActivationSlots

  /** `CardInfo`: who the card is for and the card number. */
  datatype CardInfo = CardInfo(firstName: string, lastName: string, company: string, userId: string, card: string)

  /** `self._loc_grp`. */
  const LocGrp: nat := 3

  /** `self._udf_name`: the user-defined field that holds the correlation key. */
  const UdfName: string := "ID"

  // ---------------------------------------------------------------------------------------------
  // Rows of the tables.

  datatype UdfNameRow = UdfNameRow(udfNum: nat, name: string)
  datatype UdfRow = UdfRow(locGrp: nat, nameId: nat, udfNum: nat, text: string)
  datatype CompanyRow = CompanyRow(company: nat, name: string)
  datatype NameRow = NameRow(id: nat, locGrp: nat, first: string, last: string, company: nat)
  datatype AclNameRow = AclNameRow(id: nat, name: string)
  /** A CARDS row; NameID is NULL (None) for a card created for a brand-new name. */
  datatype CardRow = CardRow(id: nat, nameId: Option<nat>, locGrp: nat, code: string, start: DateTime, stop: DateTime,
                             status: bool, cardNum: string, dlFlag: int, comboId: nat)
  datatype LocCard = LocCard(id: nat, loc: nat, cardId: nat, dlFlag: int, ckSum: int, slots: Slots)
  datatype DevRow = DevRow(dev: nat, dlFlag: int, ckSum: int)
  datatype IoRow = IoRow(io: nat, dlFlag: int)
  datatype LocRow = LocRow(loc: nat, plFlag: bool, dlFlag: int, fullDlFlag: bool, nodeCs: int, codeCs: int, aclCs: int, dGrpCs: int)

  // ---------------------------------------------------------------------------------------------
  // Identity resolution (`_find_or_create_name`).

  /** `SELECT UdfNum FROM UdfName WHERE Name = 'ID'`. */
  function UdfNum(udfNames: seq<UdfNameRow>): (r: Option<nat>)
    ensures r.Some? ==> exists i :: 0 <= i < |udfNames| && udfNames[i] == UdfNameRow(r.value, UdfName)
    ensures r.None? ==> forall i :: 0 <= i < |udfNames| ==> udfNames[i].name != UdfName
  {
    match FindFirst(udfNames, (u: UdfNameRow) => u.name == UdfName)
    case Some(k) => assert udfNames[k] == UdfNameRow(udfNames[k].udfNum, UdfName); Some(udfNames[k].udfNum)
    case None => None
  }

  /** `SELECT NameId FROM UDF WHERE UdfNum = ? AND UdfText = ?`: the name holding the key. */
  function KeyOwner(udfs: seq<UdfRow>, udfNum: nat, key: string): (r: Option<nat>)
    ensures r.Some? ==> exists i :: 0 <= i < |udfs| && udfs[i].udfNum == udfNum && udfs[i].text == key && udfs[i].nameId == r.value
    ensures r.None? <==> forall i :: 0 <= i < |udfs| ==> !(udfs[i].udfNum == udfNum && udfs[i].text == key)
  {
    match FindFirst(udfs, (u: UdfRow) => u.udfNum == udfNum && u.text == key)
    case Some(k) => Some(udfs[k].nameId)
    case None => None
  }

  /** `SELECT Company from COMPANY WHERE Name = ?`. */
  function CompanyId(companies: seq<CompanyRow>, name: string): (r: Option<nat>)
    ensures r.Some? ==> exists i :: 0 <= i < |companies| && companies[i] == CompanyRow(r.value, name)
    ensures r.None? <==> forall i :: 0 <= i < |companies| ==> companies[i].name != name
  {
    match FindFirst(companies, (c: CompanyRow) => c.name == name)
    case Some(k) => assert companies[k] == CompanyRow(companies[k].company, name); Some(companies[k].company)
    case None => None
  }

  predicate SameName(n: NameRow, first: string, last: string, company: nat)
  {
    n.first == first && n.last == last && n.company == company
  }

  /** `SELECT ID FROM NAMES WHERE FName = ? AND LName = ? AND Company = ?`. */
  function NameByFields(names: seq<NameRow>, first: string, last: string, company: nat): (r: Option<nat>)
    ensures r.Some? ==> exists i :: 0 <= i < |names| && SameName(names[i], first, last, company) && names[i].id == r.value
    ensures r.None? <==> forall i :: 0 <= i < |names| ==> !SameName(names[i], first, last, company)
  {
    match FindFirst(names, (n: NameRow) => SameName(n, first, last, company))
    case Some(k) => Some(names[k].id)
    case None => None
  }

  /** How `_find_or_create_name` resolves a person. */
  datatype NameLookup =
    | ByKey(nameId: nat)                  // a UDF row holds the correlation key
    | ByFields(udfNum: nat, nameId: nat)  // a NAMES row matches first name, last name and company
    | NewName(udfNum: nat, company: nat)  // neither: a NAMES row is inserted
    | NameFailed(error: Raised)

  function LookupName(udfNames: seq<UdfNameRow>, udfs: seq<UdfRow>, companies: seq<CompanyRow>, names: seq<NameRow>,
                      info: CardInfo, key: string): NameLookup
  {
    match UdfNum(udfNames)
    case None => NameFailed(NoUdfName)
    case Some(u) =>
      match KeyOwner(udfs, u, key)
      case Some(n) => ByKey(n)
      case None =>
        match CompanyId(companies, info.company)
        case None => NameFailed(NoCompany)
        case Some(c) =>
          match NameByFields(names, info.firstName, info.lastName, c)
          case Some(n) => ByFields(u, n)
          case None => NewName(u, c)
  }

  /** The name id `_find_or_create_name` returns: the one found, and nothing (None) for a name it
      had to insert, since that path ends without a `return`. */
  function ResolvedName(l: NameLookup): Option<nat>
  {
    match l
    case ByKey(n) => Some(n)
    case ByFields(_, n) => Some(n)
    case _ => None
  }

  /** The UDF and NAMES tables `_find_or_create_name` leaves behind for the lookup `l`: the key
      written for a name found by its fields, a NAMES row under `newId` and the key written for it
      when neither tier found the person, and nothing written otherwise. */
  function NameTables(l: NameLookup, udfs: seq<UdfRow>, names: seq<NameRow>, newId: nat, info: CardInfo, key: string): (seq<UdfRow>, seq<NameRow>)
  {
    match l
    case ByKey(_) => (udfs, names)
    case ByFields(u, n) => (Backfill(udfs, u, n, key), names)
    case NewName(u, c) => (Backfill(udfs, u, newId, key), names + [NameRow(newId, LocGrp, info.firstName, info.lastName, c)])
    case NameFailed(_) => (udfs, names)
  }

  /** The three tiers run in order, each only when the ones before found nothing: the key, then
      the exact name within the named company, then a new row; a missing UDF name or company
      raises. */
  lemma {:induction false} LookupNameTiers(udfNames: seq<UdfNameRow>, udfs: seq<UdfRow>, companies: seq<CompanyRow>,
                                           names: seq<NameRow>, info: CardInfo, key: string)
    ensures var l := LookupName(udfNames, udfs, companies, names, info, key);
      (l == NameFailed(NoUdfName) <==> forall i :: 0 <= i < |udfNames| ==> udfNames[i].name != UdfName) &&
      (l.ByKey? ==> exists i :: 0 <= i < |udfs| && udfs[i].udfNum == UdfNum(udfNames).value && udfs[i].text == key && udfs[i].nameId == l.nameId) &&
      (!l.ByKey? && l != NameFailed(NoUdfName) ==>
        forall i :: 0 <= i < |udfs| ==> !(udfs[i].udfNum == UdfNum(udfNames).value && udfs[i].text == key)) &&
      (l == NameFailed(NoCompany) ==> forall j :: 0 <= j < |companies| ==> companies[j].name != info.company) &&
      (l.ByFields? ==> (l.udfNum == UdfNum(udfNames).value &&
        exists i, j :: 0 <= i < |names| && 0 <= j < |companies| && companies[j].name == info.company &&
          SameName(names[i], info.firstName, info.lastName, companies[j].company) && names[i].id == l.nameId)) &&
      (l.NewName? ==> (l.udfNum == UdfNum(udfNames).value &&
        (exists j :: 0 <= j < |companies| && companies[j] == CompanyRow(l.company, info.company)) &&
        forall i :: 0 <= i < |names| ==> !SameName(names[i], info.firstName, info.lastName, l.company)))
  {
    var l := LookupName(udfNames, udfs, companies, names, info, key);
    if l.ByFields? {
      var c := CompanyId(companies, info.company).value;
      var j :| 0 <= j < |companies| && companies[j] == CompanyRow(c, info.company);
      var i :| 0 <= i < |names| && SameName(names[i], info.firstName, info.lastName, c) && names[i].id == l.nameId;
      assert companies[j].name == info.company && SameName(names[i], info.firstName, info.lastName, companies[j].company);
    }
  }

  /** `SELECT UdfText FROM UDF WHERE NameID = ? AND UdfNum = ?`. */
  function UdfText(udfs: seq<UdfRow>, nameId: nat, udfNum: nat): (r: Option<string>)
    ensures r.Some? ==> exists i :: 0 <= i < |udfs| && udfs[i] == UdfRow(udfs[i].locGrp, nameId, udfNum, r.value)
    ensures r.None? <==> forall i :: 0 <= i < |udfs| ==> !(udfs[i].nameId == nameId && udfs[i].udfNum == udfNum)
  {
    match FindFirst(udfs, (u: UdfRow) => u.nameId == nameId && u.udfNum == udfNum)
    case Some(k) => assert udfs[k] == UdfRow(udfs[k].locGrp, nameId, udfNum, udfs[k].text); Some(udfs[k].text)
    case None => None
  }

  /** `UPDATE UDF SET UdfText = ? WHERE NameId = ? AND UdfNum = ?`. */
  function SetUdfText(udfs: seq<UdfRow>, nameId: nat, udfNum: nat, key: string): (r: seq<UdfRow>)
    ensures |r| == |udfs|
    ensures forall i :: 0 <= i < |udfs| ==>
      r[i] == if udfs[i].nameId == nameId && udfs[i].udfNum == udfNum then udfs[i].(text := key) else udfs[i]
  {
    seq(|udfs|, i requires 0 <= i < |udfs| =>
      if udfs[i].nameId == nameId && udfs[i].udfNum == udfNum then udfs[i].(text := key) else udfs[i])
  }

  /** `_create_or_update_udf_text`: the UDF table once the name's key is written: left alone if
      the name's first UDF row already holds it, the name's rows updated if it holds another
      text, a row inserted if the name has none. */
  function Backfill(udfs: seq<UdfRow>, udfNum: nat, nameId: nat, key: string): seq<UdfRow>
  {
    match UdfText(udfs, nameId, udfNum)
    case Some(t) => if t == key then udfs else SetUdfText(udfs, nameId, udfNum, key)
    case None => udfs + [UdfRow(LocGrp, nameId, udfNum, key)]
  }

  /** The key is on the name after the write, only rows of that name change, and at most one row
      is added. */
  lemma {:induction false} BackfillWrites(udfs: seq<UdfRow>, udfNum: nat, nameId: nat, key: string)
    ensures var r := Backfill(udfs, udfNum, nameId, key);
      (exists i :: 0 <= i < |r| && r[i].nameId == nameId && r[i].udfNum == udfNum && r[i].text == key) &&
      (|r| == |udfs| || r == udfs + [UdfRow(LocGrp, nameId, udfNum, key)]) &&
      (forall i :: 0 <= i < |udfs| && !(udfs[i].nameId == nameId && udfs[i].udfNum == udfNum) ==> r[i] == udfs[i])
  {
    var r := Backfill(udfs, udfNum, nameId, key);
    match UdfText(udfs, nameId, udfNum)
    case Some(t) =>
      var i :| 0 <= i < |udfs| && udfs[i] == UdfRow(udfs[i].locGrp, nameId, udfNum, t);
      assert r[i].nameId == nameId && r[i].udfNum == udfNum && r[i].text == key;
    case None =>
      assert r[|udfs|] == UdfRow(LocGrp, nameId, udfNum, key);
      assert forall i :: 0 <= i < |udfs| ==> r[i] == udfs[i];
  }

  /** When no row held the key, afterwards the rows holding it are exactly the name's. */
  lemma {:induction false} BackfillKeyRows(udfs: seq<UdfRow>, udfNum: nat, nameId: nat, key: string)
    requires forall i :: 0 <= i < |udfs| ==> !(udfs[i].udfNum == udfNum && udfs[i].text == key)
    ensures var r := Backfill(udfs, udfNum, nameId, key);
      (exists i :: 0 <= i < |r| && r[i].udfNum == udfNum && r[i].text == key) &&
      forall i :: 0 <= i < |r| && r[i].udfNum == udfNum && r[i].text == key ==> r[i].nameId == nameId
  {
    BackfillWrites(udfs, udfNum, nameId, key);
  }

  /** Self-healing: once a person found by name, or inserted, has the key written, the next
      lookup finds the same name id by the key. */
  lemma {:induction false} KeyBackfilled(udfNames: seq<UdfNameRow>, udfs: seq<UdfRow>, companies: seq<CompanyRow>,
                                         names: seq<NameRow>, info: CardInfo, key: string, newId: nat)
    ensures var l := LookupName(udfNames, udfs, companies, names, info, key);
      l.ByFields? ==>
        LookupName(udfNames, Backfill(udfs, l.udfNum, l.nameId, key), companies, names, info, key) == ByKey(l.nameId)
    ensures var l := LookupName(udfNames, udfs, companies, names, info, key);
      l.NewName? ==>
        var names' := names + [NameRow(newId, LocGrp, info.firstName, info.lastName, l.company)];
        LookupName(udfNames, Backfill(udfs, l.udfNum, newId, key), companies, names', info, key) == ByKey(newId)
  {
    var l := LookupName(udfNames, udfs, companies, names, info, key);
    if l.ByFields? || l.NewName? {
      var n := if l.ByFields? then l.nameId else newId;
      BackfillKeyRows(udfs, l.udfNum, n, key);
      var r := Backfill(udfs, l.udfNum, n, key);
      var owner := KeyOwner(r, l.udfNum, key);
      assert owner.Some?;
      var i :| 0 <= i < |r| && r[i].udfNum == l.udfNum && r[i].text == key && r[i].nameId == owner.value;
    }
  }

  // ---------------------------------------------------------------------------------------------
  // Cards.

  /** `SELECT ID, AclGrpComboId FROM CARDS WHERE Code = ?` with the number's leading zeros
      stripped: the first such row. */
  function FindCard(cards: seq<CardRow>, card: string): (r: Option<nat>)
    ensures r.Some? ==> (r.value < |cards| && cards[r.value].code == LStripZeros(card) &&
      forall j :: 0 <= j < r.value ==> cards[j].code != LStripZeros(card))
    ensures r.None? <==> forall j :: 0 <= j < |cards| ==> cards[j].code != LStripZeros(card)
  {
    FindFirst(cards, (c: CardRow) => c.code == LStripZeros(card))
  }

  /** Two card tables with the same ids and codes row by row. */
  predicate SameKeys(a: seq<CardRow>, b: seq<CardRow>)
  {
    |a| == |b| && forall i :: 0 <= i < |a| ==> a[i].id == b[i].id && a[i].code == b[i].code
  }

  /** `UPDATE CARDS SET AclGrpComboID = ?, DlFlag = 0 WHERE ID = ?`. */
  function WithCombo(cards: seq<CardRow>, id: nat, combo: nat): (r: seq<CardRow>)
    ensures SameKeys(cards, r)
    ensures forall i :: 0 <= i < |cards| ==> r[i] == if cards[i].id == id then cards[i].(comboId := combo, dlFlag := 0) else cards[i]
  {
    seq(|cards|, i requires 0 <= i < |cards| => if cards[i].id == id then cards[i].(comboId := combo, dlFlag := 0) else cards[i])
  }

  /** `UPDATE CARDS SET NameID = ?, StartDate = ?, StopDate = ?, DlFlag = 0, Status = True WHERE ID = ?`. */
  function WithActive(cards: seq<CardRow>, id: nat, nameId: Option<nat>, now: DateTime): (r: seq<CardRow>)
    ensures SameKeys(cards, r)
    ensures forall i :: 0 <= i < |cards| ==>
      r[i] == if cards[i].id == id then cards[i].(nameId := nameId, start := now, stop := Never, dlFlag := 0, status := true) else cards[i]
  {
    seq(|cards|, i requires 0 <= i < |cards| =>
      if cards[i].id == id then cards[i].(nameId := nameId, start := now, stop := Never, dlFlag := 0, status := true) else cards[i])
  }

  /** `UPDATE CARDS SET StopDate = ?, DlFlag = 0, Status = False WHERE ID = ?`. */
  function WithInactive(cards: seq<CardRow>, id: nat, today: DateTime): (r: seq<CardRow>)
    ensures SameKeys(cards, r)
    ensures forall i :: 0 <= i < |cards| ==>
      r[i] == if cards[i].id == id then cards[i].(stop := today, dlFlag := 0, status := false) else cards[i]
  {
    seq(|cards|, i requires 0 <= i < |cards| =>
      if cards[i].id == id then cards[i].(stop := today, dlFlag := 0, status := false) else cards[i])
  }

  /** Lines 53-60 of `activate` on the card table: the found card moved to `combo` when that is
      another combo, then made active for the name. */
  function Reactivated(cards: seq<CardRow>, k: nat, combo: nat, nameId: Option<nat>, now: DateTime): seq<CardRow>
    requires k < |cards|
  {
    var id := cards[k].id;
    var moved := if combo == cards[k].comboId then cards else WithCombo(cards, id, combo);
    WithActive(moved, id, nameId, now)
  }

  /** The row `_create_card` inserts. */
  function NewCard(id: nat, nameId: Option<nat>, card: string, combo: nat, now: DateTime): CardRow
  {
    CardRow(id, nameId, LocGrp, LStripZeros(card), now, Never, true, card, 0, combo)
  }

  /** A created card is found again by the same number, and by the number written with any zeros
      in front: the stored code is the stripped number and the first row with it. */
  lemma {:induction false} NewCardFound(cards: seq<CardRow>, id: nat, nameId: Option<nat>, card: string, combo: nat, now: DateTime, zeros: nat)
    requires FindCard(cards, card).None?
    ensures FindCard(cards + [NewCard(id, nameId, card, combo, now)], card) == Some(|cards|)
    ensures FindCard(cards + [NewCard(id, nameId, card, combo, now)], seq(zeros, _ => '0') + card) == Some(|cards|)
    ensures var c := NewCard(id, nameId, card, combo, now);
      c.code == LStripZeros(card) && c.cardNum == card && c.status && c.stop == Never && c.dlFlag == 0
  {
    var p := (c: CardRow) => c.code == LStripZeros(card);
    FindFirstAppend(cards, NewCard(id, nameId, card, combo, now), p);
    ZerosStrip(zeros, card);
  }

  lemma {:induction false} ZerosStrip(zeros: nat, card: string)
    ensures LStripZeros(seq(zeros, _ => '0') + card) == LStripZeros(card)
  {
    if zeros > 0 {
      assert (seq(zeros, _ => '0') + card)[1..] == seq(zeros - 1, _ => '0') + card;
      ZerosStrip(zeros - 1, card);
    } else {
      assert seq(zeros, _ => '0') + card == card;
    }
  }

  /** An update that keeps every row's id and code keeps the ids valid and does not move the card
      the number finds. */
  lemma {:induction false} SameKeysFound(a: seq<CardRow>, b: seq<CardRow>, identity: nat, card: string)
    requires SameKeys(a, b)
    ensures FindCard(b, card) == FindCard(a, card)
    ensures CardsValid(a, identity) ==> CardsValid(b, identity)
  {
    FindFirstSame(b, a, (c: CardRow) => c.code == LStripZeros(card));
  }

  /** The found card, and only it, is reactivated: moved to the combo, given the name, active
      from `now` and never expiring; the number still finds it. */
  lemma {:induction false} ReactivatedCard(cards: seq<CardRow>, identity: nat, k: nat, card: string, combo: nat, nameId: Option<nat>, now: DateTime)
    requires CardsValid(cards, identity) && FindCard(cards, card) == Some(k)
    ensures var r := Reactivated(cards, k, combo, nameId, now);
      CardsValid(r, identity) && FindCard(r, card) == Some(k) &&
      r[k] == cards[k].(comboId := combo, nameId := nameId, start := now, stop := Never, dlFlag := 0, status := true) &&
      forall i :: 0 <= i < |cards| && i != k ==> r[i] == cards[i]
  {
    var id := cards[k].id;
    var moved := if combo == cards[k].comboId then cards else WithCombo(cards, id, combo);
    SameKeysFound(cards, moved, identity, card);
    SameKeysFound(moved, Reactivated(cards, k, combo, nameId, now), identity, card);
  }

  /** The card the number finds is active from `now`, never expires, is to be downloaded,
      belongs to `nameId`, and its combo holds exactly the names `names`. */
  predicate ActiveCard(cards: seq<CardRow>, combos: seq<ComboRow>, card: string, nameId: Option<nat>, now: DateTime, names: set<nat>)
  {
    FindCard(cards, card).Some? &&
    var c := cards[FindCard(cards, card).value];
    c.status && c.start == now && c.stop == Never && c.dlFlag == 0 && c.nameId == nameId && Members(combos, c.comboId) == names
  }

  /** Card ids are below the next identity and distinct. */
  predicate CardsValid(cards: seq<CardRow>, identity: nat)
  {
    (forall i :: 0 <= i < |cards| ==> cards[i].id < identity) &&
    (forall i, j :: 0 <= i < j < |cards| ==> cards[i].id != cards[j].id)
  }

  // ---------------------------------------------------------------------------------------------
  // LocCards.

  /** `SELECT ID FROM LocCards WHERE CardID = ?`. */
  function LocCardOf(locCards: seq<LocCard>, cardId: nat): (r: Option<nat>)
    ensures r.Some? ==> r.value < |locCards| && locCards[r.value].cardId == cardId
    ensures r.None? <==> forall i :: 0 <= i < |locCards| ==> locCards[i].cardId != cardId
  {
    FindFirst(locCards, (l: LocCard) => l.cardId == cardId)
  }

  /** `UPDATE LocCards SET DlFlag = 1, CkSum = 0, Acl = ?, … WHERE ID = ?`. */
  function SetLocCardAcls(locCards: seq<LocCard>, id: nat, s: Slots): (r: seq<LocCard>)
    ensures |r| == |locCards|
    ensures forall i :: 0 <= i < |locCards| ==>
      r[i] == if locCards[i].id == id then locCards[i].(dlFlag := 1, ckSum := 0, slots := s) else locCards[i]
  {
    seq(|locCards|, i requires 0 <= i < |locCards| =>
      if locCards[i].id == id then locCards[i].(dlFlag := 1, ckSum := 0, slots := s) else locCards[i])
  }

  /** `_create_or_update_loc_cards` once the slots are popped: the card's row updated, or a row
      inserted under a new id. */
  function UpsertLocCard(locCards: seq<LocCard>, cardId: nat, s: Slots, newId: nat): seq<LocCard>
  {
    match LocCardOf(locCards, cardId)
    case Some(k) => SetLocCardAcls(locCards, locCards[k].id, s)
    case None => locCards + [LocCard(newId, LocGrp, cardId, 1, 0, s)]
  }

  /** `UPDATE LocCards SET DlFlag = 1, CkSum = 0 WHERE CardID = ?`. */
  function FlagLocCards(locCards: seq<LocCard>, cardId: nat): (r: seq<LocCard>)
    ensures |r| == |locCards|
    ensures forall i :: 0 <= i < |locCards| ==>
      r[i] == if locCards[i].cardId == cardId then locCards[i].(dlFlag := 1, ckSum := 0) else locCards[i]
  {
    seq(|locCards|, i requires 0 <= i < |locCards| =>
      if locCards[i].cardId == cardId then locCards[i].(dlFlag := 1, ckSum := 0) else locCards[i])
  }

  /** LocCards ids are below the next identity and distinct, and no card has two rows. */
  predicate LocCardsValid(locCards: seq<LocCard>, identity: nat)
  {
    (forall i :: 0 <= i < |locCards| ==> locCards[i].id < identity) &&
    (forall i, j :: 0 <= i < j < |locCards| ==> locCards[i].id != locCards[j].id && locCards[i].cardId != locCards[j].cardId)
  }

  /** The card's LocCards row: there is exactly one, it holds the slots and asks for a download. */
  predicate HasLocCard(locCards: seq<LocCard>, cardId: nat, s: Slots)
  {
    exists k :: 0 <= k < |locCards| && locCards[k].cardId == cardId &&
      locCards[k].dlFlag == 1 && locCards[k].ckSum == 0 && locCards[k].slots == s
  }

  /** An existing row for the card is updated, never duplicated: the table keeps one row per
      card, the card's row holds the slots with DlFlag 1 and CkSum 0 on both paths, other cards'
      rows are untouched, and the table grows only when the card had no row. */
  lemma {:induction false} UpsertLocCardOne(locCards: seq<LocCard>, cardId: nat, s: Slots, newId: nat)
    requires LocCardsValid(locCards, newId)
    ensures var r := UpsertLocCard(locCards, cardId, s, newId);
      LocCardsValid(r, newId + 1) && HasLocCard(r, cardId, s) &&
      (forall i :: 0 <= i < |locCards| && locCards[i].cardId != cardId ==> r[i] == locCards[i]) &&
      (LocCardOf(locCards, cardId).Some? ==> |r| == |locCards|) &&
      (LocCardOf(locCards, cardId).None? ==> |r| == |locCards| + 1)
  {
    var r := UpsertLocCard(locCards, cardId, s, newId);
    match LocCardOf(locCards, cardId)
    case Some(k) =>
      assert r[k].cardId == cardId && r[k].slots == s;
      forall i | 0 <= i < |locCards| && locCards[i].cardId != cardId ensures r[i] == locCards[i] {
        assert locCards[i].id != locCards[k].id by {
          if i < k {
          } else if k < i {
          }
        }
      }
    case None =>
      assert r[|locCards|].cardId == cardId;
      assert forall i :: 0 <= i < |locCards| ==> r[i] == locCards[i];
  }

  // ---------------------------------------------------------------------------------------------
  // The download barrier's writes.

  /** `UPDATE DEV SET DlFlag=1, CkSum=0`. */
  function MarkDevs(devs: seq<DevRow>): (r: seq<DevRow>)
    ensures |r| == |devs| && forall i :: 0 <= i < |devs| ==> r[i] == DevRow(devs[i].dev, 1, 0)
  {
    seq(|devs|, i requires 0 <= i < |devs| => DevRow(devs[i].dev, 1, 0))
  }

  /** `UPDATE IO SET DlFlag=1`. */
  function MarkIos(ios: seq<IoRow>): (r: seq<IoRow>)
    ensures |r| == |ios| && forall i :: 0 <= i < |ios| ==> r[i] == IoRow(ios[i].io, 1)
  {
    seq(|ios|, i requires 0 <= i < |ios| => IoRow(ios[i].io, 1))
  }

  /** `UPDATE LOC SET PlFlag=True, DlFlag=1, FullDlFlag=True, NodeCs=0, CodeCs=0, AclCs=0, DGrpCs=0`. */
  function MarkLocs(locs: seq<LocRow>): (r: seq<LocRow>)
    ensures |r| == |locs| && forall i :: 0 <= i < |locs| ==> r[i] == LocRow(locs[i].loc, true, 1, true, 0, 0, 0, 0)
  {
    seq(|locs|, i requires 0 <= i < |locs| => LocRow(locs[i].loc, true, 1, true, 0, 0, 0, 0))
  }

  // ---------------------------------------------------------------------------------------------
  // The database.

  /** Names ids are below the next identity. */
  predicate NamesValid(names: seq<NameRow>, identity: nat)
  {
    forall i :: 0 <= i < |names| ==> names[i].id < identity
  }

  /** Ids below one identity are below any later one. */
  lemma ValidGrows(names: seq<NameRow>, combos: seq<ComboRow>, cards: seq<CardRow>, locCards: seq<LocCard>, i: nat, j: nat)
    requires i <= j
    ensures NamesValid(names, i) ==> NamesValid(names, j)
    ensures CombosValid(combos, i) ==> CombosValid(combos, j)
    ensures CardsValid(cards, i) ==> CardsValid(cards, j)
    ensures LocCardsValid(locCards, i) ==> LocCardsValid(locCards, j)
  {
  }

  /** Combo ids are below the next identity, and each combo's rows are adjacent. */
  predicate CombosValid(combos: seq<ComboRow>, identity: nat)
  {
    (forall i :: 0 <= i < |combos| ==> combos[i].comboId < identity) && Contiguous(combos)
  }

  /** A new combo appended as its first row and the block of its names, under an id no row has,
      keeps the combo rows valid, has exactly the names it was created for, and leaves the names
      of every other combo as they were. */
  lemma {:induction false} NewComboAppended(rows: seq<ComboRow>, acl: nat, block: seq<ComboRow>, known: set<nat>, c: nat)
    requires CombosValid(rows, c) && acl in known
    requires forall i :: 0 <= i < |block| ==> block[i].comboId == c
    requires Members(block, c) == known
    ensures var all := rows + [ComboRow(acl, c, LocGrp)] + block;
      CombosValid(all, c + 1) && Members(all, c) == known && all[..|rows|] == rows &&
      forall x :: x != c ==> Members(all, x) == Members(rows, x)
  {
    var first := ComboRow(acl, c, LocGrp);
    var all := rows + [first] + block;
    forall x ensures Members(all, x) == (if x == c then known else Members(rows, x)) {
      NewComboMembers(rows, first, block, known, x);
    }
    NewComboContiguous(rows, [first] + block, c);
    assert all == rows + ([first] + block);
    assert all[..|rows|] == rows;
  }

  /** Lines 47-60 of `activate` on the CARDS and AclGrpCombo tables, from `cards0` and `combos0`
      to `cards` and `combos`. The card the number finds is active for the name in a combo holding
      exactly its former names (none for a new card) and the ACL group name. A number no card had
      gets exactly one new row appended; otherwise only the found row changes. Combo rows are only
      appended and no other combo's names change; when some combo already has exactly those
      names, or the card's own combo already holds the ACL group name, nothing is written to
      AclGrpCombo, and the card keeps its combo in the second case and takes the found one in
      the first. */
  ghost predicate CardActivated(cards0: seq<CardRow>, combos0: seq<ComboRow>, cards: seq<CardRow>, combos: seq<ComboRow>,
                          card: string, nameId: Option<nat>, acl: nat, now: DateTime)
  {
    var before := FindCard(cards0, card);
    var names := (if before.None? then {} else Members(combos0, cards0[before.value].comboId)) + {acl};
    ActiveCard(cards, combos, card, nameId, now, names) &&
    var c := cards[FindCard(cards, card).value];
    (before.None? ==> cards == cards0 + [NewCard(c.id, nameId, card, c.comboId, now)]) &&
    (before.Some? ==> FindCard(cards, card) == before && cards == Reactivated(cards0, before.value, c.comboId, nameId, now)) &&
    |combos0| <= |combos| && combos[..|combos0|] == combos0 &&
    (forall x :: x != c.comboId ==> Members(combos, x) == Members(combos0, x)) &&
    (MatchingCombo(combos0, names).Some? ==> combos == combos0) &&
    (MatchingCombo(combos0, names).Some? && !(before.Some? && acl in Members(combos0, cards0[before.value].comboId)) ==>
      c.comboId == MatchingCombo(combos0, names).value) &&
    (before.Some? && acl in Members(combos0, cards0[before.value].comboId) ==>
      c.comboId == cards0[before.value].comboId && combos == combos0)
  }

  /** An activation touches no other card: every CARDS row the number does not find is as it
      was, a reactivated card keeps its id and code, and the table grows by at most the new card. */
  lemma {:induction false} CardActivatedFrame(cards0: seq<CardRow>, combos0: seq<ComboRow>, cards: seq<CardRow>, combos: seq<ComboRow>,
                                              card: string, nameId: Option<nat>, acl: nat, now: DateTime, identity: nat)
    requires CardsValid(cards0, identity) && CardActivated(cards0, combos0, cards, combos, card, nameId, acl, now)
    ensures forall i :: 0 <= i < |cards0| && FindCard(cards0, card) != Some(i) ==> cards[i] == cards0[i]
    ensures FindCard(cards0, card).Some? ==>
      var k := FindCard(cards0, card).value; |cards| == |cards0| && cards[k].id == cards0[k].id && cards[k].code == cards0[k].code
    ensures FindCard(cards0, card).None? ==> |cards| == |cards0| + 1 && FindCard(cards, card) == Some(|cards0|)
  {
    var before := FindCard(cards0, card);
    var c := cards[FindCard(cards, card).value];
    if before.Some? {
      ReactivatedCard(cards0, identity, before.value, card, c.comboId, nameId, now);
    } else {
      NewCardFound(cards0, c.id, nameId, card, c.comboId, now, 0);
      assert forall i :: 0 <= i < |cards0| ==> cards[i] == cards0[i];
    }
  }

  /** Lines 62-67 of `activate`, for the ACL ids `ids` of the card's combo, on LocCards, DEV, IO
      and LOC and the outcome. A failed lookup raises its error before anything is written.
      Otherwise the card's LocCards row holds slots for the ids (a row under `newId` when it had
      none), every DEV, IO and LOC row asks for a download, and the activation succeeds exactly
      when one of the 30 polls reads false, and times out otherwise. */
  ghost predicate AccessGranted(ids: Result<set<nat>, Raised>, cardId: nat, newId: nat, poll: nat -> bool,
                          locCards0: seq<LocCard>, devs0: seq<DevRow>, ios0: seq<IoRow>, locs0: seq<LocRow>,
                          locCards: seq<LocCard>, devs: seq<DevRow>, ios: seq<IoRow>, locs: seq<LocRow>, r: Result<(), Raised>)
  {
    (ids.Err? ==> r == Err(ids.error) && locCards == locCards0 && devs == devs0 && ios == ios0 && locs == locs0) &&
    (ids.Ok? ==>
      (exists s :: SlotsFor(ids.value, s) && locCards == UpsertLocCard(locCards0, cardId, s, newId)) &&
      devs == MarkDevs(devs0) && ios == MarkIos(ios0) && locs == MarkLocs(locs0) &&
      (r.Ok? <==> exists j :: 0 <= j < 30 && !poll(j)) && (r.Err? ==> r.error == UpdateTimedOut))
  }

  /** The writes and outcome of lines 63-67 once the ACL ids are known make up `AccessGranted`. */
  lemma {:induction false} AccessGrantedOk(aclIds: set<nat>, s: Slots, cardId: nat, newId: nat, poll: nat -> bool,
                                           locCards0: seq<LocCard>, devs0: seq<DevRow>, ios0: seq<IoRow>, locs0: seq<LocRow>,
                                           locCards: seq<LocCard>, devs: seq<DevRow>, ios: seq<IoRow>, locs: seq<LocRow>, r: Result<(), Raised>)
    requires SlotsFor(aclIds, s) && locCards == UpsertLocCard(locCards0, cardId, s, newId)
    requires devs == MarkDevs(devs0) && ios == MarkIos(ios0) && locs == MarkLocs(locs0)
    requires (r.Ok? <==> exists j :: 0 <= j < 30 && !poll(j)) && (r.Err? ==> r.error == UpdateTimedOut)
    ensures AccessGranted(Ok(aclIds), cardId, newId, poll, locCards0, devs0, ios0, locs0, locCards, devs, ios, locs, r)
  {
  }

  /** Granting access touches no other card's LocCards row, and leaves the card exactly one row
      holding slots for its ACL ids; success needs the ids and a poll that reads false. */
  lemma {:induction false} AccessGrantedFrame(ids: Result<set<nat>, Raised>, cardId: nat, newId: nat, poll: nat -> bool,
                                              locCards0: seq<LocCard>, devs0: seq<DevRow>, ios0: seq<IoRow>, locs0: seq<LocRow>,
                                              locCards: seq<LocCard>, devs: seq<DevRow>, ios: seq<IoRow>, locs: seq<LocRow>, r: Result<(), Raised>)
    requires LocCardsValid(locCards0, newId)
    requires AccessGranted(ids, cardId, newId, poll, locCards0, devs0, ios0, locs0, locCards, devs, ios, locs, r)
    ensures LocCardsValid(locCards, newId + 1)
    ensures |locCards0| <= |locCards| && forall i :: 0 <= i < |locCards0| && locCards0[i].cardId != cardId ==> locCards[i] == locCards0[i]
    ensures ids.Ok? ==> exists s :: SlotsFor(ids.value, s) && HasLocCard(locCards, cardId, s)
    ensures r.Ok? <==> ids.Ok? && exists j :: 0 <= j < 30 && !poll(j)
  {
    if ids.Ok? {
      var s :| SlotsFor(ids.value, s) && locCards == UpsertLocCard(locCards0, cardId, s, newId);
      UpsertLocCardOne(locCards0, cardId, s, newId);
    } else {
      ValidGrows([], [], [], locCards0, newId, newId + 1);
    }
  }

  /** The WinDSX Access database: the tables the activation code touches, and the counter behind
      `SELECT @@IDENTITY`. */
  class AcsDatabase {
    const udfNames: seq<UdfNameRow>
    var udfs: seq<UdfRow>
    const companies: seq<CompanyRow>
    var names: seq<NameRow>
    const aclNames: seq<AclNameRow>
    var combos: seq<ComboRow>
    const grants: seq<Grant>
    const dgroups: seq<DGroup>
    const acls: seq<AclRow>
    var cards: seq<CardRow>
    var locCards: seq<LocCard>
    var devs: seq<DevRow>
    var ios: seq<IoRow>
    var locs: seq<LocRow>
    /** The id the next insert into an autonumbered table receives. */
    var identity: nat

    ghost predicate Valid()
      reads this
    {
      NamesValid(names, identity) && CombosValid(combos, identity) &&
      CardsValid(cards, identity) && LocCardsValid(locCards, identity)
    }

    /** A database holding the site's reference tables, and no people, combos or cards yet. */
    constructor (udfNames: seq<UdfNameRow>, companies: seq<CompanyRow>, aclNames: seq<AclNameRow>, grants: seq<Grant>,
                 dgroups: seq<DGroup>, acls: seq<AclRow>, devs: seq<DevRow>, ios: seq<IoRow>, locs: seq<LocRow>)
      ensures Valid()
      ensures this.udfNames == udfNames && this.companies == companies && this.aclNames == aclNames
      ensures this.grants == grants && this.dgroups == dgroups && this.acls == acls
      ensures this.devs == devs && this.ios == ios && this.locs == locs
      ensures udfs == [] && names == [] && combos == [] && cards == [] && locCards == [] && identity == 1
    {
      this.udfNames, this.companies, this.aclNames := udfNames, companies, aclNames;
      this.grants, this.dgroups, this.acls := grants, dgroups, acls;
      this.devs, this.ios, this.locs := devs, ios, locs;
      udfs, names, combos, cards, locCards := [], [], [], [], [];
      identity := 1;
    }

    /** An insert into an autonumbered table, then `SELECT @@IDENTITY`. */
    method NextIdentity() returns (id: nat)
      modifies this`identity
      ensures id == old(identity) && identity == id + 1
    {
      id := identity;
      identity := identity + 1;
    }
  }

  /** `_get_acl_by_name`: the id of the ACL group name, or the ValueError. */
  function AclByName(aclNames: seq<AclNameRow>, name: string): (r: Result<nat, Raised>)
    ensures r.Ok? ==> exists i :: 0 <= i < |aclNames| && aclNames[i] == AclNameRow(r.value, name)
    ensures r.Err? <==> r == Err(NoAclName) && forall i :: 0 <= i < |aclNames| ==> aclNames[i].name != name
  {
    match FindFirst(aclNames, (a: AclNameRow) => a.name == name)
    case Some(k) => assert aclNames[k] == AclNameRow(aclNames[k].id, name); Ok(aclNames[k].id)
    case None => Err(NoAclName)
  }

  /** WinDSXCardActivations: the database it works on, the default ACL group name from the
      configuration, and `uuid5(NAMESPACE_OID, ·)` for the correlation key. */
  class WinDsxCardActivations {
    const db: AcsDatabase
    const defaultAcl: string
    const uuidOf: string -> string

    constructor (db: AcsDatabase, defaultAcl: string, uuidOf: string -> string)
      ensures this.db == db && this.defaultAcl == defaultAcl && this.uuidOf == uuidOf
    {
      this.db, this.defaultAcl, this.uuidOf := db, defaultAcl, uuidOf;
    }

    /** `_create_or_update_udf_text`. */
    method CreateOrUpdateUdfText(udfNum: nat, nameId: nat, key: string)
      modifies db`udfs
      ensures db.udfs == Backfill(old(db.udfs), udfNum, nameId, key)
    {
      var existing := UdfText(db.udfs, nameId, udfNum);
      if existing.Some? {
        if existing.value != key {
          db.udfs := SetUdfText(db.udfs, nameId, udfNum, key);
        }
      } else {
        db.udfs := db.udfs + [UdfRow(LocGrp, nameId, udfNum, key)];
      }
    }

    /** `_find_or_create_name`: the tiers of `LookupName`, writing the key where the person was
        not found by it. */
    method FindOrCreateName(info: CardInfo) returns (r: Result<Option<nat>, Raised>)
      requires NamesValid(db.names, db.identity)
      modifies db`names, db`udfs, db`identity
      ensures NamesValid(db.names, db.identity) && old(db.identity) <= db.identity
      ensures var key := uuidOf(info.userId);
        var l := LookupName(db.udfNames, old(db.udfs), db.companies, old(db.names), info, key);
        (db.udfs, db.names) == NameTables(l, old(db.udfs), old(db.names), old(db.identity), info, key) &&
        db.identity == old(db.identity) + (if l.NewName? then 1 else 0) &&
        r == (if l.NameFailed? then Err(l.error) else Ok(ResolvedName(l)))
    {
      var key := uuidOf(info.userId);
      var udfNum := UdfNum(db.udfNames);
      if udfNum.None? {
        return Err(NoUdfName);
      }
      var owner := KeyOwner(db.udfs, udfNum.value, key);
      if owner.Some? {
        return Ok(owner);
      }
      var company := CompanyId(db.companies, info.company);
      if company.None? {
        return Err(NoCompany);
      }
      var byFields := NameByFields(db.names, info.firstName, info.lastName, company.value);
      if byFields.Some? {
        CreateOrUpdateUdfText(udfNum.value, byFields.value, key);
        return Ok(byFields);
      }
      var id := db.NextIdentity();
      db.names := db.names + [NameRow(id, LocGrp, info.firstName, info.lastName, company.value)];
      CreateOrUpdateUdfText(udfNum.value, id, key);
      return Ok(None);
    }

    /** `_find_or_create_new_combo_id`: a combo whose names are the base combo's and the ACL group
        name, found among the groups of the combo rows or created under a new id. */
    method FindOrCreateNewComboId(base: Option<nat>, acl: nat) returns (c: nat)
      requires CombosValid(db.combos, db.identity)
      modifies db`combos, db`identity
      ensures CombosValid(db.combos, db.identity) && old(db.identity) <= db.identity
      ensures Members(db.combos, c) == KnownIds(old(db.combos), base, acl)
      ensures var m := MatchingCombo(old(db.combos), KnownIds(old(db.combos), base, acl));
        m.Some? ==> c == m.value && db.combos == old(db.combos) && db.identity == old(db.identity)
      ensures var m := MatchingCombo(old(db.combos), KnownIds(old(db.combos), base, acl));
        m.None? ==> (c == old(db.identity) && db.identity == c + 1 &&
          |old(db.combos)| <= |db.combos| && db.combos[..|old(db.combos)|] == old(db.combos) &&
          forall x :: x != c ==> Members(db.combos, x) == Members(old(db.combos), x))
    {
      var known := KnownIds(db.combos, base, acl);
      var runs := Runs(db.combos);
      var found := FirstMatchingRun(runs, known);
      if found.Some? {
        c := runs[found.value].0;
        ContiguousMatch(db.combos, known);
        return;
      }
      ghost var rows := db.combos;
      c := db.NextIdentity();
      var block := InsertMembers(known, c, LocGrp);
      NewComboAppended(rows, acl, block, known, c);
      db.combos := db.combos + [ComboRow(acl, c, LocGrp)] + block;
    }

    /** `_get_card_combo_containing_acl` (with `_combo_contains_name_id`): the card's combo when
        it already holds the ACL group name, otherwise a combo of its names and that one. */
    method GetCardComboContainingAcl(combo: nat, acl: nat) returns (c: nat)
      requires CombosValid(db.combos, db.identity)
      modifies db`combos, db`identity
      ensures CombosValid(db.combos, db.identity) && old(db.identity) <= db.identity
      ensures Members(db.combos, c) == Members(old(db.combos), combo) + {acl}
      ensures |old(db.combos)| <= |db.combos| && db.combos[..|old(db.combos)|] == old(db.combos)
      ensures forall x :: x != c ==> Members(db.combos, x) == Members(old(db.combos), x)
      ensures acl in Members(old(db.combos), combo) ==> c == combo && db.combos == old(db.combos) && db.identity == old(db.identity)
      ensures acl !in Members(old(db.combos), combo) ==>
        var m := MatchingCombo(old(db.combos), Members(old(db.combos), combo) + {acl});
        (m.Some? ==> c == m.value && db.combos == old(db.combos) && db.identity == old(db.identity)) &&
        (m.None? ==> c == old(db.identity) && db.identity == c + 1)
    {
      if acl in Members(db.combos, combo) {
        return combo;
      }
      c := FindOrCreateNewComboId(Some(combo), acl);
    }

    /** `_create_card`, with the clock's reading `now`. */
    method CreateCard(nameId: Option<nat>, card: string, combo: nat, now: DateTime) returns (id: nat)
      requires CardsValid(db.cards, db.identity)
      modifies db`cards, db`identity
      ensures CardsValid(db.cards, db.identity)
      ensures id == old(db.identity) && db.identity == id + 1
      ensures db.cards == old(db.cards) + [NewCard(id, nameId, card, combo, now)]
    {
      id := db.NextIdentity();
      db.cards := db.cards + [CardRow(id, nameId, LocGrp, LStripZeros(card), now, Never, true, card, 0, combo)];
    }

    /** `_update_card_combo_id`. */
    method UpdateCardComboId(cardId: nat, combo: nat)
      modifies db`cards
      ensures db.cards == WithCombo(old(db.cards), cardId, combo)
    {
      db.cards := WithCombo(db.cards, cardId, combo);
    }

    /** `_set_card_active`, with the clock's reading `now`. */
    method SetCardActive(cardId: nat, nameId: Option<nat>, now: DateTime)
      modifies db`cards
      ensures db.cards == WithActive(old(db.cards), cardId, nameId, now)
    {
      db.cards := WithActive(db.cards, cardId, nameId, now);
    }

    /** `_set_card_inactive`: the card stops at the start of today and its LocCards rows ask for a
        download. */
    method SetCardInactive(cardId: nat, now: DateTime)
      modifies db`cards, db`locCards
      ensures db.cards == WithInactive(old(db.cards), cardId, StartOfDay(now))
      ensures db.locCards == FlagLocCards(old(db.locCards), cardId)
    {
      db.cards := WithInactive(db.cards, cardId, StartOfDay(now));
      db.locCards := FlagLocCards(db.locCards, cardId);
    }

    /** `_find_or_create_acl_id`: nothing is written, since every creation path raises. */
    method FindOrCreateAclId(combo: nat) returns (r: Result<set<nat>, Raised>)
      ensures r == AclIds(db.grants, db.combos, db.dgroups, db.acls, combo)
    {
      r := AclIdsFor(db.grants, db.combos, db.dgroups, db.acls, combo);
    }

    /** `_create_or_update_loc_cards`: pops up to five ids into the slots and writes them to the
        card's row. Returns the slots written. */
    method CreateOrUpdateLocCards(cardId: nat, aclIds: set<nat>) returns (s: Slots)
      requires LocCardsValid(db.locCards, db.identity)
      modifies db`locCards, db`identity
      ensures LocCardsValid(db.locCards, db.identity)
      ensures db.identity == old(db.identity) + (if LocCardOf(old(db.locCards), cardId).None? then 1 else 0)
      ensures SlotsFor(aclIds, s)
      ensures db.locCards == UpsertLocCard(old(db.locCards), cardId, s, old(db.identity))
      ensures HasLocCard(db.locCards, cardId, s)
    {
      var existing := LocCardOf(db.locCards, cardId);
      s := PopSlots(aclIds);
      UpsertLocCardOne(db.locCards, cardId, s, db.identity);
      if existing.Some? {
        db.locCards := SetLocCardAcls(db.locCards, db.locCards[existing.value].id, s);
      } else {
        var id := db.NextIdentity();
        db.locCards := db.locCards + [LocCard(id, LocGrp, cardId, 1, 0, s)];
      }
    }

    /** `_encourage_system_update`: the download flags, then up to 30 polls of LOC.FullDlFlag
        (`poll(i)` is what the i-th read returns), returning at the first that reads false. */
    method EncourageSystemUpdate(poll: nat -> bool) returns (r: Result<(), Raised>)
      modifies db`devs, db`ios, db`locs
      ensures db.devs == MarkDevs(old(db.devs)) && db.ios == MarkIos(old(db.ios)) && db.locs == MarkLocs(old(db.locs))
      ensures r.Ok? <==> exists j :: 0 <= j < 30 && !poll(j)
      ensures r.Err? ==> r.error == UpdateTimedOut
    {
      db.devs := MarkDevs(db.devs);
      db.ios := MarkIos(db.ios);
      db.locs := MarkLocs(db.locs);
      var done := AwaitDownload(poll);
      if done.None? {
        return Err(UpdateTimedOut);
      }
      return Ok(());
    }

    /** Lines 48-51 of `activate`, for a number no card has: a combo of the ACL group name alone,
        and a new card in it. */
    method ActivateNewCard(nameId: Option<nat>, card: string, acl: nat, now: DateTime) returns (cardId: nat, combo: nat)
      requires db.Valid() && FindCard(db.cards, card).None?
      modifies db`combos, db`cards, db`identity
      ensures db.Valid() && old(db.identity) <= cardId && db.identity == cardId + 1
      ensures db.cards == old(db.cards) + [NewCard(cardId, nameId, card, combo, now)]
      ensures ActiveCard(db.cards, db.combos, card, nameId, now, {acl})
      ensures var c := db.cards[FindCard(db.cards, card).value]; c.id == cardId && c.comboId == combo
      ensures |old(db.combos)| <= |db.combos| && db.combos[..|old(db.combos)|] == old(db.combos)
      ensures forall x :: x != combo ==> Members(db.combos, x) == Members(old(db.combos), x)
      ensures MatchingCombo(old(db.combos), {acl}).Some? ==>
        combo == MatchingCombo(old(db.combos), {acl}).value && db.combos == old(db.combos)
    {
      combo := FindOrCreateNewComboId(None, acl);
      cardId := CreateCard(nameId, card, combo, now);
      NewCardFound(old(db.cards), cardId, nameId, card, combo, now, 0);
    }

    /** Lines 52-60 of `activate`, for the card at index `k`: its combo extended by the ACL group
        name, then the card made active for the name. Returns the card's combo. */
    method ActivateExistingCard(k: nat, nameId: Option<nat>, acl: nat, now: DateTime) returns (combo: nat)
      requires k < |db.cards| && CombosValid(db.combos, db.identity)
      modifies db`combos, db`cards, db`identity
      ensures CombosValid(db.combos, db.identity) && old(db.identity) <= db.identity
      ensures Members(db.combos, combo) == Members(old(db.combos), old(db.cards)[k].comboId) + {acl}
      ensures db.cards == Reactivated(old(db.cards), k, combo, nameId, now)
      ensures |old(db.combos)| <= |db.combos| && db.combos[..|old(db.combos)|] == old(db.combos)
      ensures forall x :: x != combo ==> Members(db.combos, x) == Members(old(db.combos), x)
      ensures acl in Members(old(db.combos), old(db.cards)[k].comboId) ==>
        combo == old(db.cards)[k].comboId && db.combos == old(db.combos) && db.identity == old(db.identity)
      ensures var m := MatchingCombo(old(db.combos), Members(old(db.combos), old(db.cards)[k].comboId) + {acl});
        m.Some? ==> db.combos == old(db.combos) && (acl !in Members(old(db.combos), old(db.cards)[k].comboId) ==> combo == m.value)
    {
      var cardId := db.cards[k].id;
      combo := db.cards[k].comboId;
      var newCombo := GetCardComboContainingAcl(combo, acl);
      if combo != newCombo {
        UpdateCardComboId(cardId, newCombo);
        combo := newCombo;
      }
      SetCardActive(cardId, nameId, now);
    }

    /** Lines 47-60 of `activate`: the card the number finds, or a new one, made active for the
        name in a combo of its former names (none for a new card) and the ACL group name. An
        existing card keeps its index and id. Returns the card's id and combo. */
    method ActivateCard(nameId: Option<nat>, card: string, acl: nat, now: DateTime) returns (cardId: nat, combo: nat)
      requires db.Valid()
      modifies db`combos, db`cards, db`identity
      ensures db.Valid() && old(db.identity) <= db.identity
      ensures CardActivated(old(db.cards), old(db.combos), db.cards, db.combos, card, nameId, acl, now)
      ensures var c := db.cards[FindCard(db.cards, card).value]; c.id == cardId && c.comboId == combo
    {
      var found := FindCard(db.cards, card);
      if found.None? {
        cardId, combo := ActivateNewCard(nameId, card, acl, now);
        return;
      }
      ghost var cards0 := db.cards;
      cardId := db.cards[found.value].id;
      combo := ActivateExistingCard(found.value, nameId, acl, now);
      ReactivatedCard(cards0, old(db.identity), found.value, card, combo, nameId, now);
      ValidGrows(db.names, db.combos, db.cards, db.locCards, old(db.identity), db.identity);
    }

    /** Lines 64-67 of `activate`, once the combo's ACL ids are known: the card's LocCards row
        holding slots for them, then the barrier. Neither the cards nor the combos are written. */
    method GrantAccess(cardId: nat, aclIds: set<nat>, poll: nat -> bool) returns (r: Result<(), Raised>)
      requires LocCardsValid(db.locCards, db.identity)
      modifies db`locCards, db`identity, db`devs, db`ios, db`locs
      ensures LocCardsValid(db.locCards, db.identity)
      ensures AccessGranted(Ok(aclIds), cardId, old(db.identity), poll,
        old(db.locCards), old(db.devs), old(db.ios), old(db.locs), db.locCards, db.devs, db.ios, db.locs, r)
      ensures db.identity == old(db.identity) + (if LocCardOf(old(db.locCards), cardId).None? then 1 else 0)
    {
      var slots := CreateOrUpdateLocCards(cardId, aclIds);
      r := EncourageSystemUpdate(poll);
      AccessGrantedOk(aclIds, slots, cardId, old(db.identity), poll, old(db.locCards), old(db.devs), old(db.ios), old(db.locs),
        db.locCards, db.devs, db.ios, db.locs, r);
    }

    /** Lines 47-67 of `activate`, once the ACL group name and the name are resolved: the card
        activated, then access granted for its combo's ACL ids. */
    method ActivateResolved(nameId: Option<nat>, card: string, acl: nat, now: DateTime, poll: nat -> bool) returns (r: Result<(), Raised>)
      requires db.Valid()
      modifies db`combos, db`cards, db`identity, db`locCards, db`devs, db`ios, db`locs
      ensures db.Valid() && old(db.identity) <= db.identity
      ensures CardActivated(old(db.cards), old(db.combos), db.cards, db.combos, card, nameId, acl, now)
      ensures var c := db.cards[FindCard(db.cards, card).value];
        exists n :: AccessGranted(AclIds(db.grants, db.combos, db.dgroups, db.acls, c.comboId), c.id, n, poll,
          old(db.locCards), old(db.devs), old(db.ios), old(db.locs), db.locCards, db.devs, db.ios, db.locs, r)
    {
      var cardId, combo := ActivateCard(nameId, card, acl, now);
      var aclIds := FindOrCreateAclId(combo);
      ghost var i := db.identity;
      if aclIds.Err? {
        r := Err(aclIds.error);
        assert AccessGranted(aclIds, cardId, i, poll, old(db.locCards), old(db.devs), old(db.ios), old(db.locs),
          db.locCards, db.devs, db.ios, db.locs, r);
        return;
      }
      r := GrantAccess(cardId, aclIds.value, poll);
      ValidGrows(db.names, db.combos, db.cards, db.locCards, i, db.identity);
      assert AccessGranted(aclIds, cardId, i, poll, old(db.locCards), old(db.devs), old(db.ios), old(db.locs),
        db.locCards, db.devs, db.ios, db.locs, r);
    }

    /** `activate`. A missing ACL group name or a failed name lookup raises before anything is
        written. Otherwise the UDF and NAMES tables are those the name lookup leaves, the card the
        number finds (or a new one) is active for the resolved name in a combo of its former names
        and the default ACL group name, and access is granted as `AccessGranted` says for that
        combo's ACL ids: the activation succeeds exactly when the ids resolve and one of the 30
        polls reads false. */
    method Activate(info: CardInfo, now: DateTime, poll: nat -> bool) returns (r: Result<(), Raised>)
      requires db.Valid()
      modifies db
      ensures db.Valid()
      ensures AclByName(db.aclNames, defaultAcl).Err? ==> r == Err(NoAclName) && unchanged(db)
      ensures var l := LookupName(db.udfNames, old(db.udfs), db.companies, old(db.names), info, uuidOf(info.userId));
        AclByName(db.aclNames, defaultAcl).Ok? && l.NameFailed? ==> r == Err(l.error) && unchanged(db)
      ensures var acl := AclByName(db.aclNames, defaultAcl);
        var key := uuidOf(info.userId);
        var l := LookupName(db.udfNames, old(db.udfs), db.companies, old(db.names), info, key);
        acl.Ok? && !l.NameFailed? ==>
          (db.udfs, db.names) == NameTables(l, old(db.udfs), old(db.names), old(db.identity), info, key) &&
          CardActivated(old(db.cards), old(db.combos), db.cards, db.combos, info.card, ResolvedName(l), acl.value, now) &&
          var c := db.cards[FindCard(db.cards, info.card).value];
          exists n :: AccessGranted(AclIds(db.grants, db.combos, db.dgroups, db.acls, c.comboId), c.id, n, poll,
            old(db.locCards), old(db.devs), old(db.ios), old(db.locs), db.locCards, db.devs, db.ios, db.locs, r)
    {
      var acl := AclByName(db.aclNames, defaultAcl);
      if acl.Err? {
        return Err(acl.error);
      }
      var name := FindOrCreateName(info);
      if name.Err? {
        return Err(name.error);
      }
      ValidGrows(db.names, db.combos, db.cards, db.locCards, old(db.identity), db.identity);
      r := ActivateResolved(name.value, info.card, acl.value, now, poll);
    }

    /** `deactivate`. An unknown number writes nothing and skips the barrier; otherwise the card
        the number finds is inactive from the start of today, its LocCards rows ask for a
        download, and the barrier runs. */
    method Deactivate(info: CardInfo, now: DateTime, poll: nat -> bool) returns (r: Result<(), Raised>)
      requires db.Valid()
      modifies db
      ensures db.Valid()
      ensures FindCard(old(db.cards), info.card).None? ==> r == Ok(()) && unchanged(db)
      ensures FindCard(old(db.cards), info.card).Some? ==>
        var k := FindCard(old(db.cards), info.card).value;
        var id := old(db.cards)[k].id;
        db.cards == WithInactive(old(db.cards), id, StartOfDay(now)) &&
        db.locCards == FlagLocCards(old(db.locCards), id) &&
        db.devs == MarkDevs(old(db.devs)) && db.ios == MarkIos(old(db.ios)) && db.locs == MarkLocs(old(db.locs)) &&
        (r.Ok? <==> exists j :: 0 <= j < 30 && !poll(j)) && (r.Err? ==> r.error == UpdateTimedOut)
      ensures db.names == old(db.names) && db.udfs == old(db.udfs) && db.combos == old(db.combos) && db.identity == old(db.identity)
    {
      var found := FindCard(db.cards, info.card);
      if found.None? {
        return Ok(());
      }
      SetCardInactive(db.cards[found.value].id, now);
      r := EncourageSystemUpdate(poll);
    }
  }

  /** The card row a deactivation leaves: inactive, stopping at the start of today, to be
      downloaded again, and still found by the same number; no other row changes. */
  lemma {:induction false} DeactivatedCard(cards: seq<CardRow>, identity: nat, card: string, now: DateTime)
    requires CardsValid(cards, identity) && FindCard(cards, card).Some?
    ensures var k := FindCard(cards, card).value;
      var r := WithInactive(cards, cards[k].id, StartOfDay(now));
      CardsValid(r, identity) && FindCard(r, card) == Some(k) &&
      r[k] == cards[k].(stop := StartOfDay(now), dlFlag := 0, status := false) &&
      forall i :: 0 <= i < |cards| && i != k ==> r[i] == cards[i]
  {
    var k := FindCard(cards, card).value;
    SameKeysFound(cards, WithInactive(cards, cards[k].id, StartOfDay(now)), identity, card);
  }
}
