/** The DSX import-file serialiser: records for a name, a user-defined field
    (UDF) and a card, and the command that lays them out as the lines of one
    `^IMPnn.txt` file. */
module Dsx {
  import opened Wrappers
  import opened Text
  import opened Clock

  /** Every field of a record is written as `F <Field> ^<value>^^^`. */
  function FieldLine(field: string, value: string): string
  {
    "F " + field + " ^" + value + "^^^"
  }

  /** The value a field line carries for the given field name, if it is such a line. */
  function FieldValue(line: string, field: string): Option<string>
  {
    var prefix := "F " + field + " ^";
    if |line| >= |prefix| + 3 && line[..|prefix|] == prefix && line[|line| - 3..] == "^^^"
    then Some(line[|prefix|..|line| - 3])
    else None
  }

  lemma FieldLineRoundTrip(field: string, value: string)
    ensures FieldValue(FieldLine(field, value), field) == Some(value)
    ensures FieldLine(field, value) != "W"
  {
    var prefix := "F " + field + " ^";
    var line := FieldLine(field, value);
    assert line == prefix + value + "^^^";
    assert line[..|prefix|] == prefix;
    assert line[|line| - 3..] == "^^^";
    assert line[|prefix|..|line| - 3] == value;
    assert line[0] == 'F';
  }

  /** DSXName: a `Names` record. */
  datatype DsxName = DsxName(firstName: string, lastName: string, company: string) {
    function Lines(): seq<string>
    {
      ["T Names", FieldLine("FName", firstName), FieldLine("LName", lastName), FieldLine("Company", company), "W"]
    }
  }

  function ParseName(lines: seq<string>): Option<DsxName>
  {
    if |lines| == 5 && lines[0] == "T Names" && lines[4] == "W" &&
       FieldValue(lines[1], "FName").Some? && FieldValue(lines[2], "LName").Some? && FieldValue(lines[3], "Company").Some?
    then Some(DsxName(FieldValue(lines[1], "FName").value, FieldValue(lines[2], "LName").value,
                      FieldValue(lines[3], "Company").value))
    else None
  }

  /** A name record is exactly five lines and gives back the name it was made from. */
  lemma NameRecordRoundTrip(n: DsxName)
    ensures |n.Lines()| == 5 && n.Lines()[0] == "T Names" && n.Lines()[4] == "W"
    ensures ParseName(n.Lines()) == Some(n)
  {
    FieldLineRoundTrip("FName", n.firstName);
    FieldLineRoundTrip("LName", n.lastName);
    FieldLineRoundTrip("Company", n.company);
  }

  /** DSX_UDF: a `UDF` record holding one user-defined field of the holder. */
  datatype DsxUdf = DsxUdf(num: int, text: string) {
    function Lines(): seq<string>
    {
      ["T UDF", FieldLine("UdfNum", IntToString(num)), FieldLine("UdfText", text), "W"]
    }
  }

  function ParseUdf(lines: seq<string>): Option<DsxUdf>
  {
    if |lines| == 4 && lines[0] == "T UDF" && lines[3] == "W" &&
       FieldValue(lines[1], "UdfNum").Some? && ParseInt(FieldValue(lines[1], "UdfNum").value).Some? &&
       FieldValue(lines[2], "UdfText").Some?
    then Some(DsxUdf(ParseInt(FieldValue(lines[1], "UdfNum").value).value, FieldValue(lines[2], "UdfText").value))
    else None
  }

  /** A UDF record is exactly four lines and gives back the number and text it was made from. */
  lemma UdfRecordRoundTrip(u: DsxUdf)
    ensures |u.Lines()| == 4 && u.Lines()[0] == "T UDF" && u.Lines()[3] == "W"
    ensures ParseUdf(u.Lines()) == Some(u)
  {
    FieldLineRoundTrip("UdfNum", IntToString(u.num));
    FieldLineRoundTrip("UdfText", u.text);
    IntToStringRoundTrip(u.num);
  }

  /** The lines of a `Cards` record, from the state of a DSXCard. */
  function CardLines(code: string, cardNum: string, endDate: DateTime, acls: seq<string>): seq<string>
  {
    ["T Cards", FieldLine("Code", code), FieldLine("CardNum", cardNum), FieldLine("StopDate", FormatMinutes(endDate))]
    + AclLines(acls) + ["W"]
  }

  function AclLines(acls: seq<string>): seq<string>
  {
    seq(|acls|, i requires 0 <= i < |acls| => FieldLine("AddAcl", acls[i]))
  }

  /** A card record: header, Code, CardNum, StopDate, one AddAcl per ACL in order, then `W`. */
  lemma CardRecordLayout(code: string, cardNum: string, endDate: DateTime, acls: seq<string>)
    ensures var r := CardLines(code, cardNum, endDate, acls);
      && |r| == 5 + |acls| && r[0] == "T Cards" && r[|r| - 1] == "W"
      && FieldValue(r[1], "Code") == Some(code)
      && FieldValue(r[2], "CardNum") == Some(cardNum)
      && FieldValue(r[3], "StopDate") == Some(FormatMinutes(endDate))
      && (forall i :: 0 <= i < |acls| ==> FieldValue(r[4 + i], "AddAcl") == Some(acls[i]))
      && IsRecord(r)
  {
    CardRecordFields(code, cardNum, endDate, acls);
    CardRecordAcls(code, cardNum, endDate, acls);
    CardRecordIsRecord(code, cardNum, endDate, acls);
  }

  lemma CardRecordFields(code: string, cardNum: string, endDate: DateTime, acls: seq<string>)
    ensures var r := CardLines(code, cardNum, endDate, acls);
      && |r| == 5 + |acls| && r[0] == "T Cards" && r[|r| - 1] == "W"
      && FieldValue(r[1], "Code") == Some(code)
      && FieldValue(r[2], "CardNum") == Some(cardNum)
      && FieldValue(r[3], "StopDate") == Some(FormatMinutes(endDate))
  {
    FieldLineRoundTrip("Code", code);
    FieldLineRoundTrip("CardNum", cardNum);
    FieldLineRoundTrip("StopDate", FormatMinutes(endDate));
  }

  lemma CardRecordAcls(code: string, cardNum: string, endDate: DateTime, acls: seq<string>)
    ensures var r := CardLines(code, cardNum, endDate, acls);
      |r| == 5 + |acls| && forall i :: 0 <= i < |acls| ==> FieldValue(r[4 + i], "AddAcl") == Some(acls[i])
  {
    var r := CardLines(code, cardNum, endDate, acls);
    var tail := AclLines(acls);
    forall i | 0 <= i < |acls|
      ensures FieldValue(r[4 + i], "AddAcl") == Some(acls[i])
    {
      assert r[4 + i] == tail[i] == FieldLine("AddAcl", acls[i]);
      FieldLineRoundTrip("AddAcl", acls[i]);
    }
  }

  lemma CardRecordIsRecord(code: string, cardNum: string, endDate: DateTime, acls: seq<string>)
    ensures IsRecord(CardLines(code, cardNum, endDate, acls))
  {
    var r := CardLines(code, cardNum, endDate, acls);
    var head := ["T Cards", FieldLine("Code", code), FieldLine("CardNum", cardNum), FieldLine("StopDate", FormatMinutes(endDate))];
    var tail := AclLines(acls);
    assert r == head + tail + ["W"];
    FieldLineRoundTrip("Code", code);
    FieldLineRoundTrip("CardNum", cardNum);
    FieldLineRoundTrip("StopDate", FormatMinutes(endDate));
    assert "W" !in head;
    AclLinesHaveNoW(acls);
    assert r[..|r| - 1] == head + tail;
  }

  lemma AclLinesHaveNoW(acls: seq<string>)
    ensures "W" !in AclLines(acls)
  {
    forall i | 0 <= i < |acls| ensures AclLines(acls)[i] != "W" {
      FieldLineRoundTrip("AddAcl", acls[i]);
    }
  }

  /** DSXCard: a card record under construction. `code` is the card number
      without its leading zeros; `cardNum` is kept as given. */
  class DsxCard {
    const code: string
    const cardNum: string
    var endDate: DateTime
    var acls: seq<string>

    constructor (num: string)
      ensures cardNum == num && code == LStripZeros(num)
      ensures endDate == Never && acls == []
    {
      code := LStripZeros(num);
      cardNum := num;
      endDate := Never;
      acls := [];
    }

    /** Restores the never-expiring stop date. */
    method Enable()
      modifies this`endDate
      ensures endDate == Never
    {
      endDate := Never;
    }

    /** Stops the card now, to the second. */
    method Disable(now: DateTime)
      modifies this`endDate
      ensures endDate == WithoutMicroseconds(now)
    {
      endDate := WithoutMicroseconds(now);
    }

    method AddAcl(aclName: string)
      modifies this`acls
      ensures acls == old(acls) + [aclName]
    {
      acls := acls + [aclName];
    }

    function Lines(): seq<string>
      reads this
    {
      CardLines(code, cardNum, endDate, acls)
    }
  }

  /** The first line of an import file: `I L<loc> U<udf> ^<udf id>^^^`; an unset id prints as `None`. */
  function HeaderLine(locGrp: int, udfNum: int, udfId: Option<string>): string
  {
    "I L" + IntToString(locGrp) + " U" + IntToString(udfNum) + " ^" + (if udfId.Some? then udfId.value else "None") + "^^^"
  }

  /** The lines between the header and the closing `P`. */
  function CommandBody(name: Option<DsxName>, udfs: seq<DsxUdf>, cards: seq<DsxCard>): seq<string>
    reads set c | c in cards
  {
    NameLines(name) + UdfTableLines(udfs) + CardTableLines(cards)
  }

  function NameLines(name: Option<DsxName>): seq<string>
  {
    if name.Some? then name.value.Lines() else []
  }

  function UdfTableLines(udfs: seq<DsxUdf>): seq<string>
  {
    if udfs == [] then [] else udfs[0].Lines() + UdfTableLines(udfs[1..])
  }

  function CardTableLines(cards: seq<DsxCard>): seq<string>
    reads set c | c in cards
  {
    if cards == [] then [] else cards[0].Lines() + CardTableLines(cards[1..])
  }

  /** All the records of a command, in the order `write` lays them out. */
  function CommandRecords(name: Option<DsxName>, udfs: seq<DsxUdf>, cards: seq<DsxCard>): seq<seq<string>>
    reads set c | c in cards
  {
    (if name.Some? then [name.value.Lines()] else []) + UdfRecords(udfs) + CardRecords(cards)
  }

  function UdfRecords(udfs: seq<DsxUdf>): seq<seq<string>>
  {
    if udfs == [] then [] else [udfs[0].Lines()] + UdfRecords(udfs[1..])
  }

  function CardRecords(cards: seq<DsxCard>): seq<seq<string>>
    reads set c | c in cards
  {
    if cards == [] then [] else [cards[0].Lines()] + CardRecords(cards[1..])
  }

  /** Splits a body into records, each ending at its `W` line. */
  function Records(body: seq<string>): seq<seq<string>>
    decreases |body|
  {
    if body == [] then []
    else
      var k := FirstW(body, 0);
      if k == |body| then [body] else [body[..k + 1]] + Records(body[k + 1..])
  }

  function FirstW(body: seq<string>, from: nat): (k: nat)
    requires from <= |body|
    ensures from <= k <= |body|
    ensures forall i :: from <= i < k ==> body[i] != "W"
    ensures k < |body| ==> body[k] == "W"
    decreases |body| - from
  {
    if from == |body| then from else if body[from] == "W" then from else FirstW(body, from + 1)
  }

  /** A record: ends with `W` and has no other `W` line. */
  predicate IsRecord(r: seq<string>)
  {
    |r| >= 1 && r[|r| - 1] == "W" && "W" !in r[..|r| - 1]
  }

  function Flatten(rs: seq<seq<string>>): seq<string>
  {
    if rs == [] then [] else rs[0] + Flatten(rs[1..])
  }

  lemma {:induction false} RecordsOfFlatten(rs: seq<seq<string>>)
    requires AllRecords(rs)
    ensures Records(Flatten(rs)) == rs
    decreases |rs|
  {
    if rs != [] {
      var r, body := rs[0], Flatten(rs);
      assert body == r + Flatten(rs[1..]);
      FirstWOfPrefix(r, Flatten(rs[1..]), 0);
      assert body[..|r|] == r;
      assert body[|r|..] == Flatten(rs[1..]);
      RecordsOfFlatten(rs[1..]);
    }
  }

  lemma {:induction false} FirstWOfPrefix(r: seq<string>, rest: seq<string>, from: nat)
    requires IsRecord(r) && from < |r|
    ensures FirstW(r + rest, from) == |r| - 1
    decreases |r| - from
  {
    if from < |r| - 1 {
      assert (r + rest)[from] == r[from] && r[from] in r[..|r| - 1];
      FirstWOfPrefix(r, rest, from + 1);
    }
  }

  /** DSXCommand: one import file being assembled. */
  class DsxCommand {
    const locGrp: int
    const udfNum: int
    var udfId: Option<string>
    var name: Option<DsxName>
    var udfTable: seq<DsxUdf>
    var cardTable: seq<DsxCard>

    constructor (locGrp: int, udfNum: int)
      ensures this.locGrp == locGrp && this.udfNum == udfNum
      ensures udfId == None && name == None && udfTable == [] && cardTable == []
    {
      this.locGrp := locGrp;
      this.udfNum := udfNum;
      udfId := None;
      name := None;
      udfTable := [];
      cardTable := [];
    }

    /** Records the holder's id and appends one UDF record for it under this command's UDF number. */
    method SetUdfId(id: string)
      modifies this`udfId, this`udfTable
      ensures udfId == Some(id)
      ensures udfTable == old(udfTable) + [DsxUdf(udfNum, id)]
    {
      udfId := Some(id);
      AddUdf(DsxUdf(udfNum, id));
    }

    method SetName(n: DsxName)
      modifies this`name
      ensures name == Some(n)
    {
      name := Some(n);
    }

    method AddCard(card: DsxCard)
      modifies this`cardTable
      ensures cardTable == old(cardTable) + [card]
    {
      cardTable := cardTable + [card];
    }

    method AddUdf(udf: DsxUdf)
      modifies this`udfTable
      ensures udfTable == old(udfTable) + [udf]
    {
      udfTable := udfTable + [udf];
    }

    /** The `lines` list of `write`. */
    function Lines(): seq<string>
      reads this, set c | c in cardTable
    {
      [HeaderLine(locGrp, udfNum, udfId)] + CommandBody(name, udfTable, cardTable) + ["P"]
    }

    /** Writes every line followed by a newline, in order, to the file handle (the returned writes). */
    method Write() returns (writes: seq<string>)
      ensures writes == Terminated(Lines())
    {
      writes := WriteLines(Lines());
    }
  }

  /** The loop at the end of `write`: one write of the line, one of the newline. */
  method WriteLines(lines: seq<string>) returns (writes: seq<string>)
    ensures writes == Terminated(lines)
  {
    writes := [];
    var i := 0;
    while i < |lines|
      invariant 0 <= i <= |lines|
      invariant writes == Terminated(lines[..i])
    {
      TerminatedAppend(lines[..i], lines[i]);
      assert lines[..i + 1] == lines[..i] + [lines[i]];
      writes := writes + [lines[i], "\n"];
      i := i + 1;
    }
    assert lines[..i] == lines;
  }

  /** The sequence of `fh.write` calls for a list of lines: each line, then a newline. */
  function Terminated(lines: seq<string>): seq<string>
  {
    if lines == [] then [] else [lines[0], "\n"] + Terminated(lines[1..])
  }

  lemma {:induction false} TerminatedAppend(lines: seq<string>, line: string)
    ensures Terminated(lines + [line]) == Terminated(lines) + [line, "\n"]
    decreases |lines|
  {
    if lines == [] {
      assert [] + [line] == [line];
    } else {
      assert (lines + [line])[1..] == lines[1..] + [line];
      TerminatedAppend(lines[1..], line);
    }
  }

  /** Every written line is followed by exactly one newline and nothing is reordered. */
  lemma {:induction false} TerminatedAt(lines: seq<string>)
    ensures |Terminated(lines)| == 2 * |lines|
    ensures forall k :: 0 <= k < |lines| ==> Terminated(lines)[2 * k] == lines[k] && Terminated(lines)[2 * k + 1] == "\n"
    decreases |lines|
  {
    if lines != [] {
      TerminatedAt(lines[1..]);
      var t := Terminated(lines);
      assert t == [lines[0], "\n"] + Terminated(lines[1..]);
      forall k | 1 <= k < |lines|
        ensures t[2 * k] == lines[k] && t[2 * k + 1] == "\n"
      {
        assert lines[k] == lines[1..][k - 1];
        assert t[2 * k] == Terminated(lines[1..])[2 * (k - 1)];
        assert t[2 * k + 1] == Terminated(lines[1..])[2 * (k - 1) + 1];
      }
    }
  }

  lemma {:induction false} UdfTableLinesFlatten(udfs: seq<DsxUdf>)
    ensures UdfTableLines(udfs) == Flatten(UdfRecords(udfs))
    ensures AllRecords(UdfRecords(udfs))
    decreases |udfs|
  {
    if udfs != [] {
      UdfTableLinesFlatten(udfs[1..]);
      var u := udfs[0];
      FieldLineRoundTrip("UdfNum", IntToString(u.num));
      FieldLineRoundTrip("UdfText", u.text);
      assert IsRecord(u.Lines());
    }
  }

  lemma {:induction false} CardTableLinesFlatten(cards: seq<DsxCard>)
    ensures CardTableLines(cards) == Flatten(CardRecords(cards))
    ensures AllRecords(CardRecords(cards))
    decreases |cards|
  {
    if cards != [] {
      CardTableLinesFlatten(cards[1..]);
      var c := cards[0];
      CardRecordIsRecord(c.code, c.cardNum, c.endDate, c.acls);
    }
  }

  lemma {:induction false} FlattenAppend(a: seq<seq<string>>, b: seq<seq<string>>)
    ensures Flatten(a + b) == Flatten(a) + Flatten(b)
    decreases |a|
  {
    if a != [] {
      assert (a + b)[1..] == a[1..] + b;
      assert Flatten(a + b) == (a + b)[0] + Flatten((a + b)[1..]);
      FlattenAppend(a[1..], b);
    } else {
      assert a + b == b;
    }
  }

  /** The layout of an import file: the header line first and `P` last; between
      them, the name record if a name was set, then every UDF record, then every
      card record, each in insertion order, and nothing else. */
  lemma CommandLayout(cmd: DsxCommand)
    ensures var lines := cmd.Lines();
      && |lines| >= 2
      && lines[0] == HeaderLine(cmd.locGrp, cmd.udfNum, cmd.udfId)
      && lines[|lines| - 1] == "P"
      && Records(lines[1..|lines| - 1]) == CommandRecords(cmd.name, cmd.udfTable, cmd.cardTable)
  {
    var lines := cmd.Lines();
    var rs := CommandRecords(cmd.name, cmd.udfTable, cmd.cardTable);
    var body := CommandBody(cmd.name, cmd.udfTable, cmd.cardTable);
    CommandBodyIsFlatten(cmd.name, cmd.udfTable, cmd.cardTable);
    CommandRecordsAreRecords(cmd.name, cmd.udfTable, cmd.cardTable);
    RecordsOfFlatten(rs);
    assert Records(body) == rs;
    assert lines == [HeaderLine(cmd.locGrp, cmd.udfNum, cmd.udfId)] + body + ["P"];
    assert lines[1..|lines| - 1] == body;
  }

  lemma CommandBodyIsFlatten(name: Option<DsxName>, udfs: seq<DsxUdf>, cards: seq<DsxCard>)
    ensures CommandBody(name, udfs, cards) == Flatten(CommandRecords(name, udfs, cards))
  {
    var nameRs := if name.Some? then [name.value.Lines()] else [];
    var udfRs := UdfRecords(udfs);
    var cardRs := CardRecords(cards);
    assert CommandRecords(name, udfs, cards) == nameRs + udfRs + cardRs;
    if name.Some? {
      assert Flatten([name.value.Lines()]) == name.value.Lines() + Flatten([]);
    }
    UdfTableLinesFlatten(udfs);
    CardTableLinesFlatten(cards);
    FlattenAppend(nameRs, udfRs);
    FlattenAppend(nameRs + udfRs, cardRs);
  }

  predicate AllRecords(rs: seq<seq<string>>)
  {
    forall i :: 0 <= i < |rs| ==> IsRecord(rs[i])
  }

  lemma AllRecordsAppend(a: seq<seq<string>>, b: seq<seq<string>>)
    requires AllRecords(a) && AllRecords(b)
    ensures AllRecords(a + b)
  {
    forall i | 0 <= i < |a + b| ensures IsRecord((a + b)[i]) {
      if i < |a| { assert (a + b)[i] == a[i]; } else { assert (a + b)[i] == b[i - |a|]; }
    }
  }

  lemma CommandRecordsAreRecords(name: Option<DsxName>, udfs: seq<DsxUdf>, cards: seq<DsxCard>)
    ensures AllRecords(CommandRecords(name, udfs, cards))
  {
    var nameRs := if name.Some? then [name.value.Lines()] else [];
    var udfRs := UdfRecords(udfs);
    var cardRs := CardRecords(cards);
    assert CommandRecords(name, udfs, cards) == nameRs + udfRs + cardRs;
    if name.Some? {
      NameIsRecord(name.value);
    }
    assert AllRecords(nameRs);
    UdfTableLinesFlatten(udfs);
    CardTableLinesFlatten(cards);
    assert AllRecords(udfRs);
    assert AllRecords(cardRs);
    AllRecordsAppend(nameRs, udfRs);
    AllRecordsAppend(nameRs + udfRs, cardRs);
  }

  lemma NameIsRecord(n: DsxName)
    ensures IsRecord(n.Lines())
  {
    FieldLineRoundTrip("FName", n.firstName);
    FieldLineRoundTrip("LName", n.lastName);
    FieldLineRoundTrip("Company", n.company);
  }
}
