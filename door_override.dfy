/** Door override commands sent to the DSX comm server at 127.0.0.1:22223.
    Each socket send is one string; a command is the list of sends it makes. */
module DoorOverride {
  import opened Wrappers
  import opened Text

  /** The override states and their wire codes. */
  datatype DoorState = Open | Secure | TimeZone
  {
    function Value(): (v: int)
      ensures 1 <= v <= 3
    {
      match this
      case Open => 1
      case Secure => 2
      case TimeZone => 3
    }
  }

  function StateOfValue(v: int): Option<DoorState>
  {
    if v == 1 then Some(Open) else if v == 2 then Some(Secure) else if v == 3 then Some(TimeZone) else None
  }

  /** The codes are 1, 2 and 3, and each names one state. */
  lemma DoorStateCodes(st: DoorState)
    ensures Open.Value() == 1 && Secure.Value() == 2 && TimeZone.Value() == 3
    ensures StateOfValue(st.Value()) == Some(st)
  {
  }

  const FramePrefix := "6 80 3 "
  const FrameSuffix := " 3830202337 11 *Comm Server\r\n"
  /** The separate line break sent after every frame. */
  const FrameEnd := "\r\n"

  /** The command frame for one door and state. */
  function Frame(door: int, state: DoorState): string
  {
    FramePrefix + IntToString(door) + " 0 " + IntToString(state.Value()) + FrameSuffix
  }

  /** Reads a frame back into its door number and state; None for anything that is not a frame. */
  function ParseFrame(f: string): Option<(int, DoorState)>
  {
    var p := |FramePrefix|;
    var q := |FrameSuffix|;
    if |f| < p + q + 5 || f[..p] != FramePrefix || f[|f| - q..] != FrameSuffix then None
    else
      var mid := f[p..|f| - q];
      var c := mid[|mid| - 1];
      if mid[|mid| - 4..|mid| - 1] != " 0 " || !IsDigit(c) then None
      else match (ParseInt(mid[..|mid| - 4]), StateOfValue(DigitValue(c)))
        case (Some(door), Some(state)) => Some((door, state))
        case _ => None
  }

  /** Distinct doors or states give distinct frames: a frame reads back as what it encodes. */
  lemma FrameRoundTrip(door: int, state: DoorState)
    ensures ParseFrame(Frame(door, state)) == Some((door, state))
  {
    var d := IntToString(door);
    var v := IntToString(state.Value());
    assert v == [DigitChar(state.Value())];
    var f := Frame(door, state);
    assert f == FramePrefix + (d + " 0 " + v) + FrameSuffix;
    var mid := d + " 0 " + v;
    assert f[..|FramePrefix|] == FramePrefix;
    assert f[|f| - |FrameSuffix|..] == FrameSuffix;
    assert f[|FramePrefix|..|f| - |FrameSuffix|] == mid;
    assert mid[|mid| - 4..|mid| - 1] == " 0 ";
    assert mid[..|mid| - 4] == d;
    IntToStringRoundTrip(door);
  }

  /** `_set_state_internal`: one connection, the frame then the line break. */
  function SetStateInternal(door: int, state: DoorState): seq<string>
  {
    [Frame(door, state), FrameEnd]
  }

  /** `set_state`: the same exchange twice. */
  function SetState(door: int, state: DoorState): seq<string>
  {
    SetStateInternal(door, state) + SetStateInternal(door, state)
  }

  /** `set_state` makes four sends: twice the frame for the door and state, each followed by
      the line break. */
  lemma SetStateSends(door: int, state: DoorState)
    ensures var sends := SetState(door, state);
      |sends| == 4 && sends[1] == sends[3] == FrameEnd && sends[0] == sends[2] &&
      ParseFrame(sends[0]) == Some((door, state))
  {
    FrameRoundTrip(door, state);
  }

  function OpenDoor(door: int): seq<string> { SetState(door, Open) }

  function SecureDoor(door: int): seq<string> { SetState(door, Secure) }

  function TimeZoneDoor(door: int): seq<string> { SetState(door, TimeZone) }

  /** The door and state a series of sends commands: those of its first frame. */
  function Commanded(sends: seq<string>): Option<(int, DoorState)>
  {
    if |sends| == 0 then None else ParseFrame(sends[0])
  }

  /** `open`, `secure` and `time_zone` command their door into the open, secure and time-zone
      states. */
  lemma ShortcutStates(door: int)
    ensures Commanded(OpenDoor(door)) == Some((door, Open))
    ensures Commanded(SecureDoor(door)) == Some((door, Secure))
    ensures Commanded(TimeZoneDoor(door)) == Some((door, TimeZone))
  {
    SetStateSends(door, Open);
    SetStateSends(door, Secure);
    SetStateSends(door, TimeZone);
  }
}
