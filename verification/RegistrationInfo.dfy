/** The registration block that `fill_registration_info` fills from a dictionary. */
module RegistrationInfo {
  import opened Basics
  import opened CText
  import opened SimOperator
  import Nitz

  const MAX_OPERATOR_NAME_LENGTH: nat := 63
  const MAX_NETWORK_INFO_LENGTH: nat := 100
  const NETWORK_REGISTRATION_STATUS_UNKNOWN: int := 4
  const NETWORK_REGISTRATION_STATUS_ROAMING: int := 5

  /** `tapi_utils_registration_status_from_string` */
  function StatusCode(text: string): int {
    if text == "unregistered" then 0
    else if text == "registered" then 1
    else if text == "searching" then 2
    else if text == "denied" then 3
    else if text == "roaming" then NETWORK_REGISTRATION_STATUS_ROAMING
    else if text == "registered_em" then 8
    else if text == "unregistered_em" then 10
    else if text == "searching_em" then 12
    else if text == "denied_em" then 13
    else if text == "unknown_em" then 14
    else NETWORK_REGISTRATION_STATUS_UNKNOWN
  }

  /** `tapi_utils_registration_mode_from_string` */
  function ModeCode(text: string): int {
    if text == "auto" then 0 else if text == "manual" then 1 else -1
  }

  datatype RegProp =
    | StatusProp(text: string)
    | ModeProp(text: string)
    | TechnologyProp(number: int)
    | NameProp(text: string)
    | MccProp(text: string)
    | MncProp(text: string)
    | StationProp(text: string)
    | CellProp(number: int)
    | AreaProp(number: int)
    | NitzProp(text: string)
    | DenialProp(number: int)
    | OtherProp

  datatype Registration = Registration(
    state: int, mode: int, technology: int, name: string, mcc: string, mnc: string, station: string,
    cell: nat, area: nat, denial: nat, time: seq<int>)

  /** The new block with its strings emptied; the other fields hold what was there. */
  function Cleared(initial: Registration): Registration {
    initial.(name := "", mcc := "", mnc := "", station := "")
  }

  function Short(text: string, limit: nat, was: string): string {
    if |text| <= limit then text else was
  }

  ghost predicate TimeFits(p: RegProp) {
    p.NitzProp? ==> NulFree(p.text) && |Fields(p.text)| <= Nitz.TIME_FIELDS
  }

  /** The eight ints of a time string, -1 where it has no field. */
  function TimeOf(text: string): (time: seq<int>)
    ensures |time| == Nitz.TIME_FIELDS
    ensures forall k :: 0 <= k < Nitz.TIME_FIELDS ==> time[k] == if k < |Fields(text)| then Atoi(Fields(text)[k]) else -1
  {
    seq(Nitz.TIME_FIELDS, k requires 0 <= k => if k < |Fields(text)| then Atoi(Fields(text)[k]) else -1)
  }

  /** One entry of the dictionary; cell is a 32-bit, area and denial are 16-bit numbers. */
  function Entered(r: Registration, p: RegProp): Registration {
    match p
    case StatusProp(text) => r.(state := StatusCode(text))
    case ModeProp(text) => r.(mode := ModeCode(text))
    case TechnologyProp(n) => r.(technology := n)
    case NameProp(text) => r.(name := Short(text, MAX_OPERATOR_NAME_LENGTH, r.name))
    case MccProp(text) => r.(mcc := Short(text, MAX_MCC_LENGTH, r.mcc))
    case MncProp(text) => r.(mnc := Short(text, MAX_MNC_LENGTH, r.mnc))
    case StationProp(text) => r.(station := Short(text, MAX_NETWORK_INFO_LENGTH, r.station))
    case CellProp(n) => r.(cell := n % 0x1_0000_0000)
    case AreaProp(n) => r.(area := n % 0x1_0000)
    case NitzProp(text) => r.(time := TimeOf(text))
    case DenialProp(n) => r.(denial := n % 0x1_0000)
    case OtherProp => r
  }

  function Filled(initial: Registration, props: seq<RegProp>): Registration {
    if props == [] then Cleared(initial) else Entered(Filled(initial, Front(props)), Last(props))
  }

  method ParseTime(text: string) returns (time: seq<int>)
    requires NulFree(text) && |Fields(text)| <= Nitz.TIME_FIELDS
    ensures time == TimeOf(text)
  {
    var info := new int[Nitz.TIME_FIELDS](_ => -1);
    Nitz.ParseNitz(Some(text), info, 0);
    return info[..];
  }

  /** `fill_registration_info` */
  method FillRegistrationInfo(r: Registration, p: RegProp) returns (r': Registration)
    requires TimeFits(p)
    ensures r' == Entered(r, p)
  {
    r' := r;
    match p {
      case StatusProp(text) => r' := r.(state := StatusCode(text));
      case ModeProp(text) => r' := r.(mode := ModeCode(text));
      case TechnologyProp(n) => r' := r.(technology := n);
      case NameProp(text) =>
        if |text| <= MAX_OPERATOR_NAME_LENGTH {
          r' := r.(name := text);
        }
      case MccProp(text) =>
        if |text| <= MAX_MCC_LENGTH {
          r' := r.(mcc := text);
        }
      case MncProp(text) =>
        if |text| <= MAX_MNC_LENGTH {
          r' := r.(mnc := text);
        }
      case StationProp(text) =>
        if |text| <= MAX_NETWORK_INFO_LENGTH {
          r' := r.(station := text);
        }
      case CellProp(n) => r' := r.(cell := n % 0x1_0000_0000);
      case AreaProp(n) => r' := r.(area := n % 0x1_0000);
      case NitzProp(text) =>
        var time := ParseTime(text);
        r' := r.(time := time);
      case DenialProp(n) => r' := r.(denial := n % 0x1_0000);
      case OtherProp =>
    }
  }
}
