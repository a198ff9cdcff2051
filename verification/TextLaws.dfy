/** The registration block, the codes of operators, numbers and time strings, spelled out. */
module TextLaws {
  import opened Basics
  import opened CText
  import opened Strtok
  import opened SimOperator
  import opened RegistrationInfo
  import CoveredPlmn
  import EmergencyGetter
  import EmergencyList
  import Nitz
  import Roaming

  // ----- registration -----

  /** Before the first entry the strings are empty and the rest is what was there. */
  lemma BlockStart(initial: Registration)
    ensures var r := Filled(initial, []);
      && r.name == r.mcc == r.mnc == r.station == ""
      && r == initial.(name := "", mcc := "", mnc := "", station := "")
  {
  }

  const STATE_NAMES: set<string> :=
    {"unregistered", "registered", "searching", "denied", "unknown", "roaming", "registered_em",
     "unregistered_em", "searching_em", "denied_em", "unknown_em"}

  /** The number of a state: the texts of the registration states, and 4 for any other text. */
  ghost predicate IsState(text: string, state: int) {
    && (text == "unregistered" ==> state == 0) && (text == "registered" ==> state == 1)
    && (text == "searching" ==> state == 2) && (text == "denied" ==> state == 3)
    && (text == "unknown" ==> state == 4) && (text == "roaming" ==> state == 5)
    && (text == "registered_em" ==> state == 8) && (text == "unregistered_em" ==> state == 10)
    && (text == "searching_em" ==> state == 12) && (text == "denied_em" ==> state == 13)
    && (text == "unknown_em" ==> state == 14)
    && (text !in STATE_NAMES ==> state == 4)
  }

  lemma StateNumber(text: string)
    ensures IsState(text, StatusCode(text))
  {
  }

  /** A further entry changes the field of its key and no other: the state and the mode by
      their tables, ... */
  lemma CodeEntered(initial: Registration, props: seq<RegProp>, text: string)
    ensures var r, r' := Filled(initial, props), Filled(initial, props + [StatusProp(text)]);
      IsState(text, r'.state) && r' == r.(state := r'.state)
    ensures Filled(initial, props + [ModeProp(text)]) ==
            Filled(initial, props).(mode := if text == "auto" then 0 else if text == "manual" then 1 else -1)
  {
    StateNumber(text);
    FilledNext(initial, props, StatusProp(text));
    FilledNext(initial, props, ModeProp(text));
  }

  /** ... the texts if they fit, ... */
  lemma TextEntered(initial: Registration, props: seq<RegProp>, text: string)
    ensures var r := Filled(initial, props);
      && Filled(initial, props + [NameProp(text)]) == (if |text| <= 63 then r.(name := text) else r)
      && Filled(initial, props + [MccProp(text)]) == (if |text| <= 3 then r.(mcc := text) else r)
      && Filled(initial, props + [MncProp(text)]) == (if |text| <= 3 then r.(mnc := text) else r)
      && Filled(initial, props + [StationProp(text)]) == (if |text| <= 100 then r.(station := text) else r)
  {
    FilledNext(initial, props, NameProp(text));
    FilledNext(initial, props, MccProp(text));
    FilledNext(initial, props, MncProp(text));
    FilledNext(initial, props, StationProp(text));
  }

  /** ... the technology as it is, the cell as a 32-bit and area and denial as 16-bit numbers, ... */
  lemma NumberEntered(initial: Registration, props: seq<RegProp>, n: int)
    ensures var r, word, half := Filled(initial, props), n - 4294967296 * (n / 4294967296), n - 65536 * (n / 65536);
      && 0 <= word < 4294967296 && 0 <= half < 65536
      && Filled(initial, props + [TechnologyProp(n)]) == r.(technology := n)
      && Filled(initial, props + [CellProp(n)]) == r.(cell := word)
      && Filled(initial, props + [AreaProp(n)]) == r.(area := half)
      && Filled(initial, props + [DenialProp(n)]) == r.(denial := half)
  {
    FilledNext(initial, props, TechnologyProp(n));
    FilledNext(initial, props, CellProp(n));
    FilledNext(initial, props, AreaProp(n));
    FilledNext(initial, props, DenialProp(n));
  }

  /** ... and the time to its eight tokens, -1 where there is none. Other keys change nothing. */
  lemma TimeEntered(initial: Registration, props: seq<RegProp>, text: string)
    ensures var r, r' := Filled(initial, props), Filled(initial, props + [NitzProp(text)]);
      && r' == r.(time := r'.time) && |r'.time| == 8
      && (forall k :: 0 <= k < 8 ==> r'.time[k] == if k < |Fields(text)| then Atoi(Fields(text)[k]) else -1)
    ensures Filled(initial, props + [OtherProp]) == Filled(initial, props)
  {
    FilledNext(initial, props, NitzProp(text));
    FilledNext(initial, props, OtherProp);
  }

  lemma FilledNext(initial: Registration, props: seq<RegProp>, p: RegProp)
    ensures Filled(initial, props + [p]) == Entered(Filled(initial, props), p)
  {
    assert Front(props + [p]) == props && Last(props + [p]) == p;
  }

  /** Only a dictionary is told with status OK, and only to a callback with a block. */
  lemma RegistrationTold(hasCallback: bool, memory: bool, initial: Registration, reply: Roaming.Reply, sim: Sim, stack: seq<char>)
    requires Readable(sim) && |stack| == 7
    ensures var told := Roaming.Outcome(hasCallback, memory, initial, reply, sim, stack);
      && (told.Some? <==> hasCallback && memory)
      && (told.Some? && !reply.Dictionary? ==> told.value == Roaming.Told(-1, None, Roaming.Unknown))
      && (told.Some? && reply.Dictionary? ==>
            told.value.status == 0 && told.value.info == Some(Filled(initial, reply.props)))
      && (told.Some? && reply.Dictionary? && (Filled(initial, reply.props).state != 5 || !sim.hasContext) ==>
            told.value.roaming == Roaming.Unknown)
  {
  }

  // ----- the SIM operator -----

  /** The code is packed exactly for a ready context with a valid slot, a buffer of at least
      seven characters, a present card behind a proxy, and both codes; the errors come in the
      order of the checks. */
  lemma OperatorStatus(sim: Sim, hasOut: bool, length: int)
    ensures Status(sim, hasOut, length) ==
      if !(sim.hasContext && sim.validSlot) then -22
      else if !sim.ready then -11
      else if !hasOut || length < 7 || !sim.hasProxy || sim.present != Some(true) then -22
      else if sim.mcc == None || sim.mnc == None then -5
      else 0
  {
  }

  /** The buffer, character by character: three of each code and the terminator. */
  lemma PackedAt(mcc: string, mnc: string, k: nat)
    requires |mcc| >= 2 && |mnc| >= 2 && k < 7
    ensures Packed(mcc, mnc)[k] ==
      if k < 3 then (if k < |mcc| then mcc[k] else '\0')
      else if k < 6 then (if k - 3 < |mnc| then mnc[k - 3] else '\0')
      else '\0'
  {
  }

  /** When the operator cannot be read, three characters of old memory are compared. */
  lemma TypeOnFailure(sim: Sim, r: Registration, stack: seq<char>)
    requires Readable(sim) && |stack| == 7 && r.state == 5 && sim.hasContext && Status(sim, true, 7) != 0
    ensures Roaming.TypeFor(sim, r, stack) ==
      if stack[0] == '\0' then Roaming.Unknown
      else if UpToNul(stack[..3]) == r.mcc then Roaming.Domestic
      else Roaming.International
  {
  }

  // ----- covered operator codes -----

  /** Digit d becomes the d-th letter after a, code after code. */
  lemma CoveredDigits(mcc: CoveredPlmn.Text, mnc: CoveredPlmn.Text, k: nat, d: bv8)
    requires k < |mcc| + |mnc| && d < 10 && (mcc + mnc)[k] == 0x30 + d
    ensures CoveredPlmn.Covered(mcc + mnc)[k] == 0x61 + d
  {
  }

  // ----- emergency numbers -----

  /** The errors of the getter: the call proxy counts unless it has no list, then the modem's. */
  lemma GetterStatus(hasContext: bool, validSlot: bool, ready: bool, call: EmergencyGetter.Source, modem: EmergencyGetter.Source)
    ensures EmergencyGetter.EccStatus(hasContext, validSlot, ready, call, modem) ==
      if !hasContext || !validSlot then -22
      else if !ready then -11
      else if call.NoProxy? then -5
      else if !call.NoProperty? then 0
      else if modem.NoProxy? then -5
      else if modem.NoProperty? then -22
      else 0
    ensures EmergencyGetter.Chosen(call, modem) == match call case NoProperty => modem case _ => call
  {
  }

  /** A number at the end of the message, without an attribute, is listed with zeros. */
  lemma NumberAtEnd(list: seq<EmergencyList.Ecc>, number: string, cap: nat)
    requires |list| < cap
    ensures var msg := EmergencyList.Encode(list) + [number];
      EmergencyList.Readable(msg, cap) && EmergencyList.Decoded(msg, cap) == list + [EmergencyList.Ecc(number, 0, 0)]
  {
    var msg := EmergencyList.Encode(list) + [number];
    forall k: nat | k < |list|
      ensures EmergencyList.TwoFields(msg[2 * k + 1]) && EmergencyList.EntryAt(msg, k) == list[k]
    {
      EmergencyList.EncodeAt(list, k);
      EmergencyList.AttributeFields(list[k]);
    }
  }

  // ----- numbers and time strings -----

  /** White space, a plus sign, and whatever follows the digits do not matter to `atoi`. */
  lemma AtoiForms(n: nat, space: char, rest: string)
    requires (space == ' ' || 9 <= space as int <= 13) && (rest != "" ==> !('0' <= rest[0] <= '9'))
    ensures Atoi([space] + Print(n)) == Atoi("+" + Print(n)) == Atoi(Print(n) + rest) == n
    ensures Atoi("-" + Print(n)) == 0 - n && Atoi("") == 0 && (rest != "" && !IsSpace(rest[0]) && rest[0] !in "+-" ==> Atoi(rest) == 0)
  {
    var s := PrintNat(n);
    DigitsValueOfPrint(n);
    DigitsValueAppend(s, rest, 0);
    assert ([space] + s)[1..] == s && ("+" + s)[1..] == s && ("-" + s)[1..] == s;
    assert IsDigit(s[0]) && (s + rest)[0] == s[0];
    assert SkipSpace([space] + s) == SkipSpace(s) == s && SkipSpace(s + rest) == s + rest;
  }

  /** Any integers, printed with commas and parsed over any memory, come to lie from `at` on. */
  lemma ParsedOfPrint(values: seq<int>, memory: seq<int>, at: nat, k: nat)
    requires at + |values| <= |memory| && k < |memory|
    ensures var str := Join(Nitz.PrintInts(values));
      |Fields(str)| == |values| && Nitz.Parsed(str, memory, at)[k] == if at <= k < at + |values| then values[k - at] else memory[k]
  {
    Nitz.ParseOfPrint(values);
  }

  /** The limits of the headers that these parts share. */
  lemma Limits()
    ensures EmergencyList.MAX_ECC_LIST_SIZE == 30 && EmergencyList.MSG_ECC_LIST_CHANGE_IND == 16
    ensures Nitz.TIME_FIELDS == 8 && NUMERIC_LENGTH == 7
    ensures CoveredPlmn.MAX_MCC_LENGTH == CoveredPlmn.MAX_MNC_LENGTH == 3
  {
  }
}
