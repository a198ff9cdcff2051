/** The roaming type that `registration_info_query_done` derives from the operator of the SIM. */
module Roaming {
  import opened Basics
  import opened RegistrationInfo
  import opened SimOperator
  import opened Strtok

  datatype RoamingType = Unknown | Domestic | International

  /** The type when the call left these characters in the local buffer. */
  function Compared(numeric: seq<char>, mcc: string): RoamingType
    requires |numeric| == NUMERIC_LENGTH
  {
    if numeric[0] == '\0' then Unknown
    else if UpToNul(numeric[..MAX_MCC_LENGTH]) == mcc then Domestic else International
  }

  /** The buffer after the call; its content is what the stack held if the call failed. */
  function Numeric(sim: Sim, stack: seq<char>): (numeric: seq<char>)
    requires Readable(sim) && |stack| == NUMERIC_LENGTH
    ensures |numeric| == NUMERIC_LENGTH
  {
    if Status(sim, true, NUMERIC_LENGTH) == OK then Packed(sim.mcc.value, sim.mnc.value) else stack
  }

  function TypeFor(sim: Sim, r: Registration, stack: seq<char>): RoamingType
    requires Readable(sim) && |stack| == NUMERIC_LENGTH
  {
    if r.state == NETWORK_REGISTRATION_STATUS_ROAMING && sim.hasContext then Compared(Numeric(sim, stack), r.mcc)
    else Unknown
  }

  method DecideType(sim: Sim, r: Registration, stack: seq<char>) returns (roaming: RoamingType)
    requires Readable(sim) && |stack| == NUMERIC_LENGTH
    ensures roaming == TypeFor(sim, r, stack)
  {
    roaming := Unknown;
    if r.state == NETWORK_REGISTRATION_STATUS_ROAMING && sim.hasContext {
      var numeric := new char[NUMERIC_LENGTH](i requires 0 <= i < |stack| => stack[i]);
      assert numeric[..] == stack;
      var _ := GetSimOperator(sim, NUMERIC_LENGTH, numeric);
      assert numeric[..] == Numeric(sim, stack);
      if numeric[0] != '\0' {
        if UpToNul(numeric[..MAX_MCC_LENGTH]) == r.mcc {
          roaming := Domestic;
        } else {
          roaming := International;
        }
      }
    }
  }

  datatype Reply = BusError | WrongSignature | NoBody | Dictionary(props: seq<RegProp>)

  /** What the callback is told; the data is there only with status OK. */
  datatype Told = Told(status: int, info: Option<Registration>, roaming: RoamingType)

  /** Every time string of the reply fits the eight-int struct that it is parsed into. */
  ghost predicate TimesFit(reply: Reply) {
    reply.Dictionary? ==> forall k :: 0 <= k < |reply.props| ==> TimeFits(reply.props[k])
  }

  function Outcome(hasCallback: bool, memory: bool, initial: Registration, reply: Reply, sim: Sim, stack: seq<char>): Option<Told>
    requires Readable(sim) && |stack| == NUMERIC_LENGTH
  {
    if !hasCallback || !memory then None
    else if !reply.Dictionary? then Some(Told(ERROR, None, Unknown))
    else
      var r := Filled(initial, reply.props);
      Some(Told(OK, Some(r), TypeFor(sim, r, stack)))
  }

  /** `registration_info_query_done`; hasCallback tells that handler, result and callback are
      there, memory that the block could be had, initial what the block happens to hold and
      stack what the local buffer does. */
  method QueryDone(hasCallback: bool, memory: bool, initial: Registration, reply: Reply, sim: Sim, stack: seq<char>)
    returns (told: Option<Told>)
    requires Readable(sim) && |stack| == NUMERIC_LENGTH && TimesFit(reply)
    ensures told == Outcome(hasCallback, memory, initial, reply, sim, stack)
  {
    if !hasCallback {
      return None;
    }
    if !memory {
      return None;
    }
    if !reply.Dictionary? {
      return Some(Told(ERROR, None, Unknown));
    }
    var r := Cleared(initial);
    for k := 0 to |reply.props|
      invariant r == Filled(initial, reply.props[..k])
    {
      assert Front(reply.props[..k + 1]) == reply.props[..k];
      r := FillRegistrationInfo(r, reply.props[k]);
    }
    assert reply.props[..|reply.props|] == reply.props;
    var roaming := DecideType(sim, r, stack);
    return Some(Told(OK, Some(r), roaming));
  }

  /** Roaming and the call succeeds: domestic exactly for the SIM's own country. */
  lemma DomesticIffSameCountry(sim: Sim, r: Registration, stack: seq<char>)
    requires Readable(sim) && |stack| == NUMERIC_LENGTH
    requires r.state == NETWORK_REGISTRATION_STATUS_ROAMING && Status(sim, true, NUMERIC_LENGTH) == OK
    requires |sim.mcc.value| == 3 && NulFree(sim.mcc.value)
    ensures TypeFor(sim, r, stack) == if sim.mcc.value == r.mcc then Domestic else International
  {
    var mcc, mnc := sim.mcc.value, sim.mnc.value;
    assert Packed(mcc, mnc)[..MAX_MCC_LENGTH] == mcc == mcc + [];
    UpToNulConcat(mcc, []);
  }

  // ----- when the type is defined at all -----

  predicate HasStatus(props: seq<RegProp>) {
    props != [] && (Last(props).StatusProp? || HasStatus(Front(props)))
  }

  /** The state that the last status entry gives. */
  function LastState(props: seq<RegProp>): int
    requires HasStatus(props)
  {
    if Last(props).StatusProp? then StatusCode(Last(props).text) else LastState(Front(props))
  }

  lemma {:induction false} FilledState(a: Registration, b: Registration, props: seq<RegProp>)
    ensures Filled(a, props).state == if HasStatus(props) then LastState(props) else a.state
    ensures Filled(a, props).mcc == Filled(b, props).mcc
  {
    if props != [] {
      FilledState(a, b, Front(props));
    }
  }

  ghost predicate SameType(sim: Sim, props: seq<RegProp>, a: Registration, b: Registration, s: seq<char>, t: seq<char>)
    requires Readable(sim) && |s| == |t| == NUMERIC_LENGTH
  {
    TypeFor(sim, Filled(a, props), s) == TypeFor(sim, Filled(b, props), t)
  }

  /** The reply decides: a status entry is there, and if it says roaming the call succeeds. */
  predicate Decides(sim: Sim, props: seq<RegProp>) {
    HasStatus(props) &&
    (LastState(props) == NETWORK_REGISTRATION_STATUS_ROAMING ==> Status(sim, true, NUMERIC_LENGTH) == OK)
  }

  const NO_DIGITS: seq<char> := ['\0', '\0', '\0', '\0', '\0', '\0', '\0']
  const ONE_DIGIT: seq<char> := ['1', '\0', '\0', '\0', '\0', '\0', '\0']

  /** The roaming type depends neither on what the new block nor on what the stack held, if
      and only if there is no context or the reply decides. */
  lemma TypeIsDefinedIff(sim: Sim, props: seq<RegProp>)
    requires Readable(sim) && (sim.mcc.Some? ==> NulFree(sim.mcc.value))
    ensures (forall a, b, s: seq<char>, t: seq<char> | |s| == |t| == NUMERIC_LENGTH :: SameType(sim, props, a, b, s, t))
            <==> !sim.hasContext || Decides(sim, props)
  {
    if !sim.hasContext || Decides(sim, props) {
      forall a, b, s: seq<char>, t: seq<char> | |s| == |t| == NUMERIC_LENGTH ensures SameType(sim, props, a, b, s, t) {
        FilledState(a, b, props);
        FilledState(b, a, props);
      }
    } else {
      Undefined(sim, props);
    }
  }

  lemma Undefined(sim: Sim, props: seq<RegProp>)
    requires Readable(sim) && (sim.mcc.Some? ==> NulFree(sim.mcc.value))
    requires sim.hasContext && !Decides(sim, props)
    ensures exists a, b, s: seq<char>, t: seq<char> :: |s| == |t| == NUMERIC_LENGTH && !SameType(sim, props, a, b, s, t)
  {
    var home := Registration(1, 0, 0, "", "", "", "", 0, 0, 0, []);
    var roaming := home.(state := NETWORK_REGISTRATION_STATUS_ROAMING);
    FilledState(home, roaming, props);
    FilledState(roaming, home, props);
    var mcc := Filled(roaming, props).mcc;
    if Status(sim, true, NUMERIC_LENGTH) == OK {
      assert Packed(sim.mcc.value, sim.mnc.value)[0] == sim.mcc.value[0] != '\0';
      assert !SameType(sim, props, home, roaming, NO_DIGITS, NO_DIGITS);
    } else {
      assert Compared(NO_DIGITS, mcc) != Compared(ONE_DIGIT, mcc);
      assert !SameType(sim, props, roaming, roaming, NO_DIGITS, ONE_DIGIT);
    }
  }
}
