/** Watchers registered with `tapi_data_register` and the property signals they are called
    back on (`data_property_changed`). */
module DataWatch {
  import opened Basics
  import opened Filtering

  const INDICATION: int := 1

  const MSG_DATA_ENABLED_CHANGE_IND: int := 23
  const MSG_DATA_REGISTRATION_STATE_CHANGE_IND: int := 24
  const MSG_DATA_NETWORK_TYPE_CHANGE_IND: int := 25
  const MSG_DATA_CONNECTION_STATE_CHANGE_IND: int := 26
  const MSG_DEFAULT_DATA_SLOT_CHANGE_IND: int := 27

  /** The finite tables that turn a modem path into a slot and a radio technology into a
      network type. */
  datatype Tables = Tables(slotOf: string -> int, networkType: int -> int)

  /** Where a signal comes from: the manager object or the connection manager of a modem. */
  datatype Source = FromManager | FromModem(slot: int)
  datatype Member = PropertyChanged | ContextChanged
  datatype Value = Number(n: int) | Text(s: string)

  /** hasBody is false for a message that carries no argument. */
  datatype Signal = Signal(source: Source, member: Member, hasBody: bool, property: string, value: Value)

  /** The data slot comes as a path, the other three values as numbers. */
  predicate WellTyped(s: Signal) {
    && (s.property == "DataSlot" ==> s.value.Text?)
    && (s.property in {"DataOn", "Technology", "Status"} ==> s.value.Number?)
  }

  /** What a callback finds in the result it is given. */
  datatype Call = Call(msgId: int, msgType: int, status: int, arg1: int, arg2: int, userObj: int)

  predicate IsPropertyMessage(msg: int) {
    MSG_DATA_ENABLED_CHANGE_IND <= msg <= MSG_DEFAULT_DATA_SLOT_CHANGE_IND && msg != MSG_DATA_CONNECTION_STATE_CHANGE_IND
  }

  function PropertyOf(msg: int): string
    requires IsPropertyMessage(msg)
  {
    if msg == MSG_DATA_ENABLED_CHANGE_IND then "DataOn"
    else if msg == MSG_DATA_REGISTRATION_STATE_CHANGE_IND then "Status"
    else if msg == MSG_DATA_NETWORK_TYPE_CHANGE_IND then "Technology"
    else "DataSlot"
  }

  function SourceOf(msg: int, slot: int): Source {
    if msg == MSG_DEFAULT_DATA_SLOT_CHANGE_IND then FromManager else FromModem(slot)
  }

  /** The signals that are meant for a watcher of a property message. */
  function MeantFor(msg: int, slot: int): Signal -> bool
    requires IsPropertyMessage(msg)
  {
    (s: Signal) =>
      && s.source == SourceOf(msg, slot) && s.member == PropertyChanged
      && s.hasBody && s.property == PropertyOf(msg)
  }

  function Converted(t: Tables, s: Signal): int
    requires WellTyped(s)
  {
    match s.value
    case Number(n) => if s.property == "Technology" then t.networkType(n) else n
    case Text(path) => t.slotOf(path)
  }

  function CallOn(t: Tables, msg: int, slot: int, userObj: int, s: Signal): Call
    requires WellTyped(s)
  {
    Call(msg, INDICATION, OK, slot, Converted(t, s), userObj)
  }

  function CallsOn(t: Tables, msg: int, slot: int, userObj: int, signals: seq<Signal>): (calls: seq<Call>)
    requires forall s :: s in signals ==> WellTyped(s)
    ensures |calls| == |signals|
    ensures forall k :: 0 <= k < |signals| ==> calls[k] == CallOn(t, msg, slot, userObj, signals[k])
  {
    if signals == [] then []
    else CallsOn(t, msg, slot, userObj, signals[..|signals| - 1]) + [CallOn(t, msg, slot, userObj, signals[|signals| - 1])]
  }

  /** The calls over a run of signals: one for each signal that is meant for the watcher. */
  function CallsOver(t: Tables, msg: int, slot: int, userObj: int, signals: seq<Signal>): seq<Call>
    requires IsPropertyMessage(msg) && forall s :: s in signals ==> WellTyped(s)
  {
    if signals == [] then []
    else
      var last := signals[|signals| - 1];
      CallsOver(t, msg, slot, userObj, signals[..|signals| - 1]) +
        if MeantFor(msg, slot)(last) then [CallOn(t, msg, slot, userObj, last)] else []
  }

  lemma CallsOverNext(t: Tables, msg: int, slot: int, userObj: int, signals: seq<Signal>, k: nat)
    requires IsPropertyMessage(msg) && (forall s :: s in signals ==> WellTyped(s)) && k < |signals|
    ensures CallsOver(t, msg, slot, userObj, signals[..k + 1]) == CallsOver(t, msg, slot, userObj, signals[..k]) +
      if MeantFor(msg, slot)(signals[k]) then [CallOn(t, msg, slot, userObj, signals[k])] else []
  {
    assert signals[..k + 1][..k] == signals[..k];
  }

  /** These are the calls on the subsequence of the signals that are meant for the watcher. */
  lemma {:induction false} CallsOnFiltered(t: Tables, msg: int, slot: int, userObj: int, signals: seq<Signal>)
    requires IsPropertyMessage(msg) && forall s :: s in signals ==> WellTyped(s)
    ensures var meant := Filter(MeantFor(msg, slot), signals);
      && (forall s :: s in meant ==> WellTyped(s))
      && CallsOver(t, msg, slot, userObj, signals) == CallsOn(t, msg, slot, userObj, meant)
  {
    AllTyped(MeantFor(msg, slot), signals);
    if signals != [] {
      var front, last := signals[..|signals| - 1], signals[|signals| - 1];
      CallsOnFiltered(t, msg, slot, userObj, front);
      var kept, meant := Filter(MeantFor(msg, slot), front), Filter(MeantFor(msg, slot), signals);
      if MeantFor(msg, slot)(last) {
        assert meant == kept + [last] && meant[..|meant| - 1] == kept;
      } else {
        assert meant == kept;
      }
    }
  }

  /** The handler with its result, as registered; calls is what its callback saw so far. */
  class Watcher {
    const source: Source
    const member: Member
    const msgId: int
    const msgType: int
    const arg1: int
    const userObj: int
    var status: int
    var arg2: int
    ghost var calls: seq<Call>

    constructor (source: Source, member: Member, msgId: int, slot: int, userObj: int)
      ensures this.source == source && this.member == member
      ensures IsFor(msgId, slot, userObj) && calls == []
    {
      this.source, this.member := source, member;
      this.msgId, msgType, arg1, this.userObj := msgId, INDICATION, slot, userObj;
      calls := [];
    }

    ghost predicate IsFor(msg: int, slot: int, userObj: int) {
      msgId == msg && msgType == INDICATION && arg1 == slot && this.userObj == userObj
    }

    method Callback()
      modifies this`calls
      ensures calls == old(calls) + [Call(msgId, msgType, status, arg1, arg2, userObj)]
    {
      calls := calls + [Call(msgId, msgType, status, arg1, arg2, userObj)];
    }

    /** `data_property_changed` */
    method DataPropertyChanged(t: Tables, s: Signal)
      requires IsPropertyMessage(msgId) && msgType == INDICATION && WellTyped(s)
      modifies this`status, this`arg2, this`calls
      ensures calls == old(calls) +
        if s.hasBody && s.property == PropertyOf(msgId) then [CallOn(t, msgId, arg1, userObj, s)] else []
    {
      var isValid := false;
      status := ERROR;
      if s.hasBody {
        if msgId == MSG_DATA_ENABLED_CHANGE_IND && s.property == "DataOn" {
          status, arg2, isValid := OK, s.value.n, true;
        } else if msgId == MSG_DEFAULT_DATA_SLOT_CHANGE_IND && s.property == "DataSlot" {
          status, arg2, isValid := OK, t.slotOf(s.value.s), true;
        } else if msgId == MSG_DATA_NETWORK_TYPE_CHANGE_IND && s.property == "Technology" {
          status, arg2, isValid := OK, t.networkType(s.value.n), true;
        } else if msgId == MSG_DATA_REGISTRATION_STATE_CHANGE_IND && s.property == "Status" {
          status, arg2, isValid := OK, s.value.n, true;
        }
      }
      if isValid {
        Callback();
      }
    }

    /** Any sequence of signals on the bus, of which the client delivers those that match
        the watch: the callback runs on exactly those meant for it, in order. */
    method Serve(t: Tables, signals: seq<Signal>)
      requires IsPropertyMessage(msgId) && IsFor(msgId, arg1, userObj)
      requires source == SourceOf(msgId, arg1) && member == PropertyChanged
      requires forall s :: s in signals ==> WellTyped(s)
      modifies this`status, this`arg2, this`calls
      ensures calls == old(calls) + CallsOver(t, msgId, arg1, userObj, signals)
    {
      for k := 0 to |signals|
        invariant calls == old(calls) + CallsOver(t, msgId, arg1, userObj, signals[..k])
      {
        CallsOverNext(t, msgId, arg1, userObj, signals, k);
        if signals[k].source == source && signals[k].member == member {
          DataPropertyChanged(t, signals[k]);
        }
      }
      assert signals[..|signals|] == signals;
    }
  }

  lemma AllTyped(p: Signal -> bool, signals: seq<Signal>)
    requires forall s :: s in signals ==> WellTyped(s)
    ensures forall s :: s in Filter(p, signals) ==> WellTyped(s)
  {
    forall s | s in Filter(p, signals) ensures WellTyped(s) {
      FilterKeeps(p, signals, s);
      assert s in multiset(Filter(p, signals));
    }
  }

  /** The return value of `tapi_data_register`: paths holds the modem path of each slot, and
      watch is what the client returned, 0 if it failed. */
  function Registered(hasContext: bool, paths: seq<bool>, slot: int, msg: int, handler: bool, result: bool, watch: nat): int {
    if !hasContext || !(0 <= slot < |paths|) then -EINVAL
    else if msg < MSG_DATA_ENABLED_CHANGE_IND || msg > MSG_DEFAULT_DATA_SLOT_CHANGE_IND then -EINVAL
    else if !paths[slot] then -EIO
    else if !handler || !result then -ENOMEM
    else if watch == 0 then -EINVAL
    else watch
  }

  /** The checks of a registration, in their order: any failure leaves no watch. */
  lemma RegisteredCodes(hasContext: bool, paths: seq<bool>, slot: int, msg: int, handler: bool, result: bool, watch: nat)
    ensures Registered(hasContext, paths, slot, msg, handler, result, watch) ==
      if !hasContext || slot < 0 || slot >= |paths| || msg !in {23, 24, 25, 26, 27} then -22
      else if !paths[slot] then -5
      else if !(handler && result) then -12
      else if watch == 0 then -22
      else watch
  {
  }

  /** A watcher of message 23, 24, 25 or 27 is called on one signal exactly if it comes from
      its object and carries its property, with status 0 and, of the four, the flag, the state,
      the converted technology or the slot of the path. */
  lemma CallsOnOne(t: Tables, msg: int, slot: int, userObj: int, s: Signal)
    requires msg in {23, 24, 25, 27} && WellTyped(s)
    ensures var ours := s.member == PropertyChanged && s.hasBody && s.source == (if msg == 27 then FromManager else FromModem(slot));
      CallsOver(t, msg, slot, userObj, [s]) ==
        if ours && msg == 23 && s.property == "DataOn" then [Call(23, 1, 0, slot, s.value.n, userObj)]
        else if ours && msg == 24 && s.property == "Status" then [Call(24, 1, 0, slot, s.value.n, userObj)]
        else if ours && msg == 25 && s.property == "Technology" then [Call(25, 1, 0, slot, t.networkType(s.value.n), userObj)]
        else if ours && msg == 27 && s.property == "DataSlot" then [Call(27, 1, 0, slot, t.slotOf(s.value.s), userObj)]
        else []
  {
    assert [s][..0] == [];
    assert CallsOver(t, msg, slot, userObj, []) == [];
  }

  /** The calls over a run are those over its parts, one after the other. */
  lemma {:induction false} CallsOverParts(t: Tables, msg: int, slot: int, userObj: int, a: seq<Signal>, b: seq<Signal>)
    requires IsPropertyMessage(msg) && (forall s :: s in a ==> WellTyped(s)) && (forall s :: s in b ==> WellTyped(s))
    ensures forall s :: s in a + b ==> WellTyped(s)
    ensures CallsOver(t, msg, slot, userObj, a + b) == CallsOver(t, msg, slot, userObj, a) + CallsOver(t, msg, slot, userObj, b)
    decreases |b|
  {
    if b == [] {
      assert a + b == a;
    } else {
      var front := b[..|b| - 1];
      CallsOverParts(t, msg, slot, userObj, a, front);
      assert (a + b)[..|a + b| - 1] == a + front && (a + b)[|a + b| - 1] == b[|b| - 1];
    }
  }

  /** `tapi_data_register`; paths tells which slots have a modem path, handler and result
      whether those blocks could be allocated. */
  method Register(hasContext: bool, paths: seq<bool>, slot: int, msg: int, userObj: int, handler: bool, result: bool, watch: nat)
    returns (ret: int, watcher: Watcher?)
    ensures ret == Registered(hasContext, paths, slot, msg, handler, result, watch)
    ensures ret > 0 <==> watcher != null
    ensures watcher != null ==>
      && fresh(watcher) && watcher.IsFor(msg, slot, userObj) && watcher.calls == []
      && watcher.source == (if msg == 27 then FromManager else FromModem(slot))
      && watcher.member == (if msg == 26 then ContextChanged else PropertyChanged)
  {
    if !hasContext || !(0 <= slot < |paths|) || msg < MSG_DATA_ENABLED_CHANGE_IND || msg > MSG_DEFAULT_DATA_SLOT_CHANGE_IND {
      return -EINVAL, null;
    }
    if !paths[slot] {
      return -EIO, null;
    }
    if !handler || !result {
      return -ENOMEM, null;
    }
    if watch == 0 {
      return -EINVAL, null;
    }
    if msg == MSG_DATA_CONNECTION_STATE_CHANGE_IND {
      watcher := new Watcher(FromModem(slot), ContextChanged, msg, slot, userObj);
    } else if msg == MSG_DEFAULT_DATA_SLOT_CHANGE_IND {
      watcher := new Watcher(FromManager, PropertyChanged, msg, slot, userObj);
    } else {
      watcher := new Watcher(FromModem(slot), PropertyChanged, msg, slot, userObj);
    }
    return watch, watcher;
  }
}
