/** The SIM toolkit agent: every agent of every slot shares the one `pending` message of
    the context, which requests fill and answers, Cancel and AgentRelease empty. */
module StkAgent {
  import opened Basics

  // ----- the method table and its reply signatures -----

  datatype Method =
    | ShowInformation | RequestWithDigit | RequestWithKey | ConfirmRequest | RequestWithInput
    | RequestWithDigits | RequestPlayTone | RequestLoopTone | RequestSelection | RequestQuickDigit
    | ConfirmCallSetup | DisplayActionInformation | ConfirmLaunchBrowser | DisplayAction | ConfirmOpenChannel

  datatype ArgType = StringType | BooleanType | ByteType
  datatype Arg = StringArg(text: string) | BooleanArg(flag: bool) | ByteArg(byte: nat)

  function TypeOf(a: Arg): ArgType {
    match a
    case StringArg(_) => StringType
    case BooleanArg(_) => BooleanType
    case ByteArg(_) => ByteType
  }

  function Signature(args: seq<Arg>): seq<ArgType> {
    seq(|args|, k requires 0 <= k < |args| => TypeOf(args[k]))
  }

  /** The out-arguments that `agent_methods` declares. */
  function DeclaredReply(m: Method): seq<ArgType> {
    match m
    case ConfirmCallSetup | ConfirmLaunchBrowser | ConfirmOpenChannel | ConfirmRequest => [BooleanType]
    case RequestQuickDigit | RequestWithDigit | RequestWithDigits | RequestWithInput | RequestWithKey => [StringType]
    case RequestSelection => [ByteType]
    case ShowInformation | DisplayAction | DisplayActionInformation | RequestLoopTone | RequestPlayTone => []
  }

  datatype ErrorName = InvalidArguments | Failed | NotImplemented | EndSession | GoBack | Busy
  datatype Body = MethodReturn(args: seq<Arg>) | ErrorReply(name: ErrorName)

  // ----- answers of the application -----

  const OP_CODE_CONFIRM_POSITIVE: int := 0
  const OP_CODE_CONFIRM_NEGATIVE: int := 1
  const OP_CODE_CONFIRM_BACKWARD: int := 2

  /** A call of `tapi_stk_handle_agent_*`, named by the method it is meant for. `built`
      tells whether the message library could allocate the reply. */
  datatype Answer = Answer(fn: Method, op: int, text: string, selection: nat, built: bool)

  /** The six reply bodies behind the fifteen public functions. */
  datatype Family = DisplayTextFamily | KeyFamily | ConfirmationFamily | InputFamily | ToneFamily | SelectionFamily

  function FamilyOf(fn: Method): Family {
    match fn
    case ShowInformation | DisplayActionInformation | DisplayAction => DisplayTextFamily
    case RequestWithDigit | RequestWithKey | RequestQuickDigit => KeyFamily
    case ConfirmRequest | ConfirmCallSetup | ConfirmLaunchBrowser | ConfirmOpenChannel => ConfirmationFamily
    case RequestWithInput | RequestWithDigits => InputFamily
    case RequestPlayTone | RequestLoopTone => ToneFamily
    case RequestSelection => SelectionFamily
  }

  function AnswerBody(a: Answer): Body {
    if a.op == OP_CODE_CONFIRM_BACKWARD then ErrorReply(GoBack)
    else if a.op == OP_CODE_CONFIRM_NEGATIVE && FamilyOf(a.fn) != ConfirmationFamily then ErrorReply(EndSession)
    else if a.op == OP_CODE_CONFIRM_POSITIVE || a.op == OP_CODE_CONFIRM_NEGATIVE then
      MethodReturn(match FamilyOf(a.fn)
                   case DisplayTextFamily | ToneFamily => []
                   case KeyFamily | InputFamily => [StringArg(a.text)]
                   case ConfirmationFamily => [BooleanArg(a.op == OP_CODE_CONFIRM_POSITIVE)]
                   case SelectionFamily => [ByteArg(a.selection)])
    else ErrorReply(Failed)
  }

  // ----- the state -----

  /** serial k is the k-th agent request that arrived, whichever agent it was for. */
  datatype Message = Message(serial: nat, what: Method)
  datatype Sent = Sent(to: Message, body: Body)

  /** What a callback was told: the `msg_id` and whether the status was OK. */
  datatype MsgId = RequestInd(what: Method) | CancelInd | ReleaseInd | StaleInd
  datatype Indication = Indication(agent: nat, id: MsgId, ok: bool)

  /** The pending message with everything observable outside: requests received, message
      references taken and dropped, replies sent, callbacks made. */
  datatype State = State(
    pending: Option<Message>,
    received: seq<Method>,
    taken: multiset<nat>,
    dropped: multiset<nat>,
    sent: seq<Sent>,
    indications: seq<Indication>)

  const INITIAL := State(None, [], multiset{}, multiset{}, [], [])

  /** An agent as registered, and how a request reaches it. */
  datatype Agent = Agent(id: nat, hasCallback: bool, hasContext: bool)
  datatype Arrival = Arrival(what: Method, isError: bool, hasBody: bool, memory: bool, argsMatch: bool)

  function Notify(st: State, agent: Agent, id: MsgId, ok: bool): State {
    st.(indications := st.indications + [Indication(agent.id, id, ok)])
  }

  function Send(st: State, to: Message, body: Body): State {
    st.(sent := st.sent + [Sent(to, body)])
  }

  function DropPending(st: State): State {
    match st.pending
    case None => st
    case Some(m) => st.(pending := None, dropped := st.dropped + multiset{m.serial})
  }

  /** One answer: nothing happens without a pending message, and an answer that cannot be
      built leaves it pending. */
  function Reply(st: State, connected: bool, a: Answer): State {
    if !connected || st.pending == None || !a.built then st
    else DropPending(Send(st, st.pending.value, AnswerBody(a)))
  }

  function Replies(st: State, connected: bool, answers: seq<Answer>): State
    decreases answers
  {
    if answers == [] then st else Replies(Reply(st, connected, answers[0]), connected, answers[1..])
  }

  /** The error a handler returns at once, if any, in the order in which the code looks. */
  function Refusal(agent: Agent, a: Arrival, busy: bool): Option<ErrorName> {
    if !agent.hasCallback then Some(NotImplemented)
    else if a.what == RequestSelection && a.isError then Some(Failed)
    else if a.what == RequestSelection && !a.hasBody then Some(InvalidArguments)
    else if !agent.hasContext then Some(Failed)
    else if busy then Some(Busy)
    else if !a.memory then Some(NotImplemented)
    else if a.what != RequestSelection && !a.argsMatch then Some(InvalidArguments)
    else None
  }

  /** A request before its callback: recorded, and kept as the pending one if accepted. */
  function Admitted(st: State, agent: Agent, a: Arrival): State {
    var m := Message(|st.received|, a.what);
    var st1 := st.(received := st.received + [a.what]);
    if Refusal(agent, a, st.pending.Some?) == None then st1.(pending := Some(m), taken := st1.taken + multiset{m.serial})
    else st1
  }

  /** A request; the application answers `inside` from within the callback. */
  function Request(st: State, connected: bool, agent: Agent, a: Arrival, inside: seq<Answer>): State {
    var refusal := Refusal(agent, a, st.pending.Some?);
    var st1 := Admitted(st, agent, a);
    var st2 := if agent.hasCallback then Replies(Notify(st1, agent, RequestInd(a.what), refusal == None), connected, inside) else st1;
    if refusal.Some? then Send(st2, Message(|st.received|, a.what), ErrorReply(refusal.value)) else st2
  }

  /** Cancel and AgentRelease up to their callback; they differ in the message id they report. */
  function Withdrawing(st: State, agent: Agent, id: MsgId): State {
    if agent.hasContext then Notify(DropPending(st), agent, id, true) else Notify(st, agent, StaleInd, false)
  }

  function Withdraw(st: State, connected: bool, agent: Agent, id: MsgId, inside: seq<Answer>): State {
    if !agent.hasCallback then st else Replies(Withdrawing(st, agent, id), connected, inside)
  }

  datatype Event =
    | RequestEvent(agent: Agent, arrival: Arrival, inside: seq<Answer>)
    | AnswerEvent(answer: Answer)
    | CancelEvent(agent: Agent, inside: seq<Answer>)
    | ReleaseEvent(agent: Agent, inside: seq<Answer>)

  function Step(st: State, connected: bool, e: Event): State {
    match e
    case RequestEvent(agent, a, inside) => Request(st, connected, agent, a, inside)
    case AnswerEvent(a) => Reply(st, connected, a)
    case CancelEvent(agent, inside) => Withdraw(st, connected, agent, CancelInd, inside)
    case ReleaseEvent(agent, inside) => Withdraw(st, connected, agent, ReleaseInd, inside)
  }

  /** Any interleaving of any number of agents, answers, Cancels and Releases. */
  function Run(st: State, connected: bool, events: seq<Event>): State
    decreases events
  {
    if events == [] then st else Run(Step(st, connected, events[0]), connected, events[1..])
  }
}
