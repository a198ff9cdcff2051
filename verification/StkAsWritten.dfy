/** The agents as the code has them: `ar->data` of an agent holds the context when the agent
    is registered, is overwritten with the parameter block of an accepted request, which is
    freed after the callback, and with a null pointer by Cancel and AgentRelease. Nothing
    restores it, and every later handler of that agent takes its context from there. */
module StkAsWritten {
  import opened Basics
  import opened StkAgent
  import opened StkConservation

  datatype Cell = ContextCell | BlockCell(block: nat) | NullCell

  /** The state with the cells of the agents and the parameter blocks on the heap. */
  datatype Written = Written(st: State, cells: map<nat, Cell>, live: set<nat>, next: nat)

  const FRESH := Written(INITIAL, map[], {}, 0)

  function CellOf(w: Written, id: nat): Cell {
    if id in w.cells then w.cells[id] else ContextCell
  }

  /** The handler gets as far as looking into the context that it loads from the cell. */
  predicate Reads(e: Event) {
    match e
    case RequestEvent(agent, a, _) => agent.hasCallback && (a.what == RequestSelection ==> !a.isError && a.hasBody)
    case AnswerEvent(_) => false
    case CancelEvent(agent, _) => agent.hasCallback
    case ReleaseEvent(agent, _) => agent.hasCallback
  }

  predicate IsFor(e: Event, id: nat) {
    !e.AnswerEvent? && e.agent.id == id
  }

  /** Here C gives the code no meaning any more. */
  predicate ReadsFreed(w: Written, e: Event) {
    Reads(e) && CellOf(w, e.agent.id).BlockCell? && CellOf(w, e.agent.id).block !in w.live
  }

  function With(agent: Agent, hasContext: bool): Agent {
    agent.(hasContext := hasContext)
  }

  function Found(w: Written, agent: Agent): Agent {
    With(agent, CellOf(w, agent.id) == ContextCell)
  }

  /** The parameter block is allocated before the arguments are read. */
  predicate Allocates(agent: Agent, a: Arrival, busy: bool) {
    var refusal := Refusal(agent, a, busy);
    refusal == None || (refusal == Some(InvalidArguments) && a.what != RequestSelection)
  }

  function WrittenRequest(w: Written, connected: bool, agent: Agent, a: Arrival, inside: seq<Answer>): Written {
    var found, busy := Found(w, agent), w.st.pending.Some?;
    Written(Request(w.st, connected, found, a, inside),
            if Refusal(found, a, busy) == None then w.cells[agent.id := BlockCell(w.next)] else w.cells,
            w.live,
            if Allocates(found, a, busy) then w.next + 1 else w.next)
  }

  function WrittenWithdraw(w: Written, connected: bool, agent: Agent, id: MsgId, inside: seq<Answer>): Written {
    w.(st := Withdraw(w.st, connected, Found(w, agent), id, inside),
       cells := if agent.hasCallback && CellOf(w, agent.id) == ContextCell then w.cells[agent.id := NullCell] else w.cells)
  }

  function WrittenStep(w: Written, connected: bool, e: Event): Written {
    match e
    case RequestEvent(agent, a, inside) => WrittenRequest(w, connected, agent, a, inside)
    case AnswerEvent(a) => w.(st := Reply(w.st, connected, a))
    case CancelEvent(agent, inside) => WrittenWithdraw(w, connected, agent, CancelInd, inside)
    case ReleaseEvent(agent, inside) => WrittenWithdraw(w, connected, agent, ReleaseInd, inside)
  }

  /** A run of the code; None once a call has read a freed block. */
  function WrittenRun(connected: bool, events: seq<Event>): Option<Written> {
    if events == [] then Some(FRESH)
    else
      match WrittenRun(connected, Front(events))
      case None => None
      case Some(w) => if ReadsFreed(w, Last(events)) then None else Some(WrittenStep(w, connected, Last(events)))
  }

  /** The reply to the Cancel or AgentRelease message itself. */
  datatype OwnReply = NoReply | EmptyReturn | OwnError(name: ErrorName)

  function WithdrawReply(w: Written, agent: Agent, id: MsgId): OwnReply {
    if !agent.hasCallback then OwnError(NotImplemented)
    else if CellOf(w, agent.id) == NullCell then OwnError(Failed)
    else if id == ReleaseInd then EmptyReturn
    else NoReply
  }

  // ----- the same run without cells -----

  /** A Cancel or AgentRelease of the agent has nulled its context. */
  predicate Withdrawn(events: seq<Event>, id: nat) {
    events != [] &&
    (Withdrawn(Front(events), id) || (IsFor(Last(events), id) && !Last(events).RequestEvent? && Reads(Last(events))))
  }

  function WithContext(e: Event, hasContext: bool): Event {
    match e
    case RequestEvent(agent, a, inside) => RequestEvent(With(agent, hasContext), a, inside)
    case AnswerEvent(a) => e
    case CancelEvent(agent, inside) => CancelEvent(With(agent, hasContext), inside)
    case ReleaseEvent(agent, inside) => ReleaseEvent(With(agent, hasContext), inside)
  }

  function Annotated(before: seq<Event>, e: Event): Event {
    WithContext(e, !e.AnswerEvent? && !Withdrawn(before, e.agent.id))
  }

  /** The events with an agent's context there until a Cancel or AgentRelease takes it. */
  function UntilWithdrawn(events: seq<Event>): seq<Event> {
    if events == [] then [] else UntilWithdrawn(Front(events)) + [Annotated(Front(events), Last(events))]
  }

  /** The events with the context there always, as if it had a field of its own. */
  function Kept(events: seq<Event>): seq<Event> {
    if events == [] then [] else Kept(Front(events)) + [WithContext(Last(events), true)]
  }

  lemma {:induction false} RunNext(st: State, connected: bool, events: seq<Event>, e: Event)
    ensures Run(st, connected, events + [e]) == Step(Run(st, connected, events), connected, e)
    decreases events
  {
    if events == [] {
      assert ([] + [e])[1..] == [];
    } else {
      assert (events + [e])[1..] == events[1..] + [e];
      RunNext(Step(st, connected, events[0]), connected, events[1..], e);
    }
  }

  function Before(connected: bool, events: seq<Event>): State {
    Run(INITIAL, connected, UntilWithdrawn(events))
  }

  /** The request that comes after these events is accepted. */
  predicate Accepts(connected: bool, before: seq<Event>, e: Event) {
    e.RequestEvent? && Refusal(Annotated(before, e).agent, e.arrival, Before(connected, before).pending.Some?) == None
  }

  ghost predicate HasAccepted(connected: bool, events: seq<Event>, id: nat) {
    exists i :: 0 <= i < |events| && IsFor(events[i], id) && Accepts(connected, events[..i], events[i])
  }

  /** No call looks into the context of an agent after that agent had a request accepted. */
  ghost predicate NoneAfterAccepted(connected: bool, events: seq<Event>) {
    forall j :: 0 <= j < |events| && Reads(events[j]) ==> !HasAccepted(connected, events[..j], events[j].agent.id)
  }

  lemma HasAcceptedNext(connected: bool, events: seq<Event>, id: nat)
    requires events != []
    ensures HasAccepted(connected, events, id) ==
      (HasAccepted(connected, Front(events), id) || (IsFor(Last(events), id) && Accepts(connected, Front(events), Last(events))))
  {
    var front, n := Front(events), |events| - 1;
    assert forall i :: 0 <= i < n ==> front[i] == events[i] && front[..i] == events[..i];
  }

  lemma NoneAfterNext(connected: bool, events: seq<Event>)
    requires events != []
    ensures NoneAfterAccepted(connected, events) ==
      (NoneAfterAccepted(connected, Front(events)) &&
       (Reads(Last(events)) ==> !HasAccepted(connected, Front(events), Last(events).agent.id)))
  {
    var front, n := Front(events), |events| - 1;
    assert forall i :: 0 <= i < n ==> front[i] == events[i] && front[..i] == events[..i];
  }

  /** What a cell holds while the run has a meaning. */
  ghost predicate CellMeans(connected: bool, events: seq<Event>, w: Written, id: nat) {
    if HasAccepted(connected, events, id) then CellOf(w, id).BlockCell?
    else CellOf(w, id) == if Withdrawn(events, id) then NullCell else ContextCell
  }

  ghost predicate Tracks(connected: bool, events: seq<Event>, w: Written) {
    && w.st == Before(connected, events)
    && w.live == {}
    && forall id: nat :: CellMeans(connected, events, w, id)
  }

  /** A handler that does not look into the context does the same without one. */
  lemma ContextUnread(st: State, connected: bool, e: Event, hasContext: bool)
    requires !Reads(e)
    ensures Step(st, connected, WithContext(e, hasContext)) == Step(st, connected, e)
    ensures e.RequestEvent? ==> Refusal(With(e.agent, hasContext), e.arrival, st.pending.Some?).Some?
  {
  }

  lemma BeforeNext(connected: bool, events: seq<Event>)
    requires events != []
    ensures Before(connected, events) == Step(Before(connected, Front(events)), connected, Annotated(Front(events), Last(events)))
  {
    RunNext(INITIAL, connected, UntilWithdrawn(Front(events)), Annotated(Front(events), Last(events)));
  }

  /** A call that reads no freed block finds the context that the events say it has. */
  lemma FindsAnnotated(connected: bool, before: seq<Event>, w: Written, e: Event)
    requires Tracks(connected, before, w) && Reads(e) && !ReadsFreed(w, e)
    ensures !HasAccepted(connected, before, e.agent.id)
    ensures Found(w, e.agent) == Annotated(before, e).agent
  {
    assert CellMeans(connected, before, w, e.agent.id);
  }

  lemma StepState(connected: bool, before: seq<Event>, w: Written, e: Event)
    requires Tracks(connected, before, w) && !ReadsFreed(w, e)
    ensures WrittenStep(w, connected, e).st == Step(w.st, connected, Annotated(before, e))
    ensures e.RequestEvent? ==>
      (Refusal(Found(w, e.agent), e.arrival, w.st.pending.Some?) == None <==> Accepts(connected, before, e))
  {
    if Reads(e) {
      FindsAnnotated(connected, before, w, e);
    } else if !e.AnswerEvent? {
      var found := Found(w, e.agent).hasContext;
      ContextUnread(w.st, connected, e, found);
      ContextUnread(w.st, connected, e, Annotated(before, e).agent.hasContext);
    }
  }

  lemma StepCell(connected: bool, events: seq<Event>, w: Written, id: nat)
    requires events != [] && Tracks(connected, Front(events), w) && !ReadsFreed(w, Last(events))
    ensures CellMeans(connected, events, WrittenStep(w, connected, Last(events)), id)
  {
    var before, e := Front(events), Last(events);
    assert CellMeans(connected, before, w, id);
    HasAcceptedNext(connected, events, id);
    if IsFor(e, id) {
      StepState(connected, before, w, e);
      if Reads(e) {
        FindsAnnotated(connected, before, w, e);
      } else {
        ContextUnread(w.st, connected, e, Annotated(before, e).agent.hasContext);
      }
    }
  }

  lemma StepTracks(connected: bool, events: seq<Event>, w: Written)
    requires events != [] && Tracks(connected, Front(events), w) && !ReadsFreed(w, Last(events))
    ensures Tracks(connected, events, WrittenStep(w, connected, Last(events)))
  {
    StepState(connected, Front(events), w, Last(events));
    BeforeNext(connected, events);
    forall id: nat ensures CellMeans(connected, events, WrittenStep(w, connected, Last(events)), id) {
      StepCell(connected, events, w, id);
    }
  }

  /** The code keeps its meaning if and only if no call looks into the context of an agent
      after that agent had a request accepted; as long as it does, its state is that of the
      run in which the context is there until a Cancel or AgentRelease takes it. */
  lemma {:induction false} DefinedIffNoneAfterAccepted(connected: bool, events: seq<Event>)
    ensures WrittenRun(connected, events).Some? <==> NoneAfterAccepted(connected, events)
    ensures WrittenRun(connected, events).Some? ==> Tracks(connected, events, WrittenRun(connected, events).value)
  {
    if events != [] {
      var before, e := Front(events), Last(events);
      DefinedIffNoneAfterAccepted(connected, before);
      NoneAfterNext(connected, events);
      var run := WrittenRun(connected, before);
      if run.Some? {
        if Reads(e) {
          assert CellMeans(connected, before, run.value, e.agent.id);
        }
        if !ReadsFreed(run.value, e) {
          StepTracks(connected, events, run.value);
        }
      }
    }
  }

  /** A run without meaning has a first call that reads a freed block, and a meaning before. */
  lemma {:induction false} FirstFreedRead(connected: bool, events: seq<Event>) returns (k: nat)
    requires WrittenRun(connected, events) == None
    ensures k < |events| && WrittenRun(connected, events[..k]).Some?
    ensures ReadsFreed(WrittenRun(connected, events[..k]).value, events[k])
  {
    var n := |events| - 1;
    if WrittenRun(connected, Front(events)) == None {
      k := FirstFreedRead(connected, Front(events));
      assert Front(events)[..k] == events[..k];
    } else {
      k := n;
    }
  }

  /** An agent that has a second request accepted has read its freed block before. */
  lemma SecondAcceptanceUndefined(connected: bool, events: seq<Event>, i: nat, j: nat, id: nat)
    requires i < j < |events|
    requires IsFor(events[i], id) && Accepts(connected, events[..i], events[i])
    requires IsFor(events[j], id) && Accepts(connected, events[..j], events[j])
    ensures WrittenRun(connected, events) == None
  {
    DefinedIffNoneAfterAccepted(connected, events);
    assert events[..j][i] == events[i] && events[..j][..i] == events[..i];
    assert Reads(events[j]) && HasAccepted(connected, events[..j], id);
  }

  /** Requests and references are conserved by the code as written, up to that call. */
  lemma WrittenRequestsSettledOnce(connected: bool, events: seq<Event>)
    requires WrittenRun(connected, events).Some?
    ensures var w := WrittenRun(connected, events).value;
      && Conserved(w.st) && w.live == {}
      && |w.st.received| == |Which(w.st, IsRefused)| + |w.st.taken|
      && |w.st.taken| == |Which(w.st, IsAnswered)| + |Which(w.st, IsWithdrawn)| + (if w.st.pending.Some? then 1 else 0)
  {
    DefinedIffNoneAfterAccepted(connected, events);
    EveryRequestIsSettledOnce(connected, UntilWithdrawn(events));
    InitiallyConserved();
    RunConserves(INITIAL, connected, UntilWithdrawn(events));
  }

  lemma InitiallyConserved()
    ensures Conserved(INITIAL)
  {
  }

  // ----- against agents that keep their context -----

  /** No call looks into the context of an agent after a Cancel or AgentRelease nulled it. */
  ghost predicate NoneAfterWithdrawn(events: seq<Event>) {
    forall j :: 0 <= j < |events| && Reads(events[j]) ==> !Withdrawn(events[..j], events[j].agent.id)
  }

  /** Something was sent or indicated differently. */
  ghost predicate Diverged(a: State, b: State) {
    || (exists k :: 0 <= k < |a.sent| && k < |b.sent| && a.sent[k] != b.sent[k])
    || (exists k :: 0 <= k < |a.indications| && k < |b.indications| && a.indications[k] != b.indications[k])
  }

  ghost predicate Grows(a: State, b: State) {
    a.sent <= b.sent && a.indications <= b.indications
  }

  lemma {:induction false} RepliesGrow(st: State, connected: bool, answers: seq<Answer>)
    ensures Grows(st, Replies(st, connected, answers))
    ensures Replies(st, connected, answers).indications == st.indications
    decreases answers
  {
    if answers != [] {
      RepliesGrow(Reply(st, connected, answers[0]), connected, answers[1..]);
    }
  }

  lemma StepGrows(st: State, connected: bool, e: Event)
    ensures Grows(st, Step(st, connected, e))
  {
    match e
    case AnswerEvent(a) =>
    case RequestEvent(agent, a, inside) =>
      var accepted := Refusal(agent, a, st.pending.Some?) == None;
      RepliesGrow(Notify(Admitted(st, agent, a), agent, RequestInd(a.what), accepted), connected, inside);
    case CancelEvent(agent, inside) => WithdrawGrows(st, connected, agent, CancelInd, inside);
    case ReleaseEvent(agent, inside) => WithdrawGrows(st, connected, agent, ReleaseInd, inside);
  }

  lemma WithdrawGrows(st: State, connected: bool, agent: Agent, id: MsgId, inside: seq<Answer>)
    ensures Grows(st, Withdraw(st, connected, agent, id, inside))
  {
    RepliesGrow(Withdrawing(st, agent, id), connected, inside);
  }

  lemma DivergedStays(a: State, b: State, a': State, b': State)
    requires Diverged(a, b) && Grows(a, a') && Grows(b, b')
    ensures Diverged(a', b')
  {
    if k :| 0 <= k < |a.sent| && k < |b.sent| && a.sent[k] != b.sent[k] {
      assert a'.sent[k] == a.sent[k] && b'.sent[k] == b.sent[k];
    } else {
      var k :| 0 <= k < |a.indications| && k < |b.indications| && a.indications[k] != b.indications[k];
      assert a'.indications[k] == a.indications[k] && b'.indications[k] == b.indications[k];
    }
  }

  /** A call that looks for the context sends or indicates something else without it. */
  lemma MissingContextShows(st: State, connected: bool, e: Event)
    requires Reads(e)
    ensures Diverged(Step(st, connected, WithContext(e, false)), Step(st, connected, WithContext(e, true)))
  {
    match e
    case RequestEvent(agent, a, inside) => MissingContextRefuses(st, connected, agent, a, inside);
    case CancelEvent(agent, inside) => MissingContextStales(st, connected, agent, CancelInd, inside);
    case ReleaseEvent(agent, inside) => MissingContextStales(st, connected, agent, ReleaseInd, inside);
  }

  lemma MissingContextRefuses(st: State, connected: bool, agent: Agent, a: Arrival, inside: seq<Answer>)
    requires Reads(RequestEvent(agent, a, inside))
    ensures Diverged(Request(st, connected, With(agent, false), a, inside), Request(st, connected, With(agent, true), a, inside))
  {
    var m := Message(|st.received|, a.what);
    var st1 := st.(received := st.received + [a.what]);
    var refused := Replies(Notify(st1, agent, RequestInd(a.what), false), connected, inside);
    RepliesGrow(Notify(st1, agent, RequestInd(a.what), false), connected, inside);
    var x := Request(st, connected, With(agent, false), a, inside);
    var y := Request(st, connected, With(agent, true), a, inside);
    assert x == Send(refused, m, ErrorReply(Failed));
    var refusal := Refusal(With(agent, true), a, st.pending.Some?);
    if refusal.Some? {
      var k := |refused.sent|;
      assert y == Send(refused, m, ErrorReply(refusal.value));
      assert x.sent[k] != y.sent[k];
    } else {
      var st2 := st1.(pending := Some(m), taken := st1.taken + multiset{m.serial});
      RepliesGrow(Notify(st2, agent, RequestInd(a.what), true), connected, inside);
      var k := |st.indications|;
      assert x.indications[k] != y.indications[k];
    }
  }

  lemma MissingContextStales(st: State, connected: bool, agent: Agent, id: MsgId, inside: seq<Answer>)
    requires agent.hasCallback
    ensures Diverged(Withdraw(st, connected, With(agent, false), id, inside), Withdraw(st, connected, With(agent, true), id, inside))
  {
    RepliesGrow(Notify(DropPending(st), agent, id, true), connected, inside);
    RepliesGrow(Notify(st, agent, StaleInd, false), connected, inside);
    var x, y := Withdraw(st, connected, With(agent, false), id, inside), Withdraw(st, connected, With(agent, true), id, inside);
    var k := |st.indications|;
    assert x.indications[k] != y.indications[k];
  }

  lemma NoneAfterWithdrawnNext(events: seq<Event>)
    requires events != []
    ensures NoneAfterWithdrawn(events) ==
      (NoneAfterWithdrawn(Front(events)) && (Reads(Last(events)) ==> !Withdrawn(Front(events), Last(events).agent.id)))
  {
    var front, n := Front(events), |events| - 1;
    assert forall i :: 0 <= i < n ==> front[i] == events[i] && front[..i] == events[..i];
  }

  lemma {:induction false} SameOrDiverged(connected: bool, events: seq<Event>)
    ensures if NoneAfterWithdrawn(events) then Before(connected, events) == Run(INITIAL, connected, Kept(events))
            else Diverged(Before(connected, events), Run(INITIAL, connected, Kept(events)))
  {
    if events != [] {
      var before, e := Front(events), Last(events);
      SameOrDiverged(connected, before);
      NoneAfterWithdrawnNext(events);
      BeforeNext(connected, events);
      RunNext(INITIAL, connected, Kept(before), WithContext(e, true));
      var x, y := Before(connected, before), Run(INITIAL, connected, Kept(before));
      if !NoneAfterWithdrawn(before) {
        StepGrows(x, connected, Annotated(before, e));
        StepGrows(y, connected, WithContext(e, true));
        DivergedStays(x, y, Before(connected, events), Run(INITIAL, connected, Kept(events)));
      } else if Reads(e) {
        MissingContextShows(x, connected, e);
      } else {
        ContextUnread(x, connected, e, true);
        ContextUnread(x, connected, e, false);
      }
    }
  }

  /** The code does what it would do if each agent kept its context in a field of its own, if
      and only if no call looks into the context of an agent after that agent had a request
      accepted or was sent a Cancel or AgentRelease. */
  lemma AsIntendedIff(connected: bool, events: seq<Event>)
    ensures (exists w :: WrittenRun(connected, events) == Some(w) && w.st == Run(INITIAL, connected, Kept(events)))
            <==> NoneAfterAccepted(connected, events) && NoneAfterWithdrawn(events)
  {
    DefinedIffNoneAfterAccepted(connected, events);
    SameOrDiverged(connected, events);
    var run := WrittenRun(connected, events);
    if run.Some? {
      assert run == Some(run.value);
    }
  }
}
