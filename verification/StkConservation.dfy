/** Over every interleaving each agent request is refused, answered, withdrawn or waiting,
    and message references are conserved. */
module StkConservation {
  import opened Basics
  import opened StkAgent

  function RepliesTo(sent: seq<Sent>, k: nat): nat {
    if sent == [] then 0
    else RepliesTo(sent[..|sent| - 1], k) + if sent[|sent| - 1].to.serial == k then 1 else 0
  }

  /** Refused at once: one reply, and no reference was ever taken. */
  predicate IsRefused(st: State, k: nat) {
    RepliesTo(st.sent, k) == 1 && st.taken[k] == 0 && st.dropped[k] == 0
  }

  predicate IsAnswered(st: State, k: nat) {
    RepliesTo(st.sent, k) == 1 && st.taken[k] == 1 && st.dropped[k] == 1
  }

  /** Dropped by Cancel or AgentRelease: its reference is gone and no reply was sent. */
  predicate IsWithdrawn(st: State, k: nat) {
    RepliesTo(st.sent, k) == 0 && st.taken[k] == 1 && st.dropped[k] == 1
  }

  predicate IsWaiting(st: State, k: nat) {
    RepliesTo(st.sent, k) == 0 && st.taken[k] == 1 && st.dropped[k] == 0
  }

  predicate IsPending(st: State, k: nat) {
    st.pending.Some? && st.pending.value.serial == k
  }

  /** Request k is in exactly one of the four states (they exclude each other by their
      counts), and it waits exactly while it is the pending message. */
  ghost predicate HasOneFate(st: State, k: nat) {
    && (IsRefused(st, k) || IsAnswered(st, k) || IsWithdrawn(st, k) || IsWaiting(st, k))
    && (IsWaiting(st, k) <==> IsPending(st, k))
  }

  ghost predicate Untouched(st: State, k: nat) {
    RepliesTo(st.sent, k) == 0 && st.taken[k] == 0 && st.dropped[k] == 0
  }

  /** Requests below `settled` have their fate; a later one, still inside its handler, none. */
  ghost predicate Settled(st: State, settled: nat) {
    && settled <= |st.received|
    && (st.pending.Some? ==> Genuine(st, st.pending.value) && st.pending.value.serial < settled)
    && (forall k: nat | k < settled :: HasOneFate(st, k))
    && (forall k: nat | k >= settled :: Untouched(st, k))
    && |st.taken| == |st.dropped| + (if st.pending.Some? then 1 else 0)
    && (forall i | 0 <= i < |st.sent| :: Genuine(st, st.sent[i].to))
  }

  ghost predicate Genuine(st: State, m: Message) {
    m.serial < |st.received| && st.received[m.serial] == m.what
  }

  ghost predicate Conserved(st: State) {
    Settled(st, |st.received|)
  }

  lemma SendCounts(sent: seq<Sent>, s: Sent)
    ensures forall k: nat :: RepliesTo(sent + [s], k) == RepliesTo(sent, k) + if s.to.serial == k then 1 else 0
  {
    assert (sent + [s])[..|sent|] == sent;
  }

  lemma ReplyKeeps(st: State, connected: bool, a: Answer, settled: nat)
    requires Settled(st, settled)
    ensures Settled(Reply(st, connected, a), settled)
    ensures Reply(st, connected, a).received == st.received
  {
    if connected && st.pending.Some? && a.built {
      var m := st.pending.value;
      var st' := Reply(st, connected, a);
      SendCounts(st.sent, Sent(m, AnswerBody(a)));
      assert HasOneFate(st, m.serial);
      forall k: nat | k < settled ensures HasOneFate(st', k) {
        assert HasOneFate(st, k);
      }
      forall k: nat | k >= settled ensures Untouched(st', k) {
        assert Untouched(st, k);
      }
    }
  }

  lemma {:induction false} RepliesKeep(st: State, connected: bool, answers: seq<Answer>, settled: nat)
    requires Settled(st, settled)
    ensures Settled(Replies(st, connected, answers), settled)
    ensures Replies(st, connected, answers).received == st.received
    decreases answers
  {
    if answers != [] {
      ReplyKeeps(st, connected, answers[0], settled);
      RepliesKeep(Reply(st, connected, answers[0]), connected, answers[1..], settled);
    }
  }

  lemma SettledFrame(st: State, st': State, settled: nat)
    requires Settled(st, settled)
    requires st' == st.(received := st'.received, indications := st'.indications)
    requires st.received <= st'.received
    ensures Settled(st', settled)
  {
    forall k: nat | k < settled ensures HasOneFate(st', k) {
      assert HasOneFate(st, k);
    }
    forall k: nat | k >= settled ensures Untouched(st', k) {
      assert Untouched(st, k);
    }
    forall i | 0 <= i < |st'.sent| ensures Genuine(st', st'.sent[i].to) {
      assert Genuine(st, st.sent[i].to);
    }
    assert st.pending.Some? ==> Genuine(st, st.pending.value);
  }

  lemma AcceptKeeps(st: State, m: Message)
    requires Settled(st, m.serial) && st.pending == None && Genuine(st, m) && |st.received| == m.serial + 1
    ensures Conserved(st.(pending := Some(m), taken := st.taken + multiset{m.serial}))
  {
    var st' := st.(pending := Some(m), taken := st.taken + multiset{m.serial});
    assert Untouched(st, m.serial);
    forall k: nat | k < |st.received| ensures HasOneFate(st', k) {
      assert k < m.serial ==> HasOneFate(st, k);
    }
    forall k: nat | k >= |st.received| ensures Untouched(st', k) {
      assert Untouched(st, k);
    }
  }

  lemma RefuseKeeps(st: State, m: Message, e: ErrorName)
    requires Settled(st, m.serial) && Genuine(st, m) && |st.received| == m.serial + 1
    ensures Conserved(Send(st, m, ErrorReply(e)))
  {
    var st' := Send(st, m, ErrorReply(e));
    SendCounts(st.sent, Sent(m, ErrorReply(e)));
    assert Untouched(st, m.serial);
    forall k: nat | k < |st.received| ensures HasOneFate(st', k) {
      assert k < m.serial ==> HasOneFate(st, k);
    }
    forall k: nat | k >= |st.received| ensures Untouched(st', k) {
      assert Untouched(st, k);
    }
  }

  lemma DropKeeps(st: State)
    requires Conserved(st)
    ensures Conserved(DropPending(st))
  {
    if st.pending.Some? {
      var st' := DropPending(st);
      assert HasOneFate(st, st.pending.value.serial);
      forall k: nat | k < |st.received| ensures HasOneFate(st', k) {
        assert HasOneFate(st, k);
      }
      forall k: nat | k >= |st.received| ensures Untouched(st', k) {
        assert Untouched(st, k);
      }
    }
  }

  lemma RequestKeeps(st: State, connected: bool, agent: Agent, a: Arrival, inside: seq<Answer>)
    requires Conserved(st)
    ensures Conserved(Request(st, connected, agent, a, inside))
    ensures Request(st, connected, agent, a, inside).received == st.received + [a.what]
  {
    var m := Message(|st.received|, a.what);
    var st1 := st.(received := st.received + [a.what]);
    SettledFrame(st, st1, m.serial);
    match Refusal(agent, a, st.pending.Some?)
    case Some(e) =>
      var st2 := Notify(st1, agent, RequestInd(a.what), false);
      SettledFrame(st1, st2, m.serial);
      RepliesKeep(st2, connected, inside, m.serial);
      RefuseKeeps(if agent.hasCallback then Replies(st2, connected, inside) else st1, m, e);
    case None =>
      var st2 := st1.(pending := Some(m), taken := st1.taken + multiset{m.serial});
      AcceptKeeps(st1, m);
      var st3 := Notify(st2, agent, RequestInd(a.what), true);
      SettledFrame(st2, st3, |st2.received|);
      RepliesKeep(st3, connected, inside, |st3.received|);
  }

  lemma WithdrawKeeps(st: State, connected: bool, agent: Agent, id: MsgId, inside: seq<Answer>)
    requires Conserved(st)
    ensures Conserved(Withdraw(st, connected, agent, id, inside))
  {
    if agent.hasCallback {
      DropKeeps(st);
      var st0 := if agent.hasContext then DropPending(st) else st;
      var st1 := if agent.hasContext then Notify(st0, agent, id, true) else Notify(st0, agent, StaleInd, false);
      SettledFrame(st0, st1, |st0.received|);
      RepliesKeep(st1, connected, inside, |st1.received|);
    }
  }

  /** After every run, from any conserving state, requests and references are conserved. */
  lemma {:induction false} RunConserves(st: State, connected: bool, events: seq<Event>)
    requires Conserved(st)
    ensures Conserved(Run(st, connected, events))
    decreases events
  {
    if events != [] {
      match events[0] {
        case RequestEvent(agent, a, inside) => RequestKeeps(st, connected, agent, a, inside);
        case AnswerEvent(a) => ReplyKeeps(st, connected, a, |st.received|);
        case CancelEvent(agent, inside) => WithdrawKeeps(st, connected, agent, CancelInd, inside);
        case ReleaseEvent(agent, inside) => WithdrawKeeps(st, connected, agent, ReleaseInd, inside);
      }
      RunConserves(Step(st, connected, events[0]), connected, events[1..]);
    }
  }

  ghost function Below(n: nat): (all: set<nat>)
    ensures |all| == n
    ensures forall k: nat :: k in all <==> k < n
  {
    if n == 0 then {} else Below(n - 1) + {n - 1}
  }

  /** The requests that met the given fate. */
  ghost function Which(st: State, fate: (State, nat) -> bool): set<nat> {
    set k | k in Below(|st.received|) && fate(st, k)
  }

  /** The requests whose message was kept: answered, withdrawn or still waiting. */
  ghost function Accepted(st: State): set<nat> {
    Which(st, IsAnswered) + Which(st, IsWithdrawn) + Which(st, IsWaiting)
  }

  lemma AcceptedAreTaken(st: State)
    requires Conserved(st)
    ensures st.taken == multiset(Accepted(st))
  {
    forall k: nat ensures st.taken[k] == multiset(Accepted(st))[k] {
      if k < |st.received| {
        assert HasOneFate(st, k);
      } else {
        assert Untouched(st, k);
      }
    }
  }

  lemma AtMostOneWaits(st: State)
    requires Conserved(st)
    ensures Which(st, IsWaiting) == if st.pending.Some? then {st.pending.value.serial} else {}
  {
    forall k: nat | k < |st.received| ensures IsWaiting(st, k) <==> IsPending(st, k) {
      assert HasOneFate(st, k);
    }
  }

  lemma RefusedOrAccepted(st: State)
    requires Conserved(st)
    ensures Below(|st.received|) == Which(st, IsRefused) + Accepted(st)
    ensures |st.received| == |Which(st, IsRefused)| + |Accepted(st)|
  {
    forall k: nat | k < |st.received| ensures k in Which(st, IsRefused) || k in Accepted(st) {
      assert HasOneFate(st, k);
    }
    assert Which(st, IsRefused) !! Accepted(st);
    assert |Which(st, IsRefused) + Accepted(st)| == |Which(st, IsRefused)| + |Accepted(st)|;
  }

  /** From the start: each request has exactly one fate, the accepted ones number the
      answered, the withdrawn and the pending one, and references taken exceed references
      dropped by exactly the pending one. */
  lemma EveryRequestIsSettledOnce(connected: bool, events: seq<Event>)
    ensures var st := Run(INITIAL, connected, events);
      var pending := if st.pending.Some? then 1 else 0;
      && (forall k: nat | k < |st.received| :: HasOneFate(st, k))
      && |st.taken| == |Which(st, IsAnswered)| + |Which(st, IsWithdrawn)| + pending
      && |st.received| == |Which(st, IsRefused)| + |st.taken|
      && |st.taken| == |st.dropped| + pending
  {
    RunConserves(INITIAL, connected, events);
    var st := Run(INITIAL, connected, events);
    AcceptedAreTaken(st);
    AtMostOneWaits(st);
    RefusedOrAccepted(st);
    var answered, withdrawn, waiting := Which(st, IsAnswered), Which(st, IsWithdrawn), Which(st, IsWaiting);
    assert answered !! withdrawn && answered + withdrawn !! waiting;
    assert |answered + withdrawn| == |answered| + |withdrawn|;
    assert |Accepted(st)| == |answered + withdrawn| + |waiting|;
  }
}
