/** `tapi_call_get_call_by_state`: the calls of a list that are in a given state. */
module CallFilter {
  import opened Basics
  import opened Filtering

  datatype Call = Call(id: string, number: string, state: int)

  function InState(state: int): Call -> bool {
    (c: Call) => c.state == state
  }

  /** found at the front of what was there. */
  function Placed(found: seq<Call>, was: seq<Call>): (r: seq<Call>)
    requires |found| <= |was|
    ensures |r| == |was|
  {
    found + was[|found|..]
  }

  lemma PlacedNext(found: seq<Call>, was: seq<Call>, c: Call)
    requires |found| < |was|
    ensures Placed(found + [c], was) == Placed(found, was)[|found| := c]
  {
  }

  /** The calls before i are dealt with, and those from i on are still as they were. */
  ghost predicate Collected(p: Call -> bool, calls: seq<Call>, i: nat, info0: seq<Call>,
      callList: array<Call>, info: array<Call>, index: nat)
    reads callList, info
  {
    && i <= |calls| <= callList.Length && |Filter(p, calls)| <= |info0|
    && (forall k :: i <= k < |calls| ==> callList[k] == calls[k])
    && index == |Filter(p, calls[..i])| <= i && index <= |info0|
    && info[..] == Placed(Filter(p, calls[..i]), info0)
  }

  /** One turn of the loop. */
  method CollectOne(state: int, callList: array<Call>, i: nat, info: array<Call>, index: nat,
      ghost calls: seq<Call>, ghost info0: seq<Call>)
    returns (index': nat)
    requires i < |calls| && Collected(InState(state), calls, i, info0, callList, info, index)
    modifies info
    ensures Collected(InState(state), calls, i + 1, info0, callList, info, index')
  {
    ghost var p := InState(state);
    ghost var found := Filter(p, calls[..i]);
    FilterNext(p, calls, i);
    FilterGrows(p, calls, i + 1);
    index' := index;
    if callList[i].state == state {
      PlacedNext(found, info0, calls[i]);
      ghost var before := info[..];
      info[index] := callList[i];
      assert info[..] == before[index := calls[i]];
      index' := index + 1;
    }
  }

  /** The loop; info may be the list itself, which is then filtered in place. */
  method Collect(state: int, callList: array<Call>, size: nat, info: array<Call>) returns (index: nat)
    requires size <= callList.Length
    requires |Filter(InState(state), callList[..size])| <= info.Length
    modifies info
    ensures index == old(|Filter(InState(state), callList[..size])|) <= info.Length
    ensures info[..] == old(Placed(Filter(InState(state), callList[..size]), info[..]))
  {
    ghost var calls, info0 := callList[..size], info[..];
    index := 0;
    assert Placed([], info0) == info0;
    for i := 0 to size
      invariant Collected(InState(state), calls, i, info0, callList, info, index)
    {
      index := CollectOne(state, callList, i, info, index, calls, info0);
    }
    assert calls[..size] == calls;
  }

  /** The calls in the given state, in their order, are written to info from its start;
      only as many elements are written as match. */
  method GetCallByState(hasContext: bool, validSlot: bool, state: int, callList: array?<Call>, size: int, info: array?<Call>)
    returns (r: int)
    requires callList != null && size > 0 ==> size <= callList.Length
    requires callList != null && info != null && size > 0 ==>
      |Filter(InState(state), callList[..size])| <= info.Length
    modifies if info != null then {info} else {}
    ensures !(hasContext && validSlot && callList != null && info != null) ==>
      r == -EINVAL && (info != null ==> info[..] == old(info[..]))
    ensures hasContext && validSlot && callList != null && info != null ==>
      var found := if size > 0 then Filter(InState(state), old(callList[..size])) else [];
      r == |found| <= info.Length && info[..] == Placed(found, old(info[..]))
  {
    if !hasContext || !validSlot || callList == null || info == null {
      return -EINVAL;
    }
    if size <= 0 {
      return 0;
    }
    r := Collect(state, callList, size, info);
  }

  /** The outputs for a list of states, one after the other. */
  function AllOutputs(states: seq<int>, calls: seq<Call>): seq<Call> {
    if states == [] then []
    else AllOutputs(states[..|states| - 1], calls) + Filter(InState(states[|states| - 1]), calls)
  }

  ghost predicate Distinct(states: seq<int>) {
    forall i, j :: 0 <= i < j < |states| ==> states[i] != states[j]
  }

  lemma {:induction false} OutputsCount(states: seq<int>, calls: seq<Call>, c: Call)
    requires Distinct(states)
    ensures multiset(AllOutputs(states, calls))[c] == if c.state in states then multiset(calls)[c] else 0
  {
    if states != [] {
      var front, last := states[..|states| - 1], states[|states| - 1];
      OutputsCount(front, calls, c);
      FilterKeeps(InState(last), calls, c);
      assert states == front + [last];
    }
  }

  /** Over distinct states that cover the list, the outputs together are a permutation of
      the list, so their counts sum to its size. */
  lemma OutputsPermute(states: seq<int>, calls: seq<Call>)
    requires Distinct(states) && forall c :: c in calls ==> c.state in states
    ensures multiset(AllOutputs(states, calls)) == multiset(calls)
    ensures |AllOutputs(states, calls)| == |calls|
  {
    forall c ensures multiset(AllOutputs(states, calls))[c] == multiset(calls)[c] {
      OutputsCount(states, calls, c);
      assert c !in calls ==> multiset(calls)[c] == 0;
    }
    assert |multiset(AllOutputs(states, calls))| == |AllOutputs(states, calls)| && |multiset(calls)| == |calls|;
  }
}
