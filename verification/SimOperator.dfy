/** The operator code of the SIM, packed by `tapi_sim_get_sim_operator` (MCC and MNC: section
    2.2 of 3GPP TS 23.003). */
module SimOperator {
  import opened Basics
  import opened Strtok

  const MAX_MCC_LENGTH: nat := 3
  const MAX_MNC_LENGTH: nat := 3
  const NUMERIC_LENGTH: nat := MAX_MCC_LENGTH + MAX_MNC_LENGTH + 1

  ghost predicate NulFree(s: string) {
    '\0' !in s
  }

  /** The characters of a C string with its terminator. */
  function Memory(s: string): seq<char> {
    s + ['\0']
  }

  /** What the call depends on besides its buffer; a code is None if the property is missing. */
  datatype Sim = Sim(hasContext: bool, validSlot: bool, ready: bool, hasProxy: bool,
                     present: Option<bool>, mcc: Option<string>, mnc: Option<string>)

  /** `tapi_sim_has_icc_card` into a flag that starts as false. */
  predicate HasIccCard(sim: Sim) {
    sim.hasContext && sim.validSlot && sim.ready && sim.hasProxy && sim.present == Some(true)
  }

  function Status(sim: Sim, hasOut: bool, length: int): int {
    if !sim.hasContext || !sim.validSlot then -EINVAL
    else if !sim.ready then -EAGAIN
    else if !hasOut || length < NUMERIC_LENGTH || !HasIccCard(sim) then -EINVAL
    else if sim.mcc == None || sim.mnc == None then -EIO
    else OK
  }

  /** `tapi_sim_has_icc_card`, which leaves the flag alone when it fails. */
  method SimHasIccCard(sim: Sim, was: bool) returns (ret: int, out: bool)
    ensures ret == if !sim.hasContext || !sim.validSlot then -EINVAL else if !sim.ready then -EAGAIN
                   else if !sim.hasProxy then -EIO else if sim.present == None then -EINVAL else OK
    ensures out == if ret == OK then sim.present.value else was
  {
    out := was;
    if !sim.hasContext {
      return -EINVAL, out;
    }
    if !sim.validSlot {
      return -EINVAL, out;
    }
    if !sim.ready {
      return -EAGAIN, out;
    }
    if !sim.hasProxy {
      return -EIO, out;
    }
    if sim.present.Some? {
      return OK, sim.present.value;
    }
    return -EINVAL, out;
  }

  /** Three characters of each code are read, wherever its terminator is. */
  ghost predicate Readable(sim: Sim) {
    && (sim.mcc.Some? ==> |Memory(sim.mcc.value)| >= MAX_MCC_LENGTH)
    && (sim.mnc.Some? ==> |Memory(sim.mnc.value)| >= MAX_MNC_LENGTH)
  }

  function Packed(mcc: string, mnc: string): (out: seq<char>)
    requires |Memory(mcc)| >= MAX_MCC_LENGTH && |Memory(mnc)| >= MAX_MNC_LENGTH
    ensures |out| == NUMERIC_LENGTH
  {
    Memory(mcc)[..MAX_MCC_LENGTH] + Memory(mnc)[..MAX_MNC_LENGTH] + ['\0']
  }

  /** Copies n characters and returns the moved pointer. */
  method CopyChars(from: seq<char>, n: nat, out: array<char>, at: nat) returns (next: nat)
    requires n <= |from| && at + n <= out.Length
    modifies out
    ensures next == at + n
    ensures out[..] == old(out[..at]) + from[..n] + old(out[at + n..])
  {
    next := at;
    for i := 0 to n
      invariant next == at + i
      invariant forall k :: 0 <= k < out.Length ==> out[k] == if at <= k < at + i then from[k - at] else old(out[k])
    {
      out[next] := from[i];
      next := next + 1;
    }
  }

  /** Both codes and the terminator, through the moving pointer. */
  method Pack(mcc: seq<char>, mnc: seq<char>, out: array<char>)
    requires |mcc| >= MAX_MCC_LENGTH && |mnc| >= MAX_MNC_LENGTH && out.Length >= NUMERIC_LENGTH
    modifies out
    ensures out[..] == mcc[..MAX_MCC_LENGTH] + mnc[..MAX_MNC_LENGTH] + ['\0'] + old(out[NUMERIC_LENGTH..])
  {
    var p := CopyChars(mcc, MAX_MCC_LENGTH, out, 0);
    p := CopyChars(mnc, MAX_MNC_LENGTH, out, p);
    out[p] := '\0';
  }

  /** `tapi_sim_get_sim_operator`: on success the buffer starts with the packed codes. */
  method GetSimOperator(sim: Sim, length: int, out: array?<char>) returns (ret: int)
    requires Readable(sim) && (out != null ==> length <= out.Length)
    modifies if out != null then {out} else {}
    ensures ret == Status(sim, out != null, length)
    ensures ret != OK && out != null ==> out[..] == old(out[..])
    ensures ret == OK ==> out[..] == Packed(sim.mcc.value, sim.mnc.value) + old(out[NUMERIC_LENGTH..])
  {
    if !sim.hasContext {
      return -EINVAL;
    }
    if !sim.validSlot {
      return -EINVAL;
    }
    if !sim.ready {
      return -EAGAIN;
    }
    if out == null {
      return -EINVAL;
    }
    if length < NUMERIC_LENGTH {
      return -EINVAL;
    }
    var _, hasCard := SimHasIccCard(sim, false);
    if !hasCard {
      return -EINVAL;
    }
    // The proxy is there, so its own null check passes.
    if sim.mcc == None {
      return -EIO;
    }
    if sim.mnc == None {
      return -EIO;
    }
    Pack(Memory(sim.mcc.value), Memory(sim.mnc.value), out);
    return OK;
  }

  lemma UpToNulConcat(a: string, b: seq<char>)
    requires NulFree(a)
    ensures UpToNul(a + b) == a + UpToNul(b)
    decreases a
  {
    if a == [] {
      assert a + b == b;
    } else {
      assert (a + b)[1..] == a[1..] + b;
      UpToNulConcat(a[1..], b);
    }
  }

  lemma UpToNulLength(s: seq<char>)
    ensures |UpToNul(s)| <= |s|
  {
  }

  /** Read as a C string the buffer is MCC followed by MNC if and only if the MCC has three
      characters and the MNC two or three. */
  lemma PackedIffLengths(mcc: string, mnc: string)
    requires NulFree(mcc) && NulFree(mnc)
    requires |Memory(mcc)| >= MAX_MCC_LENGTH && |Memory(mnc)| >= MAX_MNC_LENGTH
    ensures UpToNul(Packed(mcc, mnc)) == mcc + mnc <==> |mcc| == 3 && 2 <= |mnc| <= 3
  {
    var head, tail := Memory(mcc)[..3], Memory(mnc)[..3] + ['\0'];
    assert Packed(mcc, mnc) == head + tail;
    if |mcc| == 3 {
      assert head == mcc;
      UpToNulConcat(mcc, tail);
      UpToNulOf(mnc[..if |mnc| < 3 then |mnc| else 3], if |mnc| < 3 then ['\0'] else []);
      assert tail == mnc[..if |mnc| < 3 then |mnc| else 3] + ['\0'] + if |mnc| < 3 then ['\0'] else [];
    } else if |mcc| == 2 {
      assert head + tail == mcc + ['\0'] + tail;
      UpToNulOf(mcc, tail);
    } else {
      assert head == mcc[..3];
      UpToNulConcat(mcc[..3], tail);
      UpToNulLength(mnc[..if |mnc| < 3 then |mnc| else 3]);
      UpToNulOf(mnc[..if |mnc| < 3 then |mnc| else 3], if |mnc| < 3 then ['\0'] else []);
      assert tail == mnc[..if |mnc| < 3 then |mnc| else 3] + ['\0'] + if |mnc| < 3 then ['\0'] else [];
    }
  }
}
