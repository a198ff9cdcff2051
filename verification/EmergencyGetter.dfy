/** The property getter `tapi_call_get_ecc_list`, when it agrees with the signal handlers, and
    the look-up of an emergency number. */
module EmergencyGetter {
  import opened Basics
  import opened CText
  import opened EmergencyList
  import opened Strtok

  /** What `strtok` sees in the 5-byte buffer after `strncpy(_, attr, 4)`: a longer
      attribute leaves no NUL, so the text runs on into whatever the stack holds. */
  function InBuffer(attr: string, stack: string): string {
    if |attr| <= 3 then attr else attr[..4] + stack
  }

  /** A list as the getter reads it, stack[k] being the stack text met at entry k. */
  function AsRead(msg: seq<string>, stack: seq<string>): (view: seq<string>)
    ensures |view| == |msg|
  {
    seq(|msg|, k requires 0 <= k < |msg| =>
      if k % 2 == 1 && k / 2 < |stack| then InBuffer(msg[k], stack[k / 2]) else msg[k])
  }

  lemma AsReadAt(msg: seq<string>, stack: seq<string>, k: nat)
    requires 2 * k + 1 < |msg| && k < |stack|
    ensures AsRead(msg, stack)[2 * k] == msg[2 * k]
    ensures AsRead(msg, stack)[2 * k + 1] == InBuffer(msg[2 * k + 1], stack[k])
  {
    Halves(k);
  }

  /** What the getter makes of a list on this stack content. */
  function Read(msg: seq<string>, stack: seq<string>): seq<Ecc>
    requires Readable(AsRead(msg, stack), MAX_ECC_LIST_SIZE)
  {
    Decoded(AsRead(msg, stack), MAX_ECC_LIST_SIZE)
  }

  method ReadEntry(msg: seq<string>, stack: seq<string>, k: nat) returns (e: Ecc)
    requires k < MAX_ECC_LIST_SIZE && 2 * k + 1 < |msg| && k < |stack|
    requires Readable(AsRead(msg, stack), MAX_ECC_LIST_SIZE)
    ensures k < |Read(msg, stack)| && e == Read(msg, stack)[k]
  {
    var condCat := InBuffer(msg[2 * k + 1], stack[k]);
    AsReadAt(msg, stack, k);
    assert TwoFields(AsRead(msg, stack)[2 * k + 1]);
    var category, condition, _ := SplitAttribute(condCat);
    e := Ecc(msg[2 * k], category, condition);
  }

  lemma ReadLength(msg: seq<string>, stack: seq<string>)
    requires Readable(AsRead(msg, stack), MAX_ECC_LIST_SIZE)
    requires |msg| % 2 == 0 || |msg| >= 2 * MAX_ECC_LIST_SIZE
    ensures |Read(msg, stack)| == Min(|msg| / 2, MAX_ECC_LIST_SIZE)
  {
  }

  /** The first index entries are in place and the rest of the array is as it was. */
  ghost predicate ReadTo(entries: seq<Ecc>, out: array<Ecc>, out0: seq<Ecc>, index: nat)
    reads out
  {
    && index <= |entries| <= out.Length == |out0|
    && (forall k :: 0 <= k < index ==> out[k] == entries[k])
    && (forall k :: index <= k < out.Length ==> out[k] == out0[k])
  }

  method PutEntry(out: array<Ecc>, index: nat, e: Ecc, ghost entries: seq<Ecc>, ghost out0: seq<Ecc>)
    requires index < |entries| && ReadTo(entries, out, out0, index) && e == entries[index]
    modifies out
    ensures ReadTo(entries, out, out0, index + 1)
  {
    out[index] := e;
  }

  lemma PairThere(length: nat, k: nat)
    requires length % 2 == 0 || length >= 2 * MAX_ECC_LIST_SIZE
    requires 2 * k < length && k < MAX_ECC_LIST_SIZE
    ensures 2 * k + 1 < length
  {
  }

  /** The loop over an array of strings; it reads an attribute after every number. */
  method ReadStrings(msg: seq<string>, stack: seq<string>, out: array<Ecc>) returns (index: nat)
    requires out.Length >= MAX_ECC_LIST_SIZE && |stack| >= MAX_ECC_LIST_SIZE
    requires |msg| % 2 == 0 || |msg| >= 2 * MAX_ECC_LIST_SIZE
    requires Readable(AsRead(msg, stack), MAX_ECC_LIST_SIZE)
    modifies out
    ensures index == |Read(msg, stack)| <= out.Length && ReadTo(Read(msg, stack), out, old(out[..]), index)
  {
    index := 0;
    var iter := 0;
    ghost var entries, out0 := Read(msg, stack), out[..];
    ReadLength(msg, stack);
    while iter < |msg|
      invariant iter == 2 * index <= |msg| && index < MAX_ECC_LIST_SIZE
      invariant ReadTo(entries, out, out0, index)
      decreases |msg| - iter
    {
      PairThere(|msg|, index);
      var e := ReadEntry(msg, stack, index);
      PutEntry(out, index, e, entries, out0);
      index := index + 1;
      if index >= MAX_ECC_LIST_SIZE {
        break;
      }
      iter := iter + 2;
    }
  }

  /** The loop over an array of other values, which leaves the entries alone. */
  method SkipOthers(n: nat) returns (index: nat)
    ensures index == Min(n, MAX_ECC_LIST_SIZE)
  {
    index := 0;
    while index < n
      invariant index <= n && index < MAX_ECC_LIST_SIZE
    {
      index := index + 1;
      if index >= MAX_ECC_LIST_SIZE {
        break;
      }
    }
  }

  /** The emergency numbers of a proxy; the elements of a D-Bus array have all one type. */
  datatype Source = NoProxy | NoProperty | NoArray | Strings(msg: seq<string>) | Others(count: nat)

  /** The voice call proxy is asked first, the modem proxy when it has no such property. */
  function Chosen(call: Source, modem: Source): Source {
    if call.NoProperty? then modem else call
  }

  /** The error returned before the list is looked at, 0 if there is none. */
  function EccStatus(hasContext: bool, validSlot: bool, ready: bool, call: Source, modem: Source): int {
    if !hasContext || !validSlot then -EINVAL
    else if !ready then -EAGAIN
    else if Chosen(call, modem).NoProxy? then -EIO
    else if Chosen(call, modem).NoProperty? then -EINVAL
    else OK
  }

  ghost predicate SourceFits(source: Source, stack: seq<string>) {
    source.Strings? ==>
      && (|source.msg| % 2 == 0 || |source.msg| >= 2 * MAX_ECC_LIST_SIZE)
      && Readable(AsRead(source.msg, stack), MAX_ECC_LIST_SIZE)
  }

  /** `tapi_call_get_ecc_list` */
  method GetEccList(hasContext: bool, validSlot: bool, ready: bool, call: Source, modem: Source, stack: seq<string>, out: array<Ecc>)
    returns (ret: int)
    requires out.Length >= MAX_ECC_LIST_SIZE && |stack| >= MAX_ECC_LIST_SIZE && SourceFits(Chosen(call, modem), stack)
    modifies out
    ensures EccStatus(hasContext, validSlot, ready, call, modem) < OK ==>
      ret == EccStatus(hasContext, validSlot, ready, call, modem) && out[..] == old(out[..])
    ensures EccStatus(hasContext, validSlot, ready, call, modem) == OK ==>
      match Chosen(call, modem)
      case Strings(msg) => 0 <= ret <= out.Length && out[..] == Read(msg, stack) + old(out[ret..])
      case Others(count) => ret == Min(count, MAX_ECC_LIST_SIZE) && out[..] == old(out[..])
      case _ => ret == 0 && out[..] == old(out[..])
  {
    if !hasContext {
      return -EINVAL;
    }
    if !validSlot {
      return -EINVAL;
    }
    if !ready {
      return -EAGAIN;
    }
    if call == NoProxy {
      return -EIO;
    }
    var list := call;
    if call == NoProperty {
      if modem == NoProxy {
        return -EIO;
      }
      if modem == NoProperty {
        return -EINVAL;
      }
      list := modem;
    }
    match list {
      case Strings(msg) =>
        ret := ReadStrings(msg, stack, out);
      case Others(count) => ret := SkipOthers(count);
      case _ => ret := 0;
    }
  }

  // ----- when the getter agrees with the signal handlers -----

  /** On this stack content the getter is defined and returns what the signal decoders return. */
  ghost predicate GetterAgrees(list: seq<Ecc>, stack: seq<string>) {
    var view := AsRead(Encode(list), stack);
    && Readable(view, MAX_ECC_LIST_SIZE)
    && Read(Encode(list), stack) == list[..Min(|list|, MAX_ECC_LIST_SIZE)]
  }

  ghost predicate ShortAttributes(list: seq<Ecc>) {
    forall k | 0 <= k < Min(|list|, MAX_ECC_LIST_SIZE) :: |Attribute(list[k])| <= 3
  }

  lemma AsReadEncoded(list: seq<Ecc>, stack: seq<string>, k: nat)
    requires k < |list| && k < |stack|
    ensures AsRead(Encode(list), stack)[2 * k] == list[k].number
    ensures AsRead(Encode(list), stack)[2 * k + 1] == InBuffer(Attribute(list[k]), stack[k])
  {
    EncodeAt(list, k);
    AsReadAt(Encode(list), stack, k);
  }

  lemma AgreesAt(list: seq<Ecc>, stack: seq<string>, k: nat)
    requires |stack| == MAX_ECC_LIST_SIZE && k < Min(|list|, MAX_ECC_LIST_SIZE)
    requires GetterAgrees(list, stack)
    ensures TwoFields(InBuffer(Attribute(list[k]), stack[k]))
    ensures Condition(InBuffer(Attribute(list[k]), stack[k])) == list[k].condition
  {
    var view := AsRead(Encode(list), stack);
    AsReadEncoded(list, stack, k);
    assert TwoFields(view[2 * k + 1]);
    assert Read(Encode(list), stack)[k] == EntryAt(view, k);
  }

  /** The getter agrees with the signal decoders whatever the stack holds if and only if
      every attribute that is read has at most three characters. */
  lemma GetterAgreesIffShort(list: seq<Ecc>)
    ensures (forall stack: seq<string> | |stack| == MAX_ECC_LIST_SIZE :: GetterAgrees(list, stack)) <==> ShortAttributes(list)
  {
    if ShortAttributes(list) {
      forall stack: seq<string> | |stack| == MAX_ECC_LIST_SIZE ensures GetterAgrees(list, stack) {
        ShortSuffices(list, stack);
      }
    } else {
      var k :| 0 <= k < Min(|list|, MAX_ECC_LIST_SIZE) && |Attribute(list[k])| > 3;
      var bad := StackBreaksLong(list[k]);
      var stack := seq(MAX_ECC_LIST_SIZE, _ => bad);
      if GetterAgrees(list, stack) {
        AgreesAt(list, stack, k);
        assert false;
      }
    }
  }

  lemma ShortSuffices(list: seq<Ecc>, stack: seq<string>)
    requires ShortAttributes(list) && |stack| == MAX_ECC_LIST_SIZE
    ensures GetterAgrees(list, stack)
  {
    var view := AsRead(Encode(list), stack);
    forall k: nat | k < Min(|list|, MAX_ECC_LIST_SIZE)
      ensures TwoFields(view[2 * k + 1]) && EntryAt(view, k) == list[k]
    {
      AsReadEncoded(list, stack, k);
      AttributeFields(list[k]);
    }
  }

  /** Some stack content makes a long attribute unreadable or read wrongly. */
  lemma StackBreaksLong(e: Ecc) returns (stack: string)
    requires |Attribute(e)| > 3
    ensures var seen := InBuffer(Attribute(e), stack);
      !TwoFields(seen) || Condition(seen) != e.condition
  {
    var attr := Attribute(e);
    var head, cat, cond := attr[..4], Print(e.category), Print(e.condition);
    AtoiOfPrint(e.category);
    AtoiOfPrint(e.condition);
    assert head + "" == head;
    if |cat| >= 4 {
      assert head == cat[..4];
      FieldsStep(head, "");
      return "";
    }
    var kept := cond[..3 - |cat|];
    assert head == cat + "," + kept;
    FieldsStep(cat, kept);
    if kept == "" {
      assert Split("") == [""];
      return "";
    }
    FieldsStep(kept, "");
    FieldsStep(kept + "7", "");
    FieldsStep(cat, kept + "7");
    assert head + "7" == cat + "," + (kept + "7");
    AtoiGrows(e.condition, |kept|);
    return if Atoi(kept) != e.condition then "" else "7";
  }

  /** A further digit changes the value of any non-empty front part of a printed number. */
  lemma AtoiGrows(n: int, len: nat)
    requires 0 < len <= |Print(n)|
    ensures Atoi(Print(n)[..len] + "7") != Atoi(Print(n)[..len])
  {
    var s := Print(n)[..len];
    var digits := if n < 0 then s[1..] else s;
    DigitsOfPrint(n, len);
    DigitsValueAppend(digits, "7", 0);
    assert DigitsValue("7", DigitsValue(digits, 0)) == DigitsValue("7"[1..], 10 * DigitsValue(digits, 0) + 7);
    assert SkipSpace(s) == s && SkipSpace(s + "7") == s + "7";
    if n < 0 {
      assert s[0] == '-' && (s + "7")[1..] == s[1..] + "7";
    }
  }

  /** The front of a printed number is a front of its digits, behind the sign if any. */
  lemma DigitsOfPrint(n: int, len: nat)
    requires 0 < len <= |Print(n)|
    ensures var s := Print(n)[..len];
      && AllDigits(if n < 0 then s[1..] else s)
      && (if n < 0 then s[0] == '-' else IsDigit(s[0]))
  {
    var digits := PrintNat(if n < 0 then -n else n);
    var s := Print(n)[..len];
    if n < 0 {
      assert s == ("-" + digits)[..len] && s[1..] == digits[..len - 1];
    } else {
      assert s == digits[..len] && s[0] == digits[0];
    }
  }

  // ----- looking a number up -----

  ghost predicate Match(lists: seq<seq<Ecc>>, number: string, i: nat, j: nat) {
    i < |lists| && j < |lists[i]| && lists[i][j].number == number
  }

  /** The first match in (slot, position) order, with no empty list on the way to it. */
  ghost predicate FirstMatch(lists: seq<seq<Ecc>>, number: string, i: nat, j: nat) {
    && Match(lists, number, i, j)
    && (forall k | 0 <= k < i :: lists[k] != [])
    && (forall k: nat, l: nat | k < i || (k == i && l < j) :: !Match(lists, number, k, l))
  }

  /** `tapi_call_is_emergency_number`; lists[i] is what the getter gives for slot i, empty
      also when it returns an error. */
  method IsEmergencyNumber(lists: seq<seq<Ecc>>, number: string) returns (r: int)
    ensures forall i: nat, j: nat | FirstMatch(lists, number, i, j) :: r == lists[i][j].condition
    ensures (forall i: nat, j: nat :: !FirstMatch(lists, number, i, j)) ==> r == -1
  {
    var i := 0;
    while i < |lists|
      invariant 0 <= i <= |lists|
      invariant forall k | 0 <= k < i :: lists[k] != []
      invariant forall k: nat, l: nat | k < i :: !Match(lists, number, k, l)
    {
      var size := |lists[i]|;
      if size <= 0 {
        return -1;
      }
      var j := 0;
      while j < size
        invariant 0 <= j <= size
        invariant forall l: nat | l < j :: !Match(lists, number, i, l)
      {
        if number == lists[i][j].number {
          assert Match(lists, number, i, j);
          assert FirstMatch(lists, number, i, j);
          return lists[i][j].condition;
        }
        j := j + 1;
      }
      i := i + 1;
    }
    return -1;
  }
}
