/** The emergency number lists: an array of strings that alternates a number with its
    "category,condition" attribute, decoded by two signal handlers and one getter. */
module EmergencyList {
  import opened Basics
  import opened CText
  import opened Strtok

  const MAX_ECC_LIST_SIZE: nat := 30
  const MSG_ECC_LIST_CHANGE_IND: int := 16

  datatype Ecc = Ecc(number: string, category: int, condition: int)

  lemma Halves(k: nat)
    ensures (2 * k) / 2 == k && (2 * k) % 2 == 0
    ensures (2 * k + 1) / 2 == k && (2 * k + 1) % 2 == 1
  {
  }

  // ----- attributes -----

  /** `atoi` gets two tokens; with fewer it would be handed a null pointer. */
  ghost predicate TwoFields(attr: string) {
    '\0' !in attr && |Fields(attr)| >= 2
  }

  function Category(attr: string): int
    requires |Fields(attr)| >= 2
  {
    Atoi(Fields(attr)[0])
  }

  function Condition(attr: string): int
    requires |Fields(attr)| >= 2
  {
    Atoi(Fields(attr)[1])
  }

  /** Memory b holds the first token of attr from tok to n, cut off, and the commas before it. */
  ghost predicate FirstCut(attr: string, b: seq<char>, tok: nat, n: nat) {
    && tok < n < |attr| && n < |b|
    && (forall k :: 0 <= k < n ==> b[k] == attr[k])
    && (forall k :: 0 <= k < tok ==> attr[k] == ',')
    && CommaFree(attr[tok..n]) && attr[n] == ',' && b[n] == '\0'
  }

  lemma LeftBehind(attr: string, b: seq<char>, tok: nat, n: nat)
    requires '\0' !in attr && FirstCut(attr, b, tok, n)
    ensures UpToNul(b) == Cut(attr)
  {
    assert attr[tok..n][0] == attr[tok];
    CutIs(attr, tok, n);
    assert b == attr[..n] + ['\0'] + b[n + 1..];
    UpToNulOf(attr[..n], b[n + 1..]);
  }

  lemma FirstCutFrom(attr: string, before: seq<char>, after: seq<char>, tok: nat, n: nat, field: string)
    requires before == attr + ['\0'] && tok < |after| == |before|
    requires field == UpToNul(after[tok..]) && field != [] && CommaFree(field) && n == tok + |field|
    requires forall k :: 0 <= k < n && k < |after| ==> after[k] == before[k]
    requires forall k :: 0 <= k < tok ==> after[k] == ','
    requires n < |after| && after[n] == '\0' && before[n] == ','
    ensures FirstCut(attr, after, tok, n)
  {
    FieldIsThere(after, tok, field);
    assert n < |attr|;
    assert forall k :: 0 <= k < n ==> before[k] == attr[k];
    assert attr[tok..n] == after[tok..n];
  }

  /** The first `strtok` of an attribute. */
  method FirstToken(t: Tokenizer, attr: string) returns (value: int, ghost tok: nat, ghost n: nat)
    requires TwoFields(attr) && t.Valid() && t.rest == attr && t.next == 0 && t.buf[..] == attr + ['\0']
    modifies t, t.buf
    ensures t.Valid() && Fields(attr) == [Fields(attr)[0]] + Fields(t.rest) && value == Atoi(Fields(attr)[0])
    ensures FirstCut(attr, t.buf[..], tok, n) && n < t.next
  {
    ghost var before := t.buf[..];
    var first := t.Next();
    value := Atoi(UpToNul(t.buf[first..]));
    ghost var after := t.buf[..];
    assert after[first..] == t.buf[first..];
    ghost var field := UpToNul(after[first..]);
    tok, n := first, first + |field|;
    FirstCutFrom(attr, before, after, tok, n, field);
    assert FirstCut(attr, after, tok, n);
  }

  lemma {:induction false} FieldIsThere(b: seq<char>, tok: nat, field: string)
    requires tok < |b| && UpToNul(b[tok..]) == field
    ensures tok + |field| <= |b| && b[tok..tok + |field|] == field
    decreases |field|
  {
    if field != [] && tok + 1 < |b| {
      assert b[tok..][1..] == b[tok + 1..];
      FieldIsThere(b, tok + 1, field[1..]);
    } else if field != [] {
      assert b[tok..][1..] == [];
    }
  }

  /** Splits an attribute in place; left is the C string that stays behind in its memory. */
  method SplitAttribute(attr: string) returns (category: int, condition: int, left: string)
    requires TwoFields(attr)
    ensures category == Category(attr) && condition == Condition(attr)
    ensures left == Cut(attr)
  {
    var t := new Tokenizer(attr);
    ghost var tok, n;
    category, tok, n := FirstToken(t, attr);
    var ptr := t.Next();
    condition := Atoi(UpToNul(t.buf[ptr..]));
    left := UpToNul(t.buf[..]);
    LeftBehind(attr, t.buf[..], tok, n);
  }

  // ----- what a list of strings stands for -----

  /** Every attribute that a decoder with room for cap entries reads can be split. */
  ghost predicate Readable(msg: seq<string>, cap: nat) {
    forall k | 0 <= k < cap && 2 * k + 1 < |msg| :: TwoFields(msg[2 * k + 1])
  }

  /** The first cap entries of a list; a number without an attribute gets zeros. */
  function Decoded(msg: seq<string>, cap: nat): (entries: seq<Ecc>)
    requires Readable(msg, cap)
    ensures |entries| == Min((|msg| + 1) / 2, cap)
    ensures forall k :: 0 <= k < |entries| ==> entries[k] == EntryAt(msg, k)
  {
    var n := Min((|msg| + 1) / 2, cap);
    seq(n, k requires 0 <= k < n => EntryAt(msg, k))
  }

  function EntryAt(msg: seq<string>, k: nat): Ecc
    requires 2 * k < |msg|
    requires 2 * k + 1 < |msg| ==> |Fields(msg[2 * k + 1])| >= 2
  {
    if 2 * k + 1 < |msg| then Ecc(msg[2 * k], Category(msg[2 * k + 1]), Condition(msg[2 * k + 1]))
    else Ecc(msg[2 * k], 0, 0)
  }

  /** The message after its first n entries were decoded: their attributes are cut up. */
  function AfterDecode(msg: seq<string>, n: nat): (r: seq<string>)
    ensures |r| == |msg|
    ensures forall j :: 2 * n <= j < |msg| ==> r[j] == msg[j]
  {
    if n == 0 then msg
    else
      var before := AfterDecode(msg, n - 1);
      if 2 * n - 1 < |msg| then before[2 * n - 1 := Cut(msg[2 * n - 1])] else before
  }

  lemma {:induction false} AfterDecodeEnds(msg: seq<string>, n: nat, cap: nat)
    requires n <= cap && (n < cap ==> |msg| <= 2 * n + 1)
    ensures AfterDecode(msg, cap) == AfterDecode(msg, n)
    decreases cap
  {
    if n < cap {
      AfterDecodeEnds(msg, n, cap - 1);
    }
  }

  /** Each attribute of a decoded entry is cut up ... */
  lemma {:induction false} AttributeCut(msg: seq<string>, n: nat, k: nat)
    requires 2 * k + 1 < |msg|
    ensures AfterDecode(msg, n)[2 * k + 1] == if k < n then Cut(msg[2 * k + 1]) else msg[2 * k + 1]
    decreases n
  {
    if k < n - 1 {
      AttributeCut(msg, n - 1, k);
      assert 2 * n - 1 != 2 * k + 1;
    } else if k == n - 1 {
      assert 2 * n - 1 == 2 * k + 1;
    }
  }

  /** ... and no number is changed. */
  lemma {:induction false} NumberKept(msg: seq<string>, n: nat, k: nat)
    requires 2 * k < |msg|
    ensures AfterDecode(msg, n)[2 * k] == msg[2 * k]
    decreases n
  {
    if k < n {
      NumberKept(msg, n - 1, k);
      assert 2 * n - 1 != 2 * k;
    }
  }

  // ----- the signal decoders -----

  const NO_ECC := Ecc("", 0, 0)

  /** The first index entries of the message are decoded and its strings cut up so far. */
  ghost predicate DecodedTo(msg0: seq<string>, msg: seq<string>, list: seq<Ecc>, index: nat) {
    && Readable(msg0, MAX_ECC_LIST_SIZE)
    && |msg| == |msg0| && |list| == MAX_ECC_LIST_SIZE && index <= MAX_ECC_LIST_SIZE && 2 * index <= |msg0| + 1
    && msg == AfterDecode(msg0, index)
    && (forall k :: 0 <= k < index ==> list[k] == EntryAt(msg0, k))
    && (forall k :: index <= k < |list| ==> list[k] == NO_ECC)
  }

  lemma DecodedNext(msg0: seq<string>, msg: seq<string>, list: seq<Ecc>, index: nat)
    requires DecodedTo(msg0, msg, list, index) && 2 * index < |msg0| && index < MAX_ECC_LIST_SIZE
    ensures DecodedTo(msg0, AfterDecode(msg0, index + 1), list[index := EntryAt(msg0, index)], index + 1)
  {
  }

  /** The entry at position iter of the message, of which the attribute is cut up. */
  method TakeEntry(msg: array<string>, iter: nat) returns (e: Ecc)
    requires iter < msg.Length && (iter + 1 < msg.Length ==> TwoFields(msg[iter + 1]))
    modifies msg
    ensures e.number == old(msg[iter])
    ensures iter + 1 < msg.Length ==> e.category == Category(old(msg[iter + 1])) && e.condition == Condition(old(msg[iter + 1]))
    ensures iter + 1 < msg.Length ==> msg[..] == old(msg[..])[iter + 1 := Cut(old(msg[iter + 1]))]
    ensures iter + 1 >= msg.Length ==> e.category == e.condition == 0 && msg[..] == old(msg[..])
  {
    e := Ecc(msg[iter], 0, 0);
    if iter + 1 < msg.Length {
      var category, condition, left := SplitAttribute(msg[iter + 1]);
      e := e.(category := category, condition := condition);
      msg[iter + 1] := left;
    }
  }

  /** One turn of the loop; iter is 2 * index, the position of the number. */
  method DecodeOne(msg: array<string>, list: array<Ecc>, iter: nat, index: nat, ghost msg0: seq<string>)
    requires iter == 2 * index < |msg0| && index < MAX_ECC_LIST_SIZE && DecodedTo(msg0, msg[..], list[..], index)
    modifies msg, list
    ensures DecodedTo(msg0, msg[..], list[..], index + 1)
  {
    ghost var m, l := msg[..], list[..];
    DecodedNext(msg0, m, l, index);
    assert msg[iter] == m[iter] == msg0[iter];
    assert iter + 1 < msg.Length ==> msg[iter + 1] == m[iter + 1] == msg0[2 * index + 1] && TwoFields(msg0[2 * index + 1]);
    var e := TakeEntry(msg, iter);
    list[index] := e;
    assert list[..] == l[index := e];
  }

  lemma DecodedAll(msg0: seq<string>, msg: seq<string>, list: seq<Ecc>, index: nat)
    requires DecodedTo(msg0, msg, list, index) && (index < MAX_ECC_LIST_SIZE ==> |msg0| <= 2 * index)
    ensures list[..index] == Decoded(msg0, MAX_ECC_LIST_SIZE)
    ensures msg == AfterDecode(msg0, MAX_ECC_LIST_SIZE)
  {
    AfterDecodeEnds(msg0, index, MAX_ECC_LIST_SIZE);
    EntriesIn(|msg0|, index);
    var all := Decoded(msg0, MAX_ECC_LIST_SIZE);
    forall k | 0 <= k < index ensures list[k] == all[k] {
      assert all[k] == EntryAt(msg0, k);
    }
  }

  lemma EntriesIn(length: nat, index: nat)
    requires 2 * index <= length + 1 && index <= MAX_ECC_LIST_SIZE && (index < MAX_ECC_LIST_SIZE ==> length <= 2 * index)
    ensures Min((length + 1) / 2, MAX_ECC_LIST_SIZE) == index
  {
  }

  /** The loop that both signal handlers share. */
  method DecodeAll(msg: array<string>, list: array<Ecc>, ghost msg0: seq<string>) returns (index: nat)
    requires DecodedTo(msg0, msg[..], list[..], 0)
    modifies msg, list
    ensures DecodedTo(msg0, msg[..], list[..], index) && (index < MAX_ECC_LIST_SIZE ==> |msg0| <= 2 * index)
  {
    index := 0;
    var iter := 0;
    while iter < msg.Length
      invariant iter == 2 * index && index < MAX_ECC_LIST_SIZE
      invariant DecodedTo(msg0, msg[..], list[..], index)
      decreases msg.Length - iter
    {
      DecodeOne(msg, list, iter, index, msg0);
      index := index + 1;
      if index >= MAX_ECC_LIST_SIZE {
        return;
      }
      iter := iter + 2;
    }
  }

  /** Fills `list` from the front and leaves the attributes in the message cut up. */
  method DecodeSignal(msg: array<string>, list: array<Ecc>) returns (index: nat)
    requires list.Length == MAX_ECC_LIST_SIZE
    requires forall k :: 0 <= k < list.Length ==> list[k] == NO_ECC
    requires Readable(msg[..], MAX_ECC_LIST_SIZE)
    modifies msg, list
    ensures index <= list.Length && list[..index] == old(Decoded(msg[..], MAX_ECC_LIST_SIZE))
    ensures msg[..] == AfterDecode(old(msg[..]), MAX_ECC_LIST_SIZE)
  {
    ghost var msg0 := msg[..];
    index := DecodeAll(msg, list, msg0);
    DecodedAll(msg0, msg[..], list[..], index);
    assert list[..][..index] == list[..index];
  }

  /** `tapi_call_property_change`: the list handed to the callback, if it is called. */
  method CallPropertyChange(msgId: int, key: Option<string>, msg: array<string>) returns (ind: Option<seq<Ecc>>)
    requires Readable(msg[..], MAX_ECC_LIST_SIZE)
    modifies msg
    ensures var decodes := msgId == MSG_ECC_LIST_CHANGE_IND && key == Some("EmergencyNumbers");
      && ind == (if decodes then Some(old(Decoded(msg[..], MAX_ECC_LIST_SIZE))) else None)
      && msg[..] == (if decodes then AfterDecode(old(msg[..]), MAX_ECC_LIST_SIZE) else old(msg[..]))
  {
    var list := new Ecc[MAX_ECC_LIST_SIZE](_ => NO_ECC);
    if key == None {
      return None;
    }
    ind := None;
    if msgId == MSG_ECC_LIST_CHANGE_IND && key.value == "EmergencyNumbers" {
      var index := DecodeSignal(msg, list);
      ind := Some(list[..index]);
    }
  }

  /** `modem_ecc_list_change`: sets the message id itself and looks only at the key. */
  method ModemEccListChange(msgId: int, key: Option<string>, msg: array<string>)
    returns (newMsgId: int, ind: Option<seq<Ecc>>)
    requires Readable(msg[..], MAX_ECC_LIST_SIZE)
    modifies msg
    ensures newMsgId == MSG_ECC_LIST_CHANGE_IND
    ensures var decodes := key == Some("EmergencyNumbers");
      && ind == (if decodes then Some(old(Decoded(msg[..], MAX_ECC_LIST_SIZE))) else None)
      && msg[..] == (if decodes then AfterDecode(old(msg[..]), MAX_ECC_LIST_SIZE) else old(msg[..]))
  {
    var list := new Ecc[MAX_ECC_LIST_SIZE](_ => NO_ECC);
    newMsgId := MSG_ECC_LIST_CHANGE_IND;
    if key == None {
      return newMsgId, None;
    }
    ind := None;
    if key.value == "EmergencyNumbers" {
      var index := DecodeSignal(msg, list);
      ind := Some(list[..index]);
    }
  }

  /** A second watcher of the same message can read it if and only if it holds no attribute. */
  lemma ReadableAgainIff(msg: seq<string>, cap: nat)
    requires Readable(msg, cap)
    ensures Readable(AfterDecode(msg, cap), cap) <==> |msg| < 2 || cap == 0
  {
    if |msg| >= 2 && cap > 0 {
      assert TwoFields(msg[2 * 0 + 1]);
      FieldsOfCut(msg[1]);
      AttributeCut(msg, cap, 0);
      assert AfterDecode(msg, cap)[2 * 0 + 1] == Cut(msg[1]) && !TwoFields(Cut(msg[1]));
    }
  }

  // ----- encoding, and when the decoders return what was encoded -----

  function Attribute(e: Ecc): string {
    Print(e.category) + "," + Print(e.condition)
  }

  function EncodedAt(list: seq<Ecc>, k: nat): string
    requires k < 2 * |list|
  {
    if k % 2 == 0 then list[k / 2].number else Attribute(list[k / 2])
  }

  /** Numbers and attributes in turn. */
  function Encode(list: seq<Ecc>): (msg: seq<string>)
    ensures |msg| == 2 * |list|
    ensures forall k :: 0 <= k < |msg| ==> msg[k] == EncodedAt(list, k)
  {
    seq(2 * |list|, k requires 0 <= k < 2 * |list| => EncodedAt(list, k))
  }

  lemma AttributeFields(e: Ecc)
    ensures Fields(Attribute(e)) == [Print(e.category), Print(e.condition)]
    ensures TwoFields(Attribute(e))
    ensures Category(Attribute(e)) == e.category && Condition(Attribute(e)) == e.condition
  {
    AtoiOfPrint(e.category);
    AtoiOfPrint(e.condition);
    FieldsStep(Print(e.category), Print(e.condition));
    FieldsStep(Print(e.condition), "");
  }

  lemma EncodeAt(list: seq<Ecc>, k: nat)
    requires k < |list|
    ensures Encode(list)[2 * k] == list[k].number && Encode(list)[2 * k + 1] == Attribute(list[k])
  {
    Halves(k);
    var msg := Encode(list);
    assert msg[2 * k] == EncodedAt(list, 2 * k) && msg[2 * k + 1] == EncodedAt(list, 2 * k + 1);
  }

  /** Both signal decoders return the first thirty entries of any encoded list. */
  lemma DecodeOfEncode(list: seq<Ecc>, cap: nat)
    ensures Readable(Encode(list), cap)
    ensures Decoded(Encode(list), cap) == list[..Min(|list|, cap)]
  {
    forall k: nat | k < |list| ensures TwoFields(Encode(list)[2 * k + 1]) && EntryAt(Encode(list), k) == list[k] {
      EncodeAt(list, k);
      AttributeFields(list[k]);
    }
  }
}
