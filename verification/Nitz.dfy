/** `parse_nitz`: the network time string becomes the eight integers of `tapi_network_time`. */
module Nitz {
  import opened Basics
  import opened CText
  import opened Strtok

  // sec, min, hour, mday, mon, year, dst, utcoff
  const TIME_FIELDS: nat := 8

  function ParseInts(fields: seq<string>): (values: seq<int>)
    ensures |values| == |fields|
    ensures forall k :: 0 <= k < |fields| ==> values[k] == Atoi(fields[k])
  {
    if fields == [] then [] else [Atoi(fields[0])] + ParseInts(fields[1..])
  }

  function PrintInts(values: seq<int>): (fields: seq<string>)
    ensures |fields| == |values|
    ensures forall k :: 0 <= k < |values| ==> fields[k] == Print(values[k])
  {
    if values == [] then [] else [Print(values[0])] + PrintInts(values[1..])
  }

  /** Memory with values written from at on. */
  function Placed(values: seq<int>, memory: seq<int>, at: nat): (r: seq<int>)
    requires at + |values| <= |memory|
    ensures |r| == |memory|
    ensures forall k :: 0 <= k < |r| ==> r[k] == if at <= k < at + |values| then values[k - at] else memory[k]
  {
    memory[..at] + values + memory[at + |values|..]
  }

  /** Memory after parsing: token k is in the int at + k, all others are as before. */
  function Parsed(str: string, memory: seq<int>, at: nat): seq<int>
    requires at + |Fields(str)| <= |memory|
  {
    Placed(ParseInts(Fields(str)), memory, at)
  }

  /** The tokens not yet stored: the current one and those that `strtok` will still find. */
  ghost function Ahead(t: Tokenizer, pch: int): seq<string>
    requires t.Valid() && -1 <= pch < t.buf.Length
    reads t, t.buf
  {
    if pch == -1 then [] else [UpToNul(t.buf[pch..])] + Fields(t.rest)
  }

  lemma PlacedNext(values: seq<int>, memory: seq<int>, at: nat, k: nat)
    requires k < |values| && at + |values| <= |memory|
    ensures Placed(values[..k], memory, at)[at + k := values[k]] == Placed(values[..k + 1], memory, at)
  {
  }

  /** Before token k of the text is stored, the tokens from k on are ahead. */
  ghost predicate Stored(t: Tokenizer, pch: int, info: array<int>, all: seq<string>, k: nat, memory: seq<int>, at: nat)
    reads t, t.buf, info
  {
    && t.Valid() && -1 <= pch < t.buf.Length
    && k <= |all| && at + |all| <= |memory|
    && Ahead(t, pch) == all[k..]
    && info[..] == Placed(ParseInts(all)[..k], memory, at)
  }

  /** One turn of the loop. */
  method StoreToken(t: Tokenizer, pch: nat, info: array<int>, p: nat,
      ghost all: seq<string>, ghost k: nat, ghost memory: seq<int>, ghost at: nat)
    returns (next: int)
    requires p == at + k && Stored(t, pch, info, all, k, memory, at)
    modifies t, t.buf, info
    ensures Stored(t, next, info, all, k + 1, memory, at)
    ensures next >= 0 ==> |t.rest| < old(|t.rest|)
  {
    assert all[k..][0] == all[k] && all[k..][1..] == all[k + 1..];
    PlacedNext(ParseInts(all), memory, at, k);
    info[p] := Atoi(UpToNul(t.buf[pch..]));
    next := t.Next();
  }

  /** Walks a pointer over the ints that start at info[at]; nothing stops it at the end of
      the struct, so the memory has to reach as far as there are fields. */
  method ParseInto(str: string, info: array<int>, at: nat)
    requires '\0' !in str && at + |Fields(str)| <= info.Length
    modifies info
    ensures info[..] == Parsed(str, old(info[..]), at)
  {
    ghost var all, memory := Fields(str), info[..];
    var orig := new Tokenizer(str);
    var p, index := at, 0;
    var pch := orig.Next();
    assert info[..] == Placed(ParseInts(all)[..0], memory, at);
    while pch != -1
      invariant fresh(orig) && fresh(orig.buf) && p == at + index
      invariant Stored(orig, pch, info, all, index, memory, at)
      decreases if pch >= 0 then 1 + |orig.rest| else 0
    {
      pch := StoreToken(orig, pch, info, p, all, index, memory, at);
      p, index := p + 1, index + 1;
    }
    assert ParseInts(all)[..index] == ParseInts(all);
  }

  /** `parse_nitz` */
  method ParseNitz(str: Option<string>, info: array?<int>, at: nat)
    requires str.Some? ==> '\0' !in str.value
    requires str.Some? && info != null ==> at + |Fields(str.value)| <= info.Length
    modifies if info != null then {info} else {}
    ensures info != null ==> info[..] == if str.Some? then Parsed(str.value, old(info[..]), at) else old(info[..])
  {
    if str == None {
      return;
    }
    if info == null {
      return;
    }
    ParseInto(str.value, info, at);
  }

  ghost predicate StaysInside(str: string, memory: seq<int>, at: nat)
    requires at + |Fields(str)| <= |memory|
  {
    forall k :: at + TIME_FIELDS <= k < |memory| ==> Parsed(str, memory, at)[k] == memory[k]
  }

  /** Nothing beyond the eight ints of the struct is ever changed, whatever lies there, if
      and only if the text has at most eight fields. */
  lemma StaysInsideIffEightFields(str: string, at: nat)
    ensures (forall memory: seq<int> | at + |Fields(str)| <= |memory| :: StaysInside(str, memory, at))
            <==> |Fields(str)| <= TIME_FIELDS
  {
    var fields := Fields(str);
    if |fields| > TIME_FIELDS {
      var memory := OtherMemory(at + |fields|, Atoi(fields[TIME_FIELDS]) + 1);
      assert Parsed(str, memory, at)[at + TIME_FIELDS] != memory[at + TIME_FIELDS];
      assert !StaysInside(str, memory, at);
    }
  }

  function OtherMemory(n: nat, value: int): (memory: seq<int>)
    ensures |memory| == n && forall k :: 0 <= k < n ==> memory[k] == value
  {
    seq(n, _ => value)
  }

  /** Parsing the comma-separated print of any integers gives them back; with eight of
      them every field of the struct is set and no field beyond it is touched. */
  lemma ParseOfPrint(values: seq<int>)
    ensures ParseInts(Fields(Join(PrintInts(values)))) == values
    ensures '\0' !in Join(PrintInts(values))
    ensures |Fields(Join(PrintInts(values)))| == |values|
  {
    var fields := PrintInts(values);
    forall k | 0 <= k < |values|
      ensures Atoi(fields[k]) == values[k] && fields[k] != "" && CommaFree(fields[k]) && '\0' !in fields[k]
    {
      AtoiOfPrint(values[k]);
    }
    FieldsOfJoin(fields);
    JoinNulFree(fields);
  }

  lemma {:induction false} JoinNulFree(fields: seq<string>)
    requires forall f :: f in fields ==> '\0' !in f
    ensures '\0' !in Join(fields)
  {
    if |fields| > 1 {
      assert forall f :: f in fields[1..] ==> f in fields;
      JoinNulFree(fields[1..]);
    }
  }
}
