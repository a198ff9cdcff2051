/** `hex_string_to_byte_array`: Base 16 (section 8 of RFC 4648), lower case also accepted.
    Characters and bytes are 8-bit words, so folding, masking and shifting are the machine's. */
module Hex {
  import opened Basics

  type Byte = bv8
  type Text = seq<bv8>  // the characters before the terminating NUL

  predicate IsUpper(c: Byte) { 0x41 <= c <= 0x46 }  // 'A'..'F'
  predicate IsLower(c: Byte) { 0x61 <= c <= 0x66 }  // 'a'..'f'
  predicate IsDecimal(c: Byte) { 0x30 <= c <= 0x39 }  // '0'..'9'
  predicate IsHex(c: Byte) { IsUpper(c) || IsLower(c) || IsDecimal(c) }

  /** The value of a hex digit by the alphabet of RFC 4648, table 5. */
  function Value(c: Byte): (v: Byte)
    requires IsHex(c)
    ensures v < 16
  {
    if IsUpper(c) then c - 0x37 else if IsLower(c) then c - 0x57 else c - 0x30
  }

  function Digit(v: Byte, upper: bool): (c: Byte)
    requires v < 16
    ensures IsHex(c) && Value(c) == v
  {
    if v < 10 then 0x30 + v else if upper then 0x37 + v else 0x57 + v
  }

  ghost predicate AllHex(s: Text) {
    forall k :: 0 <= k < |s| ==> IsHex(s[k])
  }

  predicate HexPair(s: Text, j: nat)
    requires 2 * j + 1 < |s|
  {
    IsHex(s[2 * j]) && IsHex(s[2 * j + 1])
  }

  /** The byte of the j-th pair of digits. */
  function PairValue(s: Text, j: nat): Byte
    requires 2 * j + 1 < |s| && HexPair(s, j)
  {
    16 * Value(s[2 * j]) + Value(s[2 * j + 1])
  }

  lemma PairShift(s: Text, j: nat)
    requires |s| >= 2 && 2 * j + 1 < |s| - 2
    ensures HexPair(s[2..], j) == HexPair(s, j + 1)
    ensures HexPair(s, j + 1) ==> PairValue(s[2..], j) == PairValue(s, j + 1)
  {
    assert s[2..][2 * j] == s[2 * (j + 1)] && s[2..][2 * j + 1] == s[2 * (j + 1) + 1];
  }

  /** The byte sequence that an even-length, all-hex text stands for. */
  function Decode(s: Text): (bytes: seq<Byte>)
    requires |s| % 2 == 0 && AllHex(s)
    ensures |bytes| == |s| / 2
  {
    if s == [] then [] else [PairValue(s, 0)] + Decode(s[2..])
  }

  lemma {:induction false} PairDecoded(s: Text, j: nat)
    requires AllHex(s) && |s| % 2 == 0 && j < |s| / 2
    ensures HexPair(s, j) && Decode(s)[j] == PairValue(s, j)
    decreases j
  {
    if j > 0 {
      PairDecoded(s[2..], j - 1);
      PairShift(s, j - 1);
    }
  }

  function High(b: Byte): (v: Byte) ensures v < 16 { b / 16 }
  function Low(b: Byte): (v: Byte) ensures v < 16 { b % 16 }

  function Encode(bytes: seq<Byte>, upper: bool): (s: Text)
    ensures |s| == 2 * |bytes| && AllHex(s)
  {
    seq(2 * |bytes|, k requires 0 <= k < 2 * |bytes| =>
      Digit(if k % 2 == 0 then High(bytes[k / 2]) else Low(bytes[k / 2]), upper))
  }

  lemma JoinNibbles(b: Byte)
    ensures 16 * High(b) + Low(b) == b
  {
  }

  lemma EncodeAt(bytes: seq<Byte>, upper: bool, j: nat)
    requires j < |bytes|
    ensures Value(Encode(bytes, upper)[2 * j]) == High(bytes[j])
    ensures Value(Encode(bytes, upper)[2 * j + 1]) == Low(bytes[j])
  {
    assert (2 * j) / 2 == j && (2 * j + 1) / 2 == j;
  }

  /** Decoding inverts both printings of every byte sequence. */
  lemma DecodeEncode(bytes: seq<Byte>, upper: bool)
    ensures Decode(Encode(bytes, upper)) == bytes
  {
    var decoded := Decode(Encode(bytes, upper));
    forall j | 0 <= j < |bytes| ensures decoded[j] == bytes[j] {
      DecodedAt(bytes, upper, j);
    }
  }

  lemma DecodedAt(bytes: seq<Byte>, upper: bool, j: nat)
    requires j < |bytes|
    ensures Decode(Encode(bytes, upper))[j] == bytes[j]
  {
    EncodeAt(bytes, upper, j);
    JoinNibbles(bytes[j]);
    PairDecoded(Encode(bytes, upper), j);
  }

  function Fold(c: Byte): Byte { if IsLower(c) then c & !0x20 else c }

  /** Case folding, masking and shifting compute the value of a digit. */
  lemma FoldedValue(c: Byte)
    requires IsHex(c)
    ensures !IsLower(Fold(c)) && IsHex(Fold(c))
    ensures IsUpper(Fold(c)) ==> Fold(c) - 0x41 + 10 == Value(c)
    ensures IsDecimal(Fold(c)) ==> Fold(c) & !0x30 == Value(c)
  {
  }

  lemma FoldKeepsNonHex(c: Byte)
    requires !IsHex(c)
    ensures !IsHex(Fold(c))
  {
  }

  lemma CombineNibbles(hi: Byte, lo: Byte)
    requires hi < 16 && lo < 16
    ensures (hi << 4) | lo == 16 * hi + lo
  {
  }

  ghost predicate Fits(s: Text, arrLen: int) {
    s != [] && |s| % 2 == 0 && |s| <= arrLen * 2
  }

  /** Makes the character at i upper case in place. */
  method FoldAt(str: array<Byte>, i: nat)
    requires i < str.Length
    modifies str
    ensures forall k :: 0 <= k < str.Length && k != i ==> str[k] == old(str[k])
    ensures IsHex(str[i]) <==> old(IsHex(str[i]))
    ensures !IsLower(str[i])
    ensures IsUpper(str[i]) ==> str[i] - 0x41 + 10 == old(Value(str[i]))
    ensures IsDecimal(str[i]) ==> str[i] & !0x30 == old(Value(str[i]))
  {
    ghost var c := str[i];
    if IsLower(str[i]) {
      str[i] := str[i] & !0x20;
    }
    assert str[i] == Fold(c);
    if IsHex(c) {
      FoldedValue(c);
    } else {
      FoldKeepsNonHex(c);
    }
  }

  /** One turn of the loop: folds both characters of str in place, then writes their byte. */
  method ConvertPair(str: array<Byte>, byteArr: array<Byte>, j: nat) returns (ok: bool)
    requires str != byteArr && 2 * j + 1 < str.Length && j < byteArr.Length
    modifies str, byteArr
    ensures ok <==> old(HexPair(str[..], j))
    ensures ok ==> byteArr[j] == old(PairValue(str[..], j))
    ensures forall k :: 0 <= k < byteArr.Length && k != j ==> byteArr[k] == old(byteArr[k])
    ensures forall k :: 0 <= k < str.Length && k != 2 * j && k != 2 * j + 1 ==> str[k] == old(str[k])
  {
    var i := 2 * j;
    ghost var c, d := str[i], str[i + 1];
    FoldAt(str, i);
    FoldAt(str, i + 1);
    if IsUpper(str[i]) {
      byteArr[j] := (str[i] - 0x41 + 10) << 4;
    } else if IsDecimal(str[i]) {
      byteArr[j] := (str[i] & !0x30) << 4;
    } else {
      return false;
    }
    assert byteArr[j] == Value(c) << 4;
    if IsUpper(str[i + 1]) {
      byteArr[j] := byteArr[j] | (str[i + 1] - 0x41 + 10);
    } else if IsDecimal(str[i + 1]) {
      byteArr[j] := byteArr[j] | (str[i + 1] & !0x30);
    } else {
      return false;
    }
    CombineNibbles(Value(c), Value(d));
    return true;
  }

  /** The first j pairs are converted, and the rest of text and array is as it was. */
  ghost predicate Converted(s: Text, str: array<Byte>, byteArr: array<Byte>, bytes: seq<Byte>, j: nat)
    reads str, byteArr
  {
    && str.Length == |s| && byteArr.Length == |bytes| && 2 * j <= |s| <= 2 * |bytes| && |s| % 2 == 0
    && (forall k :: 2 * j <= k < |s| ==> str[k] == s[k])
    && (forall k :: 0 <= k < j ==> HexPair(s, k) && byteArr[k] == PairValue(s, k))
    && (forall k :: j <= k < |bytes| ==> byteArr[k] == bytes[k])
  }

  /** The pairs before bad are converted, bad is no hex pair, and what lies behind its byte
      is as it was. */
  ghost predicate StoppedAt(s: Text, now: seq<Byte>, bytes: seq<Byte>, bad: nat) {
    && 2 * bad + 1 < |s| && bad < |now| == |bytes| && !HexPair(s, bad)
    && (forall k :: 0 <= k < bad ==> HexPair(s, k) && now[k] == PairValue(s, k))
    && (forall k :: bad < k < |bytes| ==> now[k] == bytes[k])
  }

  lemma AllPairs(s: Text)
    requires |s| % 2 == 0
    ensures AllHex(s) <==> forall k :: 0 <= k < |s| / 2 ==> HexPair(s, k)
  {
    if forall k :: 0 <= k < |s| / 2 ==> HexPair(s, k) {
      forall k | 0 <= k < |s| ensures IsHex(s[k]) {
        assert HexPair(s, k / 2);
      }
    }
  }

  /** The loop; bad is the pair at which it stopped, if it did. */
  method ConvertAll(str: array<Byte>, byteArr: array<Byte>, ghost s: Text) returns (ok: bool, ghost bad: nat)
    requires str != byteArr && Converted(s, str, byteArr, byteArr[..], 0)
    modifies str, byteArr
    ensures ok ==> Converted(s, str, byteArr, old(byteArr[..]), |s| / 2)
    ensures !ok ==> StoppedAt(s, byteArr[..], old(byteArr[..]), bad)
  {
    ghost var bytes := byteArr[..];
    var i, j := 0, 0;
    bad := 0;
    while i < str.Length
      invariant i == 2 * j && Converted(s, str, byteArr, bytes, j)
    {
      ok := ConvertPair(str, byteArr, j);
      if !ok {
        bad := j;
        return;
      }
      i, j := i + 2, j + 1;
    }
    ok := true;
  }

  /** The text is None for a null pointer. `kept` tells that the duplicate was never freed. */
  method HexStringToByteArray(hexStr: Option<Text>, byteArr: array<Byte>, arrLen: int) returns (ret: int, kept: bool)
    requires arrLen <= byteArr.Length
    modifies byteArr
    ensures ret == 0 || ret == -EINVAL
    ensures ret == 0 <==> hexStr.Some? && Fits(hexStr.value, arrLen) && AllHex(hexStr.value)
    ensures ret == 0 ==> byteArr[..] == Decode(hexStr.value) + old(byteArr[|hexStr.value| / 2..])
    ensures kept <==> hexStr.Some? && Fits(hexStr.value, arrLen) && !AllHex(hexStr.value)
    ensures ret != 0 && !kept ==> byteArr[..] == old(byteArr[..])
    ensures kept ==> exists bad: nat :: StoppedAt(hexStr.value, byteArr[..], old(byteArr[..]), bad)
  {
    if hexStr == None {
      return -EINVAL, false;
    }
    var len := |hexStr.value|;
    if len == 0 || len % 2 != 0 || len > arrLen * 2 {
      return -EINVAL, false;
    }
    var str := new Byte[len](i requires 0 <= i < |hexStr.value| => hexStr.value[i]);
    ghost var bytes := byteArr[..];
    ghost var bad;
    var ok;
    ok, bad := ConvertAll(str, byteArr, hexStr.value);
    AllPairs(hexStr.value);
    if !ok {
      return -EINVAL, true;
    }
    ConvertedIsDecoded(hexStr.value, byteArr[..], bytes);
    return 0, false;
  }

  lemma FrontAndBack(now: seq<Byte>, front: seq<Byte>, was: seq<Byte>)
    requires |front| <= |now| == |was|
    requires forall k :: 0 <= k < |front| ==> now[k] == front[k]
    requires forall k :: |front| <= k < |was| ==> now[k] == was[k]
    ensures now == front + was[|front|..]
  {
  }

  lemma ConvertedIsDecoded(s: Text, now: seq<Byte>, bytes: seq<Byte>)
    requires AllHex(s) && |s| % 2 == 0 && |s| / 2 <= |now| == |bytes|
    requires forall k :: 0 <= k < |s| / 2 ==> HexPair(s, k) && now[k] == PairValue(s, k)
    requires forall k :: |s| / 2 <= k < |bytes| ==> now[k] == bytes[k]
    ensures now == Decode(s) + bytes[|s| / 2..]
  {
    forall k | 0 <= k < |s| / 2 ensures now[k] == Decode(s)[k] {
      PairDecoded(s, k);
    }
    FrontAndBack(now, Decode(s), bytes);
  }

  /** c is a digit of value v: 0 to 9, A to F or a to f. */
  predicate IsDigitOf(c: Byte, v: Byte) {
    if v < 10 then c == 0x30 + v else v < 16 && (c == 0x41 + (v - 10) || c == 0x61 + (v - 10))
  }

  lemma DigitHasValue(c: Byte, v: Byte)
    requires IsDigitOf(c, v)
    ensures IsHex(c) && Value(c) == v
  {
  }

  ghost predicate IsDigitChar(c: Byte) {
    exists v: Byte :: IsDigitOf(c, v)
  }

  lemma HexIsDigit(c: Byte)
    ensures IsHex(c) <==> IsDigitChar(c)
  {
    if IsHex(c) {
      assert IsDigitOf(c, Value(c));
    }
    if IsDigitChar(c) {
      var v: Byte :| IsDigitOf(c, v);
      DigitHasValue(c, v);
    }
  }

  /** The first character of a pair is the high digit of its byte, the second the low one. */
  lemma DecodedPair(s: Text, j: nat, hi: Byte, lo: Byte)
    requires AllHex(s) && |s| % 2 == 0 && j < |s| / 2
    requires IsDigitOf(s[2 * j], hi) && IsDigitOf(s[2 * j + 1], lo)
    ensures Decode(s)[j] == 16 * hi + lo
  {
    PairDecoded(s, j);
    DigitHasValue(s[2 * j], hi);
    DigitHasValue(s[2 * j + 1], lo);
  }

  /** Which texts are decoded at all: those made of digit pairs for which there is room. */
  lemma DecodedTexts(s: Text, arrLen: int)
    ensures Fits(s, arrLen) <==> 0 < |s| <= 2 * arrLen && |s| % 2 == 0
    ensures AllHex(s) <==> forall k :: 0 <= k < |s| ==> IsDigitChar(s[k])
  {
    forall k | 0 <= k < |s| ensures IsHex(s[k]) <==> IsDigitChar(s[k]) {
      HexIsDigit(s[k]);
    }
  }
}
