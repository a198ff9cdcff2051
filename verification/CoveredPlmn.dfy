/** `get_covered_plmn`: the letters under which an operator appears in the usage log. */
module CoveredPlmn {

  type Byte = bv8
  type Text = seq<bv8>  // a C string without its terminator

  const MAX_MCC_LENGTH: nat := 3
  const MAX_MNC_LENGTH: nat := 3

  predicate IsDigit(c: Byte) { 0x30 <= c <= 0x39 }
  predicate IsLetter(c: Byte) { 0x61 <= c <= 0x6a }  // 'a'..'j'

  /** Digit k becomes letter k; on other bytes the addition wraps around. */
  function Shift(c: Byte): (d: Byte)
    ensures IsDigit(c) <==> IsLetter(d)
  {
    c - 0x30 + 0x61
  }

  function Covered(s: Text): (r: Text)
    ensures |r| == |s|
    ensures forall k :: 0 <= k < |s| ==> r[k] == Shift(s[k])
  {
    if s == [] then [] else [Shift(s[0])] + Covered(s[1..])
  }

  /** The buffer must have room for both codes and a terminator, which is not checked. */
  method GetCoveredPlmn(mcc: Text, mnc: Text, out: array<Byte>)
    requires |mcc| + |mnc| < out.Length
    modifies out
    ensures out[..] == Covered(mcc + mnc) + [0] + old(out[|mcc| + |mnc| + 1..])
  {
    ghost var all := mcc + mnc;
    var p := 0;
    for i := 0 to |mcc|
      invariant p == i
      invariant forall k :: 0 <= k < out.Length ==> out[k] == if k < p then Shift(all[k]) else old(out[k])
    {
      out[p] := mcc[i] - 0x30 + 0x61;
      p := p + 1;
    }
    for i := 0 to |mnc|
      invariant p == |mcc| + i
      invariant forall k :: 0 <= k < out.Length ==> out[k] == if k < p then Shift(all[k]) else old(out[k])
    {
      out[p] := mnc[i] - 0x30 + 0x61;
      p := p + 1;
    }
    out[p] := 0;
  }

  lemma ShiftInjective(a: Byte, b: Byte)
    ensures Shift(a) == Shift(b) <==> a == b
  {
  }

  /** Only where the MCC ends is lost: two covered codes agree exactly if the digits do. */
  lemma CoveredIff(mcc: Text, mnc: Text, mcc': Text, mnc': Text)
    ensures Covered(mcc + mnc) == Covered(mcc' + mnc') <==> mcc + mnc == mcc' + mnc'
  {
    var s, t := mcc + mnc, mcc' + mnc';
    if Covered(s) == Covered(t) {
      assert |s| == |t|;
      forall k | 0 <= k < |s| ensures s[k] == t[k] {
        assert Covered(s)[k] == Covered(t)[k];
        ShiftInjective(s[k], t[k]);
      }
    }
  }

  /** With MCCs of the same length the covered codes tell all pairs apart. */
  lemma CoveredInjective(mcc: Text, mnc: Text, mcc': Text, mnc': Text)
    requires |mcc| == |mcc'|
    ensures Covered(mcc + mnc) == Covered(mcc' + mnc') <==> mcc == mcc' && mnc == mnc'
  {
    CoveredIff(mcc, mnc, mcc', mnc');
    var s, t := mcc + mnc, mcc' + mnc';
    assert s == t ==> mcc == s[..|mcc|] == t[..|mcc|] && mnc == s[|mcc|..] == t[|mcc|..];
  }

  ghost predicate AllDigits(s: Text) {
    forall k :: 0 <= k < |s| ==> IsDigit(s[k])
  }

  /** Two different operators with the same covered code. */
  ghost predicate Collide(mcc: Text, mnc: Text, mcc': Text, mnc': Text) {
    && (mcc != mcc' || mnc != mnc')
    && Covered(mcc + mnc) == Covered(mcc' + mnc')
  }

  function Zeros(n: nat): (s: Text)
    ensures |s| == n && AllDigits(s)
  {
    if n == 0 then [] else Zeros(n - 1) + [0x30]
  }

  lemma {:induction false} ZerosAdd(m: nat, n: nat)
    ensures Zeros(m) + Zeros(n) == Zeros(m + n)
  {
    if n > 0 {
      ZerosAdd(m, n - 1);
      assert Zeros(m) + Zeros(n) == Zeros(m) + Zeros(n - 1) + [0x30];
    } else {
      assert Zeros(m) + Zeros(n) == Zeros(m);
    }
  }

  /** Operators with MCCs of given lengths collide if and only if the lengths differ. */
  lemma CollisionIffLengthsDiffer(m: nat, m': nat)
    ensures (exists mcc, mnc, mcc', mnc' ::
               && Collide(mcc, mnc, mcc', mnc')
               && |mcc| == m && |mcc'| == m'
               && AllDigits(mcc + mnc) && AllDigits(mcc' + mnc'))
            <==> m != m'
  {
    if m == m' {
      forall mcc, mnc, mcc', mnc' | |mcc| == m && |mcc'| == m' ensures !Collide(mcc, mnc, mcc', mnc') {
        CoveredInjective(mcc, mnc, mcc', mnc');
      }
    } else {
      ZerosAdd(m, m');
      ZerosAdd(m', m);
      assert Collide(Zeros(m), Zeros(m'), Zeros(m'), Zeros(m));
    }
  }

  /** The output consists of the letters a to j exactly for digit strings, and then holds no
      early terminator; with three-digit limits it fits the seven-byte buffer of the callers. */
  lemma CoveredLetters(mcc: Text, mnc: Text)
    ensures (forall c :: c in Covered(mcc + mnc) ==> IsLetter(c)) <==> (forall c :: c in mcc + mnc ==> IsDigit(c))
    ensures |mcc| <= MAX_MCC_LENGTH && |mnc| <= MAX_MNC_LENGTH ==> |Covered(mcc + mnc)| + 1 <= MAX_MCC_LENGTH + MAX_MNC_LENGTH + 1
  {
    var s := mcc + mnc;
    assert forall k :: 0 <= k < |s| ==> Covered(s)[k] in Covered(s);
  }
}
