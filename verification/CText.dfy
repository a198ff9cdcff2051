/** Text helpers of the C library as the parsers use them: splitting at commas,
    `atoi`, and decimal printing as its inverse. */
module CText {

  // ----- splitting -----

  ghost predicate CommaFree(s: string) {
    ',' !in s
  }

  /** All fields of s between commas, empty ones included. */
  function Split(s: string): (fields: seq<string>)
    ensures fields != []
  {
    if s == [] then [""]
    else
      var rest := Split(s[1..]);
      if s[0] == ',' then [""] + rest
      else [[s[0]] + rest[0]] + rest[1..]
  }

  function DropEmpty(fields: seq<string>): seq<string> {
    if fields == [] then []
    else if fields[0] == "" then DropEmpty(fields[1..])
    else [fields[0]] + DropEmpty(fields[1..])
  }

  /** The fields that repeated `strtok(_, ",")` returns (ISO C11 section 7.24.5.8). */
  function Fields(s: string): seq<string> {
    DropEmpty(Split(s))
  }

  function Join(fields: seq<string>): string {
    if fields == [] then ""
    else if |fields| == 1 then fields[0]
    else fields[0] + "," + Join(fields[1..])
  }

  lemma {:induction false} SplitLastField(s: string)
    requires CommaFree(s)
    ensures Split(s) == [s]
  {
    if s != [] {
      SplitLastField(s[1..]);
      assert [s[0]] + s[1..] == s;
    }
  }

  lemma {:induction false} SplitFirstField(f: string, s: string)
    requires CommaFree(f)
    ensures Split(f + "," + s) == [f] + Split(s)
  {
    if f == [] {
      assert (f + "," + s)[1..] == s;
    } else {
      SplitFirstField(f[1..], s);
      assert (f + "," + s)[1..] == f[1..] + "," + s;
      assert (f + "," + s)[0] == f[0];
      assert [f[0]] + f[1..] == f;
    }
  }

  lemma FieldsSkipComma(s: string)
    requires s != [] && s[0] == ','
    ensures Fields(s) == Fields(s[1..])
  {
    assert Split(s) == [""] + Split(s[1..]);
  }

  lemma FieldsStep(f: string, s: string)
    requires CommaFree(f) && f != ""
    ensures Fields(f + "," + s) == [f] + Fields(s)
    ensures Fields(f) == [f]
  {
    SplitFirstField(f, s);
    SplitLastField(f);
    assert DropEmpty([f]) == [f] + DropEmpty([]);
  }

  /** Splitting undoes joining for fields that are non-empty and hold no comma. */
  lemma {:induction false} FieldsOfJoin(fields: seq<string>)
    requires forall f :: f in fields ==> f != "" && CommaFree(f)
    ensures Fields(Join(fields)) == fields
  {
    if |fields| == 0 {
      assert Split("") == [""];
    } else if |fields| == 1 {
      FieldsStep(fields[0], "");
    } else {
      assert forall f :: f in fields[1..] ==> f in fields;
      FieldsOfJoin(fields[1..]);
      FieldsStep(fields[0], Join(fields[1..]));
    }
  }

  // ----- numbers -----

  predicate IsDigit(c: char) {
    '0' <= c <= '9'
  }

  predicate IsSpace(c: char) {
    c == ' ' || '\t' <= c <= '\r'
  }

  ghost predicate AllDigits(s: string) {
    forall k :: 0 <= k < |s| ==> IsDigit(s[k])
  }

  function DigitValue(c: char): nat
    requires IsDigit(c)
  {
    c as int - '0' as int
  }

  /** Folds the leading digits of s into acc. */
  function DigitsValue(s: string, acc: nat): nat {
    if s == [] || !IsDigit(s[0]) then acc
    else DigitsValue(s[1..], 10 * acc + DigitValue(s[0]))
  }

  function SkipSpace(s: string): string {
    if s != [] && IsSpace(s[0]) then SkipSpace(s[1..]) else s
  }

  /** `atoi` on the mathematical integers (ISO C11 section 7.22.1.2): white space, a sign, digits. */
  function Atoi(s: string): int {
    var t := SkipSpace(s);
    if t != [] && t[0] == '-' then 0 - DigitsValue(t[1..], 0)
    else if t != [] && t[0] == '+' then DigitsValue(t[1..], 0)
    else DigitsValue(t, 0)
  }

  function DigitChar(d: nat): (c: char)
    requires d < 10
    ensures IsDigit(c) && DigitValue(c) == d
  {
    '0' + d as char
  }

  function PrintNat(n: nat): (s: string)
    ensures s != "" && AllDigits(s)
  {
    if n < 10 then [DigitChar(n)]
    else PrintNat(n / 10) + [DigitChar(n % 10)]
  }

  function Print(n: int): string {
    if n < 0 then "-" + PrintNat(-n) else PrintNat(n)
  }

  lemma {:induction false} DigitsValueAppend(a: string, b: string, acc: nat)
    requires AllDigits(a)
    ensures DigitsValue(a + b, acc) == DigitsValue(b, DigitsValue(a, acc))
  {
    if a == [] {
      assert a + b == b;
    } else {
      assert (a + b)[1..] == a[1..] + b;
      DigitsValueAppend(a[1..], b, 10 * acc + DigitValue(a[0]));
    }
  }

  lemma {:induction false} DigitsValueOfPrint(n: nat)
    ensures DigitsValue(PrintNat(n), 0) == n
  {
    if n < 10 {
      assert DigitsValue(PrintNat(n), 0) == DigitsValue(PrintNat(n)[1..], n);
    } else {
      DigitsValueOfPrint(n / 10);
      var last := [DigitChar(n % 10)];
      DigitsValueAppend(PrintNat(n / 10), last, 0);
      assert DigitsValue(last, n / 10) == DigitsValue(last[1..], 10 * (n / 10) + n % 10);
    }
  }

  /** `atoi` reads back what was printed, for every integer. */
  lemma AtoiOfPrint(n: int)
    ensures Atoi(Print(n)) == n
    ensures Print(n) != "" && CommaFree(Print(n))
    ensures forall k :: 0 <= k < |Print(n)| ==> Print(n)[k] != '\0'
  {
    var m := if n < 0 then -n else n;
    DigitsValueOfPrint(m);
    assert IsDigit(PrintNat(m)[0]);
    assert SkipSpace(Print(n)) == Print(n);
    if n < 0 {
      assert Print(n)[1..] == PrintNat(m);
    }
  }
}
