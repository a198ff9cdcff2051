/** `strtok` with "," on a NUL-terminated buffer that it cuts up in place. */
module Strtok {
  import opened Basics
  import opened CText

  /** The C string that starts at the first character of s. */
  function UpToNul(s: seq<char>): string {
    if s == [] || s[0] == '\0' then [] else [s[0]] + UpToNul(s[1..])
  }

  lemma {:induction false} UpToNulOf(s: string, tail: seq<char>)
    requires '\0' !in s
    ensures UpToNul(s + ['\0'] + tail) == s
  {
    if s != [] {
      assert (s + ['\0'] + tail)[1..] == s[1..] + ['\0'] + tail;
      UpToNulOf(s[1..], tail);
      assert [s[0]] + s[1..] == s;
    }
  }

  /** The field of length n at the front of text, and what follows its comma. */
  lemma FieldCut(text: string, n: nat)
    requires 0 < n <= |text| && CommaFree(text[..n])
    requires n < |text| ==> text[n] == ','
    ensures Fields(text) == [text[..n]] + Fields(if n < |text| then text[n + 1..] else "")
  {
    if n < |text| {
      assert text == text[..n] + "," + text[n + 1..];
      FieldsStep(text[..n], text[n + 1..]);
    } else {
      assert text == text[..n] && Split("") == [""];
      FieldsStep(text, "");
    }
  }

  lemma TokenAt(b: seq<char>, tok: nat, end: nat)
    requires tok <= end < |b| && b[end] == '\0' && '\0' !in b[tok..end]
    ensures UpToNul(b[tok..]) == b[tok..end]
  {
    assert b[tok..] == b[tok..end] + ['\0'] + b[end + 1..];
    UpToNulOf(b[tok..end], b[end + 1..]);
  }

  /** The text up to its first comma. */
  function Head(s: string): string {
    if s == [] || s[0] == ',' then [] else [s[0]] + Head(s[1..])
  }

  /** What is left of a string, read as a C string, once its second token was asked for: all
      up to the end of its first token. */
  function Cut(s: string): string {
    if s != [] && s[0] == ',' then [','] + Cut(s[1..]) else Head(s)
  }

  lemma {:induction false} HeadIs(s: string, n: nat)
    requires n <= |s| && CommaFree(s[..n]) && (n < |s| ==> s[n] == ',')
    ensures Head(s) == s[..n]
  {
    if n > 0 {
      assert s[..n][0] == s[0] && s[..n] == [s[0]] + s[1..][..n - 1];
      HeadIs(s[1..], n - 1);
    }
  }

  lemma SliceShift(s: string, c: nat, n: nat)
    requires 0 < c <= n <= |s|
    ensures s[1..][c - 1..n - 1] == s[c..n]
  {
    forall k | 0 <= k < n - c ensures s[1..][c - 1..n - 1][k] == s[c..n][k] {
      assert s[1..][c - 1 + k] == s[c + k];
    }
  }

  lemma {:induction false} CutIs(s: string, c: nat, n: nat)
    requires c <= n <= |s| && c < |s| && s[c] != ',' && CommaFree(s[c..n]) && (n < |s| ==> s[n] == ',')
    requires forall k :: 0 <= k < c ==> s[k] == ','
    ensures Cut(s) == s[..n]
  {
    if c > 0 {
      SliceShift(s, c, n);
      CutIs(s[1..], c - 1, n - 1);
      SliceShift(s, 1, n);
      assert s[..n] == [s[0]] + s[1..n];
    } else {
      assert s[c..n] == s[..n];
      HeadIs(s, n);
    }
  }

  lemma {:induction false} HeadEnds(s: string)
    ensures |Head(s)| <= |s| && Head(s) == s[..|Head(s)|] && CommaFree(Head(s))
    ensures |Head(s)| < |s| ==> s[|Head(s)|] == ','
  {
    if s != [] && s[0] != ',' {
      HeadEnds(s[1..]);
    }
  }

  /** A cut string has only its first field left. */
  lemma {:induction false} FieldsOfCut(s: string)
    requires Fields(s) != []
    ensures Fields(Cut(s)) == [Fields(s)[0]]
  {
    assert Split("") == [""];
    if s != [] && s[0] == ',' {
      FieldsSkipComma(s);
      FieldsOfCut(s[1..]);
      FieldsSkipComma(Cut(s));
      assert Cut(s)[1..] == Cut(s[1..]);
    } else {
      HeadEnds(s);
      FieldCut(s, |Head(s)|);
      FieldsStep(Head(s), "");
    }
  }

  class Tokenizer {
    const buf: array<char>
    var next: nat           // where the next search starts
    ghost var rest: string  // the text from there to the terminating NUL

    ghost predicate Valid()
      reads this, buf
    {
      && next + |rest| < buf.Length
      && (forall k :: 0 <= k < |rest| ==> buf[next + k] == rest[k])
      && buf[next + |rest|] == '\0'
      && '\0' !in rest
    }

    /** `strdup` of s, ready for the first `strtok`. */
    constructor (s: string)
      requires '\0' !in s
      ensures Valid() && fresh(buf) && rest == s && next == 0 && buf[..] == s + ['\0']
    {
      var b := new char[|s| + 1](i => if 0 <= i < |s| then s[i] else '\0');
      buf := b;
      next := 0;
      rest := s;
      new;
    }

    /** One call of `strtok`: the index of the next token, or -1 for a null pointer. Before
        the saved position the buffer stays as it is, and up to the token it holds commas. */
    method Next() returns (tok: int)
      requires Valid()
      modifies this, buf
      ensures Valid()
      ensures tok == -1 || 0 <= tok < buf.Length
      ensures tok == -1 ==> Fields(old(rest)) == []
      ensures tok >= 0 ==> Fields(old(rest)) == [UpToNul(buf[tok..])] + Fields(rest)
      ensures tok >= 0 ==> |rest| < |old(rest)|
      ensures forall k :: 0 <= k < old(next) ==> buf[k] == old(buf[k])
      ensures tok >= 0 ==> forall k :: 0 <= k < tok + |UpToNul(buf[tok..])| && k < buf.Length ==> buf[k] == old(buf[k])
      ensures tok >= 0 ==> old(next) <= tok && forall k :: old(next) <= k < tok ==> buf[k] == ','
      ensures tok >= 0 ==> UpToNul(buf[tok..]) != [] && CommaFree(UpToNul(buf[tok..]))
      ensures tok >= 0 && Fields(rest) != [] ==>
        var end := tok + |UpToNul(buf[tok..])|;
        end < next && buf[end] == '\0' && old(buf[..])[end] == ','
    {
      SkipCommas();
      if buf[next] == '\0' {
        assert rest == [];
        return -1;
      }
      ghost var end;
      tok, end := TakeToken();
      TokenAt(buf[..], tok, end);
      assert Split("") == [""];
    }

    /** Cuts off the field that starts at the saved position and reaches to end. */
    method TakeToken() returns (tok: nat, ghost end: nat)
      requires Valid() && buf[next] != ',' && buf[next] != '\0'
      modifies this, buf
      ensures Valid() && tok == old(next) && tok < end < buf.Length && |rest| < |old(rest)|
      ensures CommaFree(buf[tok..end]) && '\0' !in buf[tok..end] && buf[end] == '\0'
      ensures Fields(old(rest)) == [buf[tok..end]] + Fields(rest)
      ensures forall k :: 0 <= k < end ==> buf[k] == old(buf[k])
      ensures rest != "" ==> end < next && old(buf[..])[end] == ','
    {
      var at := FieldEnd();
      tok, end := next, at;
      FieldCut(rest, end - next);
      ghost var field := rest[..end - next];
      CutAt(at);
      assert buf[tok..end] == field;
    }

    /** Ends the current token at end and moves the saved position past it. */
    method CutAt(end: nat)
      requires Valid() && next <= end <= next + |rest|
      requires end < next + |rest| ==> buf[end] == ','
      modifies this, buf
      ensures Valid()
      ensures rest == if end < old(next + |rest|) then old(rest)[end + 1 - old(next)..] else ""
      ensures buf[end] == '\0' && buf[old(next)..end] == old(rest)[..end - old(next)]
      ensures forall k :: 0 <= k < end ==> buf[k] == old(buf[k])
      ensures next > end || rest == ""
      ensures rest != "" ==> old(buf[end]) == ','
    {
      ghost var n := end - next;
      ghost var field := rest[..n];
      assert forall k :: 0 <= k < n ==> field[k] == rest[k] == buf[next + k];
      if buf[end] == ',' {
        buf[end] := '\0';
        ghost var tail := rest[n + 1..];
        assert forall k :: 0 <= k < |tail| ==> tail[k] == rest[n + 1 + k] == buf[end + 1 + k];
        next, rest := end + 1, tail;
      } else {
        next, rest := end, [];
      }
    }

    method SkipCommas()
      requires Valid()
      modifies this
      ensures Valid() && |rest| <= |old(rest)|
      ensures Fields(rest) == Fields(old(rest))
      ensures buf[next] != ',' && old(next) <= next
      ensures forall k :: old(next) <= k < next ==> buf[k] == ','
    {
      while buf[next] == ','
        invariant Valid() && |rest| <= |old(rest)|
        invariant old(next) <= next && forall k :: old(next) <= k < next ==> buf[k] == ','
        invariant Fields(rest) == Fields(old(rest))
        decreases |rest|
      {
        FieldsSkipComma(rest);
        next, rest := next + 1, rest[1..];
      }
    }

    /** The index of the first comma or NUL at or after `next`. */
    method FieldEnd() returns (end: nat)
      requires Valid()
      ensures next <= end <= next + |rest|
      ensures CommaFree(rest[..end - next])
      ensures end < next + |rest| ==> rest[end - next] == buf[end] == ','
      ensures end == next + |rest| ==> buf[end] == '\0'
    {
      end := next;
      while buf[end] != ',' && buf[end] != '\0'
        invariant next <= end <= next + |rest|
        invariant CommaFree(rest[..end - next])
        decreases next + |rest| - end
      {
        assert buf[end] == rest[end - next];
        assert rest[..end + 1 - next] == rest[..end - next] + [rest[end - next]];
        end := end + 1;
      }
      assert end < next + |rest| ==> buf[end] == rest[end - next];
    }
  }
}
