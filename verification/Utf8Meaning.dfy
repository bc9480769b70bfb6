/** The UTF-8 check against the encoding itself, section 3 of RFC 3629. */
module Utf8Meaning {
  import opened JsonValue
  import opened Octets
  import opened SseFormat

  /** A character number: not a surrogate, and at most 0x10FFFF. */
  type Scalar = c: int | 0 <= c < 0xD800 || 0xE000 <= c < 0x11_0000

  function Encode(c: Scalar): (bytes: Bytes)
    ensures 1 <= |bytes| <= 4
  {
    if c < 0x80 then [c]
    else if c < 0x800 then [0xC0 + c / 64, 0x80 + c % 64]
    else if c < 0x1_0000 then [0xE0 + c / 4096, 0x80 + c / 64 % 64, 0x80 + c % 64]
    else [0xF0 + c / 262144, 0x80 + c / 4096 % 64, 0x80 + c / 64 % 64, 0x80 + c % 64]
  }

  function EncodeAll(cs: seq<Scalar>): Bytes {
    if cs == [] then [] else Encode(cs[0]) + EncodeAll(cs[1..])
  }

  /** One encoded character is stepped over. */
  lemma {:induction false} StepOver(s: Bytes, i: nat, c: Scalar)
    requires i + |Encode(c)| <= |s| && s[i..i + |Encode(c)|] == Encode(c)
    ensures Utf8Fault(s, i) == Utf8Fault(s, i + |Encode(c)|)
  {
    var e := Encode(c);
    assert s[i] == e[0];
    assert |e| > 1 ==> s[i + 1] == e[1];
    assert |e| > 2 ==> s[i + 2] == e[2];
    assert |e| > 3 ==> s[i + 3] == e[3];
    LeadBytes(c);
  }

  lemma {:induction false} LeadBytes(c: Scalar)
    ensures c < 0x80 ==> Encode(c)[0] < 0x80
    ensures 0x80 <= c < 0x800 ==> 0xC2 <= Encode(c)[0] < 0xE0 && Continuation(Encode(c)[1])
    ensures 0x800 <= c < 0x1_0000 ==>
              0xE0 <= Encode(c)[0] < 0xF0 && SecondOfThree(Encode(c)[0], Encode(c)[1]) && Continuation(Encode(c)[2])
    ensures 0x1_0000 <= c ==>
              && 0xF0 <= Encode(c)[0] < 0xF5 && SecondOfFour(Encode(c)[0], Encode(c)[1])
              && Continuation(Encode(c)[2]) && Continuation(Encode(c)[3])
  {
  }

  lemma {:induction false} TwoBytes(a: byte, b: byte) returns (c: Scalar)
    requires 0xC2 <= a < 0xE0 && Continuation(b)
    ensures Encode(c) == [a, b]
  {
    c := (a - 0xC0) * 64 + (b - 0x80);
    assert c / 64 == a - 0xC0 && c % 64 == b - 0x80;
  }

  lemma {:induction false} ThreeBytes(a: byte, b: byte, d: byte) returns (c: Scalar)
    requires 0xE0 <= a < 0xF0 && SecondOfThree(a, b) && Continuation(d)
    ensures Encode(c) == [a, b, d]
  {
    var n := ((a - 0xE0) * 64 + (b - 0x80)) * 64 + (d - 0x80);
    assert n / 64 == (a - 0xE0) * 64 + (b - 0x80) && n % 64 == d - 0x80;
    assert n / 4096 == a - 0xE0 && n / 64 % 64 == b - 0x80;
    c := n;
  }

  lemma {:induction false} FourBytes(a: byte, b: byte, d: byte, e: byte) returns (c: Scalar)
    requires 0xF0 <= a < 0xF5 && SecondOfFour(a, b) && Continuation(d) && Continuation(e)
    ensures Encode(c) == [a, b, d, e]
  {
    var n := (((a - 0xF0) * 64 + (b - 0x80)) * 64 + (d - 0x80)) * 64 + (e - 0x80);
    assert n / 64 == ((a - 0xF0) * 64 + (b - 0x80)) * 64 + (d - 0x80) && n % 64 == e - 0x80;
    assert n / 4096 == (a - 0xF0) * 64 + (b - 0x80) && n / 64 % 64 == d - 0x80;
    assert n / 262144 == a - 0xF0 && n / 4096 % 64 == b - 0x80;
    c := n;
  }

  /** The length of the sequence that starts at `i`, if it is one of a character. */
  ghost predicate StartsCharacter(s: Bytes, i: nat, c: Scalar) { i + |Encode(c)| <= |s| && s[i..i + |Encode(c)|] == Encode(c) }

  /** What the check accepts at a position is a character. */
  lemma {:induction false} Accepted(s: Bytes, i: nat) returns (c: Scalar)
    requires i < |s| && (Utf8Fault(s, i).None? || Utf8Fault(s, i).value.0 > i)
    ensures StartsCharacter(s, i, c)
  {
    FaultIsLater(s, i);
    if s[i] < 0x80 {
      c := s[i];
      assert s[i..i + 1] == [s[i]];
    } else if s[i] < 0xE0 {
      c := TwoBytes(s[i], s[i + 1]);
      assert s[i..i + 2] == [s[i], s[i + 1]];
    } else if s[i] < 0xF0 {
      c := ThreeBytes(s[i], s[i + 1], s[i + 2]);
      assert s[i..i + 3] == [s[i], s[i + 1], s[i + 2]];
    } else {
      c := FourBytes(s[i], s[i + 1], s[i + 2], s[i + 3]);
      assert s[i..i + 4] == [s[i], s[i + 1], s[i + 2], s[i + 3]];
    }
  }

  lemma {:induction false} FaultIsLater(s: Bytes, i: nat)
    requires i <= |s|
    ensures Utf8Fault(s, i).Some? ==> i <= Utf8Fault(s, i).value.0 < |s|
    decreases |s| - i
  {
    if i < |s| {
      if s[i] < 0x80 { FaultIsLater(s, i + 1); }
      else if i + 2 <= |s| && 0xC2 <= s[i] < 0xE0 { FaultIsLater(s, i + 2); }
      else if i + 3 <= |s| && 0xE0 <= s[i] < 0xF0 { FaultIsLater(s, i + 3); }
      else if i + 4 <= |s| && 0xF0 <= s[i] < 0xF5 { FaultIsLater(s, i + 4); }
    }
  }

  /** Everything before the fault, or before the end, is characters; and no character starts at
      the fault. */
  lemma {:induction false} FaultMeans(s: Bytes, i: nat) returns (cs: seq<Scalar>)
    requires i <= |s|
    ensures var end := if Utf8Fault(s, i).Some? then Utf8Fault(s, i).value.0 else |s|;
            i <= end <= |s| && EncodeAll(cs) == s[i..end]
    ensures Utf8Fault(s, i).Some? ==> forall c :: !StartsCharacter(s, Utf8Fault(s, i).value.0, c)
    decreases |s| - i
  {
    FaultIsLater(s, i);
    if i == |s| {
      cs := [];
    } else if Utf8Fault(s, i).Some? && Utf8Fault(s, i).value.0 == i {
      cs := [];
      forall c ensures !StartsCharacter(s, i, c) {
        if StartsCharacter(s, i, c) {
          StepOver(s, i, c);
          FaultIsLater(s, i + |Encode(c)|);
        }
      }
    } else {
      var c := Accepted(s, i);
      StepOver(s, i, c);
      var rest := FaultMeans(s, i + |Encode(c)|);
      cs := [c] + rest;
      var end := if Utf8Fault(s, i).Some? then Utf8Fault(s, i).value.0 else |s|;
      assert s[i..end] == s[i..i + |Encode(c)|] + s[i + |Encode(c)|..end];
      assert cs[1..] == rest;
    }
  }

  lemma {:induction false} EncodedIsAccepted(s: Bytes, i: nat, cs: seq<Scalar>)
    requires i <= |s| && s[i..] == EncodeAll(cs)
    ensures Utf8Fault(s, i).None?
    decreases |cs|
  {
    if cs == [] {
      assert |s[i..]| == 0;
    } else {
      SplitAt(s, i, Encode(cs[0]), EncodeAll(cs[1..]));
      StepOver(s, i, cs[0]);
      EncodedIsAccepted(s, i + |Encode(cs[0])|, cs[1..]);
    }
  }

  lemma {:induction false} SplitAt(s: Bytes, i: nat, e: Bytes, rest: Bytes)
    requires i <= |s| && s[i..] == e + rest
    ensures i + |e| <= |s| && s[i..i + |e|] == e && s[i + |e|..] == rest
  {
    assert s[i..][..|e|] == e && s[i..][|e|..] == rest;
  }

  // ----- A sequence cut short -----

  /** What is left of the input is the beginning of a character, but not all of it. */
  ghost predicate CutShort(s: Bytes, i: nat, c: Scalar) {
    i < |s| && |s| - i < |Encode(c)| && Encode(c)[..|s| - i] == s[i..]
  }

  /** A fault has no length if and only if the input ends inside a character. */
  lemma {:induction false} CutShortMeans(s: Bytes, i: nat)
    requires i < |s| && Utf8Fault(s, i).Some? && Utf8Fault(s, i).value.0 == i
    ensures Utf8Fault(s, i).value.1.None? <==> exists c :: CutShort(s, i, c)
  {
    FaultHere(s, i);
    if Utf8Fault(s, i).value.1.None? {
      var c := Completed(s, i);
    }
    if c :| CutShort(s, i, c) {
      LeadBytes(c);
      assert s[i..][0] == s[i];
      assert |s| - i > 1 ==> s[i..][1] == s[i + 1];
      assert |s| - i > 2 ==> s[i..][2] == s[i + 2];
    }
  }

  /** The fault is at the character itself, not at a later one. */
  lemma {:induction false} FaultHere(s: Bytes, i: nat)
    requires i < |s| && Utf8Fault(s, i).Some? && Utf8Fault(s, i).value.0 == i
    ensures s[i] >= 0x80
    ensures 0xC2 <= s[i] < 0xE0 ==> i + 1 == |s| || !Continuation(s[i + 1])
    ensures 0xE0 <= s[i] < 0xF0 ==>
              i + 1 == |s| || !SecondOfThree(s[i], s[i + 1]) || i + 2 == |s| || !Continuation(s[i + 2])
    ensures 0xF0 <= s[i] < 0xF5 ==>
              || i + 1 == |s| || !SecondOfFour(s[i], s[i + 1]) || i + 2 == |s| || !Continuation(s[i + 2])
              || i + 3 == |s| || !Continuation(s[i + 3])
  {
    if s[i] < 0x80 { FaultIsLater(s, i + 1); }
    if i + 2 <= |s| && 0xC2 <= s[i] < 0xE0 { FaultIsLater(s, i + 2); }
    if i + 3 <= |s| && 0xE0 <= s[i] < 0xF0 { FaultIsLater(s, i + 3); }
    if i + 4 <= |s| && 0xF0 <= s[i] < 0xF5 { FaultIsLater(s, i + 4); }
  }

  lemma {:induction false} Completed(s: Bytes, i: nat) returns (c: Scalar)
    requires i < |s| && Utf8Fault(s, i) == Some((i, None)) && s[i] >= 0x80
    ensures CutShort(s, i, c)
  {
    FaultHere(s, i);
    var a, left := s[i], |s| - i;
    if a < 0xE0 {
      c := TwoBytes(a, 0x80);
      assert s[i..] == [a];
    } else if a < 0xF0 {
      var b: byte := if left > 1 then s[i + 1] else if a == 0xE0 then 0xA0 else 0x80;
      c := ThreeBytes(a, b, 0x80);
      assert s[i..] == if left > 1 then [a, b] else [a];
    } else {
      var b: byte := if left > 1 then s[i + 1] else if a == 0xF0 then 0x90 else 0x80;
      var d: byte := if left > 2 then s[i + 2] else 0x80;
      c := FourBytes(a, b, d, 0x80);
      assert s[i..] == if left > 2 then [a, b, d] else if left > 1 then [a, b] else [a];
    }
  }

  /** Bytes pass the check if and only if they encode some characters. */
  lemma {:induction false} Utf8Means(s: Bytes)
    ensures Utf8Fault(s, 0).None? <==> exists cs :: EncodeAll(cs) == s
  {
    assert s[0..] == s && s[0..|s|] == s;
    var cs := FaultMeans(s, 0);
    if cs :| EncodeAll(cs) == s {
      EncodedIsAccepted(s, 0, cs);
    }
  }

  /** The mark that a stream may start with is the character U+FEFF, and only it is taken off. */
  lemma {:induction false} MarkMeans(body: Bytes)
    ensures StripBom(Encode(0xFEFF) + body) == body
    ensures (forall rest :: body != Encode(0xFEFF) + rest) ==> StripBom(body) == body
  {
    assert Encode(0xFEFF) == BOM;
    assert (BOM + body)[..3] == BOM && (BOM + body)[3..] == body;
    if |body| >= 3 && body[..3] == BOM {
      assert body == BOM + body[3..];
    }
  }
}
