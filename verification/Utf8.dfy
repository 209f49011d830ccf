/**
  The UTF-8 code of the repository against one encoder, that of RFC 3629,
  sections 3 and 4: the two validators (src/appearance_policy.cpp and
  src/chronicle.cpp), the scalar counter, the blank test and the two ways of
  cutting a text to a byte limit.
 */
module Utf8 {

  type Text = seq<bv8>

  // ---------------------------------------------------- RFC 3629, encoding

  predicate IsScalar(v: bv32) { v <= 0x10FFFF && !(0xD800 <= v <= 0xDFFF) }

  function Low(v: bv32): bv8 { (v & 0xFF) as bv8 }

  /** A continuation byte holding the six bits of `v` from `shift` on. */
  function Tail0(v: bv32): bv8 { 0x80 | Low(v & 0x3F) }
  function Tail6(v: bv32): bv8 { 0x80 | Low((v >> 6) & 0x3F) }
  function Tail12(v: bv32): bv8 { 0x80 | Low((v >> 12) & 0x3F) }

  function Lead2(v: bv32): bv8 { 0xC0 | Low(v >> 6) }
  function Lead3(v: bv32): bv8 { 0xE0 | Low(v >> 12) }
  function Lead4(v: bv32): bv8 { 0xF0 | Low(v >> 18) }

  /** The table of section 3. */
  function Encode(v: bv32): (s: Text)
    ensures 1 <= |s| <= 4
  {
    if v < 0x80 then [Low(v)]
    else if v < 0x800 then [Lead2(v), Tail0(v)]
    else if v < 0x1_0000 then [Lead3(v), Tail6(v), Tail0(v)]
    else [Lead4(v), Tail12(v), Tail6(v), Tail0(v)]
  }

  function EncodeAll(vs: seq<bv32>): Text {
    if vs == [] then [] else Encode(vs[0]) + EncodeAll(vs[1..])
  }

  ghost predicate AllScalars(vs: seq<bv32>) { forall i :: 0 <= i < |vs| ==> IsScalar(vs[i]) }

  /** `text` is the encoding of exactly these scalar values. */
  ghost predicate Encodes(text: Text, vs: seq<bv32>) { AllScalars(vs) && EncodeAll(vs) == text }

  ghost predicate WellFormed(text: Text) { exists vs :: Encodes(text, vs) }

  // ------------------------------------------------------- reading one scalar

  predicate Continues(b: bv8) { b & 0xC0 == 0x80 }

  function Extend(value: bv32, b: bv8): bv32 { (value << 6) | ((b & 0x3F) as bv32) }

  datatype Reading = Scalar(value: bv32, width: nat) | Malformed

  function Checked(value: bv32, width: nat): Reading {
    if (width == 2 && value < 0x80) || (width == 3 && value < 0x800) || (width == 4 && value < 0x1_0000)
       || value > 0x10FFFF || 0xD800 <= value <= 0xDFFF
    then Malformed
    else Scalar(value, width)
  }

  /** The scalar at the front of a text, if a well-formed one is there. */
  function Read(s: Text): (r: Reading)
    requires s != []
    ensures r.Scalar? ==> 1 <= r.width <= |s|
  {
    var lead := s[0];
    if lead <= 0x7F then Scalar(lead as bv32, 1)
    else if lead & 0xE0 == 0xC0 then
      if |s| < 2 || !Continues(s[1]) then Malformed
      else Checked(Value2(lead, s[1]), 2)
    else if lead & 0xF0 == 0xE0 then
      if |s| < 3 || !Continues(s[1]) || !Continues(s[2]) then Malformed
      else Checked(Value3(lead, s[1], s[2]), 3)
    else if lead & 0xF8 == 0xF0 then
      if |s| < 4 || !Continues(s[1]) || !Continues(s[2]) || !Continues(s[3]) then Malformed
      else Checked(Value4(lead, s[1], s[2], s[3]), 4)
    else Malformed
  }

  function Value2(a: bv8, b: bv8): bv32 { Extend((a & 0x1F) as bv32, b) }

  function Value3(a: bv8, b: bv8, c: bv8): bv32 { Extend(Extend((a & 0x0F) as bv32, b), c) }

  function Value4(a: bv8, b: bv8, c: bv8, d: bv8): bv32 {
    Extend(Extend(Extend((a & 0x07) as bv32, b), c), d)
  }

  lemma Bits1(a: bv8)
    requires a <= 0x7F
    ensures (a as bv32) < 0x80 && Low(a as bv32) == a
  {
  }

  lemma Bits2(a: bv8, b: bv8)
    requires a & 0xE0 == 0xC0 && Continues(b)
    ensures Value2(a, b) < 0x800 && a == Lead2(Value2(a, b)) && b == Tail0(Value2(a, b))
  {
  }

  lemma Bits3(a: bv8, b: bv8, c: bv8)
    requires a & 0xF0 == 0xE0 && Continues(b) && Continues(c)
    ensures var v := Value3(a, b, c);
            v < 0x1_0000 && a == Lead3(v) && b == Tail6(v) && c == Tail0(v)
  {
  }

  lemma Bits4(a: bv8, b: bv8, c: bv8, d: bv8)
    requires a & 0xF8 == 0xF0 && Continues(b) && Continues(c) && Continues(d)
    ensures var v := Value4(a, b, c, d);
            a == Lead4(v) && b == Tail12(v) && c == Tail6(v) && d == Tail0(v)
  {
  }

  /** What is read is a scalar value whose encoding stands at the front. */
  lemma ReadIsSound(s: Text)
    requires s != [] && Read(s).Scalar?
    ensures IsScalar(Read(s).value) && Encode(Read(s).value) == s[..Read(s).width]
  {
    hide Low, Lead2, Lead3, Lead4, Tail0, Tail6, Tail12, Value2, Value3, Value4, Continues;
    var lead := s[0];
    if lead <= 0x7F {
      Bits1(lead);
      assert s[..1] == [s[0]];
    } else if lead & 0xE0 == 0xC0 {
      Bits2(lead, s[1]);
      assert s[..2] == [s[0], s[1]];
    } else if lead & 0xF0 == 0xE0 {
      Bits3(lead, s[1], s[2]);
      assert s[..3] == [s[0], s[1], s[2]];
    } else {
      Bits4(lead, s[1], s[2], s[3]);
      assert s[..4] == [s[0], s[1], s[2], s[3]];
    }
  }

  lemma Back1(v: bv32)
    requires v < 0x80
    ensures Low(v) <= 0x7F && Low(v) as bv32 == v
  {
  }

  lemma Back2(v: bv32)
    requires 0x80 <= v < 0x800
    ensures Lead2(v) > 0x7F && Lead2(v) & 0xE0 == 0xC0 && Continues(Tail0(v))
    ensures Value2(Lead2(v), Tail0(v)) == v
  {
  }

  lemma Back3(v: bv32)
    requires 0x800 <= v < 0x1_0000
    ensures Lead3(v) > 0x7F && Lead3(v) & 0xE0 != 0xC0 && Lead3(v) & 0xF0 == 0xE0
    ensures Continues(Tail6(v)) && Continues(Tail0(v))
    ensures Value3(Lead3(v), Tail6(v), Tail0(v)) == v
  {
  }

  lemma Back4(v: bv32)
    requires 0x1_0000 <= v <= 0x10FFFF
    ensures Lead4(v) > 0x7F && Lead4(v) & 0xE0 != 0xC0 && Lead4(v) & 0xF0 != 0xE0 && Lead4(v) & 0xF8 == 0xF0
    ensures Continues(Tail12(v)) && Continues(Tail6(v)) && Continues(Tail0(v))
    ensures Value4(Lead4(v), Tail12(v), Tail6(v), Tail0(v)) == v
  {
  }

  /** The encoding of a scalar value is read back, whatever follows it. */
  lemma ReadIsComplete(v: bv32, rest: Text)
    requires IsScalar(v)
    ensures Read(Encode(v) + rest) == Scalar(v, |Encode(v)|)
  {
    hide Low, Lead2, Lead3, Lead4, Tail0, Tail6, Tail12, Value2, Value3, Value4, Continues;
    if v < 0x80 {
      Back1(v);
    } else if v < 0x800 {
      Back2(v);
    } else if v < 0x1_0000 {
      Back3(v);
    } else {
      Back4(v);
    }
  }

  // ------------------------------------------------- reading a whole text

  /** The scalars of a text, up to the first malformed place. */
  function Scalars(text: Text): seq<bv32>
    decreases |text|
  {
    if text == [] || Read(text).Malformed? then []
    else [Read(text).value] + Scalars(text[Read(text).width..])
  }

  lemma FrontOfEncoding(v: bv32, rest: Text, vs: seq<bv32>)
    requires IsScalar(v)
    ensures Encodes(Encode(v) + rest, vs) <==> vs != [] && vs[0] == v && Encodes(rest, vs[1..])
  {
    hide Encode, Read, IsScalar;
    var text := Encode(v) + rest;
    ReadIsComplete(v, rest);
    if Encodes(text, vs) {
      assert vs != [];
      ReadIsComplete(vs[0], EncodeAll(vs[1..]));
      assert text[|Encode(v)|..] == rest;
      assert text[|Encode(vs[0])|..] == EncodeAll(vs[1..]);
    }
    if vs != [] && vs[0] == v && Encodes(rest, vs[1..]) {
      forall i | 0 <= i < |vs| ensures IsScalar(vs[i]) {
        if i > 0 { assert IsScalar(vs[1..][i - 1]); }
      }
    }
  }

  /** A text is well formed exactly when its front can be read and its rest is. */
  lemma WellFormedFront(text: Text)
    requires text != []
    ensures Read(text).Malformed? ==> !WellFormed(text)
    ensures Read(text).Scalar? ==> (WellFormed(text) <==> WellFormed(text[Read(text).width..]))
  {
    hide Encode, Read, IsScalar;
    if Read(text).Malformed? {
      if vs :| Encodes(text, vs) {
        ReadIsComplete(vs[0], EncodeAll(vs[1..]));
      }
    } else {
      var v, rest := Read(text).value, text[Read(text).width..];
      ReadIsSound(text);
      assert text == Encode(v) + rest;
      if vs :| Encodes(text, vs) {
        FrontOfEncoding(v, rest, vs);
      }
      if vs :| Encodes(rest, vs) {
        assert ([v] + vs)[1..] == vs;
        FrontOfEncoding(v, rest, [v] + vs);
      }
    }
  }

  /** The decoder inverts the encoder. */
  lemma {:induction false} ScalarsInvertEncoding(vs: seq<bv32>)
    requires AllScalars(vs)
    ensures Scalars(EncodeAll(vs)) == vs
  {
    hide Encode, Read, IsScalar;
    if vs != [] {
      ReadIsComplete(vs[0], EncodeAll(vs[1..]));
      assert EncodeAll(vs)[|Encode(vs[0])|..] == EncodeAll(vs[1..]);
      ScalarsInvertEncoding(vs[1..]);
    }
  }

  /** A well-formed text encodes one sequence of scalar values and no other. */
  lemma WellFormedIsUnique(text: Text, vs: seq<bv32>)
    ensures WellFormed(text) ==> Encodes(text, Scalars(text))
    ensures Encodes(text, vs) ==> vs == Scalars(text)
  {
    if ws :| Encodes(text, ws) {
      ScalarsInvertEncoding(ws);
    }
    if Encodes(text, vs) {
      ScalarsInvertEncoding(vs);
    }
  }

  // ----------------------------------------- src/appearance_policy.cpp

  /** The value built up by the inner loop from the bytes s[1..n + 1]. */
  function Folded(value: bv32, s: Text, n: nat): bv32
    requires n < |s|
  {
    if n == 0 then value else Extend(Folded(value, s, n - 1), s[n])
  }

  predicate AllContinue(s: Text, n: nat)
    requires n < |s|
  {
    forall k :: 1 <= k <= n ==> Continues(s[k])
  }

  /** Reading, said once for every width: `more` bytes follow the lead. */
  lemma ReadByWidth(s: Text, value: bv32, more: nat)
    requires s != [] && s[0] > 0x7F && 1 <= more <= 3
    requires more == 1 ==> s[0] & 0xE0 == 0xC0 && value == (s[0] & 0x1F) as bv32
    requires more == 2 ==> s[0] & 0xF0 == 0xE0 && value == (s[0] & 0x0F) as bv32
    requires more == 3 ==> s[0] & 0xF8 == 0xF0 && value == (s[0] & 0x07) as bv32
    ensures more >= |s| ==> Read(s).Malformed?
    ensures more < |s| ==>
              Read(s) == if AllContinue(s, more) then Checked(Folded(value, s, more), more + 1) else Malformed
  {
    hide Continues, Extend, Checked;
    LeadsDiffer(s[0]);
    if more < |s| {
      assert Folded(value, s, 1) == Extend(value, s[1]);
      if more >= 2 {
        assert Folded(value, s, 2) == Extend(Folded(value, s, 1), s[2]);
      }
      if more == 3 {
        assert Folded(value, s, 3) == Extend(Folded(value, s, 2), s[3]);
      }
    }
  }

  lemma LeadsDiffer(b: bv8)
    ensures b & 0xE0 == 0xC0 ==> b & 0xF0 != 0xE0 && b & 0xF8 != 0xF0
    ensures b & 0xF0 == 0xE0 ==> b & 0xE0 != 0xC0 && b & 0xF8 != 0xF0
    ensures b & 0xF8 == 0xF0 ==> b & 0xE0 != 0xC0 && b & 0xF0 != 0xE0
    ensures b & 0xE0 == 0xC0 <==> 0xC0 <= b <= 0xDF
    ensures b & 0xF0 == 0xE0 <==> 0xE0 <= b <= 0xEF
    ensures b & 0xF8 == 0xF0 <==> 0xF0 <= b <= 0xF7
  {
  }

  method ValidUtf8(text: Text) returns (ok: bool)
    ensures ok <==> WellFormed(text)
  {
    hide Continues, Extend, Read, IsScalar, WellFormed;
    var index := 0;
    EmptyIsWellFormed();
    assert text[0..] == text;
    while index < |text|
      invariant 0 <= index <= |text|
      invariant WellFormed(text) <==> WellFormed(text[index..])
    {
      ghost var s := text[index..];
      WellFormedFront(s);
      var lead := text[index];
      var continuation := 0;
      var value: bv32 := 0;
      if lead <= 0x7F {
        ReadAscii(s);
        assert s[1..] == text[index + 1..];
        index := index + 1;
        continue;
      }
      if lead & 0xE0 == 0xC0 {
        continuation := 1;
        value := (lead & 0x1F) as bv32;
      } else if lead & 0xF0 == 0xE0 {
        continuation := 2;
        value := (lead & 0x0F) as bv32;
      } else if lead & 0xF8 == 0xF0 {
        continuation := 3;
        value := (lead & 0x07) as bv32;
      } else {
        ReadOddLead(s);
        return false;
      }
      ReadByWidth(s, value, continuation);
      if index + continuation >= |text| {
        return false;
      }
      ghost var initial := value;
      for offset := 1 to continuation + 1
        invariant AllContinue(s, offset - 1)
        invariant value == Folded(initial, s, offset - 1)
      {
        var next := text[index + offset];
        assert next == s[offset];
        if !Continues(next) {
          return false;
        }
        value := Extend(value, next);
      }
      if (continuation == 1 && value < 0x80) || (continuation == 2 && value < 0x800)
         || (continuation == 3 && value < 0x1_0000) || value > 0x10FFFF
         || (value >= 0xD800 && value <= 0xDFFF) {
        return false;
      }
      assert s[continuation + 1..] == text[index + (continuation + 1)..];
      index := index + (continuation + 1);
    }
    assert text[index..] == [];
    return true;
  }

  lemma EmptyIsWellFormed()
    ensures WellFormed([])
  {
    assert Encodes([], []);
  }

  lemma ReadAscii(s: Text)
    requires s != [] && s[0] <= 0x7F
    ensures Read(s) == Scalar(s[0] as bv32, 1)
  {
  }

  lemma ReadOddLead(s: Text)
    requires s != [] && s[0] > 0x7F
    requires s[0] & 0xE0 != 0xC0 && s[0] & 0xF0 != 0xE0 && s[0] & 0xF8 != 0xF0
    ensures Read(s) == Malformed
  {
  }

  // ------------------------------------------------- counting scalar values

  /** Bytes that are not continuation bytes. */
  function Leads(text: Text): nat {
    if text == [] then 0 else (if Continues(text[0]) then 0 else 1) + Leads(text[1..])
  }

  lemma EncodingShape(v: bv32)
    requires IsScalar(v)
    ensures !Continues(Encode(v)[0])
    ensures forall k :: 1 <= k < |Encode(v)| ==> Continues(Encode(v)[k])
  {
    hide Low, Lead2, Lead3, Lead4, Tail0, Tail6, Tail12, Continues;
    TailsContinue(v);
  }

  lemma TailsContinue(v: bv32)
    ensures Continues(Tail0(v)) && Continues(Tail6(v)) && Continues(Tail12(v))
    ensures !Continues(Lead2(v)) && !Continues(Lead3(v)) && !Continues(Lead4(v))
    ensures v < 0x80 ==> !Continues(Low(v))
  {
  }

  lemma {:induction false} LeadsOfTail(s: Text, rest: Text)
    requires forall k :: 0 <= k < |s| ==> Continues(s[k])
    ensures Leads(s + rest) == Leads(rest)
  {
    hide Continues;
    if s == [] {
      assert s + rest == rest;
    } else {
      assert (s + rest)[1..] == s[1..] + rest;
      LeadsOfTail(s[1..], rest);
    }
  }

  /** A well-formed text has one lead byte for each scalar value. */
  lemma {:induction false} LeadsCountScalars(vs: seq<bv32>)
    requires AllScalars(vs)
    ensures Leads(EncodeAll(vs)) == |vs|
  {
    hide Encode, IsScalar, Continues;
    if vs != [] {
      var front, rest := Encode(vs[0]), EncodeAll(vs[1..]);
      EncodingShape(vs[0]);
      assert (front + rest)[1..] == front[1..] + rest;
      LeadsOfTail(front[1..], rest);
      LeadsCountScalars(vs[1..]);
    }
  }

  datatype Count = Points(n: nat) | NotUtf8

  /** NotUtf8 stands for the largest std::size_t. */
  method UnicodeCodePoints(text: Text) returns (count: Count)
    ensures count == if WellFormed(text) then Points(|Scalars(text)|) else NotUtf8
  {
    hide WellFormed, Scalars;
    var ok := ValidUtf8(text);
    if !ok {
      return NotUtf8;
    }
    WellFormedIsUnique(text, []);
    LeadsCountScalars(Scalars(text));
    return Points(Leads(text));
  }

  // --------------------------------------------------- src/chronicle.cpp

  /** C0 controls other than TAB and LF, DEL, and C1 controls. */
  predicate IsControl(v: bv32) { (v < 0x20 && v != 0x09 && v != 0x0A) || 0x7F <= v <= 0x9F }

  ghost predicate NoControls(vs: seq<bv32>) { forall i :: 0 <= i < |vs| ==> !IsControl(vs[i]) }

  ghost predicate Presentable(text: Text) { WellFormed(text) && NoControls(Scalars(text)) }

  lemma PresentableFront(text: Text)
    requires text != []
    ensures Read(text).Malformed? ==> !Presentable(text)
    ensures Read(text).Scalar? ==>
              (Presentable(text) <==> !IsControl(Read(text).value) && Presentable(text[Read(text).width..]))
  {
    hide Read, IsControl, WellFormed;
    WellFormedFront(text);
    if Read(text).Scalar? {
      var v, rest := Read(text).value, Scalars(text[Read(text).width..]);
      assert Scalars(text) == [v] + rest;
      if NoControls([v] + rest) {
        assert !IsControl(([v] + rest)[0]);
        forall i | 0 <= i < |rest| ensures !IsControl(rest[i]) {
          assert !IsControl(([v] + rest)[i + 1]);
        }
      }
    }
  }

  /** The lead bytes that only the policy validator looks behind. */
  lemma HopelessLeads(s: Text)
    requires s != [] && s[0] > 0x7F
    requires !(0xC2 <= s[0] <= 0xDF) && !(0xE0 <= s[0] <= 0xEF) && !(0xF0 <= s[0] <= 0xF4)
    ensures Read(s) == Malformed
  {
    LeadsDiffer(s[0]);
    if 0xC0 <= s[0] <= 0xC1 {
      if |s| >= 2 { OverlongLead(s[0], s[1]); }
    } else if 0xF5 <= s[0] <= 0xF7 {
      if |s| >= 4 { TooLargeLead(s[0], s[1], s[2], s[3]); }
    }
  }

  lemma OverlongLead(a: bv8, b: bv8)
    requires 0xC0 <= a <= 0xC1
    ensures Value2(a, b) < 0x80
  {
  }

  lemma TooLargeLead(a: bv8, b: bv8, c: bv8, d: bv8)
    requires 0xF5 <= a <= 0xF7
    ensures Value4(a, b, c, d) > 0x10FFFF
  {
  }

  /** With a lead of 0xC2 or more, two bytes are never overlong. */
  lemma TwoBytesSuffice(a: bv8, b: bv8)
    requires 0xC2 <= a <= 0xDF
    ensures Value2(a, b) >= 0x80
  {
  }

  method ValidChronicleUtf8(text: Text) returns (ok: bool)
    ensures ok <==> Presentable(text)
  {
    hide Continues, Extend, Read, IsScalar, WellFormed, Presentable, IsControl;
    var index := 0;
    EmptyIsPresentable();
    assert text[0..] == text;
    while index < |text|
      invariant 0 <= index <= |text|
      invariant Presentable(text) <==> Presentable(text[index..])
    {
      ghost var s := text[index..];
      PresentableFront(s);
      var first := text[index];
      LeadsDiffer(first);
      var continuation := 0;
      var codepoint: bv32 := 0;
      if first <= 0x7F {
        codepoint := first as bv32;
        ReadAscii(s);
      } else if first >= 0xC2 && first <= 0xDF {
        continuation := 1;
        codepoint := (first & 0x1F) as bv32;
      } else if first >= 0xE0 && first <= 0xEF {
        continuation := 2;
        codepoint := (first & 0x0F) as bv32;
      } else if first >= 0xF0 && first <= 0xF4 {
        continuation := 3;
        codepoint := (first & 0x07) as bv32;
      } else {
        HopelessLeads(s);
        return false;
      }
      if continuation > 0 {
        ReadByWidth(s, codepoint, continuation);
      }
      if index + continuation >= |text| {
        return false;
      }
      ghost var initial := codepoint;
      for offset := 1 to continuation + 1
        invariant AllContinue(s, offset - 1)
        invariant codepoint == Folded(initial, s, offset - 1)
      {
        var next := text[index + offset];
        assert next == s[offset];
        if !Continues(next) {
          return false;
        }
        codepoint := Extend(codepoint, next);
      }
      NotOverlong(s, initial, continuation);
      if (continuation == 2 && codepoint < 0x800) || (continuation == 3 && codepoint < 0x1_0000)
         || codepoint > 0x10FFFF || (codepoint >= 0xD800 && codepoint <= 0xDFFF) {
        return false;
      }
      if IsControl(codepoint) {
        return false;
      }
      assert s[continuation + 1..] == text[index + (continuation + 1)..];
      index := index + (continuation + 1);
    }
    assert text[index..] == [];
    return true;
  }

  lemma NotOverlong(s: Text, initial: bv32, continuation: nat)
    requires s != [] && continuation < |s|
    requires continuation == 1 ==> 0xC2 <= s[0] <= 0xDF && initial == (s[0] & 0x1F) as bv32
    requires continuation == 0 ==> initial == s[0] as bv32 && s[0] <= 0x7F
    ensures continuation == 1 ==> Folded(initial, s, 1) >= 0x80
    ensures continuation == 0 ==> Folded(initial, s, 0) <= 0x7F
  {
    if continuation == 1 {
      TwoBytesSuffice(s[0], s[1]);
      assert Folded(initial, s, 1) == Extend(Folded(initial, s, 0), s[1]);
    }
  }

  lemma EmptyIsPresentable()
    ensures Presentable([])
  {
    EmptyIsWellFormed();
  }

  // ------------------------------------------------- cutting to a byte limit

  /** How many whole scalar values of `vs` fit into `limit` bytes. */
  function Fit(vs: seq<bv32>, limit: int): (k: nat)
    ensures k <= |vs|
  {
    if vs == [] || |Encode(vs[0])| > limit then 0
    else 1 + Fit(vs[1..], limit - |Encode(vs[0])|)
  }

  /** `Fit` is the most that fits. */
  lemma {:induction false} FitIsMost(vs: seq<bv32>, limit: int, k: nat)
    requires k <= |vs|
    ensures limit >= 0 ==> (k <= Fit(vs, limit) <==> |EncodeAll(vs[..k])| <= limit)
  {
    hide Encode;
    if vs != [] {
      FitIsMost(vs[1..], limit - |Encode(vs[0])|, if k > 0 then k - 1 else 0);
      if k > 0 {
        assert vs[..k][1..] == vs[1..][..k - 1];
      }
    }
  }

  /** The backward walk of `bounded_utf8` and `limited`. */
  function Cut(text: Text, end: nat): (c: nat)
    requires end < |text|
    ensures c <= end
  {
    if end > 0 && Continues(text[end]) then Cut(text, end - 1) else end
  }

  method BoundedUtf8(text: Text, maximum: nat) returns (r: Text)
    ensures r == if |text| <= maximum then text else text[..Cut(text, maximum)]
  {
    if |text| <= maximum {
      return text;
    }
    var end := maximum;
    while end > 0 && Continues(text[end])
      invariant 0 <= end <= maximum
      invariant Cut(text, end) == Cut(text, maximum)
    {
      end := end - 1;
    }
    return text[..end];
  }

  const ELLIPSIS: Text := [0xE2, 0x80, 0xA6]

  /** `limited` of src/ai_responder.cpp: the same cut, marked by an ellipsis. */
  method Limited(text: Text, maximum: nat) returns (r: Text)
    ensures r == if |text| <= maximum then text else text[..Cut(text, maximum)] + ELLIPSIS
  {
    if |text| <= maximum {
      return text;
    }
    var end := maximum;
    while end > 0 && Continues(text[end])
      invariant 0 <= end <= maximum
      invariant Cut(text, end) == Cut(text, maximum)
    {
      end := end - 1;
    }
    return text[..end] + ELLIPSIS;
  }

  ghost predicate LongestWellFormedPrefix(text: Text, limit: nat, r: Text) {
    && |r| <= limit && r <= text && WellFormed(r)
    && forall n :: |r| < n <= limit && n <= |text| ==> !WellFormed(text[..n])
  }

  /** The bytes of "\n[output truncated]". */
  const TRUNCATED: Text :=
    [0x0A, 0x5B, 0x6F, 0x75, 0x74, 0x70, 0x75, 0x74, 0x20,
     0x74, 0x72, 0x75, 0x6E, 0x63, 0x61, 0x74, 0x65, 0x64, 0x5D]

  /** The source calls it with its default limit of 1900 only; below the length
      of the suffix its unsigned subtraction would wrap around. */
  method BoundedResponse(value: Text, maximum: nat) returns (r: Text)
    requires maximum >= |TRUNCATED|
    ensures |value| <= maximum ==> r == value
    ensures |value| > maximum ==>
              exists kept :: LongestWellFormedPrefix(value, maximum - |TRUNCATED|, kept) && r == kept + TRUNCATED
    ensures |r| <= maximum
  {
    hide WellFormed;
    if |value| <= maximum {
      return value;
    }
    var kept := value[..maximum - |TRUNCATED|];
    var ok := ValidUtf8(kept);
    while kept != [] && !ok
      invariant kept <= value && |kept| <= maximum - |TRUNCATED|
      invariant ok <==> WellFormed(kept)
      invariant forall n :: |kept| < n <= maximum - |TRUNCATED| ==> !WellFormed(value[..n])
      decreases |kept|
    {
      assert kept == value[..|kept|];
      kept := kept[..|kept| - 1];
      ok := ValidUtf8(kept);
    }
    EmptyIsWellFormed();
    assert LongestWellFormedPrefix(value, maximum - |TRUNCATED|, kept);
    return kept + TRUNCATED;
  }

  lemma {:induction false} CutInsideFront(front: Text, rest: Text, end: nat)
    requires end < |front| && forall k :: 1 <= k < |front| ==> Continues(front[k])
    ensures Cut(front + rest, end) == 0
  {
    if end > 0 {
      CutInsideFront(front, rest, end - 1);
    }
  }

  lemma {:induction false} CutBehindFront(front: Text, rest: Text, end: nat)
    requires end < |rest| && !Continues(rest[0])
    ensures Cut(front + rest, |front| + end) == |front| + Cut(rest, end)
  {
    if end > 0 && Continues(rest[end]) {
      CutBehindFront(front, rest, end - 1);
    }
  }

  /** On a well-formed text the backward walk keeps the scalars that fit. */
  lemma {:induction false} CutKeepsWhatFits(vs: seq<bv32>, limit: nat)
    requires AllScalars(vs) && limit < |EncodeAll(vs)|
    ensures EncodeAll(vs)[..Cut(EncodeAll(vs), limit)] == EncodeAll(vs[..Fit(vs, limit)])
  {
    hide Encode, IsScalar, Continues;
    var front, rest := Encode(vs[0]), EncodeAll(vs[1..]);
    EncodingShape(vs[0]);
    if |front| > limit {
      CutInsideFront(front, rest, limit);
    } else {
      EncodingShape(vs[1]);
      CutBehindFront(front, rest, limit - |front|);
      CutKeepsWhatFits(vs[1..], limit - |front|);
      FitIsMost(vs[1..], limit - |front|, 0);
      var kept := vs[..Fit(vs, limit)];
      assert kept[1..] == vs[1..][..Fit(vs[1..], limit - |front|)];
    }
  }

  /** A well-formed prefix of a well-formed text ends between two scalars. */
  lemma {:induction false} PrefixesAreWhole(vs: seq<bv32>, ws: seq<bv32>)
    requires AllScalars(vs) && AllScalars(ws) && EncodeAll(ws) <= EncodeAll(vs)
    ensures ws <= vs
  {
    hide Encode, IsScalar, Read;
    if ws != [] {
      var more := EncodeAll(vs)[|EncodeAll(ws)|..];
      assert EncodeAll(vs) == EncodeAll(ws) + more == Encode(ws[0]) + (EncodeAll(ws[1..]) + more);
      assert vs != [];
      ReadIsComplete(ws[0], EncodeAll(ws[1..]) + more);
      ReadIsComplete(vs[0], EncodeAll(vs[1..]));
      assert EncodeAll(vs[1..]) == EncodeAll(vs)[|Encode(vs[0])|..] == EncodeAll(ws[1..]) + more;
      PrefixesAreWhole(vs[1..], ws[1..]);
    }
  }

  lemma {:induction false} PrefixEncodes(vs: seq<bv32>, k: nat)
    requires AllScalars(vs) && k <= |vs|
    ensures AllScalars(vs[..k]) && EncodeAll(vs[..k]) <= EncodeAll(vs)
  {
    hide Encode, IsScalar;
    if k > 0 {
      PrefixEncodes(vs[1..], k - 1);
      assert vs[..k][1..] == vs[1..][..k - 1];
    }
  }

  /** The longest well-formed prefix keeps the scalars that fit. */
  lemma LongestPrefixKeepsWhatFits(vs: seq<bv32>, limit: nat, r: Text)
    requires AllScalars(vs) && limit < |EncodeAll(vs)| && LongestWellFormedPrefix(EncodeAll(vs), limit, r)
    ensures r == EncodeAll(vs[..Fit(vs, limit)])
  {
    hide Encode, IsScalar;
    var k := Fit(vs, limit);
    FitIsMost(vs, limit, 0);
    FitIsMost(vs, limit, k);
    PrefixEncodes(vs, k);
    var best := EncodeAll(vs[..k]);
    assert WellFormed(best) by { assert Encodes(best, vs[..k]); }
    assert best == EncodeAll(vs)[..|best|];
    assert |best| <= |r|;
    var ws :| Encodes(r, ws);
    PrefixesAreWhole(vs, ws);
    assert ws == vs[..|ws|];
    FitIsMost(vs, limit, |ws|);
    PrefixEncodes(vs[..k], |ws|);
    assert vs[..k][..|ws|] == ws;
  }

  /** Both ways of cutting return the same bytes at the same limit: the most
      whole scalar values that fit. */
  lemma CutsAgree(text: Text, vs: seq<bv32>, limit: nat, r: Text)
    requires Encodes(text, vs) && limit < |text| && LongestWellFormedPrefix(text, limit, r)
    ensures r == text[..Cut(text, limit)] == EncodeAll(vs[..Fit(vs, limit)])
    ensures forall k :: 0 <= k <= |vs| ==> (k <= Fit(vs, limit) <==> |EncodeAll(vs[..k])| <= limit)
  {
    CutKeepsWhatFits(vs, limit);
    LongestPrefixKeepsWhatFits(vs, limit, r);
    forall k | 0 <= k <= |vs| ensures k <= Fit(vs, limit) <==> |EncodeAll(vs[..k])| <= limit {
      FitIsMost(vs, limit, k);
    }
  }

  // -------------------------------------------------------- the blank test

  predicate UnicodeWhitespace(v: bv32) {
    || 0x0009 <= v <= 0x000D || v == 0x0020 || v == 0x0085 || v == 0x00A0 || v == 0x1680
    || v == 0x180E || 0x2000 <= v <= 0x200D || v == 0x2028 || v == 0x2029 || v == 0x202F
    || v == 0x205F || v == 0x2060 || v == 0x3000 || v == 0xFEFF
  }

  ghost predicate AllWhitespace(vs: seq<bv32>) { forall i :: 0 <= i < |vs| ==> UnicodeWhitespace(vs[i]) }

  /** Its caller has counted the code points of the text, so it is well formed;
      the unchecked indexing relies on that. */
  method UnicodeBlank(text: Text) returns (blank: bool)
    requires WellFormed(text)
    ensures blank <==> AllWhitespace(Scalars(text))
  {
    hide Continues, Extend, Read, IsScalar, WellFormed, UnicodeWhitespace;
    var index := 0;
    assert text[0..] == text;
    while index < |text|
      invariant 0 <= index <= |text|
      invariant WellFormed(text[index..])
      invariant AllWhitespace(Scalars(text)) <==> AllWhitespace(Scalars(text[index..]))
    {
      ghost var s := text[index..];
      WellFormedFront(s);
      var lead := text[index];
      var value: bv32 := 0;
      var width := 0;
      if lead <= 0x7F {
        value := lead as bv32;
        width := 1;
        ReadAscii(s);
      } else if lead & 0xE0 == 0xC0 {
        value := (lead & 0x1F) as bv32;
        width := 2;
      } else if lead & 0xF0 == 0xE0 {
        value := (lead & 0x0F) as bv32;
        width := 3;
      } else {
        if lead & 0xF8 != 0xF0 {
          ReadOddLead(s);
        }
        value := (lead & 0x07) as bv32;
        width := 4;
      }
      if width > 1 {
        ReadByWidth(s, value, width - 1);
      }
      ghost var initial := value;
      for offset := 1 to width
        invariant value == Folded(initial, s, offset - 1)
      {
        assert text[index + offset] == s[offset];
        value := Extend(value, text[index + offset]);
      }
      WhitespaceFront(s);
      if !UnicodeWhitespace(value) {
        return false;
      }
      assert s[width..] == text[index + width..];
      index := index + width;
    }
    assert text[index..] == [];
    return true;
  }

  lemma WhitespaceFront(text: Text)
    requires text != [] && Read(text).Scalar?
    ensures AllWhitespace(Scalars(text)) <==>
              UnicodeWhitespace(Read(text).value) && AllWhitespace(Scalars(text[Read(text).width..]))
  {
    hide Read, UnicodeWhitespace;
    var v, rest := Read(text).value, Scalars(text[Read(text).width..]);
    assert Scalars(text) == [v] + rest;
    if AllWhitespace([v] + rest) {
      assert UnicodeWhitespace(([v] + rest)[0]);
      forall i | 0 <= i < |rest| ensures UnicodeWhitespace(rest[i]) {
        assert UnicodeWhitespace(([v] + rest)[i + 1]);
      }
    }
  }

  /** The ellipsis is the encoding of U+2026. */
  lemma EllipsisIs()
    ensures ELLIPSIS == Encode(0x2026) && WellFormed(ELLIPSIS)
  {
    var e := Encode(0x2026);
    assert IsScalar(0x2026);
    assert ELLIPSIS == e;
    assert [0x2026 as bv32][1..] == [];
    assert e + [] == e;
    assert Encodes(ELLIPSIS, [0x2026]);
  }
}
