/** What a byte string becomes when it travels through a Go JSON string field.

    `json.Marshal` walks the string rune by rune and writes U+FFFD for every byte that does
    not start a well-formed UTF-8 sequence; `json.Unmarshal` gives back what was written.
    `ThroughJson` is that round trip. Escapes (quotes, control characters, `<`, `>`, `&`,
    U+2028, U+2029) are undone exactly by the decoder and so do not appear. */
module Utf8 {
  type Byte = bv8
  type Bytes = seq<Byte>

  /** U+FFFD, the replacement character, in UTF-8. */
  const REPLACEMENT: Bytes := [0xEF, 0xBF, 0xBD]

  predicate Continuation(b: Byte) {
    0x80 <= b <= 0xBF
  }

  /** The length of the well-formed sequence at the head of `s` (RFC 3629, section 4), or 0. */
  function RuneLength(s: Bytes): (n: nat)
    ensures n <= |s| && n <= 4
  {
    if |s| >= 1 && s[0] < 0x80 then 1
    else if |s| >= 2 && 0xC2 <= s[0] <= 0xDF && Continuation(s[1]) then 2
    else if |s| >= 3 && 0xE0 <= s[0] <= 0xEF && SecondOfThree(s[0], s[1]) && Continuation(s[2]) then 3
    else if |s| >= 4 && 0xF0 <= s[0] <= 0xF4 && SecondOfFour(s[0], s[1]) && Continuation(s[2]) && Continuation(s[3])
      then 4
    else 0
  }

  predicate SecondOfThree(lead: Byte, b: Byte) {
    if lead == 0xE0 then 0xA0 <= b <= 0xBF
    else if lead == 0xED then 0x80 <= b <= 0x9F
    else Continuation(b)
  }

  predicate SecondOfFour(lead: Byte, b: Byte) {
    if lead == 0xF0 then 0x90 <= b <= 0xBF
    else if lead == 0xF4 then 0x80 <= b <= 0x8F
    else Continuation(b)
  }

  /** `s` is a sequence of well-formed UTF-8 runes. */
  predicate IsText(s: Bytes) {
    s == [] || (RuneLength(s) > 0 && IsText(s[RuneLength(s)..]))
  }

  /** What a JSON string field can deliver. */
  type Text = s: Bytes | IsText(s) witness []

  function ThroughJson(s: Bytes): Bytes {
    if s == [] then []
    else if RuneLength(s) == 0 then REPLACEMENT + ThroughJson(s[1..])
    else s[..RuneLength(s)] + ThroughJson(s[RuneLength(s)..])
  }

  /** The head rune depends only on its own bytes. */
  lemma RuneLengthLocal(s: Bytes, t: Bytes)
    requires RuneLength(s) > 0
    ensures RuneLength(s[..RuneLength(s)] + t) == RuneLength(s)
  {
  }

  /** A byte that starts no rune does not survive: the output starts with U+FFFD instead. */
  lemma BadHeadChanges(s: Bytes)
    requires s != [] && RuneLength(s) == 0
    ensures ThroughJson(s) != s
  {
    var out := ThroughJson(s);
    assert out[..3] == REPLACEMENT;
    assert RuneLength(REPLACEMENT) == 3 && REPLACEMENT[..3] == REPLACEMENT;
    assert out == REPLACEMENT[..3] + out[3..];
    RuneLengthLocal(REPLACEMENT, out[3..]);
  }

  lemma GoodHeadStays(s: Bytes)
    requires RuneLength(s) > 0
    ensures ThroughJson(s) == s <==> ThroughJson(s[RuneLength(s)..]) == s[RuneLength(s)..]
  {
    var n := RuneLength(s);
    assert s == s[..n] + s[n..];
    assert ThroughJson(s)[n..] == ThroughJson(s[n..]);
  }

  /** A JSON string field gives a byte string back unchanged exactly when it is valid UTF-8. */
  lemma {:induction false} ThroughJsonExact(s: Bytes)
    ensures ThroughJson(s) == s <==> IsText(s)
  {
    if s != [] {
      if RuneLength(s) == 0 {
        BadHeadChanges(s);
      } else {
        ThroughJsonExact(s[RuneLength(s)..]);
        GoodHeadStays(s);
      }
    }
  }

  /** Whatever went in, valid UTF-8 comes out: a second trip changes nothing. */
  lemma {:induction false} ThroughJsonIsText(s: Bytes)
    ensures IsText(ThroughJson(s))
    ensures ThroughJson(ThroughJson(s)) == ThroughJson(s)
  {
    ThroughJsonTextOnly(s);
    ThroughJsonExact(ThroughJson(s));
  }

  lemma {:induction false} ThroughJsonTextOnly(s: Bytes)
    ensures IsText(ThroughJson(s))
  {
    if s != [] {
      var n := RuneLength(s);
      var rest := s[if n == 0 then 1 else n..];
      ThroughJsonTextOnly(rest);
      var head := if n == 0 then REPLACEMENT else s[..n];
      var out := head + ThroughJson(rest);
      if n == 0 {
        assert RuneLength(REPLACEMENT) == 3 && REPLACEMENT[..3] == REPLACEMENT;
        RuneLengthLocal(REPLACEMENT, ThroughJson(rest));
      } else {
        RuneLengthLocal(s, ThroughJson(rest));
      }
      assert RuneLength(out) == |head|;
      assert out[|head|..] == ThroughJson(rest);
    }
  }

  /** Every byte that is lost is replaced by three, so a byte string that is not valid UTF-8 comes
      back longer than it was. */
  lemma {:induction false} ThroughJsonGrows(s: Bytes)
    ensures |ThroughJson(s)| >= |s|
    ensures |ThroughJson(s)| == |s| <==> IsText(s)
  {
    if s != [] {
      ThroughJsonGrows(s[if RuneLength(s) == 0 then 1 else RuneLength(s)..]);
    }
  }

  // ---------- What well-formed means ----------

  /** The code points UTF-8 encodes. */
  predicate Scalar(cp: nat) {
    cp < 0xD800 || 0xE000 <= cp < 0x11_0000
  }

  /** The encoding of a code point, as RFC 3629, section 3, has it. */
  function Encoded(cp: nat): seq<nat>
    requires Scalar(cp)
  {
    if cp < 0x80 then [cp]
    else if cp < 0x800 then [0xC0 + cp / 64, 0x80 + cp % 64]
    else if cp < 0x1_0000 then [0xE0 + cp / 64 / 64, 0x80 + cp / 64 % 64, 0x80 + cp % 64]
    else [0xF0 + cp / 64 / 64 / 64, 0x80 + cp / 64 / 64 % 64, 0x80 + cp / 64 % 64, 0x80 + cp % 64]
  }

  /** The byte string begins with these numbers. */
  predicate Begins(s: Bytes, code: seq<nat>) {
    |code| <= |s| && forall i :: 0 <= i < |code| ==> s[i] as nat == code[i]
  }

  /** A byte as a number, or -1 past the end. */
  function At(s: Bytes, i: nat): int {
    if i < |s| then s[i] as int else -1
  }

  /** The length of the rune that starts with these numbers, or 0. */
  function NumberLength(a: int, b: int, c: int, d: int): nat {
    if 0 <= a < 0x80 then 1
    else if 0xC2 <= a <= 0xDF && 0x80 <= b <= 0xBF then 2
    else if 0xE0 <= a <= 0xEF && (if a == 0xE0 then 0xA0 else 0x80) <= b <= (if a == 0xED then 0x9F else 0xBF)
            && 0x80 <= c <= 0xBF then 3
    else if 0xF0 <= a <= 0xF4 && (if a == 0xF0 then 0x90 else 0x80) <= b <= (if a == 0xF4 then 0x8F else 0xBF)
            && 0x80 <= c <= 0xBF && 0x80 <= d <= 0xBF then 4
    else 0
  }

  lemma RuneLengthInNumbers(s: Bytes)
    ensures RuneLength(s) == NumberLength(At(s, 0), At(s, 1), At(s, 2), At(s, 3))
  {
  }

  /** Six low bits put behind a number and taken off again. */
  lemma LowBits(high: nat, low: nat)
    requires low < 64
    ensures (high * 64 + low) / 64 == high && (high * 64 + low) % 64 == low
  {
  }

  /** Four numbers that make a rune are the encoding of some code point. */
  lemma RuneIsEncoding(a: int, b: int, c: int, d: int) returns (cp: nat)
    requires NumberLength(a, b, c, d) > 0
    ensures Scalar(cp) && Encoded(cp) == [a, b, c, d][..NumberLength(a, b, c, d)]
  {
    var n := NumberLength(a, b, c, d);
    if n == 1 {
      cp := a;
    } else if n == 2 {
      cp := (a - 0xC0) * 64 + (b - 0x80);
      LowBits(a - 0xC0, b - 0x80);
    } else if n == 3 {
      var high := (a - 0xE0) * 64 + (b - 0x80);
      cp := high * 64 + (c - 0x80);
      LowBits(high, c - 0x80);
      LowBits(a - 0xE0, b - 0x80);
    } else {
      var high := (a - 0xF0) * 64 + (b - 0x80);
      var higher := high * 64 + (c - 0x80);
      cp := higher * 64 + (d - 0x80);
      LowBits(higher, d - 0x80);
      LowBits(high, c - 0x80);
      LowBits(a - 0xF0, b - 0x80);
    }
  }

  /** And an encoding followed by anything is a rune of its length. */
  lemma EncodingIsRune(cp: nat, a: int, b: int, c: int, d: int)
    requires Scalar(cp) && Encoded(cp) == [a, b, c, d][..|Encoded(cp)|]
    ensures NumberLength(a, b, c, d) == |Encoded(cp)|
  {
    var code := Encoded(cp);
    assert code[0] == a;
    if |code| > 1 { assert code[1] == b; }
    if |code| > 2 { assert code[2] == c; }
    if |code| > 3 { assert code[3] == d; }
  }

  /** A byte string begins with a rune exactly if it begins with the encoding of a code point. */
  lemma RuneIffEncoding(s: Bytes)
    ensures RuneLength(s) > 0 <==> exists cp: nat :: Scalar(cp) && Begins(s, Encoded(cp))
    ensures forall cp: nat :: Scalar(cp) && Begins(s, Encoded(cp)) ==> RuneLength(s) == |Encoded(cp)|
  {
    RuneLengthInNumbers(s);
    var a, b, c, d := At(s, 0), At(s, 1), At(s, 2), At(s, 3);
    if RuneLength(s) > 0 {
      var cp := RuneIsEncoding(a, b, c, d);
      assert Begins(s, Encoded(cp));
    }
    forall cp: nat | Scalar(cp) && Begins(s, Encoded(cp))
      ensures RuneLength(s) == |Encoded(cp)|
    {
      EncodingIsRune(cp, a, b, c, d);
    }
  }

  /** The encodings of some code points, one after the other. */
  function AllEncoded(cps: seq<nat>): seq<nat>
    requires forall i :: 0 <= i < |cps| ==> Scalar(cps[i])
  {
    if cps == [] then [] else Encoded(cps[0]) + AllEncoded(cps[1..])
  }

  lemma BeginsJoined(s: Bytes, code: seq<nat>, rest: seq<nat>)
    requires Begins(s, code) && Begins(s[|code|..], rest)
    ensures Begins(s, code + rest)
  {
    forall i | 0 <= i < |code + rest| ensures s[i] as nat == (code + rest)[i] {
      if i >= |code| {
        assert s[i] == s[|code|..][i - |code|];
      }
    }
  }

  /** So valid UTF-8 is exactly what encodes some sequence of code points. */
  lemma {:induction false} TextDecodes(s: Bytes) returns (cps: seq<nat>)
    requires IsText(s)
    ensures forall i :: 0 <= i < |cps| ==> Scalar(cps[i])
    ensures |AllEncoded(cps)| == |s| && Begins(s, AllEncoded(cps))
  {
    if s == [] {
      cps := [];
    } else {
      RuneIffEncoding(s);
      var cp: nat :| Scalar(cp) && Begins(s, Encoded(cp));
      var n := |Encoded(cp)|;
      var rest := TextDecodes(s[n..]);
      cps := [cp] + rest;
      assert cps[1..] == rest;
      BeginsJoined(s, Encoded(cp), AllEncoded(rest));
    }
  }

  lemma BeginsWithBoth(s: Bytes, code: seq<nat>, rest: seq<nat>)
    requires |s| == |code| + |rest| && Begins(s, code + rest)
    ensures Begins(s, code) && Begins(s[|code|..], rest)
  {
    assert forall i :: 0 <= i < |code| ==> (code + rest)[i] == code[i];
    forall i | 0 <= i < |rest| ensures s[|code|..][i] as nat == rest[i] {
      assert (code + rest)[|code| + i] == rest[i];
    }
  }

  lemma {:induction false} EncodingsAreText(s: Bytes, cps: seq<nat>)
    requires forall i :: 0 <= i < |cps| ==> Scalar(cps[i])
    requires |AllEncoded(cps)| == |s| && Begins(s, AllEncoded(cps))
    ensures IsText(s)
    decreases |cps|
  {
    if cps != [] {
      BeginsWithBoth(s, Encoded(cps[0]), AllEncoded(cps[1..]));
      RuneIffEncoding(s);
      EncodingsAreText(s[|Encoded(cps[0])|..], cps[1..]);
    }
  }
}
