/**
 * UTF-8 well-formedness (Unicode's table of well-formed byte sequences) and
 * the lossy decoding of Rust's `String::from_utf8_lossy`, which replaces each
 * maximal ill-formed subpart by U+FFFD.
 */
module Utf8 {
  import opened Bytes

  predicate IsContinuation(b: u8) {
    0x80 <= b < 0xC0
  }

  /** The number of bytes a lead byte announces; 0 if it cannot start a character. */
  function LeadWidth(b: u8): (w: nat)
    ensures w <= 4
  {
    if b < 0x80 then 1
    else if 0xC2 <= b <= 0xDF then 2
    else if 0xE0 <= b <= 0xEF then 3
    else if 0xF0 <= b <= 0xF4 then 4
    else 0
  }

  /** The range allowed for the byte after `lead`: it excludes overlong forms, surrogates and values past U+10FFFF. */
  predicate SecondOk(lead: u8, b: u8) {
    if lead == 0xE0 then 0xA0 <= b < 0xC0
    else if lead == 0xED then 0x80 <= b < 0xA0
    else if lead == 0xF0 then 0x90 <= b < 0xC0
    else if lead == 0xF4 then 0x80 <= b < 0x90
    else IsContinuation(b)
  }

  /** The length of the longest prefix of `s` that begins some well-formed character. */
  function Agreeing(s: seq<u8>): (k: nat)
    ensures k <= |s| && k <= 4
    ensures |s| > 0 ==> k <= LeadWidth(s[0])
  {
    if |s| == 0 || LeadWidth(s[0]) == 0 then 0
    else if LeadWidth(s[0]) == 1 || |s| < 2 || !SecondOk(s[0], s[1]) then 1
    else if LeadWidth(s[0]) == 2 || |s| < 3 || !IsContinuation(s[2]) then 2
    else if LeadWidth(s[0]) == 3 || |s| < 4 || !IsContinuation(s[3]) then 3
    else 4
  }

  /** The length of the well-formed character at the head of `s`, or 0 if there is none. */
  function CharWidth(s: seq<u8>): (w: nat)
    ensures w <= |s| && w <= 4
  {
    if |s| > 0 && Agreeing(s) == LeadWidth(s[0]) then Agreeing(s) else 0
  }

  /** `s` is a concatenation of well-formed characters. */
  predicate IsUtf8(s: seq<u8>)
    decreases |s|
  {
    |s| == 0 || (CharWidth(s) > 0 && IsUtf8(s[CharWidth(s)..]))
  }

  /** U+FFFD REPLACEMENT CHARACTER, encoded. */
  const Replacement: seq<u8> := [0xEF, 0xBF, 0xBD]

  /** `from_utf8_lossy`: keep well-formed characters, replace each maximal ill-formed subpart by U+FFFD. */
  function Lossy(s: seq<u8>): seq<u8>
    decreases |s|
  {
    if |s| == 0 then []
    else if CharWidth(s) > 0 then s[..CharWidth(s)] + Lossy(s[CharWidth(s)..])
    else Replacement + Lossy(s[if Agreeing(s) == 0 then 1 else Agreeing(s)..])
  }

  /** The character at the head of a string is recognised whatever follows it. */
  lemma CharWidthOfPrefix(s: seq<u8>, t: seq<u8>)
    requires CharWidth(s) > 0
    ensures CharWidth(s[..CharWidth(s)] + t) == CharWidth(s)
  {
  }

  /** A well-formed character followed by well-formed text is well-formed. */
  lemma ValidPrepend(c: seq<u8>, rest: seq<u8>)
    requires CharWidth(c) == |c| > 0 && IsUtf8(rest)
    ensures IsUtf8(c + rest)
  {
    CharWidthOfPrefix(c, rest);
    assert c[..|c|] == c;
    assert (c + rest)[|c|..] == rest;
  }

  /** Lossy decoding leaves well-formed text unchanged. */
  lemma {:induction false} LossyOfValid(s: seq<u8>)
    requires IsUtf8(s)
    ensures Lossy(s) == s
    decreases |s|
  {
    if |s| > 0 {
      var w := CharWidth(s);
      LossyOfValid(s[w..]);
      assert s == s[..w] + s[w..];
    }
  }

  /** Lossy decoding always yields well-formed text. */
  lemma {:induction false} LossyIsValid(s: seq<u8>)
    ensures IsUtf8(Lossy(s))
    decreases |s|
  {
    if |s| == 0 {
    } else if CharWidth(s) > 0 {
      var w := CharWidth(s);
      LossyIsValid(s[w..]);
      CharWidthOfPrefix(s, []);
      assert s[..w] + [] == s[..w];
      ValidPrepend(s[..w], Lossy(s[w..]));
    } else {
      var k := if Agreeing(s) == 0 then 1 else Agreeing(s);
      LossyIsValid(s[k..]);
      ValidPrepend(Replacement, Lossy(s[k..]));
    }
  }

  /** Lossy decoding at most triples the length: each replaced subpart is at least one byte. */
  lemma {:induction false} LossyLength(s: seq<u8>)
    ensures |Lossy(s)| <= 3 * |s|
    decreases |s|
  {
    if |s| == 0 {
    } else if CharWidth(s) > 0 {
      LossyLength(s[CharWidth(s)..]);
    } else {
      LossyLength(s[if Agreeing(s) == 0 then 1 else Agreeing(s)..]);
    }
  }

  /** A lone invalid byte becomes three bytes: lossy decoding can lengthen a string. */
  lemma LossyOfInvalidByte()
    ensures Lossy([0xFF]) == Replacement
  {
    assert Lossy([0xFF][1..]) == [];
  }

  /** A run of `n` invalid bytes decodes to `3 n` bytes, past a `u16` length once `n` exceeds 21845. */
  lemma {:induction false} LossyOfInvalidBytes(n: nat)
    ensures |Lossy(seq(n, _ => 0xFF))| == 3 * n
  {
    if n > 0 {
      var s: seq<u8> := seq(n, _ => 0xFF);
      assert s[1..] == seq(n - 1, _ => 0xFF);
      LossyOfInvalidBytes(n - 1);
    }
  }
}
