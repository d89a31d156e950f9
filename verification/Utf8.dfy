/**
 UTF-8 as Python encodes and decodes it (sections 3 and 4 of RFC 3629), and cutting text to a
 byte limit without breaking characters (backend/app/repository_indexing/chunking.py).
 */
module Utf8 {
  import opened Wrappers

  type Bytes = seq<nat>

  function EncodeChar(c: char): (b: Bytes)
    ensures 1 <= |b| <= 4
  {
    var n := c as int;
    if n < 0x80 then [n]
    else if n < 0x800 then [0xC0 + n / 64, 0x80 + n % 64]
    else if n < 0x10000 then [0xE0 + n / 4096, 0x80 + n / 64 % 64, 0x80 + n % 64]
    else [0xF0 + n / 262144, 0x80 + n / 4096 % 64, 0x80 + n / 64 % 64, 0x80 + n % 64]
  }

  /** `text.encode("utf-8")`. */
  function Encode(text: string): Bytes {
    if text == "" then [] else EncodeChar(text[0]) + Encode(text[1..])
  }

  function Size(text: string): nat {
    |Encode(text)|
  }

  predicate Continues(b: nat) {
    0x80 <= b <= 0xBF
  }

  datatype Decoded = Decoded(c: char, length: nat)

  /** The character at the front of a byte sequence, if a well-formed one stands there. */
  function DecodeFirst(b: Bytes): (d: Option<Decoded>)
    requires b != []
    ensures d.Some? ==> 1 <= d.value.length <= |b|
  {
    if b[0] < 0x80 then Some(Decoded(b[0] as char, 1))
    else if 0xC2 <= b[0] <= 0xDF && |b| >= 2 && Continues(b[1]) then
      Some(Decoded(((b[0] - 0xC0) * 64 + b[1] - 0x80) as char, 2))
    else if 0xE0 <= b[0] <= 0xEF && |b| >= 3 && Continues(b[1]) && Continues(b[2])
            && (b[0] == 0xE0 ==> b[1] >= 0xA0) && (b[0] == 0xED ==> b[1] <= 0x9F) then
      Some(Decoded(((b[0] - 0xE0) * 4096 + (b[1] - 0x80) * 64 + b[2] - 0x80) as char, 3))
    else if 0xF0 <= b[0] <= 0xF4 && |b| >= 4 && Continues(b[1]) && Continues(b[2]) && Continues(b[3])
            && (b[0] == 0xF0 ==> b[1] >= 0x90) && (b[0] == 0xF4 ==> b[1] <= 0x8F) then
      Some(Decoded(((b[0] - 0xF0) * 262144 + (b[1] - 0x80) * 4096 + (b[2] - 0x80) * 64 + b[3] - 0x80) as char, 4))
    else None
  }

  /** `data.decode("utf-8", errors="ignore")`: bytes that start no character are dropped. */
  function DecodeIgnoring(b: Bytes): string {
    if b == [] then ""
    else match DecodeFirst(b)
         case Some(d) => [d.c] + DecodeIgnoring(b[d.length..])
         case None => DecodeIgnoring(b[1..])
  }

  lemma EncodedCharDecodes(c: char, rest: Bytes)
    ensures DecodeFirst(EncodeChar(c) + rest) == Some(Decoded(c, |EncodeChar(c)|))
  {
    var n := c as int;
    if n < 0x80 {
    } else if n < 0x800 {
      assert n == n / 64 * 64 + n % 64;
    } else if n < 0x10000 {
      assert n == n / 64 * 64 + n % 64;
      assert n / 64 == n / 64 / 64 * 64 + n / 64 % 64;
      assert n / 4096 == n / 64 / 64;
    } else {
      assert n == n / 64 * 64 + n % 64;
      assert n / 64 == n / 64 / 64 * 64 + n / 64 % 64;
      assert n / 64 / 64 == n / 64 / 64 / 64 * 64 + n / 64 / 64 % 64;
      assert n / 4096 == n / 64 / 64 && n / 262144 == n / 64 / 64 / 64;
    }
  }

  lemma CharDecodes(c: char, rest: Bytes)
    ensures DecodeIgnoring(EncodeChar(c) + rest) == [c] + DecodeIgnoring(rest)
  {
    EncodedCharDecodes(c, rest);
    assert (EncodeChar(c) + rest)[|EncodeChar(c)|..] == rest;
  }

  lemma {:induction false} ContinuationsVanish(b: Bytes)
    requires forall i | 0 <= i < |b| :: Continues(b[i])
    ensures DecodeIgnoring(b) == ""
    decreases |b|
  {
    if b != [] { ContinuationsVanish(b[1..]); }
  }

  /** A character cut short leaves nothing behind. */
  lemma CutCharVanishes(c: char, k: nat)
    requires k < |EncodeChar(c)|
    ensures DecodeIgnoring(EncodeChar(c)[..k]) == ""
  {
    if k > 0 {
      var b := EncodeChar(c)[..k];
      assert DecodeFirst(b).None?;
      ContinuationsVanish(b[1..]);
    }
  }

  /** How many leading characters of `text` fit into `limit` bytes. */
  function Fitting(text: string, limit: nat): (k: nat)
    ensures k <= |text|
  {
    if text == "" || |EncodeChar(text[0])| > limit then 0
    else 1 + Fitting(text[1..], limit - |EncodeChar(text[0])|)
  }

  function Cut(b: Bytes, limit: nat): Bytes {
    if |b| <= limit then b else b[..limit]
  }

  /** `_byte_prefix`: encode, cut at `limit`, decode ignoring what is broken. */
  function BytePrefix(text: string, limit: nat): string {
    DecodeIgnoring(Cut(Encode(text), limit))
  }

  lemma {:induction false} PrefixIsFitting(text: string, limit: nat)
    ensures BytePrefix(text, limit) == text[..Fitting(text, limit)]
    decreases |text|
  {
    if text != "" {
      var c, rest := EncodeChar(text[0]), text[1..];
      var cut := Cut(c + Encode(rest), limit);
      if |c| > limit {
        assert cut == c[..limit];
        CutCharVanishes(text[0], limit);
      } else {
        assert cut == c + Cut(Encode(rest), limit - |c|);
        CharDecodes(text[0], Cut(Encode(rest), limit - |c|));
        PrefixIsFitting(rest, limit - |c|);
      }
    }
  }

  lemma {:induction false} SizeOfConcat(a: string, b: string)
    ensures Encode(a + b) == Encode(a) + Encode(b)
    decreases |a|
  {
    if a == "" {
      assert a + b == b;
    } else {
      SizeOfConcat(a[1..], b);
      assert (a + b)[1..] == a[1..] + b;
    }
  }

  lemma {:induction false} FittingFits(text: string, limit: nat)
    ensures Size(text[..Fitting(text, limit)]) <= limit
    ensures Fitting(text, limit) < |text| ==> Size(text[..Fitting(text, limit) + 1]) > limit
    decreases |text|
  {
    if text != "" {
      var c, rest, k := EncodeChar(text[0]), text[1..], Fitting(text, limit);
      if |c| > limit {
        assert text[..1][1..] == "";
      } else {
        FittingFits(rest, limit - |c|);
        assert text[..k][1..] == rest[..k - 1];
        if k < |text| { assert text[..k + 1][1..] == rest[..k]; }
      }
    }
  }

  /** Encoding loses nothing. */
  lemma {:induction false} RoundTrip(text: string)
    ensures DecodeIgnoring(Encode(text)) == text
    decreases |text|
  {
    if text != "" {
      CharDecodes(text[0], Encode(text[1..]));
      RoundTrip(text[1..]);
    }
  }

  /** Byte truncation yields the longest prefix of whole characters whose encoding fits. */
  lemma BytePrefixIsLongest(text: string, limit: nat)
    ensures var p := BytePrefix(text, limit);
            && p <= text && Size(p) <= limit
            && (|p| < |text| ==> Size(text[..|p| + 1]) > limit)
  {
    PrefixIsFitting(text, limit);
    FittingFits(text, limit);
  }

  lemma {:induction false} SizeBounds(text: string)
    ensures |text| <= Size(text) <= 4 * |text|
    decreases |text|
  {
    if text != "" { SizeBounds(text[1..]); }
  }

  lemma {:induction false} AsciiSize(text: string)
    requires forall i | 0 <= i < |text| :: text[i] < '\U{80}'
    ensures Size(text) == |text|
    decreases |text|
  {
    if text != "" { AsciiSize(text[1..]); }
  }
}
