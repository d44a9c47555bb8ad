/**
 Base64 as bcrypt uses it: quanta and padding of section 4 of RFC 4648, bcrypt's own alphabet, no
 padding on the encoded text. The decoder skips line breaks and does not ask for zero trailing bits.
 */
module Base64 {
  import opened Wrappers

  type Byte = x: int | 0 <= x < 256

  type Bytes = seq<Byte>

  type Digit = x: int | 0 <= x < 64

  const PAD: Byte := 61

  datatype CorruptInput = CorruptInput

  // ---- the alphabet ----

  /** . / A-Z a-z 0-9 */
  function Letter(d: Digit): (c: Byte)
    ensures c != PAD && !LineBreak(c)
  {
    if d < 2 then 46 + d else if d < 28 then 63 + d else if d < 54 then 69 + d else d - 6
  }

  function Value(c: Byte): Option<Digit> {
    if 46 <= c <= 47 then Some(c - 46)
    else if 65 <= c <= 90 then Some(c - 63)
    else if 97 <= c <= 122 then Some(c - 69)
    else if 48 <= c <= 57 then Some(c + 6)
    else None
  }

  predicate LineBreak(c: Byte) { c == 10 || c == 13 }

  lemma LettersHaveValues(d: Digit)
    ensures Value(Letter(d)) == Some(d)
  {
  }

  const ALPHABET := "./" + "ABCDEFGHIJKLMNOPQRSTUVWXYZ" + "abcdefghijklmnopqrstuvwxyz" + "0123456789"

  function From(first: char, n: nat): string
    requires first as int + n <= 128
  {
    seq(n, i requires 0 <= i < n => (first as int + i) as char)
  }

  /** The arithmetic is the alphabet of the original, letter by letter. */
  lemma LettersAreTheAlphabet(d: Digit)
    ensures |ALPHABET| == 64 && Letter(d) == ALPHABET[d] as int
  {
    assert "ABCDEFGHIJKLMNOPQRSTUVWXYZ" == From('A', 26);
    assert "abcdefghijklmnopqrstuvwxyz" == From('a', 26);
    assert "0123456789" == From('0', 10);
  }

  // ---- quanta ----

  function EncodedLen(n: nat): nat { (n + 2) / 3 * 4 }

  /** The four digits of three bytes. */
  function Digits(a: Byte, b: Byte, c: Byte): (Digit, Digit, Digit, Digit) {
    (a / 4, a % 4 * 16 + b / 16, b % 16 * 4 + c / 64, c % 64)
  }

  /** The three bytes of four digits. */
  function Octets(p: Digit, q: Digit, r: Digit, s: Digit): (Byte, Byte, Byte) {
    (p * 4 + q / 16, q % 16 * 16 + r / 4, r % 4 * 64 + s)
  }

  lemma OctetsOfDigits(a: Byte, b: Byte, c: Byte)
    ensures var (p, q, r, s) := Digits(a, b, c); Octets(p, q, r, s) == (a, b, c)
  {
    assert (a % 4 * 16 + b / 16) / 16 == a % 4 && (a % 4 * 16 + b / 16) % 16 == b / 16;
    assert (b % 16 * 4 + c / 64) / 4 == b % 16 && (b % 16 * 4 + c / 64) % 4 == c / 64;
  }

  /** The four letters of three bytes. */
  function Quantum(a: Byte, b: Byte, c: Byte): (t: Bytes)
    ensures |t| == 4 && IsText(t)
  {
    var (p, q, r, s) := Digits(a, b, c);
    [Letter(p), Letter(q), Letter(r), Letter(s)]
  }

  predicate IsText(s: Bytes) { forall i :: 0 <= i < |s| ==> s[i] != PAD && !LineBreak(s[i]) }

  /** The padded text of some bytes. */
  function Encode(src: Bytes): Bytes {
    if src == [] then []
    else if |src| == 1 then Quantum(src[0], 0, 0)[..2] + [PAD, PAD]
    else if |src| == 2 then Quantum(src[0], src[1], 0)[..3] + [PAD]
    else Quantum(src[0], src[1], src[2]) + Encode(src[3..])
  }

  function Clean(src: Bytes): Bytes {
    if src == [] then [] else (if LineBreak(src[0]) then [] else [src[0]]) + Clean(src[1..])
  }

  /** The bytes of one quantum; padding may stand for its last one or two letters. */
  function DecodeQuantum(c0: Byte, c1: Byte, c2: Byte, c3: Byte): Result<Bytes, CorruptInput> {
    if Value(c0).None? || Value(c1).None? then Err(CorruptInput)
    else if c2 == PAD then
      if c3 == PAD then Ok([Octets(Value(c0).value, Value(c1).value, 0, 0).0]) else Err(CorruptInput)
    else if Value(c2).None? then Err(CorruptInput)
    else if c3 == PAD then
      var (a, b, _) := Octets(Value(c0).value, Value(c1).value, Value(c2).value, 0);
      Ok([a, b])
    else if Value(c3).None? then Err(CorruptInput)
    else
      var (a, b, c) := Octets(Value(c0).value, Value(c1).value, Value(c2).value, Value(c3).value);
      Ok([a, b, c])
  }

  /** Decoding without line breaks: a padded quantum must be the last one. */
  function DecodeQuanta(s: Bytes): Result<Bytes, CorruptInput> {
    if s == [] then Ok([])
    else if |s| < 4 then Err(CorruptInput)
    else
      var first :- DecodeQuantum(s[0], s[1], s[2], s[3]);
      if |first| < 3 && |s| > 4 then Err(CorruptInput)
      else
        var rest :- DecodeQuanta(s[4..]);
        Ok(first + rest)
  }

  function Decode(src: Bytes): Result<Bytes, CorruptInput> { DecodeQuanta(Clean(src)) }

  // ---- bcrypt's variants ----

  /** The encoded text without its padding. */
  function Unpadded(src: Bytes): Bytes { Strip(Encode(src)) }

  function Strip(s: Bytes): Bytes {
    if s != [] && s[|s| - 1] == PAD then Strip(s[..|s| - 1]) else s
  }

  function Pads(n: nat): (r: Bytes)
    ensures |r| == n && forall i :: 0 <= i < n ==> r[i] == PAD
  {
    seq(n, _ => PAD)
  }

  /** Four pad characters, not none, for a text of whole quanta. */
  function DecodeUnpadded(src: Bytes): Result<Bytes, CorruptInput> { Decode(src + Pads(4 - |src| % 4)) }

  lemma {:induction false} CleanText(s: Bytes, t: Bytes)
    requires forall i :: 0 <= i < |s| ==> !LineBreak(s[i])
    ensures Clean(s + t) == s + Clean(t)
  {
    if s == [] {
      assert s + t == t;
    } else {
      assert (s + t)[1..] == s[1..] + t;
      CleanText(s[1..], t);
    }
  }

  lemma CleanIsIdentity(s: Bytes)
    requires forall i :: 0 <= i < |s| ==> !LineBreak(s[i])
    ensures Clean(s) == s
  {
    CleanText(s, []);
    assert s + [] == s;
  }

  lemma {:induction false} StripPads(s: Bytes, n: nat)
    requires IsText(s)
    ensures Strip(s + Pads(n)) == s
  {
    if n == 0 {
      assert s + Pads(0) == s;
    } else {
      assert (s + Pads(n))[..|s| + n - 1] == s + Pads(n - 1);
      StripPads(s, n - 1);
    }
  }

  /** An encoded text is letters and then as many pads as bytes are missing to a whole quantum. */
  lemma {:induction false} EncodeSplits(src: Bytes) returns (letters: Bytes, pads: nat)
    ensures Encode(src) == letters + Pads(pads) && IsText(letters)
    ensures pads == Missing(|src|) && |letters| + pads == EncodedLen(|src|)
  {
    hide Quantum, Letter, LineBreak;
    if |src| < 3 {
      pads := Missing(|src|);
      letters := Encode(src)[..|Encode(src)| - pads];
      assert Encode(src) == letters + Pads(pads);
    } else {
      var rest, n := EncodeSplits(src[3..]);
      var quantum := Quantum(src[0], src[1], src[2]);
      letters, pads := quantum + rest, n;
      assert letters + Pads(pads) == quantum + (rest + Pads(n));
    }
  }

  function Missing(n: nat): nat { if n < 3 then if n == 0 then 0 else 3 - n else Missing(n - 3) }

  lemma QuantumDecodes(a: Byte, b: Byte, c: Byte)
    ensures var t := Quantum(a, b, c);
            && DecodeQuantum(t[0], t[1], t[2], t[3]) == Ok([a, b, c])
            && (c == 0 ==> DecodeQuantum(t[0], t[1], t[2], PAD) == Ok([a, b]))
            && (c == 0 && b == 0 ==> DecodeQuantum(t[0], t[1], PAD, PAD) == Ok([a]))
  {
    var (p, q, r, s) := Digits(a, b, c);
    LettersHaveValues(p);
    LettersHaveValues(q);
    LettersHaveValues(r);
    LettersHaveValues(s);
    OctetsOfDigits(a, b, c);
    hide Letter, Value;
  }

  lemma {:induction false} DecodeEncode(src: Bytes)
    ensures DecodeQuanta(Encode(src)) == Ok(src)
  {
    hide Quantum, DecodeQuantum;
    if |src| >= 3 {
      QuantumDecodes(src[0], src[1], src[2]);
      var e := Encode(src);
      assert e[..4] == Quantum(src[0], src[1], src[2]) && e[4..] == Encode(src[3..]);
      DecodeEncode(src[3..]);
      assert src == [src[0], src[1], src[2]] + src[3..];
    } else if |src| == 2 {
      QuantumDecodes(src[0], src[1], 0);
      assert Encode(src)[4..] == [] && src == [src[0], src[1]] + [];
    } else if |src| == 1 {
      QuantumDecodes(src[0], 0, 0);
      assert Encode(src)[4..] == [] && src == [src[0]] + [];
    }
  }

  /** The text has ceil(4n / 3) letters and padding it restores the padded text, unless n is a multiple of three. */
  lemma UnpaddedShape(src: Bytes)
    ensures |Unpadded(src)| == (4 * |src| + 2) / 3 && IsText(Unpadded(src))
    ensures |src| % 3 != 0 ==> Unpadded(src) + Pads(4 - |Unpadded(src)| % 4) == Encode(src)
    ensures |src| % 3 == 0 ==> |Unpadded(src)| % 4 == 0 && Unpadded(src) == Encode(src)
  {
    var letters, pads := EncodeSplits(src);
    StripPads(letters, pads);
    hide Encode, Strip;
    LengthArithmetic(|src|, |letters|, pads);
    if pads == 0 { assert letters + Pads(0) == letters; }
  }

  lemma LengthArithmetic(n: nat, letters: nat, pads: nat)
    requires letters + pads == EncodedLen(n) && pads == Missing(n)
    ensures letters == (4 * n + 2) / 3
    ensures if n % 3 != 0 then pads == 4 - letters % 4 else letters % 4 == 0 && pads == 0
  {
    var q, r := n / 3, n % 3;
    assert n == 3 * q + r;
    hide Missing, EncodedLen;
    LengthsOfThirds(q, r);
    assert letters == if r == 0 then 4 * q else 4 * q + r + 1;
  }

  /** The lengths for 3q + r bytes. */
  lemma LengthsOfThirds(q: nat, r: nat)
    requires r < 3
    ensures Missing(3 * q + r) == if r == 0 then 0 else 3 - r
    ensures EncodedLen(3 * q + r) == if r == 0 then 4 * q else 4 * q + 4
    ensures (4 * (3 * q + r) + 2) / 3 == if r == 0 then 4 * q else 4 * q + r + 1
    ensures (4 * q) % 4 == 0 && (4 * q + 2) % 4 == 2 && (4 * q + 3) % 4 == 3
  {
    MissingFrom(q, r);
  }

  lemma {:induction false} MissingFrom(q: nat, r: nat)
    requires r < 3
    ensures Missing(3 * q + r) == if r == 0 then 0 else 3 - r
  {
    if q > 0 {
      MissingFrom(q - 1, r);
      assert 3 * q + r - 3 == 3 * (q - 1) + r;
    }
  }

  /** A text whose length is a multiple of four is always refused: four pads are never well-placed. */
  lemma WholeQuantaAreRefused(src: Bytes)
    requires |src| % 4 == 0
    ensures DecodeUnpadded(src).Err?
  {
    CleanPads(src, 4);
    PadsAreRefused(Clean(src));
  }

  lemma {:induction false} CleanPads(s: Bytes, n: nat)
    ensures Clean(s + Pads(n)) == Clean(s) + Pads(n)
  {
    if s == [] {
      assert s + Pads(n) == Pads(n);
      CleanIsIdentity(Pads(n));
    } else {
      assert (s + Pads(n))[1..] == s[1..] + Pads(n);
      CleanPads(s[1..], n);
    }
  }

  lemma {:induction false} PadsAreRefused(s: Bytes)
    ensures DecodeQuanta(s + Pads(4)).Err?
  {
    var t := s + Pads(4);
    if |s| >= 4 {
      assert t[4..] == s[4..] + Pads(4);
      PadsAreRefused(s[4..]);
    } else {
      assert t[|s|] == PAD;
    }
  }

  /** Encoding and decoding are inverse exactly for lengths that are not multiples of three. */
  lemma RoundTrip(src: Bytes)
    ensures DecodeUnpadded(Unpadded(src)) == Ok(src) <==> |src| % 3 != 0
    ensures |src| % 3 == 0 ==> DecodeUnpadded(Unpadded(src)).Err?
  {
    UnpaddedShape(src);
    hide Unpadded, Decode;
    if |src| % 3 == 0 {
      WholeQuantaAreRefused(Unpadded(src));
    } else {
      DecodeEncode(src);
      EncodedIsClean(src);
    }
  }

  lemma EncodedIsClean(src: Bytes)
    ensures Decode(Encode(src)) == DecodeQuanta(Encode(src))
  {
    var letters, pads := EncodeSplits(src);
    CleanIsIdentity(Encode(src));
  }
}
