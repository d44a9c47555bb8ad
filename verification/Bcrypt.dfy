/**
 The encoding layer of bcrypt: building, printing and parsing hash records, and comparing a password
 with one. Blowfish is any deterministic cipher. Go slices are modelled with their capacity, because
 the code appends to a salt slice that others still hold.
 */
module Bcrypt {
  import opened Wrappers
  import opened Base64

  // ---- slices ----

  /** A Go slice: length and capacity within an array it may share with other slices. */
  datatype Slice = Slice(arr: array<Byte>, off: nat, len: nat, cap: nat)

  predicate Fits(s: Slice) { s.len <= s.cap && s.off + s.cap <= s.arr.Length }

  function View(s: Slice): Bytes
    requires Fits(s)
    reads s.arr
  {
    s.arr[s.off..s.off + s.len]
  }

  /** Appending writes into spare capacity in place and copies only when there is none. */
  method Append(s: Slice, b: Byte) returns (r: Slice)
    requires Fits(s)
    modifies if s.len < s.cap then {s.arr} else {}
    ensures Fits(r) && View(r) == old(View(s)) + [b]
    ensures s.len < s.cap ==> r == s.(len := s.len + 1)
    ensures s.len == s.cap ==> fresh(r.arr)
    ensures forall i :: 0 <= i < s.arr.Length && i != s.off + s.len ==> s.arr[i] == old(s.arr[i])
  {
    if s.len < s.cap {
      s.arr[s.off + s.len] := b;
      r := s.(len := s.len + 1);
    } else {
      var grown := new Byte[2 * s.cap + 1](_ => 0);
      var i := 0;
      while i < s.len
        invariant 0 <= i <= s.len
        invariant grown[..i] == View(s)[..i]
      {
        grown[i] := s.arr[s.off + i];
        i := i + 1;
      }
      grown[s.len] := b;
      r := Slice(grown, 0, s.len + 1, grown.Length);
    }
  }

  /** Go's copy into the rest of an array: as much as there is and as fits. */
  method Copy(arr: array<Byte>, n: nat, src: Bytes)
    requires n <= arr.Length
    modifies arr
    ensures arr[..n] == old(arr[..n])
    ensures forall i :: n <= i < arr.Length ==> arr[i] == if i - n < |src| then src[i - n] else old(arr[i])
  {
    var m := if |src| <= arr.Length - n then |src| else arr.Length - n;
    forall i | 0 <= i < m { arr[n + i] := src[i]; }
  }

  /** Copying a piece that fits behind what is there, into space that is still zero. */
  method AppendTo(arr: array<Byte>, n: nat, src: Bytes) returns (end: nat)
    requires n + |src| <= arr.Length && forall i :: n <= i < arr.Length ==> arr[i] == 0
    modifies arr
    ensures end == n + |src| && arr[..end] == old(arr[..n]) + src
    ensures forall i :: end <= i < arr.Length ==> arr[i] == 0
  {
    Copy(arr, n, src);
    end := n + |src|;
    assert arr[..end] == arr[..n] + arr[n..end];
    assert arr[n..end] == src;
  }

  /** base64Encode; the empty input is an index out of range in the original. */
  method Base64Encode(src: Slice) returns (r: Slice)
    requires Fits(src) && src.len > 0
    ensures Fits(r) && fresh(r.arr) && r.cap == EncodedLen(src.len)
    ensures View(r) == Unpadded(View(src))
  {
    ghost var letters := EncodedText(View(src));
    hide Encode, Strip;
    var text := Encode(View(src));
    var dst := new Byte[|text|](i requires 0 <= i < |text| => text[i]);
    var n := |text|;
    assert dst[..] == text && text[..n] == text;
    while dst[n - 1] == PAD
      invariant |letters| <= n <= |text|
      invariant Strip(text[..n]) == Strip(text)
      modifies {}
      decreases n
    {
      assert n > |letters|;
      StripEnd(text, n);
      n := n - 1;
    }
    StripEnd(text, n);
    r := Slice(dst, 0, n, |text|);
    assert View(r) == dst[..][..n];
  }

  /** The text of some bytes starts with a letter; all it has of pads is behind the letters. */
  lemma EncodedText(src: Bytes) returns (letters: Bytes)
    requires |src| > 0
    ensures 1 <= |letters| <= |Encode(src)| == EncodedLen(|src|)
    ensures letters <= Encode(src) && IsText(letters)
  {
    var pads;
    letters, pads := EncodeSplits(src);
    LengthsOfThirds(|src| / 3, |src| % 3);
  }

  lemma StripEnd(text: Bytes, n: nat)
    requires 0 < n <= |text|
    ensures Strip(text[..n]) == if text[n - 1] == PAD then Strip(text[..n - 1]) else text[..n]
  {
    assert text[..n][..n - 1] == text[..n - 1];
  }

  /**
   base64Decode. The pads may be written behind the visible bytes of the slice, in its spare
   capacity, but the visible bytes and everything outside the slice stay as they are.
   */
  method Base64Decode(src: Slice) returns (r: Result<Bytes, CorruptInput>)
    requires Fits(src)
    modifies src.arr
    ensures r == DecodeUnpadded(old(View(src)))
    ensures View(src) == old(View(src))
    ensures forall i :: 0 <= i < src.arr.Length && !(src.off + src.len <= i < src.off + src.cap) ==> src.arr[i] == old(src.arr[i])
  {
    hide Decode;
    var s := AppendPads(src, 4 - src.len % 4);
    return Decode(View(s));
  }

  lemma PadsGrow(text: Bytes, n: nat)
    ensures text + Pads(n) + [PAD] == text + Pads(n + 1)
  {
    assert Pads(n + 1) == Pads(n) + [PAD];
  }

  /** The loop that appends the pads: into the spare capacity while there is some, then into a copy. */
  method AppendPads(src: Slice, n: nat) returns (s: Slice)
    requires Fits(src)
    modifies src.arr
    ensures Fits(s) && View(s) == old(View(src)) + Pads(n)
    ensures View(src) == old(View(src))
    ensures forall i :: 0 <= i < src.arr.Length && !(src.off + src.len <= i < src.off + src.cap) ==> src.arr[i] == old(src.arr[i])
  {
    s := src;
    ghost var text := View(src);
    for i := 0 to n
      invariant Fits(s) && View(s) == text + Pads(i)
      invariant s == src.(len := src.len + i) || fresh(s.arr)
      invariant forall k :: 0 <= k < src.arr.Length && !(src.off + src.len <= k < src.off + src.cap) ==> src.arr[k] == old(src.arr[k])
      modifies src.arr, s.arr
    {
      s := Append(s, PAD);
      PadsGrow(text, i);
    }
    assert View(src) == text;
  }

  // ---- the cipher ----

  type Block = b: Bytes | |b| == 8 witness [0, 0, 0, 0, 0, 0, 0, 0]

  /** Blowfish: key setup with a salt, key expansion, and encryption of one block. */
  datatype Blowfish<!C> = Blowfish(
    saltedCipher: (Bytes, Bytes) -> C,
    expandKey: (Bytes, C) -> C,
    encrypt: (C, Block) -> Block)

  datatype Error =
    | PasswordTooLong
    | IncorrectSaltLength
    | InvalidCost(cost: int)
    | HashTooShort
    | InvalidHashPrefix(first: Byte)
    | HashVersionTooNew(version: Byte)
    | NotANumber
    | Corrupt
    | Mismatched

  const MIN_COST := 4
  const MAX_COST := 31
  const DEFAULT_COST := 10
  const ENCODED_SALT_SIZE := 22
  const ENCODED_HASH_SIZE := 31
  const MIN_HASH_SIZE := 59

  const DOLLAR: Byte := 36
  const MAJOR_VERSION: Byte := 50
  const MINOR_VERSION: Byte := 97

  /** OrpheanBeholderScryDoubt */
  const MAGIC: Bytes := [
    0x4f, 0x72, 0x70, 0x68, 0x65, 0x61, 0x6e, 0x42,
    0x65, 0x68, 0x6f, 0x6c, 0x64, 0x65, 0x72, 0x53,
    0x63, 0x72, 0x79, 0x44, 0x6f, 0x75, 0x62, 0x74]

  function Pow2(n: nat): nat { if n == 0 then 1 else 2 * Pow2(n - 1) }

  function Expanded<C>(bf: Blowfish<C>, key: Bytes, salt: Bytes, rounds: nat): C {
    if rounds == 0 then bf.saltedCipher(key, salt)
    else bf.expandKey(salt, bf.expandKey(key, Expanded(bf, key, salt, rounds - 1)))
  }

  function Encrypted<C>(bf: Blowfish<C>, c: C, block: Block, times: nat): Block {
    if times == 0 then block else bf.encrypt(c, Encrypted(bf, c, block, times - 1))
  }

  /** The first k blocks of the data, each encrypted 64 times. */
  function CipherText<C>(bf: Blowfish<C>, c: C, k: nat): (r: Bytes)
    requires k <= 3
    ensures |r| == 8 * k
  {
    if k == 0 then [] else CipherText(bf, c, k - 1) + Encrypted(bf, c, MAGIC[8 * (k - 1)..8 * k], 64)
  }

  /** bcrypt of a password: its key is the password and a zero byte. */
  function BcryptOf<C>(bf: Blowfish<C>, password: Bytes, cost: nat, salt: Bytes): Result<Bytes, Error> {
    match DecodeUnpadded(salt)
    case Err(_) => Err(Corrupt)
    case Ok(csalt) => Ok(Unpadded(CipherText(bf, Expanded(bf, password + [0], csalt, Pow2(cost)), 3)[..23]))
  }

  /** The key is copied before a byte is appended, so the password's array is never written. */
  method ExpensiveBlowfishSetup<C>(bf: Blowfish<C>, key: Slice, cost: nat, salt: Slice) returns (r: Result<C, Error>)
    requires Fits(key) && Fits(salt) && key.arr != salt.arr
    modifies salt.arr
    ensures View(salt) == old(View(salt))
    ensures match DecodeUnpadded(old(View(salt)))
            case Err(_) => r == Err(Corrupt)
            case Ok(csalt) => r == Ok(Expanded(bf, View(key) + [0], csalt, Pow2(cost)))
  {
    ghost var text := View(salt);
    var decoded := Base64Decode(salt);
    if decoded.Err? { return Err(Corrupt); }
    var csalt := decoded.value;
    var appended := Append(key.(cap := key.len), 0);
    var ckey := View(appended);
    assert ckey == View(key) + [0];
    var c := bf.saltedCipher(ckey, csalt);
    var rounds := Pow2(cost);
    for i := 0 to rounds
      invariant c == Expanded(bf, ckey, csalt, i)
    {
      c := bf.expandKey(ckey, c);
      c := bf.expandKey(csalt, c);
    }
    return Ok(c);
  }

  /** The inner loop of bcrypt: 64 encryptions of one block in place. */
  method EncryptBlock<C>(bf: Blowfish<C>, c: C, data: array<Byte>, i: nat)
    requires i + 8 <= data.Length
    modifies data
    ensures data[..i + 8] == old(data[..i]) + Encrypted(bf, c, old(data[i..])[..8], 64)
    ensures data[i + 8..] == old(data[i..])[8..]
  {
    assert data[i..i + 8] == data[i..][..8];
    for j := 0 to 64
      invariant data[..i] == old(data[..i]) && data[i + 8..] == old(data[i + 8..])
      invariant data[i..i + 8] == Encrypted(bf, c, old(data[i..i + 8]), j)
    {
      var out := bf.encrypt(c, data[i..i + 8]);
      forall b | 0 <= b < 8 { data[i + b] := out[b]; }
      assert data[i..i + 8] == out;
    }
    assert data[..i + 8] == data[..i] + data[i..i + 8];
  }

  method EncryptBlocks<C>(bf: Blowfish<C>, c: C, cipherData: array<Byte>)
    requires cipherData[..] == MAGIC
    modifies cipherData
    ensures cipherData[..] == CipherText(bf, c, 3)
  {
    hide Encrypted;
    for k := 0 to 3
      invariant cipherData[..8 * k] == CipherText(bf, c, k)
      invariant cipherData[8 * k..] == MAGIC[8 * k..]
    {
      EncryptBlock(bf, c, cipherData, 8 * k);
      assert MAGIC[8 * k..][..8] == MAGIC[8 * k..8 * (k + 1)] && MAGIC[8 * k..][8..] == MAGIC[8 * (k + 1)..];
    }
    assert cipherData[..] == cipherData[..24];
  }

  /** bcrypt: only 23 of the 24 encrypted bytes are encoded. */
  method Bcrypt<C>(bf: Blowfish<C>, password: Slice, cost: nat, salt: Slice) returns (r: Result<Bytes, Error>)
    requires Fits(password) && Fits(salt) && password.arr != salt.arr
    modifies salt.arr
    ensures View(salt) == old(View(salt))
    ensures r == BcryptOf(bf, View(password), cost, old(View(salt)))
  {
    hide Encrypted, CipherText, Unpadded, DecodeUnpadded, Expanded, Pow2;
    var cipherData := new Byte[24](i requires 0 <= i < 24 => MAGIC[i]);
    assert cipherData[..] == MAGIC;
    var setup := ExpensiveBlowfishSetup(bf, password, cost, salt);
    if setup.Err? { return Err(Corrupt); }
    EncryptBlocks(bf, setup.value, cipherData);
    var input := Slice(cipherData, 0, 23, 24);
    assert View(input) == cipherData[..][..23];
    var hsh := Base64Encode(input);
    return Ok(View(hsh));
  }

  // ---- hash records ----

  datatype Record = Record(hash: Bytes, salt: Bytes, cost: int, major: Byte, minor: Byte)

  predicate CostInRange(cost: int) { MIN_COST <= cost <= MAX_COST }

  /** Two decimal digits. */
  function CostDigits(cost: int): (r: Bytes)
    requires CostInRange(cost)
    ensures |r| == 2
  {
    [48 + cost / 10, 48 + cost % 10]
  }

  /** Copying into zeroed space of fixed size. */
  function Fit(hash: Bytes, n: nat): (r: Bytes)
    ensures |r| == n
  {
    if |hash| >= n then hash[..n] else hash + seq(n - |hash|, _ => 0)
  }

  lemma FitIs(hash: Bytes, n: nat, s: Bytes)
    requires |s| == n && forall i :: 0 <= i < n ==> s[i] == if i < |hash| then hash[i] else 0
    ensures s == Fit(hash, n)
  {
  }

  /** Copying a hash behind what is there and going on as if it had its usual size. */
  method AppendFitted(arr: array<Byte>, n: nat, hash: Bytes) returns (end: nat)
    requires n + ENCODED_HASH_SIZE <= arr.Length && forall i :: n <= i < arr.Length ==> arr[i] == 0
    modifies arr
    ensures end == n + ENCODED_HASH_SIZE && arr[..end] == old(arr[..n]) + Fit(hash, ENCODED_HASH_SIZE)
  {
    Copy(arr, n, hash);
    end := n + ENCODED_HASH_SIZE;
    hide Fit;
    FitIs(hash, ENCODED_HASH_SIZE, arr[n..end]);
    assert arr[..end] == arr[..n] + arr[n..end];
  }

  /** The part before the cost. */
  function Version(p: Record): Bytes {
    [DOLLAR, p.major] + (if p.minor != 0 then [p.minor] else []) + [DOLLAR]
  }

  function Printed(p: Record): Bytes
    requires CostInRange(p.cost)
  {
    Version(p) + CostDigits(p.cost) + [DOLLAR] + (p.salt + Fit(p.hash, ENCODED_HASH_SIZE))
  }

  /** strconv.Atoi of two characters: a sign may take the place of the first digit. */
  function TwoCharacterNumber(a: Byte, b: Byte): Option<int> {
    if !(48 <= b <= 57) then None
    else if 48 <= a <= 57 then Some((a - 48) * 10 + b - 48)
    else if a == 43 then Some(b - 48)
    else if a == 45 then Some(48 - b)
    else None
  }

  function VersionLength(s: Bytes): nat
    requires |s| >= 3
  {
    if s[2] != DOLLAR then 4 else 3
  }

  function Parsed(s: Bytes): Result<Record, Error> {
    if |s| < MIN_HASH_SIZE then Err(HashTooShort)
    else if s[0] != DOLLAR then Err(InvalidHashPrefix(s[0]))
    else if s[1] > MAJOR_VERSION then Err(HashVersionTooNew(s[1]))
    else
      var n := VersionLength(s);
      var cost := TwoCharacterNumber(s[n], s[n + 1]);
      if cost.None? then Err(NotANumber)
      else if !CostInRange(cost.value) then Err(InvalidCost(cost.value))
      else
        var rest := s[n + 3..];
        Ok(Record(rest[ENCODED_SALT_SIZE..], rest[..ENCODED_SALT_SIZE], cost.value, s[1], if n == 4 then s[2] else 0))
  }

  /** A record as the code makes them. A minor version of zero stands for none. */
  predicate Proper(p: Record) {
    && CostInRange(p.cost) && p.major <= MAJOR_VERSION && p.minor != DOLLAR
    && |p.salt| == ENCODED_SALT_SIZE && |p.hash| == ENCODED_HASH_SIZE
  }

  lemma CostRoundTrip(cost: int)
    requires CostInRange(cost)
    ensures TwoCharacterNumber(CostDigits(cost)[0], CostDigits(cost)[1]) == Some(cost)
  {
  }

  lemma Slices(a: Bytes, b: Bytes, c: Bytes, d: Bytes)
    ensures var s := a + b + c + d;
            && |s| == |a| + |b| + |c| + |d|
            && s[..|a|] == a && s[|a|..|a| + |b|] == b && s[|a| + |b| + |c|..] == d
  {
  }

  lemma VersionIsRead(p: Record, s: Bytes)
    requires Proper(p) && |s| >= MIN_HASH_SIZE && Version(p) <= s
    ensures s[0] == DOLLAR && s[1] == p.major && VersionLength(s) == |Version(p)|
    ensures (if VersionLength(s) == 4 then s[2] else 0) == p.minor
  {
    var v := Version(p);
    assert s[0] == v[0] && s[1] == v[1] && s[2] == v[2];
  }

  /** Printing a proper record and parsing what was printed, with or without a minor version, whatever follows it. */
  lemma ParsePrinted(p: Record, trailing: Bytes)
    requires Proper(p)
    ensures Parsed(Printed(p) + trailing) == Ok(p.(hash := p.hash + trailing))
  {
    var s, v, digits := Printed(p) + trailing, Version(p), CostDigits(p.cost);
    var body := p.salt + (p.hash + trailing);
    assert s == v + digits + [DOLLAR] + body by {
      hide CostDigits, Version;
      assert Fit(p.hash, ENCODED_HASH_SIZE) == p.hash;
      assert p.salt + p.hash + trailing == body;
    }
    Slices(v, digits, [DOLLAR], body);
    VersionIsRead(p, s);
    CostRoundTrip(p.cost);
    hide TwoCharacterNumber, CostDigits, Version, Printed;
    assert s[|v|] == s[|v|..|v| + 2][0] && s[|v| + 1] == s[|v|..|v| + 2][1];
    assert body[..ENCODED_SALT_SIZE] == p.salt && body[ENCODED_SALT_SIZE..] == p.hash + trailing;
  }

  /**
   Which texts are refused, and for what, in this order: short ones, those without a dollar first, versions above
   2, costs that are no number and costs out of range. All others are read: the rest behind version and cost is
   salt and hash, every byte of it.
   */
  lemma ParseFailures(s: Bytes)
    ensures var r := Parsed(s);
            && (|s| < 59 <==> r == Err(HashTooShort))
            && (|s| >= 59 && s[0] != 36 ==> r == Err(InvalidHashPrefix(s[0])))
            && (|s| >= 59 && s[0] == 36 && s[1] > 50 ==> r == Err(HashVersionTooNew(s[1])))
            && (|s| >= 59 && s[0] == 36 && s[1] <= 50 ==>
                  var n := if s[2] == 36 then 3 else 4;
                  var cost := TwoCharacterNumber(s[n], s[n + 1]);
                  && (48 <= s[n] <= 57 && 48 <= s[n + 1] <= 57 ==> cost == Some(10 * (s[n] - 48) + (s[n + 1] - 48)))
                  && (cost == None ==> r == Err(NotANumber))
                  && (cost.Some? && !(4 <= cost.value <= 31) ==> r == Err(InvalidCost(cost.value)))
                  && (cost.Some? && 4 <= cost.value <= 31 ==>
                        && r.Ok? && r.value.cost == cost.value && r.value.major == s[1]
                        && r.value.minor == (if n == 4 then s[2] else 0)
                        && |r.value.salt| == 22 && s == s[..n + 3] + r.value.salt + r.value.hash))
  {
    hide TwoCharacterNumber;
    if |s| >= 59 && Parsed(s).Ok? {
      var n := if s[2] == 36 then 3 else 4;
      assert s == s[..n + 3] + s[n + 3..] && s[n + 3..] == s[n + 3..][..22] + s[n + 3..][22..];
    }
    if |s| >= 59 {
      var n := if s[2] == 36 then 3 else 4;
      DigitsAreDecimal(s[n], s[n + 1]);
    }
  }

  lemma DigitsAreDecimal(a: Byte, b: Byte)
    ensures 48 <= a <= 57 && 48 <= b <= 57 ==> TwoCharacterNumber(a, b) == Some(10 * (a - 48) + (b - 48))
  {
  }

  /** The record as the code holds it. Its salt slice has room for the pads of base64Decode. */
  class Hashed {
    var hash: Bytes
    var salt: Slice
    var cost: int
    var major: Byte
    var minor: Byte

    constructor ()
      ensures fresh(salt.arr) && Fits(salt)
    {
      var none := new Byte[0];
      hash, salt, cost, major, minor := [], Slice(none, 0, 0, 0), 0, 0, 0;
    }

    ghost predicate Valid()
      reads this
    {
      Fits(salt) && salt.len == ENCODED_SALT_SIZE && CostInRange(cost)
    }

    ghost function Value(): Record
      requires Fits(salt)
      reads this, salt.arr
    {
      Record(hash, View(salt), cost, major, minor)
    }

    /** The part of Hash before the cost. */
    method HashVersion(arr: array<Byte>) returns (n: nat)
      requires Fits(salt) && arr.Length == 60 && arr != salt.arr && forall i :: 0 <= i < 60 ==> arr[i] == 0
      modifies arr
      ensures n <= 4 && arr[..n] == Version(Value()) && forall i :: n <= i < 60 ==> arr[i] == 0
    {
      arr[0], arr[1] := DOLLAR, major;
      n := 2;
      if minor != 0 {
        arr[2] := minor;
        n := 3;
      }
      arr[n] := DOLLAR;
      n := n + 1;
    }

    method Hash() returns (r: Bytes)
      requires Valid()
      ensures r == Printed(Value())
    {
      hide CostDigits, Version, Fit;
      var arr := new Byte[60](_ => 0);
      var n := HashVersion(arr);
      n := AppendTo(arr, n, CostDigits(cost));
      n := AppendTo(arr, n, [DOLLAR]);
      n := AppendTo(arr, n, View(salt));
      n := AppendFitted(arr, n, hash);
      return arr[..n];
    }

    method DecodeVersion(s: Bytes) returns (r: Result<nat, Error>)
      requires |s| >= MIN_HASH_SIZE && minor == 0
      modifies this`major, this`minor
      ensures s[0] != DOLLAR ==> r == Err(InvalidHashPrefix(s[0]))
      ensures s[0] == DOLLAR && s[1] > MAJOR_VERSION ==> r == Err(HashVersionTooNew(s[1]))
      ensures s[0] == DOLLAR && s[1] <= MAJOR_VERSION ==>
                r == Ok(VersionLength(s)) && major == s[1] && minor == if VersionLength(s) == 4 then s[2] else 0
    {
      if s[0] != DOLLAR { return Err(InvalidHashPrefix(s[0])); }
      if s[1] > MAJOR_VERSION { return Err(HashVersionTooNew(s[1])); }
      major := s[1];
      var n := 3;
      if s[2] != DOLLAR {
        minor := s[2];
        n := n + 1;
      }
      return Ok(n);
    }

    method DecodeCost(s: Bytes) returns (r: Result<nat, Error>)
      requires |s| >= 2
      modifies this`cost
      ensures match TwoCharacterNumber(s[0], s[1])
              case None => r == Err(NotANumber)
              case Some(c) => if CostInRange(c) then r == Ok(3) && cost == c else r == Err(InvalidCost(c))
    {
      var number := TwoCharacterNumber(s[0], s[1]);
      if number.None? { return Err(NotANumber); }
      if !CostInRange(number.value) { return Err(InvalidCost(number.value)); }
      cost := number.value;
      return Ok(3);
    }
  }

  method NewFromHash(hashedSecret: Bytes) returns (r: Result<Hashed, Error>)
    ensures r.Ok? ==> fresh(r.value) && fresh(r.value.salt.arr) && r.value.Valid()
    ensures Parsed(hashedSecret) == if r.Ok? then Ok(r.value.Value()) else Err(r.error)
  {
    if |hashedSecret| < MIN_HASH_SIZE { return Err(HashTooShort); }
    var p := new Hashed();
    p.minor := 0;
    var n := p.DecodeVersion(hashedSecret);
    if n.Err? { return Err(n.error); }
    var rest := hashedSecret[n.value..];
    assert rest[0] == hashedSecret[n.value] && rest[1] == hashedSecret[n.value + 1];
    var skip := p.DecodeCost(rest);
    if skip.Err? { return Err(skip.error); }
    assert rest[skip.value..] == hashedSecret[n.value + 3..];
    rest := rest[skip.value..];
    var arr := new Byte[ENCODED_SALT_SIZE + 2](i requires 0 <= i < 24 => if i < ENCODED_SALT_SIZE then rest[i] else 0);
    p.salt := Slice(arr, 0, ENCODED_SALT_SIZE, ENCODED_SALT_SIZE + 2);
    p.hash := rest[ENCODED_SALT_SIZE..];
    assert View(p.salt) == rest[..ENCODED_SALT_SIZE];
    return Ok(p);
  }

  method NewFromPassword<C>(bf: Blowfish<C>, password: Slice, salt: Slice, cost: int) returns (r: Result<Hashed, Error>)
    requires Fits(password) && Fits(salt) && salt.len == 16
    ensures r.Ok? ==> fresh(r.value) && r.value.Valid()
    ensures FromPassword(bf, View(password), View(salt), cost) == if r.Ok? then Ok(r.value.Value()) else Err(r.error)
  {
    hide Unpadded, BcryptOf;
    var chosen := if cost < MIN_COST then DEFAULT_COST else cost;
    if !CostInRange(chosen) { return Err(InvalidCost(chosen)); }
    var p := new Hashed();
    p.major, p.minor, p.cost := MAJOR_VERSION, MINOR_VERSION, chosen;
    UnpaddedShape(View(salt));
    p.salt := Base64Encode(salt);
    var hash := Bcrypt(bf, password, p.cost, p.salt);
    if hash.Err? { return Err(hash.error); }
    p.hash := hash.value;
    return Ok(p);
  }

  // ---- generating and comparing ----

  function FromPassword<C>(bf: Blowfish<C>, password: Bytes, salt: Bytes, cost: int): Result<Record, Error> {
    var chosen := if cost < MIN_COST then DEFAULT_COST else cost;
    if !CostInRange(chosen) then Err(InvalidCost(chosen))
    else
      var hash :- BcryptOf(bf, password, chosen, Unpadded(salt));
      Ok(Record(hash, Unpadded(salt), chosen, MAJOR_VERSION, MINOR_VERSION))
  }

  function Generated<C>(bf: Blowfish<C>, password: Bytes, salt: Bytes, cost: int): Result<Bytes, Error> {
    if |password| > 72 then Err(PasswordTooLong)
    else if |salt| != 16 then Err(IncorrectSaltLength)
    else
      var p :- FromPassword(bf, password, salt, cost);
      Ok(Printed(p))
  }

  method GenerateFromPasswordWithSalt<C>(bf: Blowfish<C>, password: Slice, salt: Slice, cost: int) returns (r: Result<Bytes, Error>)
    requires Fits(password) && Fits(salt)
    ensures r == Generated(bf, View(password), View(salt), cost)
  {
    if password.len > 72 { return Err(PasswordTooLong); }
    if salt.len != 16 { return Err(IncorrectSaltLength); }
    hide FromPassword, Printed;
    var p := NewFromPassword(bf, password, salt, cost);
    if p.Err? { return Err(p.error); }
    var h := p.value.Hash();
    return Ok(h);
  }

  function Compared<C>(bf: Blowfish<C>, hashedPassword: Bytes, password: Bytes): Option<Error> {
    var parsed := Parsed(hashedPassword);
    if parsed.Err? then Some(parsed.error)
    else
      var p := parsed.value;
      var other := BcryptOf(bf, password, p.cost, p.salt);
      if other.Err? then Some(other.error)
      else if Printed(p) == Printed(p.(hash := other.value)) then None
      else Some(Mismatched)
  }

  method CompareHashAndPassword<C>(bf: Blowfish<C>, hashedPassword: Bytes, password: Slice) returns (r: Option<Error>)
    requires Fits(password)
    ensures r == Compared(bf, hashedPassword, View(password))
  {
    hide Parsed, BcryptOf, Printed;
    var parsed := NewFromHash(hashedPassword);
    if parsed.Err? { return Some(parsed.error); }
    var p := parsed.value;
    var otherHash := Bcrypt(bf, password, p.cost, p.salt);
    if otherHash.Err? { return Some(otherHash.error); }
    var otherP := new Hashed();
    otherP.hash, otherP.salt, otherP.cost, otherP.major, otherP.minor := otherHash.value, p.salt, p.cost, p.major, p.minor;
    var a := p.Hash();
    var b := otherP.Hash();
    return if a == b then None else Some(Mismatched);
  }

  lemma BcryptOfDecodedSalt<C>(bf: Blowfish<C>, password: Bytes, salt: Bytes, cost: nat)
    requires |salt| == 16
    ensures BcryptOf(bf, password, cost, Unpadded(salt)) ==
            Ok(Unpadded(CipherText(bf, Expanded(bf, password + [0], salt, Pow2(cost)), 3)[..23]))
  {
    hide Unpadded, DecodeUnpadded, Expanded, Pow2, CipherText;
    RoundTrip(salt);
  }

  lemma BcryptOfEncodedSalt<C>(bf: Blowfish<C>, password: Bytes, salt: Bytes, cost: nat)
    requires |salt| == 16
    ensures |Unpadded(salt)| == ENCODED_SALT_SIZE
    ensures BcryptOf(bf, password, cost, Unpadded(salt)).Ok?
    ensures |BcryptOf(bf, password, cost, Unpadded(salt)).value| == ENCODED_HASH_SIZE
  {
    hide Unpadded, BcryptOf, CipherText, Expanded, Pow2;
    UnpaddedShape(salt);
    BcryptOfDecodedSalt(bf, password, salt, cost);
    UnpaddedShape(CipherText(bf, Expanded(bf, password + [0], salt, Pow2(cost)), 3)[..23]);
  }

  /** Generating fails for exactly three reasons, tested in this order. */
  lemma GenerateFailures<C>(bf: Blowfish<C>, password: Bytes, salt: Bytes, cost: int)
    ensures var r := Generated(bf, password, salt, cost);
            && (r.Ok? <==> |password| <= 72 && |salt| == 16 && cost <= MAX_COST)
            && (r.Err? ==> r.error == if |password| > 72 then PasswordTooLong
                                      else if |salt| != 16 then IncorrectSaltLength else InvalidCost(cost))
            && (r.Ok? ==> |r.value| == 60)
  {
    if |salt| == 16 {
      var chosen := if cost < MIN_COST then DEFAULT_COST else cost;
      if CostInRange(chosen) { BcryptOfEncodedSalt(bf, password, salt, chosen); }
      hide BcryptOf, Unpadded;
    }
  }

  /** The text of a record of version 2a, piece by piece. */
  lemma PrintedText(p: Record)
    requires CostInRange(p.cost) && p.major == MAJOR_VERSION && p.minor == MINOR_VERSION && |p.salt| == ENCODED_SALT_SIZE
    ensures var text := Printed(p);
            && |text| == 60 && text[..4] == [36, 50, 97, 36] && text[6] == 36
            && text[4] == 48 + p.cost / 10 && text[5] == 48 + p.cost % 10
            && text[7..29] == p.salt
  {
    var text, digits, tail := Printed(p), CostDigits(p.cost), p.salt + Fit(p.hash, ENCODED_HASH_SIZE);
    Slices(Version(p), digits, [DOLLAR], tail);
    assert Version(p) == [36, 50, 97, 36];
    hide Fit, Printed, Version;
    assert text[4] == text[4..6][0] && text[5] == text[4..6][1];
    assert text[6..] == [DOLLAR] + tail;
    assert text[7..29] == p.salt;
  }

  /** What a generated hash says about itself: version 2a, the cost in two digits, 10 if less than 4 was asked for, and the salt. */
  lemma GeneratedText<C>(bf: Blowfish<C>, password: Bytes, salt: Bytes, cost: int)
    requires Generated(bf, password, salt, cost).Ok?
    ensures var text, chosen := Generated(bf, password, salt, cost).value, if cost < 4 then 10 else cost;
            && |text| == 60 && text[..4] == [36, 50, 97, 36] && text[6] == 36
            && text[4] == 48 + chosen / 10 && text[5] == 48 + chosen % 10
            && text[7..29] == Unpadded(salt)
  {
    hide BcryptOf, Unpadded, Printed, CostDigits;
    var r := FromPassword(bf, password, salt, cost).value;
    BcryptOfEncodedSalt(bf, password, salt, r.cost);
    PrintedText(r);
  }

  /**
   Whatever GenerateFromPasswordWithSalt produces, CompareHashAndPassword accepts with the same
   password, also with anything appended to the hash.
   */
  lemma CompareAcceptsGenerated<C>(bf: Blowfish<C>, password: Bytes, salt: Bytes, cost: int, trailing: Bytes)
    requires |password| <= 72 && |salt| == 16 && cost <= MAX_COST
    ensures Generated(bf, password, salt, cost).Ok?
    ensures Compared(bf, Generated(bf, password, salt, cost).value + trailing, password) == None
  {
    var chosen := if cost < MIN_COST then DEFAULT_COST else cost;
    BcryptOfEncodedSalt(bf, password, salt, chosen);
    hide BcryptOf, Unpadded;
    var p := FromPassword(bf, password, salt, cost).value;
    ParsePrinted(p, trailing);
    hide Parsed;
    assert Fit(p.hash + trailing, ENCODED_HASH_SIZE) == p.hash == Fit(p.hash, ENCODED_HASH_SIZE);
  }

  /**
   For a proper record the comparison is exactly equality of the hashes: it accepts those passwords
   whose bcrypt under the record's cost and salt is the record's hash.
   */
  lemma CompareIsHashEquality<C>(bf: Blowfish<C>, p: Record, password: Bytes)
    requires Proper(p) && DecodeUnpadded(p.salt).Ok?
    ensures Compared(bf, Printed(p), password) == None <==> BcryptOf(bf, password, p.cost, p.salt) == Ok(p.hash)
  {
    ParsePrinted(p, []);
    assert Printed(p) + [] == Printed(p) && p.hash + [] == p.hash;
    var c := Expanded(bf, password + [0], DecodeUnpadded(p.salt).value, Pow2(p.cost));
    UnpaddedShape(CipherText(bf, c, 3)[..23]);
    hide Parsed, Unpadded, DecodeUnpadded, CipherText, Expanded, Pow2;
    var other := BcryptOf(bf, password, p.cost, p.salt).value;
    assert |other| == ENCODED_HASH_SIZE;
    PrintedHash(p, other);
  }

  lemma PrintedHash(p: Record, other: Bytes)
    requires Proper(p) && |other| == ENCODED_HASH_SIZE
    ensures Printed(p) == Printed(p.(hash := other)) <==> p.hash == other
  {
    var q := p.(hash := other);
    Slices(Version(p), CostDigits(p.cost), [DOLLAR], p.salt + Fit(p.hash, ENCODED_HASH_SIZE));
    Slices(Version(p), CostDigits(p.cost), [DOLLAR], p.salt + Fit(other, ENCODED_HASH_SIZE));
    hide CostDigits;
    assert Fit(p.hash, ENCODED_HASH_SIZE) == p.hash && Fit(other, ENCODED_HASH_SIZE) == other;
    assert (p.salt + p.hash)[ENCODED_SALT_SIZE..] == p.hash && (p.salt + other)[ENCODED_SALT_SIZE..] == other;
  }
}
