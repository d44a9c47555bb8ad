/**
 What bcrypt does with its inputs, seen by the cipher: which keys it is set up with and in which order, and
 what it is asked to encrypt. The ciphers here are observers; nothing is claimed about Blowfish itself.
 */
module BcryptKeying {
  import opened Wrappers
  import opened Base64
  import opened Bcrypt

  /** A key setup: the first one with key and salt, and the keys of the expansions that followed, in order. */
  datatype Setup = Setup(key: Bytes, salt: Bytes, expansions: seq<Bytes>)

  /** The state of a cipher after a key setup. */
  function Fed<C>(bf: Blowfish<C>, setup: Setup): C
    decreases |setup.expansions|
  {
    var n := |setup.expansions|;
    if n == 0 then bf.saltedCipher(setup.key, setup.salt)
    else bf.expandKey(setup.expansions[n - 1], Fed(bf, setup.(expansions := setup.expansions[..n - 1])))
  }

  /** Turn i of the expansions: the key, then the salt. */
  predicate Turn(s: Setup, i: nat)
    requires 2 * i + 1 < |s.expansions|
  {
    s.expansions[2 * i] == s.key && s.expansions[2 * i + 1] == s.salt
  }

  /** The schedule of bcrypt for a password of this cost. */
  predicate IsSchedule(s: Setup, password: Bytes, salt: Bytes, rounds: nat) {
    && s.key == password + [0] && s.salt == salt
    && |s.expansions| == 2 * rounds
    && forall i :: 0 <= i < rounds ==> Turn(s, i)
  }

  lemma ScheduleStart(s: Setup, password: Bytes, salt: Bytes, rounds: nat) returns (rest: Setup)
    requires IsSchedule(s, password, salt, rounds) && rounds > 0
    ensures IsSchedule(rest, password, salt, rounds - 1)
    ensures s.expansions == rest.expansions + [s.key, s.salt] && rest == s.(expansions := rest.expansions)
  {
    var n := |s.expansions|;
    rest := s.(expansions := s.expansions[..n - 2]);
    assert Turn(s, rounds - 1);
    forall i | 0 <= i < rounds - 1
      ensures Turn(rest, i)
    {
      assert Turn(s, i);
    }
  }

  /** Feeding two more keys. */
  lemma FedTwice<C>(bf: Blowfish<C>, s: Setup, a: Bytes, b: Bytes)
    ensures Fed(bf, s.(expansions := s.expansions + [a, b])) == bf.expandKey(b, bf.expandKey(a, Fed(bf, s)))
  {
    var one, two := s.expansions + [a], s.expansions + [a, b];
    assert two[..|two| - 1] == one && one[..|one| - 1] == s.expansions;
    assert s.(expansions := s.expansions) == s;
  }

  lemma {:induction false} ExpandedIsFed<C>(bf: Blowfish<C>, s: Setup, password: Bytes, salt: Bytes, rounds: nat)
    requires IsSchedule(s, password, salt, rounds)
    ensures Expanded(bf, password + [0], salt, rounds) == Fed(bf, s)
    decreases rounds
  {
    if rounds > 0 {
      var rest := ScheduleStart(s, password, salt, rounds);
      ExpandedIsFed(bf, rest, password, salt, rounds - 1);
      FedTwice(bf, rest, s.key, s.salt);
    }
  }

  /**
   What the cipher is fed, whatever the cipher: first password and salt, then 2^cost times the password and
   the salt in turns, the password always followed by a zero byte and the salt decoded. So keyed it
   encrypts what becomes the hash.
   */
  lemma CipherIsFed<C>(bf: Blowfish<C>, password: Bytes, cost: nat, salt: Bytes, s: Setup)
    requires |salt| == 16 && IsSchedule(s, password, salt, Pow2(cost))
    ensures BcryptOf(bf, password, cost, Unpadded(salt)) == Ok(Unpadded(CipherText(bf, Fed(bf, s), 3)[..23]))
    ensures cost == 10 ==> |s.expansions| == 2048
  {
    BcryptOfDecodedSalt(bf, password, salt, cost);
    ExpandedIsFed(bf, s, password, salt, Pow2(cost));
    assert Pow2(5) == 32;
    hide Unpadded, BcryptOf, Expanded, Fed, CipherText;
  }

  /** The schedule itself. */
  function ScheduleOf(password: Bytes, salt: Bytes, rounds: nat): (s: Setup)
    ensures IsSchedule(s, password, salt, rounds)
  {
    Setup(password + [0], salt, seq(2 * rounds, i => if i % 2 == 0 then password + [0] else salt))
  }

  // ---- every input matters ----

  const ONES: Block := [1, 1, 1, 1, 1, 1, 1, 1]
  const ZEROS: Block := [0, 0, 0, 0, 0, 0, 0, 0]

  /** A cipher that remembers its setup and encrypts everything to ones after one certain setup, else to zeros. */
  function Recogniser(target: Setup): Blowfish<Setup> {
    Blowfish(
      (key, salt) => Setup(key, salt, []),
      (key, c: Setup) => c.(expansions := c.expansions + [key]),
      (c, b) => if c == target then ONES else ZEROS)
  }

  lemma RecogniserStarts(target: Setup, s: Setup)
    requires s.expansions == []
    ensures Recogniser(target).saltedCipher(s.key, s.salt) == s
  {
  }

  lemma RecogniserGoesOn(target: Setup, s: Setup, key: Bytes)
    ensures Recogniser(target).expandKey(key, s) == s.(expansions := s.expansions + [key])
  {
  }

  lemma {:induction false} RecogniserRemembers(target: Setup, s: Setup)
    ensures Fed(Recogniser(target), s) == s
    decreases |s.expansions|
  {
    var n := |s.expansions|;
    hide Recogniser;
    if n > 0 {
      var rest := s.(expansions := s.expansions[..n - 1]);
      RecogniserRemembers(target, rest);
      RecogniserGoesOn(target, rest, s.expansions[n - 1]);
      assert s.expansions == rest.expansions + [s.expansions[n - 1]];
    } else {
      RecogniserStarts(target, s);
    }
  }

  /** Its text is all ones or all zeros. */
  lemma RecogniserEncrypts(target: Setup, s: Setup)
    ensures var text := CipherText(Recogniser(target), s, 3)[..23];
            |text| == 23 && forall i :: 0 <= i < 23 ==> text[i] == if s == target then 1 else 0
  {
    var bf := Recogniser(target);
    forall b: Block
      ensures Encrypted(bf, s, b, 64) == if s == target then ONES else ZEROS
    {
      assert Encrypted(bf, s, b, 64) == bf.encrypt(s, Encrypted(bf, s, b, 63));
    }
    hide Encrypted;
    assert forall k :: 0 < k <= 3 ==> CipherText(bf, s, k) == CipherText(bf, s, k - 1) + if s == target then ONES else ZEROS;
  }

  lemma {:induction false} Pow2IsInjective(m: nat, n: nat)
    requires m < n
    ensures 1 <= Pow2(m) < Pow2(n)
  {
    if m + 1 < n { Pow2IsInjective(m, n - 1); } else if m > 0 { Pow2IsInjective(m - 1, m); }
  }

  lemma SchedulesDiffer(p: Bytes, a: Bytes, m: nat, q: Bytes, b: Bytes, n: nat)
    requires p != q || a != b || m != n
    ensures ScheduleOf(p, a, Pow2(m)) != ScheduleOf(q, b, Pow2(n))
  {
    assert (p + [0])[..|p|] == p && (q + [0])[..|q|] == q;
    if m < n { Pow2IsInjective(m, n); } else if n < m { Pow2IsInjective(n, m); }
    hide Pow2;
  }

  /**
   The hash depends on every input: for any two different choices of password, salt and cost there is a
   cipher under which the hashes differ.
   */
  lemma EveryInputMatters(p: Bytes, a: Bytes, m: nat, q: Bytes, b: Bytes, n: nat) returns (bf: Blowfish<Setup>)
    requires |a| == 16 && |b| == 16 && (p != q || a != b || m != n)
    ensures BcryptOf(bf, p, m, Unpadded(a)).Ok? && BcryptOf(bf, q, n, Unpadded(b)).Ok?
    ensures BcryptOf(bf, p, m, Unpadded(a)) != BcryptOf(bf, q, n, Unpadded(b))
  {
    var s, t := ScheduleOf(p, a, Pow2(m)), ScheduleOf(q, b, Pow2(n));
    SchedulesDiffer(p, a, m, q, b, n);
    bf := Recogniser(s);
    CipherIsFed(bf, p, m, a, s);
    CipherIsFed(bf, q, n, b, t);
    RecogniserRemembers(s, s);
    RecogniserRemembers(s, t);
    RecogniserEncrypts(s, s);
    RecogniserEncrypts(s, t);
    var x, y := CipherText(bf, s, 3)[..23], CipherText(bf, t, 3)[..23];
    assert x[0] != y[0];
    hide ScheduleOf, CipherText, BcryptOf, Unpadded, Recogniser, Fed;
    RoundTrip(x);
    RoundTrip(y);
  }

  /** With a readable record and a password that can be hashed, a refusal is a mismatch. */
  lemma RefusalIsMismatch<C>(bf: Blowfish<C>, r: Record, password: Bytes)
    requires Proper(r) && BcryptOf(bf, password, r.cost, r.salt).Ok? && Compared(bf, Printed(r), password) != None
    ensures Compared(bf, Printed(r), password) == Some(Mismatched)
  {
    ParsePrinted(r, []);
    assert Printed(r) + [] == Printed(r);
    hide Parsed, Printed, BcryptOf;
  }

  /**
   No password stands for another one: for any two of them there is a cipher under which comparison refuses
   the one with the hash generated for the other.
   */
  lemma OtherPasswordsAreRefused(p: Bytes, q: Bytes, salt: Bytes, cost: int) returns (bf: Blowfish<Setup>)
    requires p != q && |p| <= 72 && |salt| == 16 && cost <= MAX_COST
    ensures Generated(bf, p, salt, cost).Ok?
    ensures Compared(bf, Generated(bf, p, salt, cost).value, q) == Some(Mismatched)
  {
    var chosen := if cost < MIN_COST then DEFAULT_COST else cost;
    bf := EveryInputMatters(p, salt, chosen, q, salt, chosen);
    GenerateFailures(bf, p, salt, cost);
    BcryptOfEncodedSalt(bf, p, salt, chosen);
    RoundTrip(salt);
    var r := FromPassword(bf, p, salt, cost).value;
    hide BcryptOf, Unpadded, Compared;
    CompareIsHashEquality(bf, r, q);
    RefusalIsMismatch(bf, r, q);
  }

  // ---- what is encrypted ----

  /** A cipher that counts: it adds one to every byte. */
  const COUNTER: Blowfish<bool> := Blowfish((key, salt) => true, (key, c) => true, (c, b) => Plus(b, 1))

  function Plus(b: Block, n: nat): (r: Block)
    ensures forall i :: 0 <= i < 8 ==> r[i] == (b[i] + n) % 256
  {
    seq(8, i requires 0 <= i < 8 => (b[i] + n) % 256)
  }

  lemma PlusOne(b: Block, n: nat)
    ensures Plus(Plus(b, n), 1) == Plus(b, n + 1)
  {
    forall i | 0 <= i < 8
      ensures Plus(Plus(b, n), 1)[i] == Plus(b, n + 1)[i]
    {
      WrapAround(b[i], n);
    }
  }

  lemma WrapAround(b: int, n: nat)
    ensures ((b + n) % 256 + 1) % 256 == (b + (n + 1)) % 256
  {
  }

  lemma {:induction false} CountsTo(b: Block, times: nat)
    ensures Encrypted(COUNTER, true, b, times) == Plus(b, times)
  {
    if times > 0 {
      CountsTo(b, times - 1);
      assert Encrypted(COUNTER, true, b, times) == Plus(Plus(b, times - 1), 1) by { hide Plus; }
      hide Encrypted;
      PlusOne(b, times - 1);
    } else {
      assert Plus(b, 0) == b;
    }
  }

  /**
   Every hash is the magic text, each of its blocks encrypted 64 times, with the last of its 24 bytes cut off: under the
   counting cipher the hash decodes to the letters of the text, each advanced by 64.
   */
  lemma TextIsEncrypted64Times(password: Bytes, cost: nat, salt: Bytes)
    requires |salt| == 16
    ensures var r := BcryptOf(COUNTER, password, cost, Unpadded(salt));
            r.Ok? && DecodeUnpadded(r.value).Ok? &&
            var bytes := DecodeUnpadded(r.value).value;
            && |bytes| == 23
            && forall i :: 0 <= i < 23 ==> bytes[i] == ("OrpheanBeholderScryDoubt"[i] as int + 64) % 256
  {
    CipherIsFed(COUNTER, password, cost, salt, ScheduleOf(password, salt, Pow2(cost)));
    assert Fed(COUNTER, ScheduleOf(password, salt, Pow2(cost))) == true;
    var text := CipherText(COUNTER, true, 3);
    CountedText();
    hide CipherText, BcryptOf, Unpadded, DecodeUnpadded, Fed, ScheduleOf;
    RoundTrip(text[..23]);
  }

  lemma CountedText()
    ensures var text := CipherText(COUNTER, true, 3);
            forall i :: 0 <= i < 24 ==> text[i] == ("OrpheanBeholderScryDoubt"[i] as int + 64) % 256
  {
    MagicIsTheText();
    CountsTo(MAGIC[0..8], 64);
    CountsTo(MAGIC[8..16], 64);
    CountsTo(MAGIC[16..24], 64);
    hide Encrypted;
    assert CipherText(COUNTER, true, 1) == [] + Plus(MAGIC[0..8], 64);
    assert CipherText(COUNTER, true, 2) == CipherText(COUNTER, true, 1) + Plus(MAGIC[8..16], 64);
    assert CipherText(COUNTER, true, 3) == CipherText(COUNTER, true, 2) + Plus(MAGIC[16..24], 64);
  }

  lemma MagicIsTheText()
    ensures forall i :: 0 <= i < 24 ==> MAGIC[i] == "OrpheanBeholderScryDoubt"[i] as int
  {
  }
}
