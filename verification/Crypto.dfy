/**
  internal/pkg/crypto/crypto.go. The block cipher, the key derivation (section 2
  of RFC 5869) and the MAC (section 2 of RFC 2104) are abstract; the mode of
  operation is CBC (section 6.2 of NIST SP 800-38A).
 */
module Crypto {
  import opened Common

  type Bytes = seq<bv8>

  const BLOCK: nat := 16

  predicate GoodKey(key: Bytes) {
    |key| == 16 || |key| == 24 || |key| == 32
  }

  datatype Primitives = Primitives(
    encryptBlock: (Bytes, Bytes) -> Bytes,
    decryptBlock: (Bytes, Bytes) -> Bytes,
    hkdf: (Bytes, Bytes) -> Bytes,
    hmac: (Bytes, Bytes) -> Bytes)
  {
    /** The cipher permutes blocks under every good key; derived keys and tags have 32 bytes. */
    ghost predicate Sound() {
      && (forall key, block | GoodKey(key) && |block| == BLOCK ::
            |encryptBlock(key, block)| == BLOCK && decryptBlock(key, encryptBlock(key, block)) == block)
      && (forall key, block | GoodKey(key) && |block| == BLOCK ::
            |decryptBlock(key, block)| == BLOCK && encryptBlock(key, decryptBlock(key, block)) == block)
      && (forall secret, salt :: |hkdf(secret, salt)| == 32)
      && (forall key, message :: |hmac(key, message)| == 32)
    }
  }

  function Xor(a: Bytes, b: Bytes): (c: Bytes)
    requires |a| == |b|
    ensures |c| == |a| && forall i | 0 <= i < |a| :: c[i] == a[i] ^ b[i]
  {
    seq(|a|, i requires 0 <= i < |a| => a[i] ^ b[i])
  }

  lemma XorTwice(a: Bytes, b: Bytes)
    requires |a| == |b|
    ensures Xor(Xor(a, b), b) == a
  {
    forall i | 0 <= i < |a| ensures Xor(Xor(a, b), b)[i] == a[i] {
      XorByte(a[i], b[i]);
    }
  }

  lemma XorByte(x: bv8, y: bv8)
    ensures (x ^ y) ^ y == x
  {
  }

  function CbcEncrypt(prims: Primitives, key: Bytes, chain: Bytes, text: Bytes): (c: Bytes)
    requires prims.Sound() && GoodKey(key) && |chain| == BLOCK && |text| % BLOCK == 0
    ensures |c| == |text|
    decreases |text|
  {
    if text == [] then []
    else
      var c := prims.encryptBlock(key, Xor(text[..BLOCK], chain));
      c + CbcEncrypt(prims, key, c, text[BLOCK..])
  }

  function CbcDecrypt(prims: Primitives, key: Bytes, chain: Bytes, text: Bytes): (p: Bytes)
    requires prims.Sound() && GoodKey(key) && |chain| == BLOCK && |text| % BLOCK == 0
    ensures |p| == |text|
    decreases |text|
  {
    if text == [] then []
    else
      Xor(prims.decryptBlock(key, text[..BLOCK]), chain) + CbcDecrypt(prims, key, text[..BLOCK], text[BLOCK..])
  }

  datatype CryptoError = NotBlockMultiple | BadKeySize | TooShort

  /** `iv` is what the random source yields. */
  function Encrypt(prims: Primitives, plaintext: Bytes, key: Bytes, iv: Bytes): Result<Bytes, CryptoError>
    requires prims.Sound() && |iv| == BLOCK
  {
    if |plaintext| % BLOCK != 0 then Err(NotBlockMultiple)
    else if !GoodKey(key) then Err(BadKeySize)
    else Ok(iv + CbcEncrypt(prims, key, iv, plaintext))
  }

  function Decrypt(prims: Primitives, ciphertext: Bytes, key: Bytes): Result<Bytes, CryptoError>
    requires prims.Sound()
  {
    if !GoodKey(key) then Err(BadKeySize)
    else if |ciphertext| < BLOCK then Err(TooShort)
    else if (|ciphertext| - BLOCK) % BLOCK != 0 then Err(NotBlockMultiple)
    else Ok(CbcDecrypt(prims, key, ciphertext[..BLOCK], ciphertext[BLOCK..]))
  }

  lemma {:induction false} CbcRoundTrip(prims: Primitives, key: Bytes, chain: Bytes, text: Bytes)
    requires prims.Sound() && GoodKey(key) && |chain| == BLOCK && |text| % BLOCK == 0
    ensures CbcDecrypt(prims, key, chain, CbcEncrypt(prims, key, chain, text)) == text
    decreases |text|
  {
    if text != [] {
      var x := Xor(text[..BLOCK], chain);
      var c := prims.encryptBlock(key, x);
      var rest := CbcEncrypt(prims, key, c, text[BLOCK..]);
      CbcRoundTrip(prims, key, c, text[BLOCK..]);
      XorTwice(text[..BLOCK], chain);
      assert (c + rest)[..BLOCK] == c && (c + rest)[BLOCK..] == rest;
      assert text == text[..BLOCK] + text[BLOCK..];
    }
  }

  lemma {:induction false} CbcRoundTripBack(prims: Primitives, key: Bytes, chain: Bytes, text: Bytes)
    requires prims.Sound() && GoodKey(key) && |chain| == BLOCK && |text| % BLOCK == 0
    ensures CbcEncrypt(prims, key, chain, CbcDecrypt(prims, key, chain, text)) == text
    decreases |text|
  {
    if text != [] {
      var p := Xor(prims.decryptBlock(key, text[..BLOCK]), chain);
      var rest := CbcDecrypt(prims, key, text[..BLOCK], text[BLOCK..]);
      CbcRoundTripBack(prims, key, text[..BLOCK], text[BLOCK..]);
      XorTwice(prims.decryptBlock(key, text[..BLOCK]), chain);
      assert (p + rest)[..BLOCK] == p && (p + rest)[BLOCK..] == rest;
      assert text == text[..BLOCK] + text[BLOCK..];
    }
  }

  function Block(s: Bytes, j: nat): (b: Bytes)
    requires 16 * j + 16 <= |s|
    ensures |b| == 16
  {
    s[16 * j..16 * j + 16]
  }

  /**
    The ciphertext starts with the IV, and each block after it is the encryption of the
    exclusive or of a plaintext block with the ciphertext block before.
   */
  ghost predicate ChainsFrom(prims: Primitives, key: Bytes, iv: Bytes, plaintext: Bytes, c: Bytes)
  {
    && |iv| == 16 && |c| == 16 + |plaintext| && c[..16] == iv
    && forall j: nat | 16 * j + 16 <= |plaintext| ::
         Block(c, j + 1) == prims.encryptBlock(key, Xor(Block(plaintext, j), Block(c, j)))
  }

  lemma {:induction false} CbcChains(prims: Primitives, key: Bytes, chain: Bytes, text: Bytes, j: nat)
    requires prims.Sound() && GoodKey(key) && |chain| == BLOCK && |text| % BLOCK == 0 && 16 * j + 16 <= |text|
    ensures var c := chain + CbcEncrypt(prims, key, chain, text);
            Block(c, j + 1) == prims.encryptBlock(key, Xor(Block(text, j), Block(c, j)))
    decreases |text|
  {
    var first := prims.encryptBlock(key, Xor(text[..BLOCK], chain));
    var rest := CbcEncrypt(prims, key, first, text[BLOCK..]);
    var c := chain + CbcEncrypt(prims, key, chain, text);
    assert c == chain + (first + rest);
    if j == 0 {
      assert Block(c, 0) == chain && Block(c, 1) == first && Block(text, 0) == text[..BLOCK];
    } else {
      CbcChains(prims, key, first, text[BLOCK..], j - 1);
      var c' := first + rest;
      assert Block(c', j) == Block(c, j + 1) && Block(c', j - 1) == Block(c, j);
      assert Block(text[BLOCK..], j - 1) == Block(text, j);
    }
  }

  /** Encryption is cipher block chaining from the IV (section 6.2 of NIST SP 800-38A). */
  lemma EncryptChains(prims: Primitives, plaintext: Bytes, key: Bytes, iv: Bytes)
    requires prims.Sound() && |iv| == BLOCK
    ensures var c := Encrypt(prims, plaintext, key, iv); c.Ok? ==> ChainsFrom(prims, key, iv, plaintext, c.value)
  {
    if |plaintext| % BLOCK == 0 && GoodKey(key) {
      var c := Encrypt(prims, plaintext, key, iv).value;
      assert c[..16] == iv;
      forall j: nat | 16 * j + 16 <= |plaintext|
        ensures Block(c, j + 1) == prims.encryptBlock(key, Xor(Block(plaintext, j), Block(c, j)))
      {
        CbcChains(prims, key, iv, plaintext, j);
      }
    }
  }

  /**
    Encryption accepts exactly the plaintexts of whole blocks under a key of 16,
    24 or 32 bytes, adds one block, and decryption gives the plaintext back.
   */
  lemma EncryptThenDecrypt(prims: Primitives, plaintext: Bytes, key: Bytes, iv: Bytes)
    requires prims.Sound() && |iv| == BLOCK
    ensures var c := Encrypt(prims, plaintext, key, iv);
            && (c.Ok? <==> |plaintext| % 16 == 0 && |key| in {16, 24, 32})
            && (c.Ok? ==> ChainsFrom(prims, key, iv, plaintext, c.value) && Decrypt(prims, c.value, key) == Ok(plaintext))
  {
    if |plaintext| % BLOCK == 0 && GoodKey(key) {
      var body := CbcEncrypt(prims, key, iv, plaintext);
      CbcRoundTrip(prims, key, iv, plaintext);
      assert (iv + body)[..BLOCK] == iv && (iv + body)[BLOCK..] == body;
    }
    EncryptChains(prims, plaintext, key, iv);
    hide ChainsFrom, CbcEncrypt, CbcDecrypt;
  }

  /** Whatever decrypts is the encryption of what it decrypts to, under the IV it carries. */
  lemma DecryptThenEncrypt(prims: Primitives, ciphertext: Bytes, key: Bytes)
    requires prims.Sound()
    ensures var p := Decrypt(prims, ciphertext, key);
            && (p.Ok? <==> |key| in {16, 24, 32} && |ciphertext| >= 16 && |ciphertext| % 16 == 0)
            && (p.Ok? ==>
                  && Encrypt(prims, p.value, key, ciphertext[..BLOCK]) == Ok(ciphertext)
                  && ChainsFrom(prims, key, ciphertext[..BLOCK], p.value, ciphertext))
  {
    hide CbcEncrypt, CbcDecrypt, Primitives.Sound, ChainsFrom;
    var p := Decrypt(prims, ciphertext, key);
    if p.Ok? {
      assert (|ciphertext| - BLOCK) % BLOCK == 0;
      EncryptChains(prims, p.value, key, ciphertext[..BLOCK]);
      CbcRoundTripBack(prims, key, ciphertext[..BLOCK], ciphertext[BLOCK..]);
      assert ciphertext == ciphertext[..BLOCK] + ciphertext[BLOCK..];
    }
  }

  /** The ciphertext buffer: the IV first, then one block after the other. */
  method EncryptBuffer(prims: Primitives, plaintext: Bytes, key: Bytes, iv: Bytes) returns (r: Result<Bytes, CryptoError>)
    requires prims.Sound() && |iv| == BLOCK
    ensures r == Encrypt(prims, plaintext, key, iv)
    ensures r.Ok? ==> ChainsFrom(prims, key, iv, plaintext, r.value) && Decrypt(prims, r.value, key) == Ok(plaintext)
  {
    EncryptThenDecrypt(prims, plaintext, key, iv);
    hide ChainsFrom, Decrypt;
    if |plaintext| % BLOCK != 0 {
      return Err(NotBlockMultiple);
    }
    if !GoodKey(key) {
      return Err(BadKeySize);
    }
    var ciphertext := new bv8[BLOCK + |plaintext|];
    WriteBlock(ciphertext, 0, iv);
    assert ciphertext[..BLOCK] == iv;
    CryptBlocks(prims, key, iv, plaintext, ciphertext);
    return Ok(ciphertext[..]);
  }

  /** The mode's encrypter: writes the blocks after the first BLOCK bytes of the buffer. */
  method CryptBlocks(prims: Primitives, key: Bytes, iv: Bytes, text: Bytes, buffer: array<bv8>)
    requires prims.Sound() && GoodKey(key) && |iv| == BLOCK && |text| % BLOCK == 0 && buffer.Length == BLOCK + |text|
    modifies buffer
    ensures buffer[..] == old(buffer[..BLOCK]) + CbcEncrypt(prims, key, iv, text)
  {
    hide CbcEncrypt, Xor, Primitives.Sound, GoodKey;
    var n, chain := 0, iv;
    ghost var done := buffer[..BLOCK];
    ghost var all := done + CbcEncrypt(prims, key, iv, text);
    assert text[0..] == text;
    while n < |text|
      invariant 0 <= n <= |text| && n % BLOCK == 0
      invariant |chain| == BLOCK && done == buffer[..BLOCK + n]
      invariant done + CbcEncrypt(prims, key, chain, text[n..]) == all
    {
      CbcStep(prims, key, chain, text, n, done);
      chain := prims.encryptBlock(key, Xor(text[n..n + BLOCK], chain));
      WriteBlock(buffer, BLOCK + n, chain);
      n := n + BLOCK;
      done := done + chain;
    }
    assert |CbcEncrypt(prims, key, chain, text[n..])| == 0;
  }

  lemma CbcStep(prims: Primitives, key: Bytes, chain: Bytes, text: Bytes, n: nat, done: Bytes)
    requires prims.Sound() && GoodKey(key) && |chain| == BLOCK && n < |text| && |text| % BLOCK == 0 && n % BLOCK == 0
    ensures var block := prims.encryptBlock(key, Xor(text[n..n + BLOCK], chain));
            && |block| == BLOCK
            && done + CbcEncrypt(prims, key, chain, text[n..]) == done + block + CbcEncrypt(prims, key, block, text[n + BLOCK..])
  {
    assert text[n..][..BLOCK] == text[n..n + BLOCK] && text[n..][BLOCK..] == text[n + BLOCK..];
  }

  /** The plaintext buffer is filled block by block. */
  method DecryptBuffer(prims: Primitives, ciphertext: Bytes, key: Bytes) returns (r: Result<Bytes, CryptoError>)
    requires prims.Sound()
    ensures r == Decrypt(prims, ciphertext, key)
    ensures r.Ok? ==>
              && ChainsFrom(prims, key, ciphertext[..BLOCK], r.value, ciphertext)
              && Encrypt(prims, r.value, key, ciphertext[..BLOCK]) == Ok(ciphertext)
  {
    DecryptThenEncrypt(prims, ciphertext, key);
    hide ChainsFrom, Encrypt;
    if !GoodKey(key) {
      return Err(BadKeySize);
    }
    if |ciphertext| < BLOCK {
      return Err(TooShort);
    }
    var iv, text := ciphertext[..BLOCK], ciphertext[BLOCK..];
    if |text| % BLOCK != 0 {
      return Err(NotBlockMultiple);
    }
    var plaintext := new bv8[|text|];
    DecryptBlocks(prims, key, iv, text, plaintext);
    return Ok(plaintext[..]);
  }

  /** The mode's decrypter. */
  method DecryptBlocks(prims: Primitives, key: Bytes, iv: Bytes, text: Bytes, buffer: array<bv8>)
    requires prims.Sound() && GoodKey(key) && |iv| == BLOCK && |text| % BLOCK == 0 && buffer.Length == |text|
    modifies buffer
    ensures buffer[..] == CbcDecrypt(prims, key, iv, text)
  {
    hide CbcDecrypt, Xor, Primitives.Sound, GoodKey;
    var n, chain := 0, iv;
    ghost var all := CbcDecrypt(prims, key, iv, text);
    assert text[0..] == text;
    while n < |text|
      invariant 0 <= n <= |text| && (|text| - n) % BLOCK == 0
      invariant |chain| == BLOCK
      invariant buffer[..n] + CbcDecrypt(prims, key, chain, text[n..]) == all
    {
      ghost var done := buffer[..n];
      CbcDecryptStep(prims, key, chain, text, n, done);
      var block := text[n..n + BLOCK];
      var plain := Xor(prims.decryptBlock(key, block), chain);
      WriteBlock(buffer, n, plain);
      assert buffer[..n + BLOCK] == done + plain;
      chain := block;
      n := n + BLOCK;
    }
    assert |CbcDecrypt(prims, key, chain, text[n..])| == 0;
  }

  lemma CbcDecryptStep(prims: Primitives, key: Bytes, chain: Bytes, text: Bytes, n: nat, done: Bytes)
    requires prims.Sound() && GoodKey(key) && |chain| == BLOCK && n < |text| && (|text| - n) % BLOCK == 0
    ensures n + BLOCK <= |text| && (|text| - n - BLOCK) % BLOCK == 0
    ensures var block := text[n..n + BLOCK];
            && |prims.decryptBlock(key, block)| == BLOCK
            && var plain := Xor(prims.decryptBlock(key, block), chain);
            && |plain| == BLOCK
            && done + CbcDecrypt(prims, key, chain, text[n..]) == done + plain + CbcDecrypt(prims, key, block, text[n + BLOCK..])
  {
    assert text[n..][..BLOCK] == text[n..n + BLOCK] && text[n..][BLOCK..] == text[n + BLOCK..];
  }

  method WriteBlock(buffer: array<bv8>, at: nat, block: Bytes)
    requires |block| == BLOCK && at + BLOCK <= buffer.Length
    modifies buffer
    ensures buffer[..at + BLOCK] == old(buffer[..at]) + block
  {
    forall i | 0 <= i < BLOCK {
      buffer[at + i] := block[i];
    }
  }

  function CreateIK(prims: Primitives, userKey: Bytes, iv: Bytes): Bytes {
    prims.hkdf(userKey, iv)
  }

  function CreateHMAC(prims: Primitives, message: Bytes, key: Bytes): Bytes {
    prims.hmac(key, message)
  }

  predicate CheckHMAC(prims: Primitives, message: Bytes, tag: Bytes, key: Bytes) {
    tag == CreateHMAC(prims, message, key)
  }
}
