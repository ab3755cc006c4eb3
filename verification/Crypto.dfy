/** `tools/crypto/crypto.go`: PKCS#7 padding (section 6.3 of RFC 5652), cipher block
    chaining (section 6.2 of NIST SP 800-38A) and the IV || ciphertext layout. The block
    cipher is any family of permutations of 16-byte blocks, one per key. */
module Crypto {
  import opened Bytes
  import Base64

  const BLOCK_SIZE := 16

  type Block = b: Text | |b| == BLOCK_SIZE witness seq(BLOCK_SIZE, _ => 0)

  datatype Cipher = Cipher(encrypt: Block -> Block, decrypt: Block -> Block)

  ghost predicate IsPermutation(c: Cipher) {
    && (forall b: Block :: c.decrypt(c.encrypt(b)) == b)
    && (forall b: Block :: c.encrypt(c.decrypt(b)) == b)
  }

  /** `aes.NewCipher` accepts these key sizes only. */
  predicate ValidKey(key: Text) {
    |key| == 16 || |key| == 24 || |key| == 32
  }

  // ---- padding ----

  function Pad(data: Text): (r: Text)
    ensures |r| % BLOCK_SIZE == 0
  {
    var padding := BLOCK_SIZE - |data| % BLOCK_SIZE;
    data + seq(padding, _ => padding)
  }

  function Unpad(data: Text): Result<Text> {
    if data == [] then Panic
    else
      var unpadding := data[|data| - 1];
      if |data| - unpadding < 0 then Err("unPadding error") else Ok(data[..|data| - unpadding])
  }

  /** Padding appends one to sixteen bytes, up to a whole number of blocks, each of which is
      how many they are. */
  lemma PadAppends(data: Text)
    ensures var n := |Pad(data)| - |data|;
            && 1 <= n <= 16 && |Pad(data)| % 16 == 0 && Pad(data)[..|data|] == data
            && forall i :: |data| <= i < |Pad(data)| ==> Pad(data)[i] == n
  {
  }

  lemma UnpadPad(data: Text)
    ensures Unpad(Pad(data)) == Ok(data)
  {
  }

  // ---- cipher block chaining ----

  predicate Whole(data: Text) {
    |data| % BLOCK_SIZE == 0
  }

  function XorBlock(a: Block, b: Block): Block {
    XorText(a, b)
  }

  function EncryptBlocks(c: Cipher, prev: Block, data: Text): (r: Text)
    requires Whole(data)
    ensures |r| == |data|
    decreases |data|
  {
    if data == [] then []
    else
      var block := c.encrypt(XorBlock(data[..BLOCK_SIZE], prev));
      block + EncryptBlocks(c, block, data[BLOCK_SIZE..])
  }

  function DecryptBlocks(c: Cipher, prev: Block, data: Text): (r: Text)
    requires Whole(data)
    ensures |r| == |data|
    decreases |data|
  {
    if data == [] then []
    else
      XorBlock(c.decrypt(data[..BLOCK_SIZE]), prev) + DecryptBlocks(c, data[..BLOCK_SIZE], data[BLOCK_SIZE..])
  }

  lemma {:induction false} DecryptEncryptBlocks(c: Cipher, prev: Block, data: Text)
    requires IsPermutation(c) && Whole(data)
    ensures DecryptBlocks(c, prev, EncryptBlocks(c, prev, data)) == data
    decreases |data|
  {
    if data != [] {
      var head: Block := data[..BLOCK_SIZE];
      var block := c.encrypt(XorBlock(head, prev));
      var rest := EncryptBlocks(c, block, data[BLOCK_SIZE..]);
      var sealed := EncryptBlocks(c, prev, data);
      assert sealed == block + rest;
      assert sealed[..BLOCK_SIZE] == block && sealed[BLOCK_SIZE..] == rest;
      DecryptEncryptBlocks(c, block, data[BLOCK_SIZE..]);
      XorTextTwice(head, prev);
      assert data == head + data[BLOCK_SIZE..];
    }
  }

  // ---- what each block is ----

  function BlockAt(data: Text, k: nat): Block
    requires BLOCK_SIZE * (k + 1) <= |data|
  {
    data[BLOCK_SIZE * k..BLOCK_SIZE * (k + 1)]
  }

  /** The bits of `r` are set exactly where those of `a` and `b` differ. */
  ghost predicate IsXor(r: Block, a: Block, b: Block) {
    forall j, i :: 0 <= j < BLOCK_SIZE && 0 <= i < 8 ==>
      r[j] / Pow2(i) % 2 == if a[j] / Pow2(i) % 2 == b[j] / Pow2(i) % 2 then 0 else 1
  }

  lemma XorBlockIsXor(a: Block, b: Block)
    ensures IsXor(XorBlock(a, b), a, b)
  {
    forall j, i | 0 <= j < BLOCK_SIZE && 0 <= i < 8
      ensures XorBlock(a, b)[j] / Pow2(i) % 2 == if a[j] / Pow2(i) % 2 == b[j] / Pow2(i) % 2 then 0 else 1
    {
      XorAt(a[j], b[j], i);
    }
  }

  lemma BlockOfRest(head: Block, rest: Text, k: nat)
    requires k > 0 && BLOCK_SIZE * (k + 1) <= |head + rest|
    ensures BlockAt(head + rest, k) == BlockAt(rest, k - 1)
  {
  }

  /** Block `k` of the ciphertext is the encryption of block `k` of the data, changed by the
      ciphertext block before it, or by the IV. */
  lemma {:induction false} EncryptedBlock(c: Cipher, iv: Block, data: Text, k: nat) returns (x: Block)
    requires Whole(data) && BLOCK_SIZE * (k + 1) <= |data|
    ensures var sealed := EncryptBlocks(c, iv, data);
            && IsXor(x, BlockAt(data, k), if k == 0 then iv else BlockAt(sealed, k - 1))
            && BlockAt(sealed, k) == c.encrypt(x)
    decreases k
  {
    var head: Block, rest := data[..BLOCK_SIZE], data[BLOCK_SIZE..];
    var block := c.encrypt(XorBlock(head, iv));
    var more := EncryptBlocks(c, block, rest);
    assert EncryptBlocks(c, iv, data) == block + more;
    if k == 0 {
      x := XorBlock(head, iv);
      XorBlockIsXor(head, iv);
    } else {
      x := EncryptedBlock(c, block, rest, k - 1);
      assert data == head + rest;
      BlockOfRest(head, rest, k);
      BlockOfRest(block, more, k);
      if k > 1 {
        BlockOfRest(block, more, k - 1);
      }
    }
  }

  /** Block `k` of the plaintext is the decryption of block `k` of the data, changed by the
      block of data before it, or by the IV. */
  lemma {:induction false} DecryptedBlock(c: Cipher, iv: Block, data: Text, k: nat)
    requires Whole(data) && BLOCK_SIZE * (k + 1) <= |data|
    ensures IsXor(BlockAt(DecryptBlocks(c, iv, data), k), c.decrypt(BlockAt(data, k)),
                  if k == 0 then iv else BlockAt(data, k - 1))
    decreases k
  {
    var head: Block, rest := data[..BLOCK_SIZE], data[BLOCK_SIZE..];
    var block, more := XorBlock(c.decrypt(head), iv), DecryptBlocks(c, head, rest);
    assert DecryptBlocks(c, iv, data) == block + more;
    if k == 0 {
      XorBlockIsXor(c.decrypt(head), iv);
    } else {
      DecryptedBlock(c, head, rest, k - 1);
      assert data == head + rest;
      BlockOfRest(head, rest, k);
      BlockOfRest(block, more, k);
      if k > 1 {
        BlockOfRest(head, rest, k - 1);
      }
    }
  }

  // ---- the exported functions ----

  function AesCBCEncrypt(aes: Text -> Cipher, rawData: Text, key: Text, iv: Block): Result<Text> {
    if !ValidKey(key) then Err("invalid key size")
    else
      Ok(iv + EncryptBlocks(aes(key), iv, Pad(rawData)))
  }

  function AesCBCDncrypt(aes: Text -> Cipher, encryptData: Text, key: Text): Result<Text> {
    if !ValidKey(key) then Err("invalid key size")
    else if |encryptData| < BLOCK_SIZE then Err("ciphertext too short")
    else
      var iv, body := encryptData[..BLOCK_SIZE], encryptData[BLOCK_SIZE..];
      if !Whole(body) then Err("ciphertext is not a multiple of the block size")
      else Unpad(DecryptBlocks(aes(key), iv, body))
  }

  /** `Encrypt`, with the 16 random bytes it draws as the parameter `iv`. */
  function Encrypt(aes: Text -> Cipher, rawData: Text, key: Text, iv: Block): Result<Text> {
    match AesCBCEncrypt(aes, rawData, key, iv)
    case Ok(data) => Ok(Base64.Encode(data))
    case Err(reason) => Err(reason)
    case Panic => Panic
  }

  function Decrypt(aes: Text -> Cipher, rawData: Text, key: Text): Result<Text> {
    match Base64.Decode(rawData)
    case Ok(data) => AesCBCDncrypt(aes, data, key)
    case Err(reason) => Err(reason)
    case Panic => Panic
  }

  lemma AesRoundTrip(aes: Text -> Cipher, rawData: Text, key: Text, iv: Block)
    requires ValidKey(key) && IsPermutation(aes(key))
    ensures AesCBCEncrypt(aes, rawData, key, iv).Ok?
    ensures AesCBCDncrypt(aes, AesCBCEncrypt(aes, rawData, key, iv).value, key) == Ok(rawData)
  {
    UnpadPad(rawData);
    var padded := Pad(rawData);
    var body := EncryptBlocks(aes(key), iv, padded);
    var data := iv + body;
    assert data[..BLOCK_SIZE] == iv && data[BLOCK_SIZE..] == body;
    DecryptEncryptBlocks(aes(key), iv, padded);
  }

  /** What is sealed: the IV, and then block by block the padded input, each block changed by
      the block before it and encrypted. */
  lemma SealedBlock(aes: Text -> Cipher, rawData: Text, key: Text, iv: Block, k: nat) returns (x: Block)
    requires ValidKey(key) && BLOCK_SIZE * (k + 1) <= |Pad(rawData)|
    ensures var data := AesCBCEncrypt(aes, rawData, key, iv);
            && data.Ok? && |data.value| == 16 + |Pad(rawData)|
            && BlockAt(data.value, 0) == iv
            && IsXor(x, BlockAt(Pad(rawData), k), BlockAt(data.value, k))
            && BlockAt(data.value, k + 1) == aes(key).encrypt(x)
  {
    var sealed := EncryptBlocks(aes(key), iv, Pad(rawData));
    x := EncryptedBlock(aes(key), iv, Pad(rawData), k);
    BlockOfRest(iv, sealed, k + 1);
    if k > 0 {
      BlockOfRest(iv, sealed, k);
    }
  }

  /** Every byte string, under every accepted key and every IV, decrypts to itself; a key of
      another size makes both directions fail. */
  lemma DecryptEncrypt(aes: Text -> Cipher, rawData: Text, key: Text, iv: Block)
    requires forall k :: ValidKey(k) ==> IsPermutation(aes(k))
    ensures ValidKey(key) <==> |key| == 16 || |key| == 24 || |key| == 32
    ensures Encrypt(aes, rawData, key, iv).Ok? <==> ValidKey(key)
    ensures ValidKey(key) ==> Decrypt(aes, Encrypt(aes, rawData, key, iv).value, key) == Ok(rawData)
  {
    if ValidKey(key) {
      AesRoundTrip(aes, rawData, key, iv);
      Base64.DecodeEncode(AesCBCEncrypt(aes, rawData, key, iv).value);
    }
  }

  /** Different inputs never share a ciphertext, nor does one input under different IVs. */
  lemma EncryptInjective(aes: Text -> Cipher, raw1: Text, raw2: Text, key: Text, iv1: Block, iv2: Block)
    requires forall k :: ValidKey(k) ==> IsPermutation(aes(k))
    requires ValidKey(key)
    ensures Encrypt(aes, raw1, key, iv1) == Encrypt(aes, raw2, key, iv2) <==> raw1 == raw2 && iv1 == iv2
  {
    DecryptEncrypt(aes, raw1, key, iv1);
    DecryptEncrypt(aes, raw2, key, iv2);
    var data1 := AesCBCEncrypt(aes, raw1, key, iv1).value;
    var data2 := AesCBCEncrypt(aes, raw2, key, iv2).value;
    Base64.DecodeEncode(data1);
    Base64.DecodeEncode(data2);
    assert data1[..BLOCK_SIZE] == iv1 && data2[..BLOCK_SIZE] == iv2;
  }

  /** `Decrypt` succeeds on exactly the texts that decode to an IV and one or more whole blocks
      the last byte of which does not ask for more than there is to be removed; it then gives
      the blocks without that many bytes. */
  lemma DecryptSucceedsIff(aes: Text -> Cipher, rawData: Text, key: Text)
    ensures var data := Base64.Decode(rawData);
            Decrypt(aes, rawData, key).Ok? <==>
            && (|key| == 16 || |key| == 24 || |key| == 32) && data.Ok?
            && |data.value| >= 32 && |data.value| % 16 == 0
            && (var plain := DecryptBlocks(aes(key), data.value[..16], data.value[16..]);
                plain[|plain| - 1] <= |plain|)
    ensures Decrypt(aes, rawData, key).Ok? ==>
              var data, text := Base64.Decode(rawData).value, Decrypt(aes, rawData, key).value;
              var plain := DecryptBlocks(aes(key), data[..16], data[16..]);
              text == plain[..|plain| - plain[|plain| - 1]]
  {
  }

  /** `Decrypt` panics on exactly the inputs that are an IV with no block after it. */
  lemma DecryptPanicsIff(aes: Text -> Cipher, rawData: Text, key: Text)
    ensures Decrypt(aes, rawData, key) == Panic
            <==> ValidKey(key) && Base64.Decode(rawData).Ok? && |Base64.Decode(rawData).value| == BLOCK_SIZE
  {
    DecodeNeverPanics(Base64.WithoutLineBreaks(rawData));
  }

  lemma {:induction false} DecodeNeverPanics(text: Text)
    ensures Base64.DecodeQuanta(text) != Panic
  {
    if |text| >= 4 {
      DecodeNeverPanics(text[4..]);
    }
  }

  // ---- the buffers ----

  lemma EncryptFirst(c: Cipher, prev: Block, data: Text, n: nat)
    requires n < |data| && Whole(data[n..])
    ensures n + BLOCK_SIZE <= |data| && Whole(data[n + BLOCK_SIZE..])
    ensures var block := c.encrypt(XorBlock(data[n..n + BLOCK_SIZE], prev));
            EncryptBlocks(c, prev, data[n..]) == block + EncryptBlocks(c, block, data[n + BLOCK_SIZE..])
  {
    assert data[n..][..BLOCK_SIZE] == data[n..n + BLOCK_SIZE];
    assert data[n..][BLOCK_SIZE..] == data[n + BLOCK_SIZE..];
  }

  /** One block more of the ciphertext is known. */
  lemma EncryptNext(c: Cipher, iv: Block, done: Text, prev: Block, data: Text, n: nat)
    requires n < |data| && Whole(data) && Whole(data[n..])
    requires EncryptBlocks(c, iv, data) == done + EncryptBlocks(c, prev, data[n..])
    ensures n + BLOCK_SIZE <= |data| && Whole(data[n + BLOCK_SIZE..])
    ensures var block := c.encrypt(XorBlock(data[n..n + BLOCK_SIZE], prev));
            EncryptBlocks(c, iv, data) == done + block + EncryptBlocks(c, block, data[n + BLOCK_SIZE..])
  {
    EncryptFirst(c, prev, data, n);
  }

  /** `mode.CryptBlocks(cipherText[16:], rawData)`: the padded input into a second buffer. */
  method CryptBlocksInto(c: Cipher, cipherText: array<byte>, rawData: Text)
    requires Whole(rawData) && cipherText.Length == BLOCK_SIZE + |rawData|
    modifies cipherText
    ensures cipherText[..BLOCK_SIZE] == old(cipherText[..BLOCK_SIZE])
    ensures cipherText[BLOCK_SIZE..] == EncryptBlocks(c, old(cipherText[..BLOCK_SIZE]), rawData)
  {
    var prev: Block, n := cipherText[..BLOCK_SIZE], 0;
    ghost var iv, done: Text := cipherText[..BLOCK_SIZE], [];
    assert rawData[0..] == rawData;
    while n < |rawData|
      invariant 0 <= n <= |rawData| && Whole(rawData[n..])
      invariant cipherText[..BLOCK_SIZE + n] == iv + done
      invariant EncryptBlocks(c, iv, rawData) == done + EncryptBlocks(c, prev, rawData[n..])
    {
      EncryptNext(c, iv, done, prev, rawData, n);
      prev := c.encrypt(XorBlock(rawData[n..n + BLOCK_SIZE], prev));
      StoreBlock(cipherText, BLOCK_SIZE + n, prev);
      assert iv + done + prev == iv + (done + prev);
      done := done + prev;
      n := n + BLOCK_SIZE;
    }
  }

  method StoreBlock(buffer: array<byte>, at: nat, block: Block)
    requires at + BLOCK_SIZE <= buffer.Length
    modifies buffer
    ensures buffer[..at] == old(buffer[..at])
    ensures buffer[..at + BLOCK_SIZE] == old(buffer[..at]) + block
    ensures buffer[at..] == block + old(buffer[at + BLOCK_SIZE..])
  {
    forall j | 0 <= j < BLOCK_SIZE {
      buffer[at + j] := block[j];
    }
  }

  lemma DecryptFirst(c: Cipher, prev: Block, data: Text, at: nat)
    requires at < |data| && Whole(data[at..])
    ensures at + BLOCK_SIZE <= |data| && Whole(data[at + BLOCK_SIZE..])
    ensures var block := data[at..at + BLOCK_SIZE];
            DecryptBlocks(c, prev, data[at..]) ==
            XorBlock(c.decrypt(block), prev) + DecryptBlocks(c, block, data[at + BLOCK_SIZE..])
  {
    assert data[at..][..BLOCK_SIZE] == data[at..at + BLOCK_SIZE];
    assert data[at..][BLOCK_SIZE..] == data[at + BLOCK_SIZE..];
  }

  /** `mode.CryptBlocks(encryptData, encryptData)`: decryption with the same slice as source
      and destination, which works backwards so that each block's predecessor is still
      ciphertext when it is needed. The IV sits right before the slice. */
  method DecryptInPlace(c: Cipher, buffer: array<byte>)
    requires buffer.Length >= BLOCK_SIZE && buffer.Length % BLOCK_SIZE == 0
    modifies buffer
    ensures buffer[..BLOCK_SIZE] == old(buffer[..BLOCK_SIZE])
    ensures buffer[BLOCK_SIZE..] == DecryptBlocks(c, old(buffer[..BLOCK_SIZE]), old(buffer[BLOCK_SIZE..]))
  {
    var n := buffer.Length;
    ghost var was := buffer[..];
    while n > BLOCK_SIZE
      invariant BLOCK_SIZE <= n <= buffer.Length && n % BLOCK_SIZE == 0
      invariant buffer[..n] == was[..n]
      invariant buffer[n..] == DecryptBlocks(c, was[n - BLOCK_SIZE..n], was[n..])
    {
      n := n - BLOCK_SIZE;
      DecryptStep(c, buffer, n, was);
    }
  }

  /** One block of the backward pass: `at` is where it starts. */
  method DecryptStep(c: Cipher, buffer: array<byte>, at: nat, ghost was: Text)
    requires |was| == buffer.Length && BLOCK_SIZE <= at && at + BLOCK_SIZE <= |was| && Whole(was[at..])
    requires buffer[..at + BLOCK_SIZE] == was[..at + BLOCK_SIZE]
    requires buffer[at + BLOCK_SIZE..] == DecryptBlocks(c, was[at..at + BLOCK_SIZE], was[at + BLOCK_SIZE..])
    modifies buffer
    ensures buffer[..at] == was[..at]
    ensures buffer[at..] == DecryptBlocks(c, was[at - BLOCK_SIZE..at], was[at..])
  {
    var prev: Block := buffer[at - BLOCK_SIZE..at];
    var block: Block := buffer[at..at + BLOCK_SIZE];
    assert prev == buffer[..at + BLOCK_SIZE][at - BLOCK_SIZE..at] == was[at - BLOCK_SIZE..at];
    assert block == buffer[..at + BLOCK_SIZE][at..] == was[at..at + BLOCK_SIZE];
    assert buffer[..at] == was[..at];
    DecryptFirst(c, prev, was, at);
    StoreBlock(buffer, at, XorBlock(c.decrypt(block), prev));
  }

  /** `aesCBCEncrypt`. */
  method EncryptBuffer(aes: Text -> Cipher, rawData: Text, key: Text, iv: Block) returns (r: Result<Text>)
    ensures r == AesCBCEncrypt(aes, rawData, key, iv)
  {
    if !ValidKey(key) {
      return Err("invalid key size");
    }
    UnpadPad(rawData);
    var padded := Pad(rawData);
    var cipherText := new byte[BLOCK_SIZE + |padded|];
    StoreBlock(cipherText, 0, iv);
    assert cipherText[..BLOCK_SIZE] == iv;
    CryptBlocksInto(aes(key), cipherText, padded);
    assert cipherText[..] == cipherText[..BLOCK_SIZE] + cipherText[BLOCK_SIZE..];
    r := Ok(cipherText[..]);
  }

  /** `aesCBCDncrypt`: decrypts the caller's buffer in place. */
  method DecryptBuffer(aes: Text -> Cipher, encryptData: array<byte>, key: Text) returns (r: Result<Text>)
    modifies encryptData
    ensures r == AesCBCDncrypt(aes, old(encryptData[..]), key)
  {
    if !ValidKey(key) {
      return Err("invalid key size");
    }
    if encryptData.Length < BLOCK_SIZE {
      return Err("ciphertext too short");
    }
    ghost var was := encryptData[..];
    assert was[..BLOCK_SIZE] == encryptData[..BLOCK_SIZE] && was[BLOCK_SIZE..] == encryptData[BLOCK_SIZE..];
    if (encryptData.Length - BLOCK_SIZE) % BLOCK_SIZE != 0 {
      return Err("ciphertext is not a multiple of the block size");
    }
    DecryptInPlace(aes(key), encryptData);
    r := Unpad(encryptData[BLOCK_SIZE..]);
  }
}
