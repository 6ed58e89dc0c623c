/** PKCS#7 padding and the stored PIN (crypto.c, storage.c). AES-CBC with the derived key is a pair of functions. */
module PinStorage {
  import opened Wrappers
  import opened Bytes

  const BLOCK: nat := 16
  const PIN_MAX_LEN: nat := 16
  const PIN_SALT_SIZE: nat := 16
  const PIN_IV_SIZE: nat := 16
  const ENC_MAX: nat := PIN_SALT_SIZE + PIN_IV_SIZE + 32

  // ----- Padding, section 6.3 of RFC 5652

  function PadLength(n: nat): (p: byte)
    ensures 1 <= p <= BLOCK && (n + p) % BLOCK == 0
  {
    BLOCK - n % BLOCK
  }

  function Padding(p: byte): (s: seq<byte>)
    ensures |s| == p
  {
    seq(p, _ => p)
  }

  function Padded(data: seq<byte>): (s: seq<byte>)
    ensures |s| % BLOCK == 0 && |data| < |s| <= |data| + BLOCK && data <= s
  {
    data + Padding(PadLength(|data|))
  }

  method Pkcs7Pad(buf: array<byte>, dataLen: nat) returns (n: nat)
    requires dataLen + PadLength(dataLen) <= buf.Length
    modifies buf
    ensures n == |Padded(old(buf[..dataLen]))| && buf[..n] == Padded(old(buf[..dataLen]))
    ensures buf[n..] == old(buf[..])[n..]
  {
    var padLen := BLOCK - dataLen % BLOCK;
    for i := 0 to padLen
      invariant buf[..dataLen] == old(buf[..dataLen])
      invariant forall k :: dataLen <= k < dataLen + i ==> buf[k] == padLen
      invariant forall k :: dataLen + i <= k < buf.Length ==> buf[k] == old(buf[k])
    {
      buf[dataLen + i] := padLen;
    }
    n := dataLen + padLen;
    assert buf[..n] == buf[..dataLen] + buf[dataLen..n];
  }

  /** The length `pkcs7_unpad` returns, or -1. */
  function UnpaddedLength(s: seq<byte>): (n: int)
    ensures n < 0 || n < |s|
  {
    if |s| == 0 || |s| % BLOCK != 0 then -1
    else
      var p := s[|s| - 1];
      if p == 0 || p > BLOCK || s[|s| - p..] != Padding(p) then -1 else |s| - p
  }

  method Pkcs7Unpad(s: seq<byte>) returns (n: int)
    ensures n == UnpaddedLength(s)
  {
    if |s| == 0 || |s| % BLOCK != 0 {
      return -1;
    }
    var p := s[|s| - 1];
    if p == 0 || p > BLOCK {
      return -1;
    }
    for i := 0 to p
      invariant forall j :: |s| - i <= j < |s| ==> s[j] == p
    {
      if s[|s| - 1 - i] != p {
        assert s[|s| - p..][p - 1 - i] != Padding(p)[p - 1 - i];
        return -1;
      }
    }
    assert s[|s| - p..] == Padding(p);
    return |s| - p;
  }

  /** Unpadding undoes padding. */
  lemma UnpadUndoesPad(data: seq<byte>)
    ensures UnpaddedLength(Padded(data)) == |data|
  {
    var s := Padded(data);
    var p := PadLength(|data|);
    assert s[|s| - 1] == Padding(p)[p - 1] == p;
    assert s[|s| - p..] == Padding(p);
  }

  /** A buffer is accepted exactly when it is the padding of some data, and then of its returned prefix. */
  lemma UnpadAcceptsIff(s: seq<byte>)
    ensures UnpaddedLength(s) >= 0 <==> exists data :: s == Padded(data)
    ensures UnpaddedLength(s) >= 0 ==> s == Padded(s[..UnpaddedLength(s)])
  {
    var n := UnpaddedLength(s);
    if n >= 0 {
      RestOfBlock(|s|, s[|s| - 1]);
      assert s == Padded(s[..n]);
    }
    if exists data :: s == Padded(data) {
      var data :| s == Padded(data);
      UnpadUndoesPad(data);
    }
  }

  lemma RestOfBlock(n: nat, p: byte)
    requires n % BLOCK == 0 && 1 <= p <= BLOCK && p <= n
    ensures PadLength(n - p) == p
  {}

  // ----- Encryption, abstractly

  type BlockFunction = (seq<byte>, seq<byte>, seq<byte>) -> seq<byte>

  /** AES-256-CBC under the key derived from the board and the salt: arguments are salt, IV and whole blocks. */
  datatype Cipher = Cipher(encrypt: BlockFunction, decrypt: BlockFunction)

  ghost predicate IsCbc(c: Cipher) {
    forall salt, iv, x :: |x| % BLOCK == 0 ==>
      |c.encrypt(salt, iv, x)| == |x| && |c.decrypt(salt, iv, x)| == |x| &&
      c.decrypt(salt, iv, c.encrypt(salt, iv, x)) == x
  }

  /** The file layout: salt, IV, ciphertext. */
  function Sealed(c: Cipher, pin: seq<byte>, salt: seq<byte>, iv: seq<byte>): seq<byte> {
    salt + iv + c.encrypt(salt, iv, Padded(pin))
  }

  /** What `crypto_decrypt_pin` puts before the terminator of a buffer of the given size, if it succeeds. */
  function Opened(c: Cipher, enc: seq<byte>, size: nat): Option<seq<byte>> {
    var head := PIN_SALT_SIZE + PIN_IV_SIZE;
    if |enc| < head + BLOCK || (|enc| - head) % BLOCK != 0 || |enc| - head > 48 then None
    else
      var plain := c.decrypt(enc[..PIN_SALT_SIZE], enc[PIN_SALT_SIZE..head], enc[head..]);
      var n := UnpaddedLength(plain);
      if n < 0 || n >= size then None else Some(plain[..n])
  }

  predicate ValidPin(pin: seq<byte>) {
    0 !in pin && 1 <= |pin| <= PIN_MAX_LEN
  }

  /** A saved PIN opens to itself exactly when the buffer has room for it and its terminator. */
  lemma PinRoundTrip(c: Cipher, pin: seq<byte>, salt: seq<byte>, iv: seq<byte>, size: nat)
    requires IsCbc(c) && ValidPin(pin) && |salt| == PIN_SALT_SIZE && |iv| == PIN_IV_SIZE
    ensures |Sealed(c, pin, salt, iv)| <= ENC_MAX
    ensures Opened(c, Sealed(c, pin, salt, iv), size) == if |pin| < size then Some(pin) else None
  {
    var enc := Sealed(c, pin, salt, iv);
    var head := PIN_SALT_SIZE + PIN_IV_SIZE;
    assert |Padded(pin)| <= 32;
    assert enc[..PIN_SALT_SIZE] == salt && enc[PIN_SALT_SIZE..head] == iv;
    assert enc[head..] == c.encrypt(salt, iv, Padded(pin));
    UnpadUndoesPad(pin);
    assert Padded(pin)[..|pin|] == pin;
  }

  class PinStore {
    const cipher: Cipher
    /** /pin.enc; a write either replaces it or leaves it alone. */
    var file: Option<seq<byte>>
    var pinStored: bool

    constructor (cipher: Cipher, file: Option<seq<byte>>)
      ensures this.cipher == cipher && this.file == file && pinStored == file.Some?
    {
      this.cipher, this.file, pinStored := cipher, file, file.Some?;
    }

    /**
     * `storage_save_pin` of a C string without NULs. `cryptoOk` is whether the random source, key derivation and
     * cipher report success, `writeOk` whether the file system takes the write.
     */
    method SavePin(pin: seq<byte>, salt: seq<byte>, iv: seq<byte>, cryptoOk: bool, writeOk: bool) returns (ok: bool)
      requires IsCbc(cipher) && 0 !in pin && |salt| == PIN_SALT_SIZE && |iv| == PIN_IV_SIZE
      modifies this
      ensures ok <==> ValidPin(pin) && cryptoOk && writeOk
      ensures ok ==> file == Some(Sealed(cipher, pin, salt, iv)) && pinStored
      ensures !ok ==> unchanged(this)
    {
      if |pin| == 0 || |pin| > PIN_MAX_LEN {
        return false;
      }
      var plaintext := new byte[32](_ => 0);
      for i := 0 to |pin|
        invariant plaintext[..i] == pin[..i]
        modifies plaintext
      {
        plaintext[i] := pin[i];
        assert plaintext[..i + 1] == plaintext[..i] + [pin[i]];
      }
      assert pin[..|pin|] == pin;
      var paddedLen := Pkcs7Pad(plaintext, |pin|);
      assert plaintext[..paddedLen] == Padded(pin);
      var total := PIN_SALT_SIZE + PIN_IV_SIZE + paddedLen;
      if ENC_MAX < total || !cryptoOk || !writeOk {
        return false;
      }
      file := Some(salt + iv + cipher.encrypt(salt, iv, plaintext[..paddedLen]));
      pinStored := true;
      return true;
    }

    /** The part of the file that is read. */
    function Readable(): Option<seq<byte>>
      reads this
    {
      match file
      case None => None
      case Some(b) => Some(if |b| <= ENC_MAX then b else b[..ENC_MAX])
    }

    /**
     * `storage_load_pin`, `cryptoOk` as above. On success the buffer holds the PIN and its terminator, otherwise it
     * is untouched.
     */
    method LoadPin(buf: array<byte>, cryptoOk: bool) returns (ok: bool)
      requires IsCbc(cipher)
      modifies buf
      ensures ok <==> cryptoOk && Readable().Some? && Opened(cipher, Readable().value, buf.Length).Some?
      ensures ok ==>
        var pin := Opened(cipher, Readable().value, buf.Length).value;
        |pin| < buf.Length && buf[..|pin|] == pin && buf[|pin|] == 0
      ensures !ok ==> unchanged(buf)
    {
      if file.None? || |file.value| == 0 {
        return false;
      }
      var enc := if |file.value| <= ENC_MAX then file.value else file.value[..ENC_MAX];
      var head := PIN_SALT_SIZE + PIN_IV_SIZE;
      if |enc| < head + BLOCK {
        return false;
      }
      var ctLen := |enc| - head;
      if ctLen % BLOCK != 0 || ctLen > 48 || !cryptoOk {
        return false;
      }
      var plain := cipher.decrypt(enc[..PIN_SALT_SIZE], enc[PIN_SALT_SIZE..head], enc[head..]);
      var n := Pkcs7Unpad(plain);
      if n < 0 || n >= buf.Length {
        return false;
      }
      for i := 0 to n
        invariant buf[..i] == plain[..i]
      {
        buf[i] := plain[i];
        assert buf[..i + 1] == buf[..i] + [plain[i]];
      }
      buf[n] := 0;
      return true;
    }
  }
}
