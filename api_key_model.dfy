/**
 * Stored third-party API keys: quota bookkeeping, the masked display form,
 * and the "iv:ciphertext" storage format with its decryption. The AES-256-CTR
 * cipher itself is abstract (a pair of functions); what is modelled is the
 * key/IV length check Node's cipher constructor performs, the hex encoding
 * and the splitting of the stored form.
 */
module ApiKeyModel {
  import opened Common

  newtype Byte = b: int | 0 <= b < 256

  const DefaultQuotaLimit := 100000
  const DefaultSecret := "default-encryption-secret-key"
  const IvLength := 16
  const CipherKeyLength := 32

  // ---------------------------------------------------------------------
  // Quota
  // ---------------------------------------------------------------------

  /** The `quotaRemaining` virtual, max(0, limit - used). */
  function QuotaRemaining(quotaLimit: int, quotaUsed: int): (r: int)
    ensures r >= 0 && r >= quotaLimit - quotaUsed
    ensures r == 0 || r == quotaLimit - quotaUsed
  {
    Max(0, quotaLimit - quotaUsed)
  }

  /** The `quotaPercentageUsed` virtual, in exact rather than floating-point arithmetic. */
  function QuotaPercentageUsed(quotaLimit: int, quotaUsed: int): (p: real)
    ensures p <= 100.0
    ensures quotaLimit <= 0 ==> p == 100.0
    ensures quotaLimit > 0 && quotaUsed >= 0 ==> p >= 0.0
    ensures 0 < quotaLimit && quotaUsed <= quotaLimit ==> p == (quotaUsed as real / quotaLimit as real) * 100.0
  {
    if quotaLimit > 0 then
      var used := (quotaUsed as real / quotaLimit as real) * 100.0;
      if used <= 100.0 then used else 100.0
    else 100.0
  }

  // ---------------------------------------------------------------------
  // Masking and the stored form
  // ---------------------------------------------------------------------

  /** The masked display form: the first 5 characters, "...", the last 4. */
  function MaskKey(key: string): (m: string)
    ensures |m| == Min(|key|, 5) + 3 + Min(|key|, 4)
    ensures m[..Min(|key|, 5)] == key[..Min(|key|, 5)]
    ensures m[Min(|key|, 5)..Min(|key|, 5) + 3] == "..."
    ensures m[|m| - Min(|key|, 4)..] == key[|key| - Min(|key|, 4)..]
  {
    Take(key, 5) + "..." + TakeLast(key, 4)
  }

  /** The lower-case hex digit of a value below 16. */
  function HexDigit(d: int): (c: char)
    requires 0 <= d < 16
    ensures IsLowerHexDigit(c)
    ensures HexValue(c) == Some(d)
  {
    if d < 10 then ('0' as int + d) as char else ('a' as int + d - 10) as char
  }

  /** The digits `toString('hex')` writes: 0-9 and lower-case a-f. */
  predicate IsLowerHexDigit(c: char) {
    '0' <= c <= '9' || 'a' <= c <= 'f'
  }

  /** The value of a hex digit as Node's hex decoder reads it (either case). */
  function HexValue(c: char): Option<int> {
    if '0' <= c <= '9' then Some(c as int - '0' as int)
    else if 'a' <= c <= 'f' then Some(c as int - 'a' as int + 10)
    else if 'A' <= c <= 'F' then Some(c as int - 'A' as int + 10)
    else None
  }

  /** `buffer.toString('hex')`: two lower-case hex digits per byte. */
  function Hex(bytes: seq<Byte>): (s: string)
    ensures |s| == 2 * |bytes|
    ensures forall k :: 0 <= k < |s| ==> IsLowerHexDigit(s[k]) && HexValue(s[k]).Some?
  {
    if bytes == [] then ""
    else
      var b := bytes[0] as int;
      [HexDigit(b / 16), HexDigit(b % 16)] + Hex(bytes[1..])
  }

  /**
   * `Buffer.from(s, 'hex')`: decodes digit pairs from the front and stops
   * at the first pair that is not two hex digits, or at a lone last digit.
   */
  function NodeHexDecode(s: string): seq<Byte>
    decreases |s|
  {
    if |s| < 2 then []
    else match (HexValue(s[0]), HexValue(s[1]))
      case (Some(h), Some(l)) =>
        assert 0 <= h < 16 && 0 <= l < 16;
        [(h * 16 + l) as Byte] + NodeHexDecode(s[2..])
      case _ => []
  }

  /** Decoding the hex form gives back the bytes. */
  lemma {:induction false} HexRoundTrip(bytes: seq<Byte>)
    ensures NodeHexDecode(Hex(bytes)) == bytes
  {
    if bytes != [] {
      var b := bytes[0] as int;
      var s := Hex(bytes);
      assert s[2..] == Hex(bytes[1..]);
      HexRoundTrip(bytes[1..]);
      assert (b / 16) * 16 + b % 16 == b;
    }
  }

  /** The stored form of an encrypted key: hex(iv) ":" hex(ciphertext). */
  function StoredKey(iv: seq<Byte>, ciphertext: seq<Byte>): string {
    Hex(iv) + ":" + Hex(ciphertext)
  }

  /** Hex has no ':', so splitting the stored form on ':' gives back exactly the two hex strings. */
  lemma StoredKeySplits(iv: seq<Byte>, ciphertext: seq<Byte>)
    ensures Split(StoredKey(iv, ciphertext), ':') == [Hex(iv), Hex(ciphertext)]
  {
    assert ':' !in Hex(iv) by {
      forall k | 0 <= k < |Hex(iv)| ensures Hex(iv)[k] != ':' {
        assert HexValue(Hex(iv)[k]).Some?;
      }
    }
    assert ':' !in Hex(ciphertext) by {
      forall k | 0 <= k < |Hex(ciphertext)| ensures Hex(ciphertext)[k] != ':' {
        assert HexValue(Hex(ciphertext)[k]).Some?;
      }
    }
    assert StoredKey(iv, ciphertext) == Hex(iv) + [':'] + Hex(ciphertext);
    SplitAround(Hex(iv), Hex(ciphertext), ':');
    SplitWithoutSeparator(Hex(ciphertext), ':');
  }

  // ---------------------------------------------------------------------
  // Encryption and decryption
  // ---------------------------------------------------------------------

  /** The encryption secret: the environment's value if set and non-empty, else the built-in default. */
  function EncryptionSecret(env: Option<string>): (s: string)
    ensures env.Some? && env.value != "" ==> s == env.value
    ensures env.None? || env.value == "" ==> s == DefaultSecret
  {
    if env.Some? && env.value != "" then env.value else DefaultSecret
  }

  /** Node's AES-256-CTR cipher constructor rejects a key that is not 32 bytes or an IV that is not 16. */
  predicate CipherKeyOk(secret: string, iv: seq<Byte>) {
    |secret| == CipherKeyLength && |iv| == IvLength
  }

  /**
   * `getDecryptedKey`: split the stored form on ':', hex-decode both parts
   * and decipher; every failure yields None instead of an exception.
   */
  function GetDecryptedKey(stored: string, env: Option<string>,
                           decrypt: (string, seq<Byte>, seq<Byte>) -> string): (r: Option<string>)
    ensures ':' !in stored ==> r.None?
    ensures r.Some? <==> |Split(stored, ':')| >= 2 && CipherKeyOk(EncryptionSecret(env), NodeHexDecode(Split(stored, ':')[0]))
    ensures r.Some? ==> CipherKeyOk(EncryptionSecret(env), NodeHexDecode(Split(stored, ':')[0]))
    ensures r.Some? ==> r.value == decrypt(EncryptionSecret(env), NodeHexDecode(Split(stored, ':')[0]), NodeHexDecode(Split(stored, ':')[1]))
  {
    var parts := Split(stored, ':');
    if |parts| < 2 then None
    else
      var secret := EncryptionSecret(env);
      var iv := NodeHexDecode(parts[0]);
      if !CipherKeyOk(secret, iv) then None
      else Some(decrypt(secret, iv, NodeHexDecode(parts[1])))
  }

  /** Storing then decrypting gives the key back whenever the cipher pair is inverse. */
  lemma StoreThenDecrypt(key: string, iv: seq<Byte>, env: Option<string>,
                         encrypt: (string, seq<Byte>, string) -> seq<Byte>,
                         decrypt: (string, seq<Byte>, seq<Byte>) -> string)
    requires CipherKeyOk(EncryptionSecret(env), iv)
    requires decrypt(EncryptionSecret(env), iv, encrypt(EncryptionSecret(env), iv, key)) == key
    ensures GetDecryptedKey(StoredKey(iv, encrypt(EncryptionSecret(env), iv, key)), env, decrypt) == Some(key)
  {
    var ct := encrypt(EncryptionSecret(env), iv, key);
    StoredKeySplits(iv, ct);
    HexRoundTrip(iv);
    HexRoundTrip(ct);
  }

  /** The built-in default secret has 29 characters, so without the environment secret nothing decrypts. */
  lemma DefaultSecretNeverDecrypts(stored: string, decrypt: (string, seq<Byte>, seq<Byte>) -> string)
    ensures |DefaultSecret| == 29
    ensures GetDecryptedKey(stored, None, decrypt) == None
  {
  }

  /** An API-key document with the fields the hooks and methods touch. */
  class ApiKey {
    var key: string
    var keyModified: bool
    var maskedKey: string
    var quotaLimit: int
    var quotaUsed: int
    var quotaResetDate: int

    /** A new document: its key counts as modified, nothing is used yet. */
    constructor (key: string, quotaLimit: int, quotaResetDate: int)
      ensures this.key == key && keyModified && maskedKey == ""
      ensures this.quotaLimit == quotaLimit && quotaUsed == 0 && this.quotaResetDate == quotaResetDate
    {
      this.key := key;
      keyModified := true;
      maskedKey := "";
      this.quotaLimit := quotaLimit;
      quotaUsed := 0;
      this.quotaResetDate := quotaResetDate;
    }

    function Remaining(): int
      reads this
    {
      QuotaRemaining(quotaLimit, quotaUsed)
    }

    /** `incrementUsage(amount)`: adds exactly `amount`, with no cap at the limit. */
    method IncrementUsage(amount: int)
      modifies this`quotaUsed
      ensures quotaUsed == old(quotaUsed) + amount
    {
      quotaUsed := quotaUsed + amount;
    }

    /** `resetQuota`: nothing used, and the next reset date (a month on, computed by the caller). */
    method ResetQuota(nextResetDate: int)
      modifies this`quotaUsed, this`quotaResetDate
      ensures quotaUsed == 0 && quotaResetDate == nextResetDate
      ensures quotaLimit >= 0 ==> Remaining() == quotaLimit
    {
      quotaUsed := 0;
      quotaResetDate := nextResetDate;
    }

    /**
     * The pre-save hook. With the key modified it first sets the masked
     * form, then replaces the key by its stored form; when the cipher
     * rejects the secret the save fails with the mask already rewritten and
     * the plaintext key still in place. `iv` is the 16 random bytes the hook
     * draws.
     */
    method PreSave(env: Option<string>, iv: seq<Byte>, encrypt: (string, seq<Byte>, string) -> seq<Byte>)
      returns (r: Result<(), string>)
      requires |iv| == IvLength
      modifies this`key, this`maskedKey
      ensures !old(keyModified) ==> r.Ok? && key == old(key) && maskedKey == old(maskedKey)
      ensures old(keyModified) ==> maskedKey == MaskKey(old(key))
      ensures r.Err? <==> old(keyModified) && !CipherKeyOk(EncryptionSecret(env), iv)
      ensures r.Err? ==> key == old(key)
      ensures r.Ok? && old(keyModified) ==> key == StoredKey(iv, encrypt(EncryptionSecret(env), iv, old(key)))
    {
      if !keyModified {
        return Ok(());
      }
      maskedKey := MaskKey(key);
      var secret := EncryptionSecret(env);
      if !CipherKeyOk(secret, iv) {
        return Err("Invalid key length");
      }
      key := StoredKey(iv, encrypt(secret, iv, key));
      return Ok(());
    }
  }
}
