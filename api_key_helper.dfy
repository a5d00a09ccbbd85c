/**
 * application/helpers/api_key_helper.php: generating, checking, masking and
 * hashing API keys. `random_bytes(32)` is the byte sequence passed in and
 * `hash('sha256', ...)` the parameter `sha256`.
 */
module ApiKeyHelper {
  import opened Strings

  /** The key length the helpers expect: 32 random bytes as hex. */
  const KeyLength := 64

  /** `generate_api_key` */
  function GenerateApiKey(random: seq<byte>): (key: string)
    requires |random| == 32
    ensures |key| == KeyLength && AllChars(key, IsLowerHexDigit)
  {
    Bin2Hex(random)
  }

  /**
   * `validate_api_key_format` as written: `/^[a-f0-9]{64}$/` without the D
   * modifier, whose `$` also matches before one final newline.
   */
  predicate ValidateApiKeyFormatAsWritten(key: string)
  {
    (|key| == KeyLength && AllChars(key, IsLowerHexDigit))
    || (|key| == KeyLength + 1 && key[KeyLength] == '\n' && AllChars(key[..KeyLength], IsLowerHexDigit))
  }

  /** Sixty-four hex digits and a newline pass the pattern although the key is 65 characters long. */
  lemma TrailingNewlineAccepted()
    ensures var key := Repeat('a', KeyLength) + "\n";
      ValidateApiKeyFormatAsWritten(key) && !IsValidApiKeyLength(key)
  {
    var key := Repeat('a', KeyLength) + "\n";
    assert key[..KeyLength] == Repeat('a', KeyLength);
  }

  /** `validate_api_key_format` as the pattern intends: exactly 64 characters over 0-9a-f. */
  predicate ValidateApiKeyFormat(key: string)
  {
    |key| == KeyLength && AllChars(key, IsLowerHexDigit)
  }

  /** `is_valid_api_key_length` */
  predicate IsValidApiKeyLength(key: string)
  {
    |key| == KeyLength
  }

  /** A well-formed key has the valid length, and the intended check only drops what the written one adds. */
  lemma FormatImpliesLength(key: string)
    ensures ValidateApiKeyFormat(key) ==> IsValidApiKeyLength(key)
    ensures ValidateApiKeyFormat(key) ==> ValidateApiKeyFormatAsWritten(key)
    ensures ValidateApiKeyFormatAsWritten(key) && !ValidateApiKeyFormat(key) ==> key[|key| - 1] == '\n'
  {
  }

  /** Every generated key is well formed. */
  lemma GeneratedKeyValid(random: seq<byte>)
    requires |random| == 32
    ensures ValidateApiKeyFormat(GenerateApiKey(random))
  {
  }

  /** `mask_api_key`: the first show_chars characters, then one '*' per remaining character. */
  function MaskApiKey(key: string, showChars: nat): (masked: string)
    ensures |masked| == |key|
    ensures |key| <= showChars ==> forall i :: 0 <= i < |masked| ==> masked[i] == '*'
    ensures |key| > showChars ==> masked[..showChars] == key[..showChars]
    ensures |key| > showChars ==> forall i :: showChars <= i < |masked| ==> masked[i] == '*'
  {
    if |key| <= showChars then Repeat('*', |key|)
    else key[..showChars] + Repeat('*', |key| - showChars)
  }

  /** SHA-256 of the text, as lowercase hex. */
  type Sha256 = string -> string

  /** `hash_api_key` */
  function HashApiKey(sha256: Sha256, key: string): string
  {
    sha256(key)
  }

  /** `verify_api_key_hash`: the key's hash equals the stored one. */
  predicate VerifyApiKeyHash(sha256: Sha256, key: string, hash: string)
  {
    sha256(key) == hash
  }

  /** A key verifies against its own hash, and only a hash equal to it verifies. */
  lemma HashRoundTrip(sha256: Sha256, key: string, hash: string)
    ensures VerifyApiKeyHash(sha256, key, HashApiKey(sha256, key))
    ensures VerifyApiKeyHash(sha256, key, hash) <==> hash == HashApiKey(sha256, key)
  {
  }
}
