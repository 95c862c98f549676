/**
 * lib/crypto.ts: the hex helpers, the memoised master key and the
 * `iv:tag:ciphertext` envelope around AES-GCM.
 *
 * Web Crypto (`importKey`, AES-GCM `encrypt`/`decrypt`) and the UTF-8
 * `TextEncoder`/`TextDecoder` are foreign code. They are the function values
 * of a `WebCrypto` record, and what the vault relies on about them is the
 * predicate `Conforms`: the AES-GCM output is the ciphertext followed by a
 * 16-byte tag, decryption inverts encryption under the same key and IV
 * (`IsAesGcm`), and decoding that keeps a byte order mark inverts encoding
 * (`IsUtf8`). The default `TextDecoder` the source uses drops a leading
 * U+FEFF, so the round trip as written gives `StripBom` of the plaintext.
 * The random IV is a parameter.
 */
module Crypto {
  import opened Wrappers
  import opened Text

  newtype byte = x: int | 0 <= x < 256

  /** `new Uint8Array(12)` for the IV and the 16-byte AES-GCM tag. */
  const IvLength: nat := 12
  const TagLength: nat := 16

  /** What `decryptPassword` returns for every failure. */
  const DecryptionError: string := "[Decryption Error]"

  // ---------------------------------------------------------------------
  // Hex helpers

  /** The digit `toString(16)` writes for 0 <= d < 16. */
  function HexDigit(d: int): char
    requires 0 <= d < 16
  {
    if d < 10 then ('0' as int + d) as char else ('a' as int + d - 10) as char
  }

  predicate IsLowerHexDigit(c: char)
  {
    '0' <= c <= '9' || 'a' <= c <= 'f'
  }

  /** The value `parseInt(_, 16)` gives one digit of either case; `None` for a non-digit. */
  function DigitValue(c: char): (v: Option<int>)
    ensures v.Some? <==> IsLowerHexDigit(c) || 'A' <= c <= 'F'
    ensures v.Some? ==> 0 <= v.value < 16
    ensures IsLowerHexDigit(c) ==> HexDigit(v.value) == c
    ensures 'A' <= c <= 'F' ==> HexDigit(v.value) == (c as int + 32) as char
  {
    if '0' <= c <= '9' then Some(c as int - '0' as int)
    else if 'a' <= c <= 'f' then Some(c as int - 'a' as int + 10)
    else if 'A' <= c <= 'F' then Some(c as int - 'A' as int + 10)
    else None
  }

  /** The characters `parseInt` skips before the number: ECMAScript white space and line terminators. */
  predicate IsJsWhiteSpace(c: char)
  {
    || c == '\t' || c == '\n' || c == '\U{000B}' || c == '\U{000C}' || c == '\r' || c == ' '
    || c == '\U{00A0}' || c == '\U{1680}' || '\U{2000}' <= c <= '\U{200A}'
    || c == '\U{2028}' || c == '\U{2029}' || c == '\U{202F}' || c == '\U{205F}'
    || c == '\U{3000}' || c == '\U{FEFF}'
  }

  /** The value of one optional hex digit, NaN (stored as 0) when there is none. */
  function DigitOrZero(c: char): (v: int)
    ensures 0 <= v < 16
  {
    if DigitValue(c).Some? then DigitValue(c).value else 0
  }

  /**
   * `parseInt(hi + lo, 16)` stored in a `Uint8Array` cell, which keeps the
   * value modulo 256. Leading white space is skipped and a sign may follow;
   * parsing stops at the first non-digit, so a digit followed by a non-digit
   * gives the first digit alone; no digit at all is NaN, stored as 0.
   */
  function PairValue(hi: char, lo: char): (b: byte)
    ensures IsLowerHexDigit(hi) && IsLowerHexDigit(lo) ==> ByteToHex(b) == [hi, lo]
    ensures DigitValue(hi).None? && !IsJsWhiteSpace(hi) && hi != '+' && hi != '-' ==> b == 0
  {
    if IsJsWhiteSpace(hi) || hi == '+' then DigitOrZero(lo) as byte
    else if hi == '-' then ((256 - DigitOrZero(lo)) % 256) as byte
    else
      match DigitValue(hi)
      case None => 0
      case Some(h) =>
        match DigitValue(lo)
        case None => h as byte
        case Some(l) => (16 * h + l) as byte
  }

  /** A leading blank or `+` reads as a leading zero: `parseInt(" f", 16) == parseInt("0f", 16)`. */
  lemma PairSkipsBlankAndPlus(hi: char, lo: char)
    requires IsJsWhiteSpace(hi) || hi == '+'
    ensures PairValue(hi, lo) == PairValue('0', lo)
  {
  }

  /** A leading `-` negates the digit, wrapped modulo 256 into the `Uint8Array` cell. */
  lemma PairNegates(lo: char)
    ensures (PairValue('-', lo) as int + PairValue('0', lo) as int) % 256 == 0
  {
  }

  /** `parseInt` reads upper-case digits as their lower-case ones. */
  lemma PairIgnoresCase(hi: char, lo: char)
    requires DigitValue(hi).Some? && DigitValue(lo).Some?
    ensures PairValue(hi, lo) == PairValue(LowerChar(hi), LowerChar(lo))
  {
  }

  /** `b.toString(16).padStart(2, "0")`. */
  function ByteToHex(b: byte): string
  {
    [HexDigit(b as int / 16), HexDigit(b as int % 16)]
  }

  /** `bytesToHex`: two lower-case digits per byte, nothing between them. */
  function BytesToHex(bytes: seq<byte>): (hex: string)
    ensures |hex| == 2 * |bytes|
    ensures forall i :: 0 <= i < |hex| ==> IsLowerHexDigit(hex[i])
  {
    if bytes == [] then "" else ByteToHex(bytes[0]) + BytesToHex(bytes[1..])
  }

  /**
   * What `hexToBytes` computes: one byte per pair of characters, a trailing
   * odd character ignored, and no check that the characters are digits.
   */
  function HexDecode(hex: string): (bytes: seq<byte>)
    ensures |bytes| == |hex| / 2
  {
    if |hex| < 2 then [] else [PairValue(hex[0], hex[1])] + HexDecode(hex[2..])
  }

  lemma {:induction false} HexDecodeAt(hex: string, i: nat)
    requires i < |hex| / 2
    ensures HexDecode(hex)[i] == PairValue(hex[2 * i], hex[2 * i + 1])
  {
    if i > 0 {
      HexDecodeAt(hex[2..], i - 1);
    }
  }

  /** `hexToBytes`: fills a `Uint8Array` of `|hex| / 2` cells pair by pair. */
  method HexToBytes(hex: string) returns (bytes: seq<byte>)
    ensures bytes == HexDecode(hex)
  {
    var a := new byte[|hex| / 2];
    for i := 0 to a.Length
      invariant forall j :: 0 <= j < i ==> a[j] == PairValue(hex[2 * j], hex[2 * j + 1])
    {
      a[i] := PairValue(hex[2 * i], hex[2 * i + 1]);
    }
    bytes := a[..];
    forall j | 0 <= j < |bytes|
      ensures bytes[j] == HexDecode(hex)[j]
    {
      HexDecodeAt(hex, j);
    }
  }

  /**
   * `hexToBytes` validates nothing: upper-case digits parse, a digit followed
   * by a non-digit keeps the digit, a non-digit first gives 0, and an odd
   * last character is dropped.
   */
  lemma HexDecodeIsLenient()
    ensures HexDecode("AB") == HexDecode("ab") == [171]
    ensures HexDecode("1z") == [1]
    ensures HexDecode("zz") == [0]
    ensures HexDecode("abc") == [171]
    ensures HexDecode(" f") == HexDecode("+f") == [15]
    ensures HexDecode("-1") == [255]
    ensures HexDecode("-z") == HexDecode("-0") == [0]
  {
    assert "abc"[2..] == "c";
  }

  lemma ByteToHexDecodes(b: byte)
    ensures PairValue(ByteToHex(b)[0], ByteToHex(b)[1]) == b
  {
  }

  /** Decoding the hex of a byte sequence gives the bytes back. */
  lemma {:induction false} HexRoundTrip(bytes: seq<byte>)
    ensures HexDecode(BytesToHex(bytes)) == bytes
  {
    if bytes != [] {
      var hex := BytesToHex(bytes);
      assert hex == ByteToHex(bytes[0]) + BytesToHex(bytes[1..]);
      assert hex[2..] == BytesToHex(bytes[1..]);
      ByteToHexDecodes(bytes[0]);
      HexRoundTrip(bytes[1..]);
    }
  }

  // ---------------------------------------------------------------------
  // The foreign primitives

  /** An opaque `CryptoKey` handle. */
  datatype CryptoKey = CryptoKey(handle: nat)

  datatype WebCrypto = WebCrypto(
    /** `crypto.subtle.importKey("raw", bytes, "AES-GCM", ...)`; `None` when it rejects. */
    importKey: seq<byte> -> Option<CryptoKey>,
    /** AES-GCM encryption of (key, iv, data): ciphertext followed by the tag. */
    encrypt: (CryptoKey, seq<byte>, seq<byte>) -> seq<byte>,
    /** AES-GCM decryption of (key, iv, ciphertext ++ tag); `None` when it rejects. */
    decrypt: (CryptoKey, seq<byte>, seq<byte>) -> Option<seq<byte>>,
    /** `new TextEncoder().encode`. */
    encodeUtf8: string -> seq<byte>,
    /** `new TextDecoder("utf-8", { ignoreBOM: true }).decode`: UTF-8 decoding that keeps a leading U+FEFF. */
    decodeUtf8: seq<byte> -> string)

  /** The length AES-GCM gives its output: the ciphertext, as long as the data, followed by a 16-byte tag. */
  ghost predicate AesGcmLength(w: WebCrypto)
  {
    forall key, iv, data :: |w.encrypt(key, iv, data)| == |data| + TagLength
  }

  /** What the vault assumes of AES-GCM: the output length above, and decryption inverts encryption. */
  ghost predicate IsAesGcm(w: WebCrypto)
  {
    && AesGcmLength(w)
    && (forall key, iv, data :: w.decrypt(key, iv, w.encrypt(key, iv, data)) == Some(data))
  }

  /** What the vault assumes of UTF-8: decoding that keeps a byte order mark inverts encoding. */
  ghost predicate IsUtf8(w: WebCrypto)
  {
    forall text :: w.decodeUtf8(w.encodeUtf8(text)) == text
  }

  ghost predicate Conforms(w: WebCrypto)
  {
    IsAesGcm(w) && IsUtf8(w)
  }

  /**
   * `new TextDecoder("utf-8", { ignoreBOM }).decode(bytes)`. The default,
   * `ignoreBOM: false`, skips a byte order mark at the start of the stream.
   */
  function Decode(w: WebCrypto, ignoreBom: bool, bytes: seq<byte>): string
  {
    if ignoreBom then w.decodeUtf8(bytes) else StripBom(w.decodeUtf8(bytes))
  }

  // ---------------------------------------------------------------------
  // The master key

  datatype KeyError =
    | MasterKeyUndefined  // "PLASMO_PUBLIC_VAULT_MASTER_KEY is not defined"
    | ImportRejected      // the error `importKey` throws

  /** Importing the configured key: a missing or empty value throws before `importKey`. */
  function ImportMasterKey(w: WebCrypto, keyHex: Option<string>): Result<CryptoKey, KeyError>
  {
    if !Truthy(keyHex) then Err(MasterKeyUndefined)
    else
      match w.importKey(HexDecode(keyHex.value))
      case None => Err(ImportRejected)
      case Some(key) => Ok(key)
  }

  /** `getMasterKey` from a given cache: its outcome and the cache afterwards. */
  function KeyLookup(w: WebCrypto, keyHex: Option<string>, cache: Option<CryptoKey>)
    : (Result<CryptoKey, KeyError>, Option<CryptoKey>)
  {
    if cache.Some? then (Ok(cache.value), cache)
    else
      var r := ImportMasterKey(w, keyHex);
      (r, if r.Ok? then Some(r.value) else None)
  }

  /**
   * Memoisation: a cached key is returned and kept; otherwise the cache ends
   * holding exactly the key returned, or stays empty when the import throws.
   * A second lookup from the resulting cache repeats the first one's outcome.
   */
  lemma KeyLookupMemoises(w: WebCrypto, keyHex: Option<string>, cache: Option<CryptoKey>)
    ensures cache.Some? ==> KeyLookup(w, keyHex, cache) == (Ok(cache.value), cache)
    ensures cache.None? ==>
      var (r, cache') := KeyLookup(w, keyHex, cache);
      (r.Ok? ==> cache' == Some(r.value)) && (r.Err? ==> cache' == None)
    ensures !Truthy(keyHex) && cache.None? ==> KeyLookup(w, keyHex, cache) == (Err(MasterKeyUndefined), None)
    ensures
      var (r, cache') := KeyLookup(w, keyHex, cache);
      KeyLookup(w, keyHex, cache') == (r, cache')
  {
  }

  // ---------------------------------------------------------------------
  // The envelope

  /** An index argument of `slice`: a negative one counts from the end; both are clamped to the length. */
  function RelativeIndex(len: nat, i: int): (r: nat)
    ensures r <= len
    ensures 0 <= i <= len ==> r == i
    ensures i < 0 && len + i >= 0 ==> r == len + i
    ensures len + i < 0 ==> r == 0
  {
    if i < 0 then (if len + i < 0 then 0 else len + i)
    else if i > len then len
    else i
  }

  /** `Uint8Array.prototype.slice(start, end)`. */
  function Slice(s: seq<byte>, start: int, end: int): seq<byte>
  {
    var from, to := RelativeIndex(|s|, start), RelativeIndex(|s|, end);
    if from < to then s[from..to] else []
  }

  /**
   * The ciphertext and tag `encryptPassword` cuts out of the primitive's
   * output: `slice(0, length - 16)` and `slice(length - 16)`.
   */
  function SplitSealed(sealed: seq<byte>): (r: (seq<byte>, seq<byte>))
    ensures |sealed| >= TagLength ==>
      && |r.1| == TagLength
      && r.0 + r.1 == sealed
      && r.0 == sealed[..|sealed| - TagLength]
  {
    var ciphertextLength := |sealed| - TagLength;
    (Slice(sealed, 0, ciphertextLength), Slice(sealed, ciphertextLength, |sealed|))
  }

  /** The `${iv}:${tag}:${ciphertext}` template. */
  function FormatEnvelope(iv: seq<byte>, tag: seq<byte>, ciphertext: seq<byte>): string
  {
    BytesToHex(iv) + ":" + BytesToHex(tag) + ":" + BytesToHex(ciphertext)
  }

  /** The envelope `encryptPassword` returns for a key and an IV. */
  function Seal(w: WebCrypto, key: CryptoKey, iv: seq<byte>, text: string): string
  {
    var (ciphertext, tag) := SplitSealed(w.encrypt(key, iv, w.encodeUtf8(text)));
    FormatEnvelope(iv, tag, ciphertext)
  }

  /**
   * What `decryptPassword` returns once the key is available, decoding with
   * a `TextDecoder` whose `ignoreBOM` is `ignoreBom`: the sentinel unless the
   * text splits into exactly three parts and the primitive accepts
   * content ++ tag under the decoded IV.
   */
  function Open(w: WebCrypto, key: CryptoKey, envelope: string, ignoreBom: bool): string
  {
    var parts := Split(envelope, ':');
    if |parts| != 3 then DecryptionError
    else
      var iv, tag, content := HexDecode(parts[0]), HexDecode(parts[1]), HexDecode(parts[2]);
      match w.decrypt(key, iv, content + tag)
      case None => DecryptionError
      case Some(plain) => Decode(w, ignoreBom, plain)
  }

  /** `encryptPassword` from a given cache: the envelope or the rethrown key error, and the cache afterwards. */
  function EncryptOutcome(w: WebCrypto, keyHex: Option<string>, cache: Option<CryptoKey>, iv: seq<byte>, text: string)
    : (Result<string, KeyError>, Option<CryptoKey>)
  {
    var (key, cache') := KeyLookup(w, keyHex, cache);
    match key
    case Err(e) => (Err(e), cache')
    case Ok(k) => (Ok(Seal(w, k, iv, text)), cache')
  }

  /**
   * `decryptPassword` from a given cache, with a decoder whose `ignoreBOM`
   * is `ignoreBom`: the text and the cache afterwards. The key is fetched
   * only after the three-part check, and a failure to get it is masked by
   * the sentinel like every other failure.
   */
  function DecryptOutcomeWith(w: WebCrypto, keyHex: Option<string>, cache: Option<CryptoKey>, envelope: string, ignoreBom: bool)
    : (string, Option<CryptoKey>)
  {
    if |Split(envelope, ':')| != 3 then (DecryptionError, cache)
    else
      var (key, cache') := KeyLookup(w, keyHex, cache);
      match key
      case Err(_) => (DecryptionError, cache')
      case Ok(k) => (Open(w, k, envelope, ignoreBom), cache')
  }

  /** `decryptPassword` as written: line 104 decodes with a default `new TextDecoder()`. */
  function DecryptOutcome(w: WebCrypto, keyHex: Option<string>, cache: Option<CryptoKey>, envelope: string)
    : (string, Option<CryptoKey>)
  {
    DecryptOutcomeWith(w, keyHex, cache, envelope, false)
  }

  lemma NoColonInHex(bytes: seq<byte>)
    ensures ':' !in BytesToHex(bytes)
  {
  }

  /** The `:`-separated parts of an envelope are the three hex strings of the template. */
  lemma FormatEnvelopeSplits(iv: seq<byte>, tag: seq<byte>, ciphertext: seq<byte>)
    ensures Split(FormatEnvelope(iv, tag, ciphertext), ':')
         == [BytesToHex(iv), BytesToHex(tag), BytesToHex(ciphertext)]
  {
    var a, b, c := BytesToHex(iv), BytesToHex(tag), BytesToHex(ciphertext);
    var rest := b + [':'] + c;
    assert FormatEnvelope(iv, tag, ciphertext) == a + [':'] + rest;
    assert Split(rest, ':') == [b, c] by {
      NoColonInHex(tag);
      NoColonInHex(ciphertext);
      SplitAfterFirst(b, ':', c);
      SplitNoSeparator(c, ':');
    }
    assert Split(a + [':'] + rest, ':') == [a] + [b, c] by {
      NoColonInHex(iv);
      SplitAfterFirst(a, ':', rest);
    }
  }

  /**
   * The envelope has three `:`-separated parts: the hex of the IV (24
   * characters for a 12-byte IV), the hex of the 16-byte tag (32 characters)
   * and the hex of the ciphertext (two characters per encoded byte); the tag
   * and ciphertext parts concatenate, decoded, to the primitive's output.
   */
  lemma EnvelopeParts(w: WebCrypto, key: CryptoKey, iv: seq<byte>, text: string)
    requires AesGcmLength(w)
    ensures
      var sealed := w.encrypt(key, iv, w.encodeUtf8(text));
      var parts := Split(Seal(w, key, iv, text), ':');
      && |parts| == 3
      && parts[0] == BytesToHex(iv)
      && (|iv| == IvLength ==> |parts[0]| == 2 * IvLength)
      && |parts[1]| == 2 * TagLength
      && |parts[2]| == 2 * |w.encodeUtf8(text)|
      && HexDecode(parts[2]) + HexDecode(parts[1]) == sealed
  {
    var sealed := w.encrypt(key, iv, w.encodeUtf8(text));
    var (ciphertext, tag) := SplitSealed(sealed);
    assert |sealed| == |w.encodeUtf8(text)| + TagLength;
    assert |ciphertext| == |w.encodeUtf8(text)| && |tag| == TagLength;
    FormatEnvelopeSplits(iv, tag, ciphertext);
    assert HexDecode(BytesToHex(ciphertext)) + HexDecode(BytesToHex(tag)) == sealed by {
      HexRoundTrip(ciphertext);
      HexRoundTrip(tag);
    }
  }

  /**
   * Opening a sealed envelope with the same key decrypts the encoded text;
   * the default decoder of line 104 then drops a leading byte order mark,
   * while a decoder with `ignoreBOM: true` gives the text back exactly.
   */
  lemma SealOpenRoundTrip(w: WebCrypto, key: CryptoKey, iv: seq<byte>, text: string)
    requires Conforms(w)
    ensures Open(w, key, Seal(w, key, iv, text), false) == StripBom(text)
    ensures Open(w, key, Seal(w, key, iv, text), true) == text
  {
    var parts := Split(Seal(w, key, iv, text), ':');
    EnvelopeParts(w, key, iv, text);
    HexRoundTrip(iv);
    assert HexDecode(parts[0]) == iv;
  }

  /**
   * `decryptPassword(encryptPassword(p))` as written: after a successful
   * encryption the key is cached, so decryption uses the same key and keeps
   * the cache, and it returns the plaintext without a leading byte order
   * mark.
   */
  lemma EncryptThenDecrypt(w: WebCrypto, keyHex: Option<string>, cache: Option<CryptoKey>, iv: seq<byte>, text: string)
    requires Conforms(w)
    ensures
      var (r, cache') := EncryptOutcome(w, keyHex, cache, iv, text);
      r.Ok? ==> cache'.Some? && DecryptOutcome(w, keyHex, cache', r.value) == (StripBom(text), cache')
  {
    var (r, cache') := EncryptOutcome(w, keyHex, cache, iv, text);
    if r.Ok? {
      var key := KeyLookup(w, keyHex, cache).0.value;
      EnvelopeParts(w, key, iv, text);
      SealOpenRoundTrip(w, key, iv, text);
    }
  }

  /**
   * As written, a password that starts with U+FEFF does not survive the
   * round trip: the envelope of "\uFEFFpw" decrypts to "pw".
   */
  lemma LeadingBomIsLost(w: WebCrypto, keyHex: Option<string>, cache: Option<CryptoKey>, iv: seq<byte>)
    requires Conforms(w)
    ensures
      var text := [Bom] + "pw";
      var (r, cache') := EncryptOutcome(w, keyHex, cache, iv, text);
      r.Ok? ==> DecryptOutcome(w, keyHex, cache', r.value).0 == "pw" != text
  {
    EncryptThenDecrypt(w, keyHex, cache, iv, [Bom] + "pw");
    assert StripBom([Bom] + "pw") == "pw";
  }

  /**
   * With the decoder the round trip evidently intends
   * (`new TextDecoder("utf-8", { ignoreBOM: true })`), `decryptPassword`
   * returns every plaintext `encryptPassword` sealed, exactly.
   */
  lemma EncryptThenDecryptIgnoringBom(w: WebCrypto, keyHex: Option<string>, cache: Option<CryptoKey>, iv: seq<byte>, text: string)
    requires Conforms(w)
    ensures
      var (r, cache') := EncryptOutcome(w, keyHex, cache, iv, text);
      r.Ok? ==> cache'.Some? && DecryptOutcomeWith(w, keyHex, cache', r.value, true) == (text, cache')
  {
    var (r, cache') := EncryptOutcome(w, keyHex, cache, iv, text);
    if r.Ok? {
      var key := KeyLookup(w, keyHex, cache).0.value;
      EnvelopeParts(w, key, iv, text);
      SealOpenRoundTrip(w, key, iv, text);
    }
  }

  /** Only a text with exactly two `:` reaches the primitive; any other returns the sentinel and leaves the cache alone. */
  lemma {:induction false} MalformedEnvelope(w: WebCrypto, keyHex: Option<string>, cache: Option<CryptoKey>, envelope: string)
    ensures Count(envelope, ':') != 2 ==> DecryptOutcome(w, keyHex, cache, envelope) == (DecryptionError, cache)
    ensures DecryptOutcome(w, keyHex, cache, envelope).0 == DecryptionError || Count(envelope, ':') == 2
  {
    if Count(envelope, ':') == 2 {
      assert |Split(envelope, ':')| == 3;
    }
  }

  // ---------------------------------------------------------------------
  // The module state

  /**
   * The module-level state of lib/crypto.ts: the configured key text and the
   * `cachedKey` variable. The ghost counters record how often `importKey`
   * and `decryptPassword` ran.
   */
  class CryptoModule {
    const platform: WebCrypto
    /** `process.env.PLASMO_PUBLIC_VAULT_MASTER_KEY`; `None` when undefined. */
    const masterKeyHex: Option<string>
    var cachedKey: Option<CryptoKey>
    ghost var importCalls: nat
    ghost var decryptCalls: nat

    constructor (platform: WebCrypto, masterKeyHex: Option<string>)
      ensures this.platform == platform && this.masterKeyHex == masterKeyHex
      ensures cachedKey == None && importCalls == 0 && decryptCalls == 0
    {
      this.platform := platform;
      this.masterKeyHex := masterKeyHex;
      cachedKey := None;
      importCalls := 0;
      decryptCalls := 0;
    }

    /** `getMasterKey`: returns the cached key, or imports the configured one and caches it. */
    method GetMasterKey() returns (r: Result<CryptoKey, KeyError>)
      modifies this
      ensures (r, cachedKey) == KeyLookup(platform, masterKeyHex, old(cachedKey))
      ensures importCalls == old(importCalls) + (if old(cachedKey).None? && Truthy(masterKeyHex) then 1 else 0)
      ensures decryptCalls == old(decryptCalls)
    {
      if cachedKey.Some? {
        return Ok(cachedKey.value);
      }
      if !Truthy(masterKeyHex) {
        return Err(MasterKeyUndefined);
      }
      var keyBytes := HexToBytes(masterKeyHex.value);
      importCalls := importCalls + 1;
      var imported := platform.importKey(keyBytes);
      if imported.None? {
        return Err(ImportRejected);
      }
      cachedKey := imported;
      r := Ok(imported.value);
    }

    /** `encryptPassword(text)` with `iv` the twelve random bytes. */
    method EncryptPassword(text: string, iv: seq<byte>) returns (r: Result<string, KeyError>)
      requires |iv| == IvLength
      modifies this
      ensures (r, cachedKey) == EncryptOutcome(platform, masterKeyHex, old(cachedKey), iv, text)
      ensures importCalls <= old(importCalls) + 1
      ensures old(cachedKey).Some? ==> importCalls == old(importCalls)
      ensures decryptCalls == old(decryptCalls)
    {
      var key := GetMasterKey();
      if key.Err? {
        return Err(key.error);
      }
      var encoded := platform.encodeUtf8(text);
      var encryptedBytes := platform.encrypt(key.value, iv, encoded);
      var ciphertextLength := |encryptedBytes| - TagLength;
      var ciphertext := Slice(encryptedBytes, 0, ciphertextLength);
      var authTag := Slice(encryptedBytes, ciphertextLength, |encryptedBytes|);
      r := Ok(BytesToHex(iv) + ":" + BytesToHex(authTag) + ":" + BytesToHex(ciphertext));
    }

    /** `decryptPassword(encryptedText)`: never throws; every failure is the sentinel. */
    method DecryptPassword(encryptedText: string) returns (plaintext: string)
      modifies this
      ensures (plaintext, cachedKey) == DecryptOutcome(platform, masterKeyHex, old(cachedKey), encryptedText)
      ensures importCalls <= old(importCalls) + 1
      ensures old(cachedKey).Some? ==> importCalls == old(importCalls)
      ensures decryptCalls == old(decryptCalls) + 1
    {
      decryptCalls := decryptCalls + 1;
      var parts := Split(encryptedText, ':');
      if |parts| != 3 {
        return DecryptionError;
      }
      var iv := HexToBytes(parts[0]);
      var authTag := HexToBytes(parts[1]);
      var content := HexToBytes(parts[2]);
      var encryptedData := new byte[|content| + |authTag|];
      forall i | 0 <= i < |content| {
        encryptedData[i] := content[i];
      }
      forall i | 0 <= i < |authTag| {
        encryptedData[|content| + i] := authTag[i];
      }
      assert encryptedData[..] == content + authTag;
      var key := GetMasterKey();
      if key.Err? {
        return DecryptionError;
      }
      var decrypted := platform.decrypt(key.value, iv, encryptedData[..]);
      if decrypted.None? {
        return DecryptionError;
      }
      plaintext := Decode(platform, false, decrypted.value);
    }
  }
}
