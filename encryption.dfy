/**
 * The framing of core/encryption.js: `encrypt` concatenates iv (16 bytes), GCM tag (16 bytes),
 * HKDF salt (32 bytes) and ciphertext and renders them in hex; `decrypt` parses the hex and
 * slices the same four parts back out.
 *
 * AES-256-GCM (NIST SP 800-38D) and HKDF-SHA256 (RFC 5869) are abstract: the key derivation,
 * the sealing and the opening are function parameters, and the random salt and iv are parameters.
 */
module Encryption {
  import opened Text

  newtype byte = x: int | 0 <= x < 256

  const IvLength: nat := 16
  const TagLength: nat := 16
  const SaltLength: nat := 32
  /** AES-256 takes a 256-bit key; `hkdfSync` is asked for exactly that many bytes. */
  const KeyLength: nat := 32
  /** Where the ciphertext starts: after iv, tag and salt. */
  const HeaderLength: nat := IvLength + TagLength + SaltLength

  /** What the cipher produces: the ciphertext and the authentication tag. */
  datatype Sealed = Sealed(ciphertext: seq<byte>, tag: seq<byte>)

  /** The result of `decrypt`: the plaintext, or the error it rethrows. */
  datatype Decrypted = Plain(data: seq<byte>) | Thrown

  // ----- hex -----

  function HexDigit(n: nat): (c: char)
    requires n < 16
  {
    if n < 10 then ('0' as int + n) as char else ('a' as int + n - 10) as char
  }

  /** The value of a hex digit of either case, as `Buffer.from(s, "hex")` reads it. */
  function HexValue(c: char): Option<nat> {
    if '0' <= c <= '9' then Some(c as int - '0' as int)
    else if 'a' <= c <= 'f' then Some(c as int - 'a' as int + 10)
    else if 'A' <= c <= 'F' then Some(c as int - 'A' as int + 10)
    else None
  }

  lemma HexDigitValue(n: nat)
    requires n < 16
    ensures HexValue(HexDigit(n)) == Some(n)
  {
  }

  /** `toString("hex")`: two lower-case digits per byte. */
  function HexEncode(bytes: seq<byte>): (s: string)
    ensures |s| == 2 * |bytes|
  {
    if |bytes| == 0 then ""
    else [HexDigit(bytes[0] as nat / 16), HexDigit(bytes[0] as nat % 16)] + HexEncode(bytes[1..])
  }

  /** `Buffer.from(s, "hex")`: pairs of digits up to the first pair that is not one; a lone last digit is dropped. */
  function HexDecode(s: string): (bytes: seq<byte>)
    ensures |bytes| <= |s| / 2
    decreases |s|
  {
    if |s| < 2 then []
    else match (HexValue(s[0]), HexValue(s[1]))
      case (Some(h), Some(l)) => [(h * 16 + l) as byte] + HexDecode(s[2..])
      case _ => []
  }

  /** Decoding the hex of some bytes gives those bytes back. */
  lemma {:induction false} HexRoundTrip(bytes: seq<byte>)
    ensures HexDecode(HexEncode(bytes)) == bytes
    decreases |bytes|
  {
    if |bytes| > 0 {
      var b := bytes[0] as nat;
      HexDigitValue(b / 16);
      HexDigitValue(b % 16);
      var s := HexEncode(bytes);
      assert s[2..] == HexEncode(bytes[1..]);
      HexRoundTrip(bytes[1..]);
      assert (b / 16 * 16 + b % 16) as byte == bytes[0];
    }
  }

  // ----- the frame -----

  /** `Buffer.slice(from, to)`: the bytes between the two offsets, each clamped to the length. */
  function Slice(data: seq<byte>, from: nat, to: nat): (r: seq<byte>)
    ensures from <= to <= |data| ==> r == data[from..to]
  {
    var a := if from < |data| then from else |data|;
    var b := if to < |data| then to else |data|;
    if a <= b then data[a..b] else []
  }

  /** `iv ‖ tag ‖ salt ‖ ciphertext`. */
  function Frame(iv: seq<byte>, tag: seq<byte>, salt: seq<byte>, ciphertext: seq<byte>): seq<byte> {
    iv + tag + salt + ciphertext
  }

  /** The four slices `decrypt` takes recover the four parts `encrypt` concatenated. */
  lemma FrameSlices(iv: seq<byte>, tag: seq<byte>, salt: seq<byte>, ciphertext: seq<byte>)
    requires |iv| == IvLength && |tag| == TagLength && |salt| == SaltLength
    ensures var data := Frame(iv, tag, salt, ciphertext);
            && Slice(data, 0, 16) == iv && Slice(data, 16, 32) == tag && Slice(data, 32, 64) == salt
            && data[HeaderLength..] == ciphertext
  {
    var data := Frame(iv, tag, salt, ciphertext);
    assert data[..16] == iv;
    assert data[16..32] == tag;
    assert data[32..64] == salt;
  }

  /**
   * `encrypt(data, pin)` with the random `salt` and `iv` drawn by the caller: the key is
   * `kdf(pin, salt)`, of the 32 bytes `createCipheriv("aes-256-gcm", …)` needs, and `seal` is
   * the authenticated cipher.
   */
  function Encrypt(data: seq<byte>, pin: seq<byte>, salt: seq<byte>, iv: seq<byte>,
                   kdf: (seq<byte>, seq<byte>) -> seq<byte>,
                   seal: (seq<byte>, seq<byte>, seq<byte>) -> Sealed): (hex: string)
    requires |salt| == SaltLength && |iv| == IvLength && |kdf(pin, salt)| == KeyLength
    requires |seal(kdf(pin, salt), iv, data).tag| == TagLength
    ensures |hex| == 2 * (HeaderLength + |seal(kdf(pin, salt), iv, data).ciphertext|)
  {
    var sealed := seal(kdf(pin, salt), iv, data);
    HexEncode(Frame(iv, sealed.tag, salt, sealed.ciphertext))
  }

  /**
   * `decrypt(hex, pin)`: the parts are sliced out of the decoded bytes, the key is derived again
   * from the pin and the stored salt, and `open` fails (`None`) when authentication fails, which
   * `decrypt` rethrows.
   */
  function Decrypt(hex: string, pin: seq<byte>,
                   kdf: (seq<byte>, seq<byte>) -> seq<byte>,
                   open: (seq<byte>, seq<byte>, seq<byte>, seq<byte>) -> Option<seq<byte>>): Decrypted
  {
    var data := HexDecode(hex);
    var iv := Slice(data, 0, 16);
    var tag := Slice(data, 16, 32);
    var salt := Slice(data, 32, 64);
    var ciphertext := Slice(data, 64, |data|);
    var plain := open(kdf(pin, salt), iv, tag, ciphertext);
    if plain.Some? then Plain(plain.value) else Thrown
  }

  /**
   * With a cipher whose opening undoes its sealing for this key and iv, decrypting what was
   * encrypted under the same pin gives the data back.
   */
  lemma RoundTrip(data: seq<byte>, pin: seq<byte>, salt: seq<byte>, iv: seq<byte>,
                  kdf: (seq<byte>, seq<byte>) -> seq<byte>,
                  seal: (seq<byte>, seq<byte>, seq<byte>) -> Sealed,
                  open: (seq<byte>, seq<byte>, seq<byte>, seq<byte>) -> Option<seq<byte>>)
    requires |salt| == SaltLength && |iv| == IvLength && |kdf(pin, salt)| == KeyLength
    requires |seal(kdf(pin, salt), iv, data).tag| == TagLength
    requires var key := kdf(pin, salt);
             open(key, iv, seal(key, iv, data).tag, seal(key, iv, data).ciphertext) == Some(data)
    ensures Decrypt(Encrypt(data, pin, salt, iv, kdf, seal), pin, kdf, open) == Plain(data)
  {
    var sealed := seal(kdf(pin, salt), iv, data);
    var frame := Frame(iv, sealed.tag, salt, sealed.ciphertext);
    HexRoundTrip(frame);
    FrameSlices(iv, sealed.tag, salt, sealed.ciphertext);
    assert Slice(frame, 64, |frame|) == sealed.ciphertext;
  }

  /** A failed authentication is rethrown, never turned into data. */
  lemma AuthenticationFailureThrows(hex: string, pin: seq<byte>,
                                    kdf: (seq<byte>, seq<byte>) -> seq<byte>,
                                    open: (seq<byte>, seq<byte>, seq<byte>, seq<byte>) -> Option<seq<byte>>)
    requires var data := HexDecode(hex);
             open(kdf(pin, Slice(data, 32, 64)), Slice(data, 0, 16), Slice(data, 16, 32), Slice(data, 64, |data|)).None?
    ensures Decrypt(hex, pin, kdf, open) == Thrown
  {
  }
}
