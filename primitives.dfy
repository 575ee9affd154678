/**
 * The foreign primitives the core calls but does not define: the SHA-1 and
 * SHA-256 digests and the JSON codec. They are parameters of the model; only
 * their result shapes are known (a raw SHA-1 digest is 20 bytes, a hex
 * SHA-256 digest is 64 lower-case hex digits).
 */
module Primitives {
  import opened Common
  import opened PhpValues

  /** A PHP byte: a char whose code fits in 8 bits. */
  type Byte = c: char | c as int < 256 witness '\0'

  type Bytes = seq<Byte>

  predicate IsLowerHexDigit(c: char) { '0' <= c <= '9' || 'a' <= c <= 'f' }

  /** sha1($data, true) */
  type Sha1Digest = s: Bytes | |s| == 20 witness seq(20, _ => '\0')

  /** hash('sha256', $data) */
  type Sha256Hex = s: string | |s| == 64 && forall i | 0 <= i < |s| :: IsLowerHexDigit(s[i])
    witness seq(64, _ => '0')

  datatype Primitives = Primitives(
    sha1: string -> Sha1Digest,
    sha256Hex: string -> Sha256Hex,
    /** json_decode($s, true); null when the text is not JSON */
    jsonDecode: string -> Value,
    /** json_encode($v); None where PHP returns false */
    jsonEncode: Value -> Option<string>)
}
