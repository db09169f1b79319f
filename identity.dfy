/**
 * Element identifiers: an explicit string, or the `NoID` marker. A text
 * element given no identifier derives one from its initial text: the first
 * 32 characters of the lowercase hexadecimal SHA-256 digest (section 6.2 of
 * FIPS 180-4) of the text's UTF-8 encoding, that is its first 128 bits.
 *
 * The digest itself is a foreign call: every member that needs it takes it
 * as a parameter `sha256Hex`, standing for `hashlib.sha256(t.encode()).hexdigest()`.
 */
module Identity {
  datatype ElementId = Explicit(id: string) | NoID

  /** Length of a hexadecimal SHA-256 digest, and of the part kept as an identifier. */
  const DigestHexLength := 64
  const IdLength := 32

  predicate IsLowerHex(s: string) {
    forall i :: 0 <= i < |s| ==> s[i] in "0123456789abcdef"
  }

  /** What `hexdigest()` of SHA-256 always returns: 64 lowercase hexadecimal characters. */
  ghost predicate ValidSha256Hex(sha256Hex: string -> string) {
    forall t :: |sha256Hex(t)| == DigestHexLength && IsLowerHex(sha256Hex(t))
  }

  /** Python's slice `s[:n]`, which never fails on a short string. */
  function Truncate(s: string, n: nat): (r: string)
    ensures |r| == if |s| <= n then |s| else n
    ensures r <= s
  {
    if |s| <= n then s else s[..n]
  }

  /** The content-derived identifier of a text. */
  function DeriveId(sha256Hex: string -> string, text: string): (r: string)
    ensures r <= sha256Hex(text)
    ensures ValidSha256Hex(sha256Hex) ==> |r| == IdLength && IsLowerHex(r)
  {
    Truncate(sha256Hex(text), IdLength)
  }

  /**
   * The identifier `Text.__init__` stores: an explicit one unchanged, else the
   * one derived from the initial text. A text element never ends up with `NoID`.
   */
  function TextId(given: ElementId, text: string, sha256Hex: string -> string): (r: ElementId)
    ensures r.Explicit?
    ensures given.Explicit? ==> r == given
    ensures given.NoID? ==> r.id == DeriveId(sha256Hex, text)
  {
    match given
    case Explicit(_) => given
    case NoID => Explicit(DeriveId(sha256Hex, text))
  }

  /** A derived identifier is 128 bits written as 32 lowercase hexadecimal characters. */
  lemma DerivedIdShape(sha256Hex: string -> string, text: string)
    requires ValidSha256Hex(sha256Hex)
    ensures |TextId(NoID, text, sha256Hex).id| == IdLength
    ensures IsLowerHex(TextId(NoID, text, sha256Hex).id)
  {
  }
}
