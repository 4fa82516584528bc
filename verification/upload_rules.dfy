/**
 * The checks an uploaded image goes through, in the order the routes and
 * the edit-profile dialog apply them: first the size against a cap, then
 * the `image/` prefix of the MIME type.
 */
module UploadRules {
  import opened Text
  import opened Base64

  /** A browser `File`: its MIME type and its content; `size` is the byte count. */
  datatype File = File(mimeType: string, bytes: seq<byte>) {
    function Size(): nat {
      |bytes|
    }
  }

  const MiB: nat := 1024 * 1024

  datatype Verdict = Accepted | TooLarge | NotImage

  predicate IsImageType(mimeType: string) {
    StartsWith(mimeType, "image/")
  }

  /** `file.size > cap` is checked before `!file.type.startsWith('image/')`. */
  function Screen(f: File, cap: nat): (v: Verdict)
    ensures v == Accepted <==> f.Size() <= cap && IsImageType(f.mimeType)
    ensures v == TooLarge <==> f.Size() > cap
    ensures v == NotImage <==> f.Size() <= cap && !IsImageType(f.mimeType)
  {
    if f.Size() > cap then TooLarge
    else if !IsImageType(f.mimeType) then NotImage
    else Accepted
  }

  /** The cap is inclusive: a file of exactly `cap` bytes passes the size
      check, and one byte more does not, whatever its type. */
  lemma CapIsInclusive(f: File, cap: nat)
    ensures f.Size() == cap ==> Screen(f, cap) != TooLarge
    ensures f.Size() == cap + 1 ==> Screen(f, cap) == TooLarge
  {
  }
}
