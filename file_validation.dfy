/**
 * The checks `handleImageUpload` applies to a chosen file before it starts
 * reading it: first the declared MIME type, then the size.
 */
module FileValidation {
  import opened Options

  /** The largest accepted file, in bytes: `10 * 1024 * 1024`. */
  const MaxBytes: nat := 10 * 1024 * 1024

  /** What the browser reports about a chosen file. */
  datatype FileInfo = FileInfo(mime: string, size: nat)

  /** Why a chosen file is refused; each reason has its own error notice. */
  datatype Reason = TypeError | SizeError

  /** What the change handler does with the input's first file. */
  datatype Verdict = NoFile | Rejected(reason: Reason) | ReadStarted

  /** JavaScript's `s.startsWith(p)`. */
  predicate StartsWith(s: string, p: string) {
    |p| <= |s| && s[..|p|] == p
  }

  /** The type check: the declared type starts with `image/`. */
  predicate IsImageType(mime: string) {
    StartsWith(mime, "image/")
  }

  /** The size check: strictly more than 10 MiB is too large. */
  predicate TooLarge(size: nat) {
    size > MaxBytes
  }

  /** A file passes validation when it is an image and not too large. */
  predicate Accepts(mime: string, size: nat) {
    IsImageType(mime) && !TooLarge(size)
  }

  /**
   * The reason a file is refused, if any. The type is checked before the
   * size, so a file that fails both is refused for its type.
   */
  function Rejection(mime: string, size: nat): (r: Option<Reason>)
    ensures r.None? <==> Accepts(mime, size)
    ensures r == Some(TypeError) <==> !IsImageType(mime)
    ensures r == Some(SizeError) <==> IsImageType(mime) && size > 10485760
  {
    if !IsImageType(mime) then Some(TypeError)
    else if TooLarge(size) then Some(SizeError)
    else None
  }

  /** `startsWith` agrees with the reference definition "is p followed by something". */
  lemma StartsWithIffPrefixed(s: string, p: string)
    ensures StartsWith(s, p) <==> exists rest :: s == p + rest
  {
    if StartsWith(s, p) {
      assert s == p + s[|p|..];
    }
    if exists rest :: s == p + rest {
      var rest :| s == p + rest;
      assert s[..|p|] == p;
    }
  }

  /**
   * Acceptance, stated without the validator's own predicates: the type is
   * `image/` followed by anything, and the size is at most 10485760 bytes.
   */
  lemma AcceptsCharacterized(mime: string, size: nat)
    ensures Accepts(mime, size) <==> (exists rest :: mime == "image/" + rest) && size <= 10485760
  {
    StartsWithIffPrefixed(mime, "image/");
  }

  /** A non-image file that is also oversized reports the type error, never the size error. */
  lemma TypeCheckedFirst(mime: string, size: nat)
    requires !IsImageType(mime) && TooLarge(size)
    ensures Rejection(mime, size) == Some(TypeError)
    ensures Rejection(mime, size) != Some(SizeError)
  {
  }

  /** The size bound is inclusive: exactly 10 MiB passes, one byte more does not. */
  lemma SizeBoundary(mime: string)
    requires IsImageType(mime)
    ensures MaxBytes == 10485760
    ensures Rejection(mime, 10485760) == None
    ensures Rejection(mime, 10485761) == Some(SizeError)
  {
  }
}
