/** The checks of services/CloudinaryService.java around the receipt store:
    which uploads and deletions are refused, and how a public id is read back
    out of a stored receipt URL. The calls to the store itself are not part
    of this model. */
module CloudinaryService {

  import opened Wrappers
  import opened Text
  import opened Split
  import opened Multipart

  /** 10 MiB. */
  const MaxReceiptSize := 10 * 1024 * 1024

  predicate AllowedType(contentType: Option<string>) {
    contentType.Some? && (StartsWith(contentType.value, "image/") || contentType.value == "application/pdf")
  }

  /** The message of the first check of `uploadReceipt` that fails, in the
      order emptiness, content type, size; None when all pass. */
  function ReceiptProblem(file: Option<MultipartFile>): (r: Option<string>)
    ensures r.None? <==> file.Some? && !IsEmpty(file.value) && AllowedType(file.value.contentType)
                         && file.value.size <= MaxReceiptSize
    ensures r == Some("File cannot be null or empty") <==> file.None? || IsEmpty(file.value)
    ensures r == Some("Only images and PDF files are allowed") <==>
              file.Some? && !IsEmpty(file.value) && !AllowedType(file.value.contentType)
    ensures r == Some("File size must be less than 10MB") <==>
              file.Some? && !IsEmpty(file.value) && AllowedType(file.value.contentType)
              && file.value.size > MaxReceiptSize
  {
    if file.None? || IsEmpty(file.value) then Some("File cannot be null or empty")
    else if !AllowedType(file.value.contentType) then Some("Only images and PDF files are allowed")
    else if file.value.size > MaxReceiptSize then Some("File size must be less than 10MB")
    else None
  }

  datatype UploadError = InvalidArgument(message: string) | ReadFailure

  /** `uploadReceipt`: the bytes handed to the store, or why nothing was. */
  function UploadReceipt(file: Option<MultipartFile>): (r: Result<seq<bv8>, UploadError>)
    ensures r.Failure? && r.error.InvalidArgument? <==> ReceiptProblem(file).Some?
    ensures r.Failure? && r.error.InvalidArgument? ==> r.error.message == ReceiptProblem(file).value
    ensures r.Success? <==> ReceiptProblem(file).None? && file.value.bytes.Some?
    ensures r.Success? ==> r.value == file.value.bytes.value
  {
    match ReceiptProblem(file)
      case Some(message) => Failure(InvalidArgument(message))
      case None =>
        match file.value.bytes
          case None => Failure(ReadFailure)
          case Some(bytes) => Success(bytes)
  }

  /** `deleteFile`: the id handed to the store, unchanged, or the refusal of
      a null or blank one. */
  function DeleteFile(publicId: Option<string>): (r: Result<string, string>)
    ensures r.Failure? <==> publicId.None? || TrimsToEmpty(publicId.value)
    ensures r.Failure? ==> r.error == "Public ID cannot be null or empty"
    ensures r.Success? ==> r.value == publicId.value
  {
    if publicId.None? || TrimsToEmpty(publicId.value) then Failure("Public ID cannot be null or empty")
    else Success(publicId.value)
  }

  const Marker := "/upload/"

  /** The outcome of `extractPublicIdFromUrl`: null, an id, or the index
      exception raised when the text to cut is made only of dots. */
  datatype Extraction = NullId | PublicId(id: string) | IndexFailure

  /** The text after the first marker, with a leading version segment
      dropped when it contains a '/'. */
  function AfterVersion(after: string): string {
    var versionParts := SplitOnce(after, "/");
    if Contains(after, "/") && |versionParts| > 1 then versionParts[1] else after
  }

  /** `extractPublicIdFromUrl`. */
  function ExtractPublicIdFromUrl(url: Option<string>): (r: Extraction)
    ensures url.None? || TrimsToEmpty(url.value) ==> r == NullId
    ensures url.Some? && !Contains(url.value, Marker) ==> r == NullId
    ensures r.PublicId? ==> forall j :: 0 <= j < |r.id| ==> r.id[j] != '.'
  {
    if url.None? || TrimsToEmpty(url.value) then NullId
    else
      var parts := JavaSplit(url.value, Marker);
      if |parts| < 2 then NullId
      else
        match BeforeFirstDot(AfterVersion(parts[1]))
          case None => IndexFailure
          case Some(id) => PublicId(id)
  }

  ghost predicate NoMarkerBefore(s: string, n: nat) {
    forall i :: 0 <= i < n ==> !OccursAt(s, Marker, i)
  }

  /** When the first marker ends `base` and no other follows, the second
      piece of the split is everything after it. */
  lemma {:induction false} PiecesAroundMarker(base: string, tail: string)
    requires NoMarkerBefore(base + Marker + tail, |base|)
    requires !Contains(tail, Marker)
    ensures JavaSplit(base + Marker + tail, Marker) ==
              if tail != "" then [base, tail] else if base != "" then [base] else []
  {
    var url := base + Marker + tail;
    assert url[|base|..|base| + |Marker|] == Marker;
    FirstMatchAt(url, Marker, |base|);
    assert url[..|base|] == base && url[|base| + |Marker|..] == tail;
    assert SplitAll(tail, Marker) == [tail];
    assert SplitAll(url, Marker) == [base, tail];
    if tail == "" {
      assert DropTrailingEmpty([base, tail]) == DropTrailingEmpty([base]);
      if base == "" {
        assert DropTrailingEmpty([base]) == DropTrailingEmpty([]);
      }
    }
  }

  /** A URL whose first marker stands at its end has nothing after it and yields null. */
  lemma NothingAfterMarker(base: string)
    requires NoMarkerBefore(base + Marker, |base|)
    ensures ExtractPublicIdFromUrl(Some(base + Marker)) == NullId
  {
    assert base + Marker == base + Marker + "";
    PiecesAroundMarker(base, "");
  }

  /** A character is a one-character match where it stands. */
  lemma CharAt(s: string, c: char, i: nat)
    requires i < |s| && s[i] == c
    ensures OccursAt(s, [c], i)
  {
    assert s[i..i + 1] == [c];
  }

  /** Dropping the version segment of `version/rest` leaves `rest`. */
  lemma DropsVersion(version: string, rest: string)
    requires forall j :: 0 <= j < |version| ==> version[j] != '/'
    ensures AfterVersion(version + "/" + rest) == rest
  {
    var tail := version + "/" + rest;
    CharAt(tail, '/', |version|);
    forall j | 0 <= j < |version| ensures !OccursAt(tail, "/", j) {
      assert tail[j] == version[j];
    }
    FirstMatchAt(tail, "/", |version|);
    assert tail[|version| + 1..] == rest;
  }

  /** The public id of a versioned URL `base/upload/version/path.ext` is
      `path`: the version segment and the extension are dropped. */
  lemma {:induction false} VersionedUrlRoundTrip(base: string, version: string, path: string, ext: string)
    requires NoMarkerBefore(base + Marker + (version + "/" + path + "." + ext), |base|)
    requires !Contains(version + "/" + path + "." + ext, Marker)
    requires forall j :: 0 <= j < |version| ==> version[j] != '/'
    requires |path| > 0 && forall j :: 0 <= j < |path| ==> path[j] != '.'
    ensures ExtractPublicIdFromUrl(Some(base + Marker + (version + "/" + path + "." + ext))) == PublicId(path)
  {
    var tail := version + "/" + path + "." + ext;
    CharAt(base + Marker + tail, '/', |base|);
    PiecesAroundMarker(base, tail);
    assert tail == version + "/" + (path + "." + ext);
    DropsVersion(version, path + "." + ext);
    DotCutsAtPath(path, ext);
  }

  /** Without a version segment, `base/upload/name.ext` yields `name`. */
  lemma {:induction false} PlainUrlRoundTrip(base: string, name: string, ext: string)
    requires NoMarkerBefore(base + Marker + (name + "." + ext), |base|)
    requires forall j :: 0 <= j < |name + "." + ext| ==> (name + "." + ext)[j] != '/'
    requires |name| > 0 && forall j :: 0 <= j < |name| ==> name[j] != '.'
    ensures ExtractPublicIdFromUrl(Some(base + Marker + (name + "." + ext))) == PublicId(name)
  {
    var tail := name + "." + ext;
    CharAt(base + Marker + tail, '/', |base|);
    PiecesAroundMarker(base, tail);
    assert AfterVersion(tail) == tail;
    DotCutsAtPath(name, ext);
  }

  /** Cutting `path.ext` at its first dot gives `path` when `path` has none. */
  lemma DotCutsAtPath(path: string, ext: string)
    requires |path| > 0 && forall j :: 0 <= j < |path| ==> path[j] != '.'
    ensures BeforeFirstDot(path + "." + ext) == Some(path)
  {
    var rest := path + "." + ext;
    assert rest[0] == path[0];
    var v := BeforeFirstDot(rest).value;
    assert rest[|path|] == '.';
    assert |v| <= |path|;
    assert |v| >= |path|;
    assert v == rest[..|v|];
    assert rest[..|path|] == path;
  }

  /** A remainder made only of dots makes the final index fail. */
  lemma DotsOnlyFails(base: string, dots: string)
    requires NoMarkerBefore(base + Marker + dots, |base|)
    requires |dots| > 0 && forall j :: 0 <= j < |dots| ==> dots[j] == '.'
    ensures ExtractPublicIdFromUrl(Some(base + Marker + dots)) == IndexFailure
  {
    CharAt(base + Marker + dots, '/', |base|);
    PiecesAroundMarker(base, dots);
  }
}
