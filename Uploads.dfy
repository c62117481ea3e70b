/**
  * Upload acceptance (`allowed_file`) and the content-type sniffing that
  * `get_image` applies to a stored photograph before serving it.
  */
module Uploads {
  import opened Wrappers
  import opened Ascii
  import opened Records

  /** `ALLOWED_EXTENSIONS`. */
  const AllowedExtensions: set<string> := {"png", "jpg", "jpeg", "gif"}

  /** The position of the last `.` in `s`, if there is one. */
  function LastDot(s: string): (r: Option<nat>)
    ensures r.None? <==> forall i :: 0 <= i < |s| ==> s[i] != '.'
    ensures r.Some? ==> r.value < |s| && s[r.value] == '.'
    ensures r.Some? ==> forall j :: r.value < j < |s| ==> s[j] != '.'
  {
    if s == [] then None
    else if s[|s| - 1] == '.' then Some(|s| - 1)
    else LastDot(s[..|s| - 1])
  }

  /**
    * `allowed_file`: `'.' in filename and filename.rsplit('.', 1)[1].lower()
    * in ALLOWED_EXTENSIONS`.
    */
  predicate AllowedFile(filename: string)
  {
    match LastDot(filename)
    case None => false
    case Some(i) => Lower(filename[i + 1..]) in AllowedExtensions
  }

  /** `i` is the position of the last `.` of `s`. */
  predicate IsLastDot(s: string, i: int)
  {
    0 <= i < |s| && s[i] == '.' && forall j :: i < j < |s| ==> s[j] != '.'
  }

  /**
    * A file name is accepted exactly when it has a `.` and the text after its
    * last `.`, lower-cased, is png, jpg, jpeg or gif.
    */
  lemma AllowedFileIff(filename: string)
    ensures AllowedFile(filename) <==>
      exists i :: IsLastDot(filename, i) && Lower(filename[i + 1..]) in AllowedExtensions
  {
    match LastDot(filename)
    case None =>
      assert forall i :: !IsLastDot(filename, i);
    case Some(k) =>
      assert IsLastDot(filename, k);
      forall i | IsLastDot(filename, i) ensures i == k {
        assert !(i < k) && !(k < i);
      }
  }

  /** What register and edit do with an upload: store it only when this holds, else ignore it. */
  predicate AcceptedUpload(upload: Option<Upload>)
  {
    upload.Some? && upload.value.filename != "" && AllowedFile(upload.value.filename)
  }

  // ---------------------------------------------------------------- sniffing

  /** `b'\x89PNG\r\n\x1a\n'` */
  const PngSignature: seq<byte> := [0x89, 0x50, 0x4E, 0x47, 0x0D, 0x0A, 0x1A, 0x0A]
  /** `b'\xff\xd8\xff'` */
  const JpegSignature: seq<byte> := [0xFF, 0xD8, 0xFF]
  /** `b'GIF87a'` */
  const Gif87aSignature: seq<byte> := [0x47, 0x49, 0x46, 0x38, 0x37, 0x61]
  /** `b'GIF89a'` */
  const Gif89aSignature: seq<byte> := [0x47, 0x49, 0x46, 0x38, 0x39, 0x61]

  predicate IsPng(data: seq<byte>) { PngSignature <= data }

  predicate IsGif(data: seq<byte>) { Gif87aSignature <= data || Gif89aSignature <= data }

  /**
    * The mimetype `get_image` serves: PNG, JPEG and GIF by their magic bytes,
    * JPEG for anything else. The three signatures start with different bytes,
    * so the order of the tests does not matter: the result is image/png
    * exactly for PNG data, image/gif exactly for GIF data, and image/jpeg
    * otherwise (a JPEG signature, or nothing recognised, empty data included).
    */
  function ContentType(data: seq<byte>): (mime: string)
    ensures mime == "image/png" <==> IsPng(data)
    ensures mime == "image/gif" <==> IsGif(data)
    ensures mime == "image/jpeg" <==> !IsPng(data) && !IsGif(data)
  {
    SignaturesDisjoint(data);
    if PngSignature <= data then "image/png"
    else if JpegSignature <= data then "image/jpeg"
    else if Gif87aSignature <= data || Gif89aSignature <= data then "image/gif"
    else "image/jpeg"
  }

  /** No data carries two of the signatures: they differ in their first byte. */
  lemma SignaturesDisjoint(data: seq<byte>)
    ensures !(IsPng(data) && IsGif(data))
    ensures !(JpegSignature <= data && IsGif(data))
  {
    if IsPng(data) {
      assert data[0] == PngSignature[0];
    }
    if JpegSignature <= data {
      assert data[0] == JpegSignature[0];
    }
    if IsGif(data) {
      assert data[0] == 0x47;
    }
  }

  /** Only the first eight bytes decide the content type. */
  lemma ContentTypeReadsEightBytes(data: seq<byte>, rest: seq<byte>)
    requires |data| >= 8
    ensures ContentType(data + rest) == ContentType(data)
  {
    var whole := data + rest;
    assert whole[..8] == data[..8];
    assert IsPng(whole) <==> IsPng(data);
    assert whole[..6] == data[..6];
    assert IsGif(whole) <==> IsGif(data);
  }
}
