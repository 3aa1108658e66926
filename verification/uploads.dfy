/** The image-upload check: a file is stored only if its extension names an
    image type. */
module Uploads {
  import opened Common
  import opened Strings

  const AllowedExtensions: set<string> := {"png", "jpg", "jpeg", "webp"}

  /** `file.filename.split(".")[-1].lower()`. */
  function Extension(filename: string): string
  {
    var parts := SplitOn(filename, ".");
    Lower(parts[|parts| - 1])
  }

  /** A file name with no dot is its own extension. */
  lemma ExtensionWithoutDot(filename: string)
    requires Free(filename, ".")
    ensures Extension(filename) == Lower(filename)
  {
    SplitFree(filename, ".");
  }

  /** The extension is whatever follows the last dot, lower-cased. */
  lemma ExtensionAfterLastDot(stem: string, ext: string)
    requires Free(ext, ".")
    ensures Extension(stem + "." + ext) == Lower(ext)
  {
    SplitAppend(stem, ".", ext);
    SplitFree(ext, ".");
  }

  /** An extension never contains a dot: it is the piece after the last one. */
  lemma ExtensionIsDotFree(filename: string)
    ensures Free(Extension(filename), ".")
  {
    var parts := SplitOn(filename, ".");
    var x := parts[|parts| - 1];
    var e := Extension(filename);
    forall i | 0 <= i < |x|
      ensures e[i] != '.'
    {
      assert !OccursAt(x, ".", i);
      assert x[i..i + 1] == [x[i]];
    }
    forall i: nat | i <= |e|
      ensures !OccursAt(e, ".", i)
    {
      if i < |e| {
        assert e[i..i + 1] == [e[i]];
      }
    }
  }

  /** The name an accepted file is stored under. */
  datatype Upload = Upload(filename: string, uuid: string, stamp: string)

  /** `upload_file`: `None` when the extension is not an allowed image type,
      otherwise the stored path `uploads/<uuid>_<timestamp>.<ext>` with the
      file's own lower-cased extension, which fits
      the 250-character `image_url` column. The uuid is a 36-character uuid4
      and the timestamp is formatted `%d-%m-%Y_%H-%M-%S`, 19 characters. */
  function UploadFile(f: Upload): (r: Option<string>)
    requires |f.uuid| == 36 && |f.stamp| == 19
    ensures r.Some? <==> Extension(f.filename) in AllowedExtensions
    ensures r.Some? ==> |r.value| <= 250
    ensures r.Some? ==> exists ext :: ext in AllowedExtensions && r.value == "uploads/" + f.uuid + "_" + f.stamp + "." + ext
    ensures r.Some? ==> Extension(r.value) == Extension(f.filename)
  {
    var ext := Extension(f.filename);
    if ext !in AllowedExtensions then None
    else
      ExtensionIsDotFree(f.filename);
      ExtensionAfterLastDot("uploads/" + f.uuid + "_" + f.stamp, ext);
      assert "uploads/" + f.uuid + "_" + f.stamp + "." + ext == ("uploads/" + f.uuid + "_" + f.stamp) + "." + ext;
      Some("uploads/" + f.uuid + "_" + f.stamp + "." + ext)
  }

  /** Upper-case extensions are accepted like lower-case ones. */
  lemma UploadIgnoresCase(stem: string, ext: string, uuid: string, stamp: string)
    requires Free(ext, ".")
    requires |uuid| == 36 && |stamp| == 19
    ensures UploadFile(Upload(stem + "." + ext, uuid, stamp)).Some? <==> Lower(ext) in AllowedExtensions
  {
    ExtensionAfterLastDot(stem, ext);
  }
}
