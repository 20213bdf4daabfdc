/** `ImageProcessor.validateImage` (backend/utils/imageProcessor.js): the
    check an uploaded X-ray passes before analysis. It collects up to two
    errors, the size error first, and throws them joined by ", ". */
module ImageValidation {
  import opened Common

  /** `this.allowedFormats`. */
  const AllowedFormats: seq<string> := ["jpeg", "jpg", "png", "dicom"]

  /** `this.maxFileSize`: 10 MiB. */
  const MaxFileSize: int := 10 * 1024 * 1024

  const SizeError := "File size exceeds 10MB limit"
  const FormatError := "Invalid file format. Only JPEG, PNG, and DICOM files are supported"

  /** The fields of the uploaded file that the check reads. */
  datatype Upload = Upload(size: int, originalname: string, mimetype: string)

  /** `validateImage` returns `true` or throws an `Error` with a message. */
  datatype Verdict = Accepted | Thrown(message: string)

  /** The position of the last `c` in `s`. */
  function LastIndexOf(s: string, c: char): (k: Option<nat>)
    ensures k.Some? ==> k.value < |s| && s[k.value] == c && forall i :: k.value < i < |s| ==> s[i] != c
    ensures k.None? ==> forall i :: 0 <= i < |s| ==> s[i] != c
  {
    if s == [] then None
    else if s[|s| - 1] == c then Some(|s| - 1)
    else LastIndexOf(s[..|s| - 1], c)
  }

  /** `s` without the trailing separators that `path.extname` skips. */
  function DropTrailingSlashes(s: string): (r: string)
    ensures r <= s
    ensures r == [] || r[|r| - 1] != '/'
    ensures forall i :: |r| <= i < |s| ==> s[i] == '/'
  {
    if s == [] || s[|s| - 1] != '/' then s else DropTrailingSlashes(s[..|s| - 1])
  }

  /** The last path segment of a name. */
  function LastSegment(name: string): (seg: string)
    ensures forall i :: 0 <= i < |seg| ==> seg[i] != '/'
  {
    var t := DropTrailingSlashes(name);
    var k := LastIndexOf(t, '/');
    if k.Some? then t[k.value + 1..] else t
  }

  /** POSIX `path.extname`: the last segment from its last dot on; empty
      when the segment has no dot, when its only leading character is that
      dot (a dot-file such as ".png"), and for "..". */
  function Extname(name: string): (ext: string)
    ensures ext == [] || ext[0] == '.'
    ensures |ext| <= |LastSegment(name)|
  {
    var seg := LastSegment(name);
    var k := LastIndexOf(seg, '.');
    if k.None? || k.value == 0 || seg == ".." then "" else seg[k.value..]
  }

  /** `path.extname(name).toLowerCase().slice(1)`. */
  function FileExtension(name: string): string {
    var ext := Lower(Extname(name));
    if ext == [] then [] else ext[1..]
  }

  /** The format rule: an allowed extension, or any image mimetype. */
  predicate FormatAccepted(f: Upload) {
    FileExtension(f.originalname) in AllowedFormats || "image/" <= f.mimetype
  }

  /** `validateImage`: pushes the size error, then the format error, and
      throws their join if there is any. */
  method ValidateImage(f: Upload) returns (verdict: Verdict)
    ensures verdict == Accepted <==> f.size <= MaxFileSize && FormatAccepted(f)
    ensures f.size > MaxFileSize && FormatAccepted(f) ==> verdict == Thrown(SizeError)
    ensures f.size <= MaxFileSize && !FormatAccepted(f) ==> verdict == Thrown(FormatError)
    ensures f.size > MaxFileSize && !FormatAccepted(f) ==> verdict == Thrown(SizeError + ", " + FormatError)
  {
    var errors: seq<string> := [];
    if f.size > MaxFileSize {
      errors := errors + [SizeError];
    }
    var extension := FileExtension(f.originalname);
    if extension !in AllowedFormats && !("image/" <= f.mimetype) {
      errors := errors + [FormatError];
    }
    if |errors| > 0 {
      if |errors| == 2 {
        assert errors[..1] == [SizeError];
        assert Join(errors, ", ") == Join([SizeError], ", ") + ", " + FormatError;
      }
      return Thrown(Join(errors, ", "));
    }
    verdict := Accepted;
  }

  /** A file named with one of the allowed extensions, in any letter case,
      passes the format rule whatever its mimetype. */
  lemma AllowedNamePasses(stem: string, ext: string, mimetype: string, size: int)
    requires Lower(ext) in AllowedFormats
    requires |stem| > 0 && forall i :: 0 <= i < |stem| ==> stem[i] != '/' && stem[i] != '.'
    ensures FormatAccepted(Upload(size, stem + "." + ext, mimetype))
  {
    AllowedHasNoSeparator(ext);
    ExtnameOfPlainName(stem, ext);
    assert Lower("." + ext)[1..] == Lower(ext);
  }

  /** An allowed extension is non-empty and holds neither "." nor "/"; nor
      does any string that lower-cases to one. */
  lemma AllowedHasNoSeparator(ext: string)
    requires Lower(ext) in AllowedFormats
    ensures |ext| > 0 && forall i :: 0 <= i < |ext| ==> ext[i] != '.' && ext[i] != '/'
  {
    forall i | 0 <= i < |ext| ensures ext[i] != '.' && ext[i] != '/' {
      assert Lower(ext)[i] == LowerChar(ext[i]);
    }
  }

  /** `path.extname` of "stem.ext" with no other dot or slash is ".ext". */
  lemma ExtnameOfPlainName(stem: string, ext: string)
    requires |stem| > 0 && forall i :: 0 <= i < |stem| ==> stem[i] != '/' && stem[i] != '.'
    requires |ext| > 0 && forall i :: 0 <= i < |ext| ==> ext[i] != '.' && ext[i] != '/'
    ensures Extname(stem + "." + ext) == "." + ext
  {
    var name := stem + "." + ext;
    assert name[|name| - 1] == ext[|ext| - 1];
    assert DropTrailingSlashes(name) == name;
    assert forall i :: 0 <= i < |name| ==> name[i] != '/' by {
      forall i | 0 <= i < |name| ensures name[i] != '/' {
        if i < |stem| { assert name[i] == stem[i]; }
        else if i > |stem| { assert name[i] == ext[i - |stem| - 1]; }
      }
    }
    NoSlash(name);
    assert forall i :: |stem| < i < |name| ==> name[i] != '.' by {
      forall i | |stem| < i < |name| ensures name[i] != '.' { assert name[i] == ext[i - |stem| - 1]; }
    }
    LastDotAt(name, |stem|);
    assert name[|stem|..] == "." + ext;
  }

  /** A dot-file name such as ".png" has no extension, so only an image
      mimetype lets it pass. */
  lemma DotFileHasNoExtension(rest: string, mimetype: string, size: int)
    requires forall i :: 0 <= i < |rest| ==> rest[i] != '/' && rest[i] != '.'
    ensures Extname("." + rest) == ""
    ensures FormatAccepted(Upload(size, "." + rest, mimetype)) <==> "image/" <= mimetype
  {
    var name := "." + rest;
    assert name[|name| - 1] != '/';
    assert DropTrailingSlashes(name) == name;
    NoSlash(name);
    LastDotAt(name, 0);
  }

  lemma NoSlash(name: string)
    requires forall i :: 0 <= i < |name| ==> name[i] != '/'
    ensures LastIndexOf(name, '/').None?
  {
  }

  lemma LastDotAt(name: string, k: nat)
    requires k < |name| && name[k] == '.' && forall i :: k < i < |name| ==> name[i] != '.'
    ensures LastIndexOf(name, '.') == Some(k)
  {
  }
}
