/** The arithmetic of the CMS media endpoint: the MIME type served for a
    file name, and the reading of a `Range` header into the bytes sent and
    the `Content-Range` reply. The header reading is the `first-last` and
    `first-` forms of a byte range (section 2.1 of RFC 7233) without the
    satisfiability check; the reply follows section 4.2 of RFC 7233. The
    file system is a parameter: whether the file exists and its size. */
module Media {
  import opened Common

  /** The extension table of `getContentType`, by family. */
  const VideoExtensions: map<string, string> := map[
    "mp4" := "video/mp4", "avi" := "video/avi", "mov" := "video/quicktime",
    "wmv" := "video/x-ms-wmv", "flv" := "video/x-flv"]
  const AudioExtensions: map<string, string> := map[
    "mp3" := "audio/mpeg", "wav" := "audio/wav", "ogg" := "audio/ogg", "m4a" := "audio/mp4"]
  const ImageExtensions: map<string, string> := map[
    "jpg" := "image/jpeg", "jpeg" := "image/jpeg", "png" := "image/png",
    "gif" := "image/gif", "webp" := "image/webp"]

  const OctetStream := "application/octet-stream"

  /** `filename.split('.').pop()`: the text after the last dot, or the whole
      name when it has none. */
  function LastDotPart(filename: string): (ext: string)
    ensures '.' !in ext
  {
    var parts := Split(filename, '.');
    parts[|parts| - 1]
  }

  /** The table as a `switch`. Lower-casing is ASCII here; no non-ASCII
      character lower-cases to one of the table's extensions on its own. */
  function ExtensionType(ext: string): string
  {
    if ext == "mp4" then "video/mp4"
    else if ext == "avi" then "video/avi"
    else if ext == "mov" then "video/quicktime"
    else if ext == "wmv" then "video/x-ms-wmv"
    else if ext == "flv" then "video/x-flv"
    else if ext == "mp3" then "audio/mpeg"
    else if ext == "wav" then "audio/wav"
    else if ext == "ogg" then "audio/ogg"
    else if ext == "m4a" then "audio/mp4"
    else if ext == "jpg" || ext == "jpeg" then "image/jpeg"
    else if ext == "png" then "image/png"
    else if ext == "gif" then "image/gif"
    else if ext == "webp" then "image/webp"
    else OctetStream
  }

  /** `getContentType`: the table entry of the lower-cased text after the
      last dot, `application/octet-stream` for anything else. */
  function GetContentType(filename: string): (t: string)
  {
    ExtensionType(ToLower(LastDotPart(filename)))
  }

  /** The `switch` is the table: a known extension gets its entry, anything
      else the generic type. */
  lemma ExtensionTable(ext: string)
    ensures ext in VideoExtensions ==> ExtensionType(ext) == VideoExtensions[ext]
    ensures ext in AudioExtensions ==> ExtensionType(ext) == AudioExtensions[ext]
    ensures ext in ImageExtensions ==> ExtensionType(ext) == ImageExtensions[ext]
    ensures ext !in VideoExtensions && ext !in AudioExtensions && ext !in ImageExtensions ==>
      ExtensionType(ext) == OctetStream
  {
    if ext in VideoExtensions {
      VideoExtension(ext);
    }
    if ext in AudioExtensions {
      AudioExtension(ext);
    }
    if ext in ImageExtensions {
      ImageExtension(ext);
    }
    if ext !in VideoExtensions && ext !in AudioExtensions && ext !in ImageExtensions {
      UnknownExtension(ext);
    }
  }

  lemma VideoExtension(ext: string)
    requires ext in VideoExtensions
    ensures ExtensionType(ext) == VideoExtensions[ext]
  {
  }

  lemma AudioExtension(ext: string)
    requires ext in AudioExtensions
    ensures ExtensionType(ext) == AudioExtensions[ext]
  {
  }

  lemma ImageExtension(ext: string)
    requires ext in ImageExtensions
    ensures ExtensionType(ext) == ImageExtensions[ext]
  {
  }

  lemma UnknownExtension(ext: string)
    requires ext !in VideoExtensions && ext !in AudioExtensions && ext !in ImageExtensions
    ensures ExtensionType(ext) == OctetStream
  {
  }

  /** The extension decides alone, in any letter case; a name without a dot
      is read as an extension. */
  lemma ContentTypeOfExtension(stem: string, ext: string)
    requires '.' !in ext
    ensures GetContentType(stem + "." + ext) == GetContentType(ext)
    ensures GetContentType(ext) == GetContentType(ToLower(ext))
  {
    SplitLastPart(stem, ext, '.');
    assert stem + "." + ext == stem + ['.'] + ext;
    SplitWithout(ext, '.');
    var low := ToLower(ext);
    assert '.' !in low by {
      forall i | 0 <= i < |low| ensures low[i] != '.' {
        assert low[i] == LowerChar(ext[i]);
      }
    }
    SplitWithout(low, '.');
    assert ToLower(low) == low;
  }

  /** `s.replace(/bytes=/, "")`: the first occurrence removed. */
  function RemoveFirst(s: string, pattern: string): string
  {
    match IndexOf(s, pattern)
    case None => s
    case Some(k) => s[..k] + s[k + |pattern|..]
  }

  /** The reply headers of `streamMedia`. */
  datatype Reply =
    | FileNotFound
    | Whole(length: nat, contentType: string)
    | PartialContent(contentRange: string, acceptRanges: string, length: nat, contentType: string)

  /** The bounds read from the parts of the header split at its dashes:
      `start` from the first part, `end` from the second when it is there
      and not empty, otherwise the last byte of the file. */
  function Bounds(parts: seq<string>, fileSize: nat): (r: Result<(nat, nat)>)
    requires |parts| >= 1
    ensures r.Ok? ==> r.value.0 <= r.value.1
    ensures r.Err? ==> r.error.Failure?
  {
    Limits(ParseInt(parts[0]), if |parts| > 1 && parts[1] != "" then ParseInt(parts[1]) else Some(fileSize - 1))
  }

  /** A read stream refuses a missing or negative bound and a start past the
      end, before any header is written. */
  function Limits(start: Option<int>, end: Option<int>): (r: Result<(nat, nat)>)
    ensures r.Ok? <==> start.Some? && end.Some? && 0 <= start.value <= end.value
    ensures r.Ok? ==> r.value == (start.value, end.value)
    ensures r.Err? ==> r.error.Failure?
  {
    if start.None? || start.value < 0 then Err(Failure(StartOutOfRange))
    else if end.None? || end.value < 0 then Err(Failure(EndOutOfRange))
    else if start.value > end.value then Err(Failure(StartOutOfRange))
    else Ok((start.value, end.value))
  }

  const StartOutOfRange := "The value of \"start\" is out of range."
  const EndOutOfRange := "The value of \"end\" is out of range."

  /** The bytes a `Range` header asks for: `start` from the text before the
      first dash, `end` from the text after it or the last byte of the file. */
  function ParseRange(header: string, fileSize: nat): (r: Result<(nat, nat)>)
    ensures r.Ok? ==> r.value.0 <= r.value.1
    ensures r.Err? ==> r.error.Failure?
  {
    Bounds(Split(RemoveFirst(header, "bytes="), '-'), fileSize)
  }

  /** `Content-Range: bytes first-last/size`. */
  function ContentRange(start: nat, end: nat, size: nat): string
  {
    "bytes " + ShowNat(start) + "-" + ShowNat(end) + "/" + ShowNat(size)
  }

  /** `streamMedia` up to the headers: 404 for a missing file, the whole
      file without a `Range` header, otherwise the requested bytes. */
  function StreamHead(exists_: bool, fileSize: nat, filename: string, range: Option<string>): (r: Result<Reply>)
    ensures !exists_ ==> r == Ok(FileNotFound)
    ensures exists_ && !Truthy(range) ==> r == Ok(Whole(fileSize, GetContentType(filename)))
    ensures exists_ && Truthy(range) ==> (r.Ok? <==> ParseRange(range.value, fileSize).Ok?)
    ensures exists_ && Truthy(range) && r.Ok? ==> r.value.PartialContent? && r.value.contentType == GetContentType(filename)
    ensures exists_ && Truthy(range) && r.Err? ==> r.error == ParseRange(range.value, fileSize).error
    ensures r.Ok? && r.value.PartialContent? ==>
      var b := ParseRange(range.value, fileSize).value;
      && r.value.length == b.1 - b.0 + 1 >= 1
      && r.value.contentRange == ContentRange(b.0, b.1, fileSize)
      && r.value.acceptRanges == "bytes"
  {
    if !exists_ then Ok(FileNotFound)
    else if !Truthy(range) then Ok(Whole(fileSize, GetContentType(filename)))
    else
      var bounds := ParseRange(range.value, fileSize);
      if bounds.Err? then Err(bounds.error)
      else
        var (start, end) := bounds.value;
        Ok(PartialContent(ContentRange(start, end, fileSize), "bytes", end - start + 1, GetContentType(filename)))
  }

  /** `a + [c] + b` splits at `c` into `a` and `b` when neither holds `c`. */
  lemma {:induction false} SplitTwo(a: string, b: string, c: char)
    requires c !in a && c !in b
    ensures Split(a + [c] + b, c) == [a, b]
  {
    if a == [] {
      assert a + [c] + b == [c] + b;
      assert ([c] + b)[1..] == b;
      SplitWithout(b, c);
    } else {
      assert (a + [c] + b)[1..] == a[1..] + [c] + b;
      SplitTwo(a[1..], b, c);
      assert [a[0]] + a[1..] == a;
    }
  }

  lemma ShowNatNoDash(n: nat)
    ensures '-' !in ShowNat(n)
  {
    var s := ShowNat(n);
    forall i | 0 <= i < |s| ensures s[i] != '-' {
      assert IsDigit(s[i]);
    }
  }

  lemma ParseShown(n: nat)
    ensures ParseInt(ShowNat(n)) == Some(n)
  {
    ParseIntDigits(ShowNat(n));
    ShowNatValue(n);
  }

  lemma RemovePrefix(rest: string)
    ensures RemoveFirst("bytes=" + rest, "bytes=") == rest
  {
    var s := "bytes=" + rest;
    assert StartsWith(s, "bytes=") by {
      assert s[..6] == "bytes=";
    }
    assert s[6..] == rest;
  }

  /** The header `bytes=a-b` is split into `a` and `b`. */
  lemma HeaderParts(a: string, b: string)
    requires '-' !in a && '-' !in b
    ensures Split(RemoveFirst("bytes=" + a + "-" + b, "bytes="), '-') == [a, b]
  {
    var rest := a + "-" + b;
    assert "bytes=" + a + "-" + b == "bytes=" + rest;
    RemovePrefix(rest);
    assert rest == a + ['-'] + b;
    SplitTwo(a, b, '-');
  }

  /** Two parts, the second not empty, are read as two numbers. */
  lemma TwoParts(a: string, b: string, size: nat)
    requires b != ""
    ensures Bounds([a, b], size) == Limits(ParseInt(a), ParseInt(b))
  {
    var parts := [a, b];
    assert parts[0] == a && parts[1] == b && |parts| == 2;
  }

  /** A `bytes=first-last` header with `first <= last` is served as exactly
      those bytes. */
  lemma RangeRoundTrip(first: nat, last: nat, size: nat)
    requires first <= last
    ensures ParseRange("bytes=" + ShowNat(first) + "-" + ShowNat(last), size) == Ok((first, last))
  {
    var a, b := ShowNat(first), ShowNat(last);
    ShowNatNoDash(first);
    ShowNatNoDash(last);
    HeaderParts(a, b);
    TwoParts(a, b, size);
    ParseShown(first);
    ParseShown(last);
  }

  /** A `bytes=first-` header runs to the last byte of the file. */
  lemma OpenRangeToEnd(first: nat, size: nat)
    requires first < size
    ensures ParseRange("bytes=" + ShowNat(first) + "-", size) == Ok((first, size - 1))
  {
    ShowNatNoDash(first);
    HeaderParts(ShowNat(first), "");
    assert "bytes=" + ShowNat(first) + "-" == "bytes=" + ShowNat(first) + "-" + "";
    ParseShown(first);
  }

  /** A suffix range (`bytes=-n`) is not supported: there is no first byte. */
  lemma SuffixRangeRefused(n: nat, size: nat)
    ensures ParseRange("bytes=-" + ShowNat(n), size).Err?
  {
    ShowNatNoDash(n);
    HeaderParts("", ShowNat(n));
    assert "bytes=-" + ShowNat(n) == "bytes=" + "" + "-" + ShowNat(n);
  }

  /** Bounds are not checked against the file: a range that starts past its
      end is answered as partial content with a length no byte backs. */
  lemma UnsatisfiableRangeServed()
    ensures ParseRange("bytes=20-29", 10) == Ok((20, 29))
    ensures StreamHead(true, 10, "a.mp4", Some("bytes=20-29")).Ok?
  {
    assert ShowNat(20) == "20" && ShowNat(29) == "29";
    assert "bytes=20-29" == "bytes=" + ShowNat(20) + "-" + ShowNat(29);
    RangeRoundTrip(20, 29, 10);
  }
}
