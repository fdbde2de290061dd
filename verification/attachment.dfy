/** Validation of an uploaded file: its declared type against an allow-list
    of MIME prefixes (with a `.figma` name escape), then its size against a
    10 MiB ceiling. Only the file's metadata is ever looked at. */
module Attachment {
  import opened Wrappers
  import opened Text

  /** A browser `File`, by the three properties the generator reads. */
  datatype FileDescriptor = FileDescriptor(name: string, size: nat, mimeType: string)

  const MaxFileSize: nat := 10 * 1024 * 1024

  const AllowedTypePrefixes: seq<string> := [
    "image/",
    "application/pdf",
    "application/msword",
    "application/vnd.openxmlformats-officedocument.wordprocessingml.document",
    "text/",
    "application/figma"
  ]

  /** Some platforms report no MIME type for design exports, so the name decides. */
  const FigmaSuffix: string := ".figma"

  datatype UploadError = UnsupportedType | FileTooLarge

  /** `prefixes.some(p => s.startsWith(p))`, scanning left to right. */
  function AnyPrefixOf(prefixes: seq<string>, s: string): (r: bool)
    ensures r <==> exists k :: 0 <= k < |prefixes| && prefixes[k] <= s
  {
    if |prefixes| == 0 then false
    else StartsWith(s, prefixes[0]) || AnyPrefixOf(prefixes[1..], s)
  }

  /** The type rule stated directly: some allow-listed prefix begins the MIME
      type, or the name ends in `.figma`. */
  ghost predicate AllowedType(f: FileDescriptor) {
    || (exists p :: p in AllowedTypePrefixes && p <= f.mimeType)
    || (exists stem :: f.name == stem + FigmaSuffix)
  }

  /** The check `handleFileUpload` performs first. */
  predicate IsValidType(f: FileDescriptor) {
    AnyPrefixOf(AllowedTypePrefixes, f.mimeType) || EndsWith(f.name, FigmaSuffix)
  }

  /** The two checks agree on every file. */
  lemma IsValidTypeMeansAllowed(f: FileDescriptor)
    ensures IsValidType(f) <==> AllowedType(f)
  {
    if EndsWith(f.name, FigmaSuffix) {
      var stem := f.name[..|f.name| - |FigmaSuffix|];
      assert f.name == stem + FigmaSuffix;
    }
    if exists stem :: f.name == stem + FigmaSuffix {
      var stem :| f.name == stem + FigmaSuffix;
      EndsWithAppended(stem, FigmaSuffix);
    }
    if exists p :: p in AllowedTypePrefixes && p <= f.mimeType {
      var p :| p in AllowedTypePrefixes && p <= f.mimeType;
      var k :| 0 <= k < |AllowedTypePrefixes| && AllowedTypePrefixes[k] == p;
      assert AllowedTypePrefixes[k] <= f.mimeType;
    }
    if AnyPrefixOf(AllowedTypePrefixes, f.mimeType) {
      var k :| 0 <= k < |AllowedTypePrefixes| && AllowedTypePrefixes[k] <= f.mimeType;
      assert AllowedTypePrefixes[k] in AllowedTypePrefixes;
    }
  }

  /** The type check, then the size check; `None` means the file is accepted. */
  function Validate(f: FileDescriptor): (e: Option<UploadError>)
    ensures e == None <==> AllowedType(f) && f.size <= MaxFileSize
    ensures e == Some(UnsupportedType) <==> !AllowedType(f)
    ensures e == Some(FileTooLarge) <==> AllowedType(f) && f.size > MaxFileSize
  {
    IsValidTypeMeansAllowed(f);
    if !IsValidType(f) then Some(UnsupportedType)
    else if f.size > MaxFileSize then Some(FileTooLarge)
    else None
  }

  /** A file that passes both checks. */
  ghost predicate Acceptable(f: FileDescriptor) {
    AllowedType(f) && f.size <= MaxFileSize
  }

  /** The type is checked first: a file failing both checks gets the type error. */
  lemma TypeCheckedBeforeSize(f: FileDescriptor)
    requires !AllowedType(f) && f.size > MaxFileSize
    ensures Validate(f) == Some(UnsupportedType)
  {
  }

  /** The size limit is inclusive: exactly 10 MiB passes and one byte more fails. */
  lemma SizeBoundary(name: string, mimeType: string)
    requires AllowedType(FileDescriptor(name, MaxFileSize, mimeType))
    ensures Validate(FileDescriptor(name, MaxFileSize, mimeType)) == None
    ensures Validate(FileDescriptor(name, MaxFileSize + 1, mimeType)) == Some(FileTooLarge)
  {
  }

  /** Accepted types, including a `.figma` file whose browser reports an
      empty MIME type. */
  lemma AcceptedTypeExamples()
    ensures Validate(FileDescriptor("photo.png", 2048, "image/png")) == None
    ensures Validate(FileDescriptor("brief.pdf", 2048, "application/pdf")) == None
    ensures Validate(FileDescriptor("notes.txt", 2048, "text/plain")) == None
    ensures Validate(FileDescriptor("board.figma", 2048, "")) == None
  {
    assert AllowedTypePrefixes[0] in AllowedTypePrefixes && AllowedTypePrefixes[0] <= "image/png";
    assert AllowedTypePrefixes[1] in AllowedTypePrefixes && AllowedTypePrefixes[1] <= "application/pdf";
    assert AllowedTypePrefixes[4] in AllowedTypePrefixes && AllowedTypePrefixes[4] <= "text/plain";
    assert "board.figma" == "board" + FigmaSuffix;
  }

  /** An archive is refused with the type error. */
  lemma RejectedTypeExample()
    ensures Validate(FileDescriptor("bundle.zip", 2048, "application/zip")) == Some(UnsupportedType)
  {
    var mt := "application/zip";
    forall p | p in AllowedTypePrefixes
      ensures !(p <= mt)
    {
      if |p| <= |mt| {
        if p[0] == 'a' {
          assert p == "application/pdf";
          assert p[12] != mt[12];
        } else {
          assert p[0] != mt[0];
        }
      }
    }
    var name := "bundle.zip";
    forall stem: string
      ensures name != stem + FigmaSuffix
    {
      if |stem + FigmaSuffix| == |name| {
        assert (stem + FigmaSuffix)[|name| - 1] == 'a' != name[|name| - 1];
      }
    }
  }
}
