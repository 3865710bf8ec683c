/** Client-side screening of a candidate file before it may enter a page's
    intake list (`validateFile` of the frontend helpers). */
module FileValidation {
  import opened Wrappers
  import opened Text

  /** The parts of a browser `File` that validation and upload look at. */
  datatype FileInfo = FileInfo(name: string, size: nat, mediaType: string)

  const MiB: nat := 1024 * 1024

  /** The limit both pages pass: 10 MiB. */
  const MaxFileSizeMiB: nat := 10

  /** The media types both pages accept: PDF, plain text, legacy and modern Word. */
  const AllowedTypes: seq<string> := [
    "application/pdf",
    "text/plain",
    "application/msword",
    "application/" + "vnd.openxmlformats-officedocument." + "wordprocessingml.document"
  ]

  function SizeMessage(name: string, maxSizeMiB: nat): string {
    name + ": File must be under " + NatToString(maxSizeMiB) + " MB"
  }

  function TypeMessage(name: string): string {
    name + ": Invalid file type"
  }

  /** The reference condition for a file that passes: within the limit and of a listed type. */
  predicate Conforms(file: FileInfo, maxSizeMiB: nat, allowedTypes: seq<string>) {
    file.size <= maxSizeMiB * MiB && file.mediaType in allowedTypes
  }

  /** The size test first, then exact membership of the media type; None means the file passes. */
  function ValidateFile(file: FileInfo, maxSizeMiB: nat, allowedTypes: seq<string>): (r: Option<string>)
    ensures r.None? <==> Conforms(file, maxSizeMiB, allowedTypes)
    ensures file.size > maxSizeMiB * MiB ==> r == Some(SizeMessage(file.name, maxSizeMiB))
    ensures file.size <= maxSizeMiB * MiB && file.mediaType !in allowedTypes ==>
              r == Some(TypeMessage(file.name))
  {
    if file.size > maxSizeMiB * MiB then Some(SizeMessage(file.name, maxSizeMiB))
    else if file.mediaType !in allowedTypes then Some(TypeMessage(file.name))
    else None
  }

  /** A file of exactly the limit is not too large. */
  lemma SizeAtLimitPasses(file: FileInfo, maxSizeMiB: nat, allowedTypes: seq<string>)
    requires file.size == maxSizeMiB * MiB
    ensures ValidateFile(file, maxSizeMiB, allowedTypes) != Some(SizeMessage(file.name, maxSizeMiB))
    ensures file.mediaType in allowedTypes ==> ValidateFile(file, maxSizeMiB, allowedTypes) == None
  {
    var m := SizeMessage(file.name, maxSizeMiB);
    var t := TypeMessage(file.name);
    if file.mediaType !in allowedTypes {
      assert m[|file.name| + 2] == 'F';
      assert t[|file.name| + 2] == 'I';
    }
  }

  /** The size check takes precedence: an oversized file of a refused type gets
      the size message, which differs from the type message. */
  lemma SizeCheckFirst(file: FileInfo, maxSizeMiB: nat, allowedTypes: seq<string>)
    requires file.size > maxSizeMiB * MiB && file.mediaType !in allowedTypes
    ensures ValidateFile(file, maxSizeMiB, allowedTypes) == Some(SizeMessage(file.name, maxSizeMiB))
    ensures ValidateFile(file, maxSizeMiB, allowedTypes) != Some(TypeMessage(file.name))
  {
    var m := SizeMessage(file.name, maxSizeMiB);
    assert m[|file.name| + 2] == 'F';
    assert TypeMessage(file.name)[|file.name| + 2] == 'I';
  }

  /** Every message names the file first, followed by ": ". */
  lemma MessageNamesFile(file: FileInfo, maxSizeMiB: nat, allowedTypes: seq<string>)
    requires ValidateFile(file, maxSizeMiB, allowedTypes).Some?
    ensures StartsWith(ValidateFile(file, maxSizeMiB, allowedTypes).value, file.name + ": ")
  {
    var r := ValidateFile(file, maxSizeMiB, allowedTypes).value;
    assert r[..|file.name| + 2] == file.name + ": ";
  }

  /** For the pages' configuration the size message says "10 MB". */
  lemma SizeMessageShowsLimit(name: string)
    ensures SizeMessage(name, MaxFileSizeMiB) == name + ": File must be under 10 MB"
  {
    assert NatToString(10) == "10";
  }

  /** Membership is exact: a media type with parameters appended is refused
      even though it begins with a listed type. */
  lemma NoPrefixMatch(name: string, size: nat)
    requires size <= MaxFileSizeMiB * MiB
    ensures ValidateFile(FileInfo(name, size, "text/plain; charset=utf-8"), MaxFileSizeMiB, AllowedTypes)
            == Some(TypeMessage(name))
    ensures ValidateFile(FileInfo(name, size, "text/plain"), MaxFileSizeMiB, AllowedTypes) == None
  {
    var t := "text/plain; charset=utf-8";
    assert t != AllowedTypes[0] by { assert |t| != |AllowedTypes[0]|; }
    assert t != AllowedTypes[1] by { assert |t| != |AllowedTypes[1]|; }
    assert t != AllowedTypes[2] by { assert |t| != |AllowedTypes[2]|; }
    assert t != AllowedTypes[3] by { assert |t| != |AllowedTypes[3]|; }
  }

  /** No file that passes with the pages' allowed types has an `image/` type, so
      no accepted file ever gets a preview. */
  lemma PassingFileIsNoImage(file: FileInfo, maxSizeMiB: nat)
    requires ValidateFile(file, maxSizeMiB, AllowedTypes).None?
    ensures !StartsWith(file.mediaType, "image/")
  {
    var t := file.mediaType;
    assert t == AllowedTypes[0] || t == AllowedTypes[1] || t == AllowedTypes[2] || t == AllowedTypes[3];
    assert |t| > 0 && t[0] != 'i';
  }
}
