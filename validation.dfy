/** The input checks run before a deployment (src/lib/utils/validation.ts):
    the repository name and the uploaded artifact file. Each check returns
    the first message that applies, or nothing when the input is
    acceptable. */
module Validation {
  import opened Types

  /** The longest repository name accepted. */
  const RepoNameMaxLength: nat := 100

  const NameRequired: string := "Repository name is required"
  const NameCharset: string := "Repository name can only contain letters, numbers, hyphens, periods, and underscores"
  const NameTooLong: string := "Repository name cannot exceed 100 characters"
  const FileRequired: string := "Artifact file is required"
  const FileNotText: string := "Only .txt files are allowed"
  const FileTooLarge: string := "File size cannot exceed 5MB"

  /** The MIME type an artifact must carry. */
  const TextPlain: string := "text/plain"

  /** A character of the class `[a-zA-Z0-9_.-]`. */
  predicate IsRepoNameChar(c: char) {
    ('a' <= c <= 'z') || ('A' <= c <= 'Z') || ('0' <= c <= '9') || c == '_' || c == '.' || c == '-'
  }

  /** The name pattern `^[a-zA-Z0-9_.-]+$`: one or more characters, all of
      the class (`$` without the multiline flag only matches at the end). */
  predicate MatchesRepoNamePattern(name: string) {
    |name| > 0 && forall i :: 0 <= i < |name| ==> IsRepoNameChar(name[i])
  }

  /** `validateRepoName`: presence, then the character class, then the
      length limit. */
  function ValidateRepoName(name: string): (r: Option<string>)
    ensures r.None? <==> name != [] && MatchesRepoNamePattern(name) && |name| <= RepoNameMaxLength
    ensures name == [] ==> r == Some(NameRequired)
    ensures name != [] && !MatchesRepoNamePattern(name) ==> r == Some(NameCharset)
    ensures MatchesRepoNamePattern(name) && |name| > RepoNameMaxLength ==> r == Some(NameTooLong)
  {
    if name == [] then Some(NameRequired)
    else if !MatchesRepoNamePattern(name) then Some(NameCharset)
    else if |name| > RepoNameMaxLength then Some(NameTooLong)
    else None
  }

  /** The parts of an uploaded file the check looks at. */
  datatype FileInfo = FileInfo(mimeType: string, size: nat)

  /** `validateArtifactFile`: presence, then the MIME type, then the size
      bound; `None` stands for a missing file. */
  function ValidateArtifactFile(file: Option<FileInfo>): (r: Option<string>)
    ensures r.None? <==> file.Some? && file.value.mimeType == TextPlain && file.value.size <= MaxFileSize
    ensures file.None? ==> r == Some(FileRequired)
    ensures file.Some? && file.value.mimeType != TextPlain ==> r == Some(FileNotText)
    ensures file.Some? && file.value.mimeType == TextPlain && file.value.size > MaxFileSize ==> r == Some(FileTooLarge)
  {
    match file
    case None => Some(FileRequired)
    case Some(f) =>
      if f.mimeType != TextPlain then Some(FileNotText)
      else if f.size > MaxFileSize then Some(FileTooLarge)
      else None
  }

  /** The character check comes before the length check: an over-long name
      with an illegal character gets the character-set message. */
  lemma CharsetBeforeLength(name: string, i: nat)
    requires i < |name| && !IsRepoNameChar(name[i])
    ensures ValidateRepoName(name) == Some(NameCharset)
  {
  }

  /** A name made only of `c`, `n` times over. */
  function Repeat(c: char, n: nat): (r: string)
    ensures |r| == n && forall i :: 0 <= i < n ==> r[i] == c
  {
    if n == 0 then [] else [c] + Repeat(c, n - 1)
  }

  /** The limit is inclusive: 100 valid characters pass, 101 are refused for
      their length. */
  lemma LengthLimit(c: char)
    requires IsRepoNameChar(c)
    ensures ValidateRepoName(Repeat(c, 100)) == None
    ensures ValidateRepoName(Repeat(c, 101)) == Some(NameTooLong)
  {
  }

  /** The bound is inclusive: a text file of exactly 5 MiB is accepted, one
      byte more is refused for its size. */
  lemma SizeLimit()
    ensures ValidateArtifactFile(Some(FileInfo(TextPlain, 5 * 1024 * 1024))) == None
    ensures ValidateArtifactFile(Some(FileInfo(TextPlain, 5 * 1024 * 1024 + 1))) == Some(FileTooLarge)
  {
  }
}
