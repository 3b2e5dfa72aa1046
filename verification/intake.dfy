/**
 * Upload intake: the extension allow-list applied before a file is written to
 * the staging directory, and the size bounds around it.
 */
module Intake {
  import opened Base
  import opened Text

  /** The allow-list, in the order the filter tries it. */
  const SupportedExtensions: seq<string> := [".wav", ".mp3", ".mp4", ".aac", ".ogg", ".webm", ".flac", ".m4a"]

  /** The ceiling the upload layer enforces before the route handler runs (50 MiB). */
  const MaxFileSize: nat := 50 * 1024 * 1024

  /** The handler's floor: smaller files are refused as "File too small". */
  const MinFileSize: nat := 1000

  /** The filter's error message: the allow-list joined with ", ". */
  const UnsupportedMessage: string :=
    "Unsupported file type. Supported: .wav, .mp3, .mp4, .aac, .ogg, .webm, .flac, .m4a"

  const UnsupportedCode: string := "UNSUPPORTED_FILE_TYPE"

  /** A name is accepted when its lower-cased form ends with one listed extension. */
  predicate Supported(originalName: string) {
    exists ext :: ext in SupportedExtensions && EndsWith(ToLower(originalName), ext)
  }

  datatype FilterVerdict = Accept | Reject(code: string, message: string)

  /** The upload filter: tries the allow-list in order against the lower-cased name. */
  method FileFilter(originalName: string) returns (verdict: FilterVerdict)
    ensures verdict.Accept? <==> Supported(originalName)
    ensures verdict.Reject? ==> verdict == Reject(UnsupportedCode, UnsupportedMessage)
  {
    var lower := ToLower(originalName);
    var i := 0;
    while i < |SupportedExtensions|
      invariant 0 <= i <= |SupportedExtensions|
      invariant forall j :: 0 <= j < i ==> !EndsWith(lower, SupportedExtensions[j])
    {
      if EndsWith(lower, SupportedExtensions[i]) {
        return Accept;
      }
      i := i + 1;
    }
    return Reject(UnsupportedCode, UnsupportedMessage);
  }

  /** The audio types, written without their leading dot. */
  const AudioTypes: seq<string> := ["wav", "mp3", "mp4", "aac", "ogg", "webm", "flac", "m4a"]

  /** The text after the last '.' of `s`, or None when `s` has no '.'. */
  function DotSuffix(s: string): (e: Option<string>)
    ensures e.Some? ==> '.' !in e.value && EndsWith(s, ['.'] + e.value)
    decreases |s|
  {
    if |s| == 0 then None
    else if s[|s| - 1] == '.' then Some("")
    else
      match DotSuffix(s[..|s| - 1])
      case None => None
      case Some(x) =>
        assert s == s[..|s| - 1] + [s[|s| - 1]];
        Some(x + [s[|s| - 1]])
  }

  /** For a dot-free `x`, `s` ends with "." + x exactly when x is what follows the last dot. */
  lemma {:induction false} EndsWithDotSuffix(s: string, x: string)
    requires '.' !in x
    ensures EndsWith(s, ['.'] + x) <==> DotSuffix(s) == Some(x)
    decreases |s|
  {
    if EndsWith(s, ['.'] + x) && x != [] {
      var init := s[..|s| - 1];
      var x' := x[..|x| - 1];
      assert x == x' + [x[|x| - 1]];
      assert s[|s| - 1] == x[|x| - 1];
      assert init[|init| - |['.'] + x'|..] == (['.'] + x)[..|x|];
      assert EndsWith(init, ['.'] + x');
      EndsWithDotSuffix(init, x');
    }
  }

  lemma ExtensionsAreDottedAudioTypes()
    ensures |SupportedExtensions| == |AudioTypes|
    ensures forall i :: 0 <= i < |AudioTypes| ==>
              SupportedExtensions[i] == ['.'] + AudioTypes[i] && '.' !in AudioTypes[i]
  {
  }

  /** The suffix test agrees with an independent reading of the name: the text
      after its last dot, lower-cased, is one of the audio types. */
  lemma SupportedIffAudioType(originalName: string)
    ensures Supported(originalName) <==>
              (var e := DotSuffix(ToLower(originalName)); e.Some? && e.value in AudioTypes)
  {
    var lower := ToLower(originalName);
    ExtensionsAreDottedAudioTypes();
    forall i | 0 <= i < |AudioTypes|
      ensures EndsWith(lower, SupportedExtensions[i]) <==> DotSuffix(lower) == Some(AudioTypes[i])
    {
      EndsWithDotSuffix(lower, AudioTypes[i]);
    }
    if Supported(originalName) {
      var ext :| ext in SupportedExtensions && EndsWith(lower, ext);
      var i :| 0 <= i < |SupportedExtensions| && SupportedExtensions[i] == ext;
      assert DotSuffix(lower) == Some(AudioTypes[i]);
    }
    var e := DotSuffix(lower);
    if e.Some? && e.value in AudioTypes {
      var i :| 0 <= i < |AudioTypes| && AudioTypes[i] == e.value;
      assert EndsWith(lower, SupportedExtensions[i]);
    }
  }

  /** Matching ignores letter case: a name and its lower-cased form are judged alike. */
  lemma SupportedIgnoresCase(originalName: string)
    ensures Supported(ToLower(originalName)) <==> Supported(originalName)
  {
    LowerIdempotent(originalName);
  }
}
