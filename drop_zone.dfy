/**
 * The client's drop-zone check. A dropped file is handed to the upload handler when its
 * lower-cased name ends with one of six extensions. The upload handler saves it as
 * `temp/<name>` and asks the backend to process that path. This module relates the
 * client's check to the backend's suffix dispatch.
 */
module DropZone {
  import opened Wrappers
  import opened Text
  import opened FileDispatch

  const SupportedFormats: seq<string> := [".step", ".stp", ".iges", ".igs", ".stl", ".obj"]

  /** `supportedFormats.some(ext => filename.endsWith(ext))` on the lower-cased name. */
  predicate Accepted(fileName: string) {
    exists k :: 0 <= k < |SupportedFormats| && EndsWith(Lower(fileName), SupportedFormats[k])
  }

  /** `TEMP_DIR / filename`: where the backend saves an upload before processing it. */
  function SavedPath(fileName: string): string {
    "temp" + ['/'] + fileName
  }

  /** The saved path's last component is the dropped file's name. */
  lemma SavedName(fileName: string)
    requires '/' !in fileName && fileName != [] && fileName != "."
    ensures FileName(SavedPath(fileName)) == fileName
  {
    SplitAfter("temp", '/', fileName, []);
    SplitWhole(fileName, '/', []);
    assert [] + "temp" == "temp" && [] + fileName == fileName;
    assert SplitOn(SavedPath(fileName), '/') == ["temp", fileName];
    assert Components(["temp", fileName]) == ["temp"] + Components([fileName]);
  }

  lemma LowerSlice(s: string, i: nat)
    requires i <= |s|
    ensures Lower(s[i..]) == Lower(s)[i..]
  {
  }

  /** Each supported extension is a dot followed by at least three characters, none of them a dot. */
  lemma FormatShape(k: nat)
    requires k < |SupportedFormats|
    ensures var ext := SupportedFormats[k]; |ext| >= 4 && ext[0] == '.' && forall j :: 1 <= j < |ext| ==> ext[j] != '.'
  {
  }

  /** A name whose suffix lower-cases to a supported extension passes the client's check. */
  lemma SuffixAccepted(name: string)
    requires Lower(Suffix(name)) in SupportedFormats
    ensures Accepted(name)
  {
    var ext := Suffix(name);
    LowerSlice(name, |name| - |ext|);
    var k :| 0 <= k < |SupportedFormats| && Lower(ext) == SupportedFormats[k];
    assert EndsWith(Lower(name), SupportedFormats[k]);
  }

  /** Whatever the backend reads, the client would have accepted under the same name. */
  lemma DispatchedAccepted(path: string)
    requires !Dispatch(path).Unsupported?
    ensures Accepted(FileName(path))
  {
    DispatchSuffix(path);
    SuffixAccepted(FileName(path));
  }

  /** An accepted name that is more than its extension has that extension as its suffix. */
  lemma AcceptedSuffix(name: string)
    requires Accepted(name) && Lower(name) !in SupportedFormats
    ensures Lower(Suffix(name)) in SupportedFormats
  {
    var k :| 0 <= k < |SupportedFormats| && EndsWith(Lower(name), SupportedFormats[k]);
    var ext := SupportedFormats[k];
    FormatShape(k);
    var i := |name| - |ext|;
    assert Lower(name)[i..] == ext;
    assert 0 < i;
    assert name[i] == '.' by {
      assert Lower(name)[i] == ext[0];
    }
    forall m | i + 1 <= m < |name|
      ensures name[m] != '.'
    {
      assert Lower(name)[m] == ext[m - i];
    }
    SuffixAt(name, i);
    LowerSlice(name, i);
  }

  /**
   * Whatever the client accepts, the backend reads, except a name that is nothing but the
   * extension (such as `.stl`), which has no suffix for `pathlib`.
   */
  lemma AcceptedDispatched(fileName: string)
    requires '/' !in fileName && Accepted(fileName) && Lower(fileName) !in SupportedFormats
    ensures !Dispatch(SavedPath(fileName)).Unsupported?
  {
    AcceptedSuffix(fileName);
    SavedName(fileName);
    DispatchSuffix(SavedPath(fileName));
  }

  /** The exception: the client accepts a file called `.stl`, and the backend rejects it. */
  lemma BareExtension()
    ensures Accepted(".stl")
    ensures Dispatch(SavedPath(".stl")) == Unsupported(UnsupportedPrefix)
  {
    assert EndsWith(Lower(".stl"), SupportedFormats[4]);
    SavedName(".stl");
    assert LastDot(".stl") == Some(0);
  }
}
