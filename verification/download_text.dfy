/** The file name `downloadText` gives the downloaded text. */
module DownloadText {
  import opened Strings

  /** The extension used when the caller gives none. */
  const DefaultExtension := "jsx"

  /**
   * The name the download gets: `filename` itself when it already ends
   * with `.` and the extension, otherwise `filename` with `.` and the
   * extension appended.
   */
  function DownloadName(filename: string, extension: string): (name: string)
    ensures EndsWith(name, "." + extension)
    ensures |name| >= |filename| && name[..|filename|] == filename
    ensures EndsWith(filename, "." + extension) <==> name == filename
    ensures !EndsWith(filename, "." + extension) ==> name == filename + "." + extension
  {
    if EndsWith(filename, "." + extension) then filename
    else
      var name := filename + "." + extension;
      assert name[|name| - |"." + extension|..] == "." + extension;
      name
  }

  /** Naming is idempotent: a name already given is kept. */
  lemma DownloadNameIdempotent(filename: string, extension: string)
    ensures DownloadName(DownloadName(filename, extension), extension) == DownloadName(filename, extension)
  {
  }

  /** The keyframe script is saved as `AddKeyframes.jsx`. */
  lemma ScriptFileName()
    ensures DownloadName("AddKeyframes", DefaultExtension) == "AddKeyframes.jsx"
  {
    assert !EndsWith("AddKeyframes", ".jsx") by {
      assert "AddKeyframes"[8] == 'a';
    }
  }
}
