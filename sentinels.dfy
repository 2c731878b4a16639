/**
 * The files the dashboard keeps in its own directory: the two sentinel
 * files and the installers named after a driver version.
 */
module Sentinels {
  import opened Wrappers

  /** Holds the version the user chose to skip. */
  const SkipFile: string := "skip.envy"

  /** Present exactly when the studio driver channel is selected. */
  const StudioFile: string := "sd.envy"

  const InstallerSuffix: string := "-nvidia-installer.exe"
  const PartialSuffix: string := ".downloading"

  /** The finished installer for driver version v. */
  function InstallerName(v: string): string {
    v + InstallerSuffix
  }

  /** The installer for driver version v while it is still being downloaded. */
  function PartialName(v: string): string {
    InstallerName(v) + PartialSuffix
  }

  /** C# string concatenation reads a null string as the empty one. */
  function OrEmpty(s: Option<string>): string {
    if s.Some? then s.value else ""
  }

  /** The three kinds of name never collide, whatever the versions. */
  lemma NamesDistinct(v: string, w: string)
    ensures InstallerName(v) != PartialName(w)
    ensures InstallerName(v) != SkipFile && InstallerName(v) != StudioFile
    ensures PartialName(v) != SkipFile && PartialName(v) != StudioFile
    ensures SkipFile != StudioFile
  {
    var i, p := InstallerName(v), PartialName(w);
    assert i[|i| - 1] == 'e';
    assert p[|p| - 1] == 'g';
    assert SkipFile[|SkipFile| - 1] == 'y' && StudioFile[|StudioFile| - 1] == 'y';
    assert |SkipFile| != |StudioFile|;
  }

  /** A download in progress never has the name of the finished installer. */
  lemma PartialIsNotInstaller(v: string)
    ensures PartialName(v) != InstallerName(v)
  {
    assert |PartialName(v)| != |InstallerName(v)|;
  }

  /** Installer names of different versions differ. */
  lemma InstallerNameInjective(v: string, w: string)
    requires InstallerName(v) == InstallerName(w)
    ensures v == w
  {
    assert v == InstallerName(v)[..|v|];
    assert w == InstallerName(w)[..|w|];
  }

  predicate IsLineBreak(c: char) {
    c == '\n' || c == '\r'
  }

  /** The text before the first line break. */
  function LineHead(s: string): (r: string)
    ensures r <= s
    ensures forall k :: 0 <= k < |r| ==> !IsLineBreak(r[k])
    ensures |r| < |s| ==> IsLineBreak(s[|r|])
  {
    if s == [] || IsLineBreak(s[0]) then [] else [s[0]] + LineHead(s[1..])
  }

  /**
   * `File.ReadLines(path).First()` on a file holding `content`: an empty
   * file has no line and First() throws (None); otherwise the first line,
   * ended by CR, LF or CR LF.
   */
  function FirstLine(content: string): (r: Option<string>)
    ensures r.None? <==> content == []
    ensures r.Some? ==> r.value <= content
    ensures r.Some? ==> forall k :: 0 <= k < |r.value| ==> !IsLineBreak(r.value[k])
    ensures r.Some? && |r.value| < |content| ==> IsLineBreak(content[|r.value|])
  {
    if content == [] then None else Some(LineHead(content))
  }

  /** What `File.WriteAllText` stores, `First()` of `ReadLines` gives back,
      for a non-empty single-line text such as a driver version. */
  lemma WrittenLineReadsBack(v: string)
    requires v != []
    requires forall k :: 0 <= k < |v| ==> !IsLineBreak(v[k])
    ensures FirstLine(v) == Some(v)
  {
    var h := LineHead(v);
    assert |h| <= |v| && h == v[..|h|];
    assert |h| == |v|;
    assert h == v;
    assert FirstLine(v) == Some(h);
  }
}
