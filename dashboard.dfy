/**
 * The dashboard page's update check: the fields it keeps, the files it
 * reads and writes in its own directory, and the controls it shows.
 *
 * Every handler of the page is a method of the class DashboardPage, proved
 * equal to a function on Page values (LoadSpec, SkipSpec, ...); the
 * properties of the check are lemmas about those functions, in
 * DashboardLemmas.
 */
module Dashboard {
  import opened Wrappers
  import opened Faults
  import Scrape
  import opened VersionCompare
  import opened Sentinels

  /** The driver type id that identifies an installed studio driver. */
  const StudioDtid: int := 18

  /** Exit codes of the two fatal branches of the channel fallback. */
  const ExitNoGpuList: int := 11
  const ExitInvalidResponse: int := 10

  datatype InfoBar = Unset | UpToDate | Outdated

  /** The state of the page's controls that the check sets. */
  datatype Controls = Controls(
    info: InfoBar,
    downloadVisible: bool,
    downloadEnabled: bool,
    progressVisible: bool,
    installVisible: bool,
    skipVisible: bool,
    skipEnabled: bool,
    studioChecked: bool)

  /** A snapshot of the page: its string fields, the directory's files
      (name to content), the controls, and how many update popups it raised. */
  datatype Page = Page(
    localDriv: Option<string>,
    onlineDriv: Option<string>,
    gpuURL: Option<string>,
    skippedVer: Option<string>,
    files: map<string, string>,
    controls: Controls,
    popups: nat)

  /** What one call of the catalog lookup did: returned a page URL, or threw
      an ArgumentException or its subclass ArgumentNullException. */
  datatype UrlOutcome = Url(url: string) | InvalidArgument | NullArgument

  /**
   * Everything a check reads from outside the page: the installed driver's
   * type id, the outcomes of the first catalog lookup and of its retry, the
   * text of the driver page, and the culture's decimal separator.
   */
  datatype Env = Env(dtid: int, firstUrl: UrlOutcome, retryUrl: UrlOutcome, pageText: string, decimalSep: char)

  datatype LoadOutcome = Completed | Exited(code: int) | Crashed(fault: Fault)

  /** The page after a check, and how the check ended. */
  datatype Run = Run(page: Page, outcome: LoadOutcome)

  /** How an installer transfer ended; a successful one wrote `body`. */
  datatype Transfer = Succeeded(body: string) | Failed

  /** The skip marker in force once skip.envy has been read: the file's
      first line if it exists, otherwise the marker already in memory. */
  function MarkerAfterRead(p: Page): Option<string> {
    if SkipFile in p.files then FirstLine(p.files[SkipFile]) else p.skippedVer
  }

  /** The catalog lookup with its one fallback from the studio channel to
      the standard one (source lines 126-158). */
  function ResolveGpuUrl(p: Page, e: Env): Run {
    match e.firstUrl
    case Url(u) => Run(p.(gpuURL := Some(u)), Completed)
    case _ =>
      var q := p.(files := p.files - {StudioFile});
      match e.retryUrl
      case Url(u) => Run(q.(gpuURL := Some(u), controls := q.controls.(studioChecked := false)), Completed)
      case NullArgument => Run(q, Exited(ExitNoGpuList))
      case InvalidArgument => Run(q, Exited(ExitInvalidResponse))
  }

  /** The controls and popup count after the comparison (source lines
      172-240), for a comparison that ended with verdict v. */
  function ShowVerdict(p: Page, v: Verdict, online: string): Page {
    var c := p.controls;
    if v.older then
      var c' :=
        if p.skippedVer.None? then c.(info := Outdated, downloadVisible := true, skipEnabled := true, skipVisible := true)
        else c.(info := Outdated, downloadVisible := true, skipEnabled := !v.fallback);
      p.(controls := c', popups := if p.skippedVer != Some(online) then p.popups + 1 else p.popups)
    else
      p.(controls := c.(skipVisible := false, info := UpToDate))
  }

  /** A skip marker for another version is dropped, with its file (source
      lines 243-252). */
  function ClearStaleMarker(p: Page): Page {
    if p.skippedVer.Some? && p.skippedVer != p.onlineDriv then
      p.(skippedVer := None, files := p.files - {SkipFile},
         controls := p.controls.(skipEnabled := true, skipVisible := true))
    else p
  }

  /** An installer already on disk replaces download by install (source
      lines 255-260). */
  function ShowInstallerIfPresent(p: Page, online: string): Page {
    if InstallerName(online) in p.files then
      p.(controls := p.controls.(downloadVisible := false, installVisible := true))
    else p
  }

  /** The page once the studio switch follows the installed driver type
      and skip.envy has been read (source lines 101-116). */
  function Prepared(p: Page, e: Env): Page {
    p.(controls := p.controls.(studioChecked := e.dtid == StudioDtid), skippedVer := MarkerAfterRead(p))
  }

  /** The controls once the verdict is shown, a stale marker cleared and an
      installer on disk noticed. */
  function ShowResult(p: Page, v: Verdict, online: string): Page {
    ShowInstallerIfPresent(ClearStaleMarker(ShowVerdict(p, v, online)), online)
  }

  /** The check after the URL lookup: scrape the online version, compare it
      with the local one, show the result (source lines 160-260). */
  function AfterLookup(p: Page, e: Env): Run {
    match Scrape.ExtractOnlineVersion(e.pageText)
    case Err(f) => Run(p, Crashed(f))
    case Ok(online) =>
      var p3 := p.(onlineDriv := Some(online));
      match CompareVersions(p3.localDriv, online, e.decimalSep)
      case Err(f) => Run(p3, Crashed(f))
      case Ok(v) => Run(ShowResult(p3, v, online), Completed)
  }

  /** One update check, `Load` (source lines 99-261). */
  function LoadSpec(p: Page, e: Env): Run {
    if SkipFile in p.files && p.files[SkipFile] == [] then
      Run(p.(controls := p.controls.(studioChecked := e.dtid == StudioDtid)), Crashed(EmptySkipFile))
    else
      var r2 := ResolveGpuUrl(Prepared(p, e), e);
      if r2.outcome != Completed then r2 else AfterLookup(r2.page, e)
  }

  /** `buttonSkipVersion_Click` (source lines 297-305). */
  function SkipSpec(p: Page): Page {
    p.(skippedVer := p.onlineDriv,
       files := p.files[SkipFile := OrEmpty(p.onlineDriv)],
       controls := p.controls.(skipEnabled := false))
  }

  /** `switchStudioDriver_Checked` (source lines 273-281): create the studio
      marker and check again, unless the marker is already there. */
  function StudioCheckedSpec(p: Page, e: Env): (Page, Option<LoadOutcome>) {
    if StudioFile in p.files then (p, None)
    else
      var r := LoadSpec(p.(files := p.files[StudioFile := ""]), e);
      (r.page, Some(r.outcome))
  }

  /** `switchStudioDriver_Unchecked` (source lines 263-271): remove the
      studio marker and check again, if the marker is there. */
  function StudioUncheckedSpec(p: Page, e: Env): (Page, Option<LoadOutcome>) {
    if StudioFile !in p.files then (p, None)
    else
      var r := LoadSpec(p.(files := p.files - {StudioFile}), e);
      (r.page, Some(r.outcome))
  }

  /** `buttonDownload_Click` up to the start of the transfer (source lines
      355-364). */
  function StartDownloadSpec(p: Page): Page {
    p.(files := p.files - {PartialName(OrEmpty(p.onlineDriv))},
       controls := p.controls.(progressVisible := true, downloadEnabled := false))
  }

  /** `client_DownloadFileCompleted` (source lines 385-411). A successful
      transfer has written its body to the partial file, which then replaces
      the final installer; a failed one leaves no partial file. */
  function DownloadCompletedSpec(p: Page, t: Transfer): Page {
    var v := OrEmpty(p.onlineDriv);
    var c := p.controls.(downloadEnabled := true, progressVisible := false);
    match t
    case Succeeded(body) =>
      p.(files := (p.files - {PartialName(v)})[InstallerName(v) := body],
         controls := c.(downloadVisible := false, installVisible := true))
    case Failed =>
      p.(files := p.files - {PartialName(v)}, controls := c)
  }

  /** The transfer writes `body` to the partial file; an existing final
      file is deleted; the partial file is renamed to the final name. */
  method ReplaceInstaller(files: map<string, string>, partial: string, installer: string, body: string)
    returns (after: map<string, string>)
    requires partial != installer
    ensures after == (files - {partial})[installer := body]
  {
    after := files[partial := body];
    if installer in after {
      after := after - {installer};
    }
    var moved := after[partial];
    after := (after - {partial})[installer := moved];
  }

  /** The dashboard page of the application, reduced to its update check. */
  class DashboardPage {
    var localDriv: Option<string>
    var onlineDriv: Option<string>
    var gpuURL: Option<string>
    var skippedVer: Option<string>
    /** The files of the application's directory, by name. */
    var files: map<string, string>
    var info: InfoBar
    var downloadVisible: bool
    var downloadEnabled: bool
    var progressVisible: bool
    var installVisible: bool
    var skipVisible: bool
    var skipEnabled: bool
    var studioChecked: bool
    /** Update popups raised so far. */
    var popups: nat

    function View(): Page
      reads this
    {
      Page(localDriv, onlineDriv, gpuURL, skippedVer, files,
           Controls(info, downloadVisible, downloadEnabled, progressVisible,
                    installVisible, skipVisible, skipEnabled, studioChecked),
           popups)
    }

    /** The page as constructed: the local version probed, nothing fetched
        yet, controls as laid out (source lines 21-33). */
    constructor (local: Option<string>, disk: map<string, string>, initial: Controls)
      ensures View() == Page(local, None, None, None, disk, initial, 0)
    {
      localDriv, onlineDriv, gpuURL, skippedVer := local, None, None, None;
      files := disk;
      info, downloadVisible, downloadEnabled := initial.info, initial.downloadVisible, initial.downloadEnabled;
      progressVisible, installVisible := initial.progressVisible, initial.installVisible;
      skipVisible, skipEnabled, studioChecked := initial.skipVisible, initial.skipEnabled, initial.studioChecked;
      popups := 0;
    }

    /** One update check. */
    method Load(e: Env) returns (outcome: LoadOutcome)
      modifies this
      ensures Run(View(), outcome) == LoadSpec(old(View()), e)
    {
      studioChecked := e.dtid == StudioDtid;

      var read := ReadSkipMarker();
      if !read {
        return Crashed(EmptySkipFile);
      }

      outcome := ResolveUrl(e);
      if outcome != Completed {
        return;
      }

      var scraped := Scrape.ExtractOnlineVersion(e.pageText);
      if scraped.Err? {
        return Crashed(scraped.error);
      }
      var online := scraped.value;
      onlineDriv := Some(online);

      var compared := CompareVersions(localDriv, online, e.decimalSep);
      if compared.Err? {
        return Crashed(compared.error);
      }
      ShowComparison(compared.value, online);
      ClearMarker();
      ShowInstaller(online);
      return Completed;
    }

    /** Read skip.envy, if it exists, into the skip marker; false when the
        file holds no line and reading it throws. */
    method ReadSkipMarker() returns (read: bool)
      modifies this
      ensures read <==> !(SkipFile in old(files) && old(files)[SkipFile] == [])
      ensures read ==> View() == old(View()).(skippedVer := MarkerAfterRead(old(View())))
      ensures !read ==> View() == old(View())
    {
      read := true;
      if SkipFile in files {
        var line := FirstLine(files[SkipFile]);
        if line.None? {
          return false;
        }
        skippedVer := line;
      }
    }

    /** Look up the driver page URL, falling back once to the standard
        channel. */
    method ResolveUrl(e: Env) returns (outcome: LoadOutcome)
      modifies this
      ensures Run(View(), outcome) == ResolveGpuUrl(old(View()), e)
    {
      outcome := Completed;
      match e.firstUrl {
        case Url(u) =>
          gpuURL := Some(u);
        case _ =>
          if StudioFile in files {
            files := files - {StudioFile};
          }
          match e.retryUrl {
            case Url(u) =>
              gpuURL := Some(u);
              studioChecked := false;
            case NullArgument =>
              outcome := Exited(ExitNoGpuList);
            case InvalidArgument =>
              outcome := Exited(ExitInvalidResponse);
          }
      }
    }

    /** Set the info bar, the download and skip buttons, and raise the
        popup, for the comparison's verdict. */
    method ShowComparison(v: Verdict, online: string)
      modifies this
      ensures View() == ShowVerdict(old(View()), v, online)
    {
      if v.older {
        info := Outdated;
        downloadVisible := true;
        if skippedVer.None? {
          skipEnabled := true;
          skipVisible := true;
        } else {
          // the first try enables the button, the `,` retry disables it
          skipEnabled := !v.fallback;
        }
        if skippedVer != Some(online) {
          popups := popups + 1;
        }
      } else {
        skipVisible := false;
        info := UpToDate;
      }
    }

    /** Drop a skip marker that names another version. */
    method ClearMarker()
      modifies this
      ensures View() == ClearStaleMarker(old(View()))
    {
      if skippedVer.Some? && skippedVer != onlineDriv {
        skippedVer := None;
        if SkipFile in files {
          files := files - {SkipFile};
        }
        skipEnabled := true;
        skipVisible := true;
      }
    }

    /** Offer install instead of download when the installer is on disk. */
    method ShowInstaller(online: string)
      modifies this
      ensures View() == ShowInstallerIfPresent(old(View()), online)
    {
      if InstallerName(online) in files {
        downloadVisible := false;
        installVisible := true;
      }
    }

    /** Skip the online version: remember it in memory and in skip.envy. */
    method SkipVersion()
      modifies this
      ensures View() == SkipSpec(old(View()))
    {
      skippedVer := onlineDriv;
      files := files[SkipFile := OrEmpty(onlineDriv)];
      skipEnabled := false;
    }

    /** The studio switch turned on. */
    method StudioChecked(e: Env) returns (reload: Option<LoadOutcome>)
      modifies this
      ensures (View(), reload) == StudioCheckedSpec(old(View()), e)
    {
      reload := None;
      if StudioFile !in files {
        files := files[StudioFile := ""];
        var outcome := Load(e);
        reload := Some(outcome);
      }
    }

    /** The studio switch turned off. */
    method StudioUnchecked(e: Env) returns (reload: Option<LoadOutcome>)
      modifies this
      ensures (View(), reload) == StudioUncheckedSpec(old(View()), e)
    {
      reload := None;
      if StudioFile in files {
        files := files - {StudioFile};
        var outcome := Load(e);
        reload := Some(outcome);
      }
    }

    /** The download button: show progress, disable the button, remove a
        partial file left by an interrupted download. */
    method StartDownload()
      modifies this
      ensures View() == StartDownloadSpec(old(View()))
    {
      progressVisible := true;
      downloadEnabled := false;
      var partial := PartialName(OrEmpty(onlineDriv));
      if partial in files {
        files := files - {partial};
      }
    }

    /** The transfer has ended. */
    method DownloadCompleted(t: Transfer)
      modifies this
      ensures View() == DownloadCompletedSpec(old(View()), t)
    {
      downloadEnabled := true;
      progressVisible := false;
      var v := OrEmpty(onlineDriv);
      var partial, installer := PartialName(v), InstallerName(v);
      match t {
        case Succeeded(body) =>
          downloadVisible := false;
          installVisible := true;
          PartialIsNotInstaller(v);
          files := ReplaceInstaller(files, partial, installer, body);
        case Failed =>
          files := files - {partial};
      }
    }
  }
}
