# EnvyUpdate dashboard: the driver update check in Dafny

EnvyUpdate is a Windows tray tool that tells NVIDIA users when a newer
graphics driver is published. Its dashboard page (`DashboardPage`) does the
work. It:

- looks up the vendor's driver page for the installed GPU, falling back once
  from the studio channel to the standard one;
- scrapes the newest version (`Windows/NNN.NN`) from that page;
- compares it with the installed version, retrying with `,` as the decimal
  separator when the culture rejects `.`;
- sets the info bar, the download, install and skip buttons, and the update
  popup.

The page keeps two sentinel files in its own directory. `skip.envy` holds
the version the user chose to skip. `sd.envy` is present exactly when the
studio channel is selected. The page also downloads the installer to
`<version>-nvidia-installer.exe.downloading` and renames it to
`<version>-nvidia-installer.exe` when the transfer succeeds.

The model has these modules:

- `Scrape` (scrape.dfy): the regular-expression scrape, as a leftmost-match
  search plus removal of the `Windows/` prefix.
- `VersionCompare` (compare.dfy): `float.Parse` as a fixed-point reading in
  hundredths, the `.`→`,` swap, and the comparison with its one retry.
- `Sentinels` (sentinels.dfy): the file names, and the first line of a
  file as `File.ReadLines(..).First()` returns it.
- `Dashboard` (dashboard.dfy): the class `DashboardPage`. Its fields are the
  page's string fields, the directory as a map from file name to contents,
  the control flags and a popup counter. Every handler is a method whose
  `ensures` equates the new `View()` with a specification function of the
  old one: `LoadSpec`, `SkipSpec`, `StudioCheckedSpec`, `StudioUncheckedSpec`,
  `StartDownloadSpec` and `DownloadCompletedSpec`.
- `DashboardLemmas` (dashboard_lemmas.dfy): what the handlers promise, proved
  about those specification functions.
- `Wrappers` and `Faults` (wrappers.dfy): `Option`, `Result`, and the
  exceptions that end a check.

Everything outside the page is an input: the catalog lookup's outcomes, the
page text, the driver type id, the culture's decimal separator and how a
transfer ends (`Env`, `Transfer`). An exception that nothing catches ends a
check as `Crashed(fault)`. `Environment.Exit` is `Exited(code)`.

Two behaviours of the check are worth knowing:

- **A skipped version is still reported.** When the marker names the
  online version and the local version is older, the check shows
  "outdated" and offers the download. After the first parse it also
  leaves the skip button enabled. Only the popup is suppressed (lines
  174-197 of `EnvyUpdate/DashboardPage.xaml.cs`).
  `DashboardLemmas.LoadSkippedVersion` states this.
- **The skip button with a marker present.** The first parse enables it,
  and the `,` retry disables it. `Dashboard.ShowVerdict` keeps the two
  branches as written (`skipEnabled == !fallback`).

## Model

| member | source | states |
|---|---|---|
| Scrape.FindFirst | EnvyUpdate/DashboardPage.xaml.cs:164-166 | A result is a position at or after `from` where `Windows/` is followed by three digits, a dot and two digits, with no such match earlier. No result means there is no match at all from `from` on. |
| Scrape.StripPrefix | EnvyUpdate/DashboardPage.xaml.cs:167 | Removing every `Windows/` from a whole match leaves exactly the version text. |
| Scrape.RemoveAll | EnvyUpdate/DashboardPage.xaml.cs:167 | `Regex.Replace(.., "Windows/", "")`: the result is never longer than the input. What it removes from a match is stated by Scrape.StripPrefix. |
| Scrape.ExtractOnlineVersion | EnvyUpdate/DashboardPage.xaml.cs:164-167 | The error NoVersionOnPage (`matches[0]` out of range) happens exactly when the page has no match. Otherwise the result is a three-digits-dot-two-digits version: the text after `Windows/` in the leftmost match. |
| VersionCompare.ParseFixed | EnvyUpdate/DashboardPage.xaml.cs:174 | A string that parses starts with a digit and holds only digits and the culture's decimal separator. Anything else is a FormatException (None). |
| VersionCompare.CompareVersions | EnvyUpdate/DashboardPage.xaml.cs:172-240 | A null local version throws NoLocalVersion, and only a null one does; every other failure is Unparsable. If both versions parse under the culture, the result is a verdict without the retry, and "older" holds exactly when local < online. The `,` retry happens only when a plain parse failed. If both swapped texts parse, the result is a verdict, and "older" holds exactly when the swapped local value is less than the swapped online value. If either swapped parse fails, the result is Unparsable. |
| VersionCompare.SwapSeparator | EnvyUpdate/DashboardPage.xaml.cs:210-211 | `Replace('.', ',')`: same length, every `.` becomes `,`, and every other character is kept in place. |
| VersionCompare.SwapFraction | EnvyUpdate/DashboardPage.xaml.cs:210-211 | For text without `,`, the swap turns a `.`-fraction into a `,`-fraction and creates none where there was none. |
| VersionCompare.SwapPreservesValue | EnvyUpdate/DashboardPage.xaml.cs:206-212 | For text without `,`, the swapped text read with `,` has the same value, or fails the same way, as the original read with `.`. |
| VersionCompare.ScrapedVersionParses | EnvyUpdate/DashboardPage.xaml.cs:167-174 | A scraped version reads with `.` as whole*100 + fraction. Its swapped form reads with `,` to the same value. Unswapped, it never reads with `,`, so a `,` culture always takes the retry. |
| VersionCompare.FallbackAgrees | EnvyUpdate/DashboardPage.xaml.cs:172-240 | For a local version that parses with `.` and a scraped online version, a `,` culture reaches, through the retry, the same "older" verdict as a `.` culture does directly. |
| Sentinels.NamesDistinct | EnvyUpdate/DashboardPage.xaml.cs:112-116 | skip.envy, sd.envy, any installer name and any partial name are pairwise distinct. |
| Sentinels.PartialIsNotInstaller | EnvyUpdate/DashboardPage.xaml.cs:399-401 | The partial file never has the final installer's name, so the rename moves it. |
| Sentinels.InstallerNameInjective | EnvyUpdate/DashboardPage.xaml.cs:255 | Different versions have different installer names. |
| Sentinels.FirstLine | EnvyUpdate/DashboardPage.xaml.cs:115 | An empty file has no line, and First() throws exactly then. Otherwise the result is the whole text before the first CR or LF: a prefix of the file with no line break in it, followed by a line break or by the end of the file. |
| Sentinels.WrittenLineReadsBack | EnvyUpdate/DashboardPage.xaml.cs:297-303 | A non-empty, single-line text written to skip.envy is read back unchanged as its first line. |
| Dashboard.ReplaceInstaller | EnvyUpdate/DashboardPage.xaml.cs:399-401 | Writing the body to the partial file, deleting the old installer and renaming the partial file amounts to: partial gone, installer holds the body, nothing else changed. |
| Dashboard.DashboardPage.constructor | EnvyUpdate/DashboardPage.xaml.cs:21-33 | The fields start null except the probed local version. The directory and controls are as given. No popup yet. |
| Dashboard.DashboardPage.Load | EnvyUpdate/DashboardPage.xaml.cs:99-261 | The page after one check, and how the check ended, are exactly LoadSpec of the page before it. |
| Dashboard.DashboardPage.ReadSkipMarker | EnvyUpdate/DashboardPage.xaml.cs:112-116 | Reading fails exactly when skip.envy exists and is empty, and then nothing changes. Otherwise the marker becomes the file's first line if the file exists, and is kept if it does not. |
| Dashboard.DashboardPage.ResolveUrl | EnvyUpdate/DashboardPage.xaml.cs:126-158 | The lookup with its one fallback equals ResolveGpuUrl. A first success sets the URL. A first failure deletes sd.envy and retries once. A retry success sets the URL and unchecks the studio switch. A retry failure exits with 11 for a null argument and 10 otherwise. |
| Dashboard.DashboardPage.ShowComparison | EnvyUpdate/DashboardPage.xaml.cs:172-240 | Sets the controls and popup count as ShowVerdict does for the comparison's verdict. |
| Dashboard.DashboardPage.ClearMarker | EnvyUpdate/DashboardPage.xaml.cs:242-252 | A marker for another version is dropped with skip.envy, and the skip button is enabled and shown. Otherwise nothing changes. |
| Dashboard.DashboardPage.ShowInstaller | EnvyUpdate/DashboardPage.xaml.cs:254-260 | With the installer on disk, download is hidden and install shown. Otherwise nothing changes. |
| Dashboard.DashboardPage.SkipVersion | EnvyUpdate/DashboardPage.xaml.cs:297-305 | The new page is SkipSpec of the old one. |
| Dashboard.DashboardPage.StudioChecked | EnvyUpdate/DashboardPage.xaml.cs:273-281 | The new page and the reload's outcome are StudioCheckedSpec of the old page. |
| Dashboard.DashboardPage.StudioUnchecked | EnvyUpdate/DashboardPage.xaml.cs:263-271 | The new page and the reload's outcome are StudioUncheckedSpec of the old page. |
| Dashboard.DashboardPage.StartDownload | EnvyUpdate/DashboardPage.xaml.cs:355-364 | The new page is StartDownloadSpec of the old one. |
| Dashboard.DashboardPage.DownloadCompleted | EnvyUpdate/DashboardPage.xaml.cs:385-411 | The new page is DownloadCompletedSpec of the old one. |
| DashboardLemmas.VersionIsOneLine | EnvyUpdate/DashboardPage.xaml.cs:167 | A scraped version is a non-empty text without line breaks. |
| DashboardLemmas.LoadCompleted | EnvyUpdate/DashboardPage.xaml.cs:99-261 | A check that completes read skip.envy, found the URL, scraped a version and compared it. Its page is the result shown for that verdict. |
| DashboardLemmas.LoadFromSteps | EnvyUpdate/DashboardPage.xaml.cs:99-261 | Conversely, a check whose every step succeeds completes, with that page. |
| DashboardLemmas.ShowResultEffects | EnvyUpdate/DashboardPage.xaml.cs:172-260 | Showing the result leaves the versions, the URL and the studio switch alone. It raises the popup the verdict asks for. It deletes at most skip.envy, and nothing at all when the marker names the online version. |
| DashboardLemmas.ShowResultMarker | EnvyUpdate/DashboardPage.xaml.cs:242-252 | Afterwards the marker is absent or names the online version. A marker for another version is cleared with skip.envy, and the skip button is enabled and shown. A matching marker is kept with the files. |
| DashboardLemmas.AfterLookupEffects | EnvyUpdate/DashboardPage.xaml.cs:160-260 | After the lookup, the check never exits. It keeps the URL, the local version and the studio switch, and deletes at most skip.envy. |
| DashboardLemmas.LoadScrapesFirstVersion | EnvyUpdate/DashboardPage.xaml.cs:164-168 | A completed check's online version has the form NNN.NN and is the text of the page's leftmost match. |
| DashboardLemmas.LoadNoVersionCrashes | EnvyUpdate/DashboardPage.xaml.cs:164-167 | A check stops with NoVersionOnPage exactly when skip.envy is readable, a URL was found and the page has no match. |
| DashboardLemmas.LoadOnlyDeletesSentinels | EnvyUpdate/DashboardPage.xaml.cs:99-261 | A check only deletes files, and only skip.envy or sd.envy. Every file it keeps is unchanged. |
| DashboardLemmas.LoadDecision | EnvyUpdate/DashboardPage.xaml.cs:172-240 | In a completed check the info bar is "outdated" exactly when local is older and "up to date" exactly when it is not. Outdated without the installer on disk offers download. With the installer present, install replaces download. Up to date hides skip unless a stale marker was just cleared. |
| DashboardLemmas.LoadPopup | EnvyUpdate/DashboardPage.xaml.cs:193-197 | A completed check raises one popup exactly when local is older and the marker read from skip.envy is not the online version. Otherwise it raises none. |
| DashboardLemmas.LoadSkippedVersion | EnvyUpdate/DashboardPage.xaml.cs:174-197 | With the marker naming the online version and local older, the check still shows "outdated" and offers the download. The skip button is enabled after the first parse and disabled after the retry. No popup, and the marker is kept. |
| DashboardLemmas.LoadMarker | EnvyUpdate/DashboardPage.xaml.cs:243-252 | After a completed check the marker is absent or the online version. A stale marker is cleared with skip.envy, and skip is enabled and shown. A matching marker and its file are kept. No marker stays no marker. |
| DashboardLemmas.LoadChannel | EnvyUpdate/DashboardPage.xaml.cs:126-158 | A first success keeps sd.envy and sets the studio switch from the driver type. A first failure always removes sd.envy. A retry success unchecks the switch. A retry failure exits with 11 or 10 before anything is scraped, with no further retry. |
| DashboardLemmas.SkipRecordsVersion | EnvyUpdate/DashboardPage.xaml.cs:297-305 | Skipping sets the marker to the online version, writes exactly that text to skip.envy, changes no other file and disables skip. Skipping again changes nothing. |
| DashboardLemmas.ReloadAfterSkip | EnvyUpdate/DashboardPage.xaml.cs:112-116 | After the online version is skipped, a check of the same page completes. It reads the marker back, keeps it and skip.envy, and raises no popup. |
| DashboardLemmas.SkipThenLoad | EnvyUpdate/DashboardPage.xaml.cs:297-303 | Round trip: completed check, skip, check again. skip.envy's first line is the online version, the marker survives and no popup is raised. |
| DashboardLemmas.StudioCheckedCreates | EnvyUpdate/DashboardPage.xaml.cs:273-281 | With sd.envy present, the handler does nothing. Otherwise it creates sd.envy and checks again. The file survives exactly when the studio lookup succeeds, and then checking again does nothing. |
| DashboardLemmas.StudioUncheckedRemoves | EnvyUpdate/DashboardPage.xaml.cs:263-271 | With sd.envy absent, the handler does nothing. Otherwise it deletes sd.envy and checks again. Afterwards sd.envy is absent, so unchecking again does nothing. |
| DashboardLemmas.StartRemovesStale | EnvyUpdate/DashboardPage.xaml.cs:355-364 | Starting a download removes the online version's partial file, changes no other file, disables download and shows progress. |
| DashboardLemmas.DownloadLifecycle | EnvyUpdate/DashboardPage.xaml.cs:385-411 | After start and completion, no partial file remains, download is re-enabled and progress hidden. On success the installer holds the transferred body, replacing any older one, and install is offered. On failure the installer file is as before. No other file changes. |
| DashboardLemmas.DownloadThenLoadOffersInstall | EnvyUpdate/DashboardPage.xaml.cs:255-260 | After a successful download, a check that finds the same online version offers install, not download. |

## Left out

- HTTP: `WebClient.DownloadString` and the installer transfer are inputs (`Env.pageText`, `Transfer`). A network failure while fetching the page is not modelled; it is an exception outside the check.
- The download thread, the progress handler (`client_DownloadProgressChanged`, a `double` percentage) and `Dispatcher.Invoke` are not modelled. The handlers run one at a time and in order.
- Assumed: no check changes `onlineDriv` between the start and the completion of a download. The model allows `Load` to run between `StartDownload` and `DownloadCompleted`. If that check changed `onlineDriv`, the source's `File.Move` (line 401) would look for a partial file under the new name and throw, while `DownloadCompletedSpec` writes the body under the new installer name.
- The constructor's UI work and its final call of `Load` (lines 26-91) are left to the caller. The constructor models the fields' initial values; the check is a separate call of `Load`. The same goes for the autostart shortcut, the 5-hour `DispatcherTimer`, the `FileSystemWatcher` with `Thread.Sleep`, and `UpdateLocalVer`.
- WPF raises `Checked`/`Unchecked` when `Load` sets `IsChecked` (lines 104, 109, 144). `Load` does not call the studio handlers again from inside itself.
- Rendering is not modelled: `SetInfoBar` is the `info` flag, a popup is a counter, and message boxes, snackbars, tooltips, card headers and `Debug.LogToFile` are dropped.
- The Debug fake mode (lines 118-124) is not modelled.
- `Util.GetLocDriv`, `GetDTID`, `GetGpuUrl`, `GetDirectDownload`, `IsDCH` and `GetGPUName` are not part of this model. Their results are inputs.
- `CardOnline_Click` (opens the URL in a browser) and `buttonInstall_Click` (empty) are not modelled.
- EnvyUpdate/MainWindow.xaml.cs is not part of this model.
- VersionCompare.ParseFixed: this is weaker than `float.Parse`. It covers whole digits optionally followed by the separator and two digits. It leaves out signs, white space, exponents, single-precision rounding and group separators; under a culture whose group separator is `.`, .NET reads "536.23" as 53623 instead of throwing, and the model sends that text to the retry instead.
- Scrape.ExtractOnlineVersion: `\d` in .NET also matches non-ASCII decimal digits; the model accepts only `0`-`9`.
- Sentinels.FirstLine: it does not model text encodings or a byte-order mark.
