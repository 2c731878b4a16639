/**
 * What the dashboard's handlers promise, stated over their specification
 * functions in Dashboard: the scraped version, the two-way update
 * decision, the popup rule, the skip marker's life cycle, the channel
 * fallback, and the installer download's files.
 */
module DashboardLemmas {
  import opened Wrappers
  import opened Faults
  import Scrape
  import opened VersionCompare
  import opened Sentinels
  import opened Dashboard

  /** skip.envy, if present, holds a line, so reading it does not throw. */
  predicate MarkerReadable(p: Page) {
    !(SkipFile in p.files && p.files[SkipFile] == [])
  }

  /** The file `name` is the same in both directories. */
  predicate SameFile(a: map<string, string>, b: map<string, string>, name: string) {
    (name in a <==> name in b) && (name in a ==> a[name] == b[name])
  }

  /** A scraped version is one non-empty line. */
  lemma VersionIsOneLine(v: string)
    requires Scrape.IsVersion(v)
    ensures v != [] && forall k :: 0 <= k < |v| ==> !IsLineBreak(v[k])
  {
  }

  /** A completed check, step by step: the URL was found, a version was
      scraped, the comparison gave a verdict, and the controls follow. */
  lemma LoadCompleted(p: Page, e: Env) returns (online: string, v: Verdict)
    requires LoadSpec(p, e).outcome == Completed
    ensures MarkerReadable(p)
    ensures ResolveGpuUrl(Prepared(p, e), e).outcome == Completed
    ensures Scrape.ExtractOnlineVersion(e.pageText) == Ok(online)
    ensures CompareVersions(p.localDriv, online, e.decimalSep) == Ok(v)
    ensures LoadSpec(p, e).page == ShowResult(ResolveGpuUrl(Prepared(p, e), e).page.(onlineDriv := Some(online)), v, online)
  {
    online := Scrape.ExtractOnlineVersion(e.pageText).value;
    v := CompareVersions(p.localDriv, online, e.decimalSep).value;
  }

  /** The converse: a check whose every step succeeds completes. */
  lemma LoadFromSteps(p: Page, e: Env, online: string, v: Verdict)
    requires MarkerReadable(p)
    requires ResolveGpuUrl(Prepared(p, e), e).outcome == Completed
    requires Scrape.ExtractOnlineVersion(e.pageText) == Ok(online)
    requires CompareVersions(p.localDriv, online, e.decimalSep) == Ok(v)
    ensures LoadSpec(p, e) == Run(ShowResult(ResolveGpuUrl(Prepared(p, e), e).page.(onlineDriv := Some(online)), v, online), Completed)
  {
  }

  /** Showing the result touches neither the versions, the URL nor the
      studio switch; it raises the popup the verdict asks for; and with a
      marker naming the online version it keeps the marker and the files. */
  lemma ShowResultEffects(p: Page, v: Verdict, online: string)
    ensures
      var r := ShowResult(p, v, online);
      && r.onlineDriv == p.onlineDriv && r.localDriv == p.localDriv && r.gpuURL == p.gpuURL
      && r.controls.studioChecked == p.controls.studioChecked
      && r.popups == ShowVerdict(p, v, online).popups
      && (r.files == p.files || r.files == p.files - {SkipFile})
      && (p.skippedVer == p.onlineDriv ==> r.skippedVer == p.skippedVer && r.files == p.files)
  {
    var p4 := ShowVerdict(p, v, online);
    assert p4.files == p.files && p4.skippedVer == p.skippedVer && p4.onlineDriv == p.onlineDriv;
    var p5 := ClearStaleMarker(p4);
    assert p5.popups == p4.popups;
  }

  /** The marker once the result is shown: one for another version is
      cleared with its file, one for the online version is kept. */
  lemma ShowResultMarker(p: Page, v: Verdict, online: string)
    requires p.onlineDriv == Some(online)
    ensures
      var r := ShowResult(p, v, online);
      && (r.skippedVer.None? || r.skippedVer == Some(online))
      && (p.skippedVer.Some? && p.skippedVer != Some(online) ==>
            r.skippedVer.None? && SkipFile !in r.files && r.controls.skipEnabled && r.controls.skipVisible)
      && (p.skippedVer == Some(online) ==> r.skippedVer == p.skippedVer && r.files == p.files)
      && (p.skippedVer.None? ==> r.skippedVer.None?)
  {
    var p4 := ShowVerdict(p, v, online);
    assert p4.files == p.files && p4.skippedVer == p.skippedVer && p4.onlineDriv == p.onlineDriv;
  }

  /** The rest of a check after a successful URL lookup does not exit,
      leaves the URL, the studio switch and the local version alone, and
      deletes at most skip.envy. */
  lemma AfterLookupEffects(p: Page, e: Env)
    ensures
      var run := AfterLookup(p, e);
      && !run.outcome.Exited?
      && run.page.gpuURL == p.gpuURL
      && run.page.localDriv == p.localDriv
      && run.page.controls.studioChecked == p.controls.studioChecked
      && (run.page.files == p.files || run.page.files == p.files - {SkipFile})
  {
    match Scrape.ExtractOnlineVersion(e.pageText)
    case Err(_) =>
    case Ok(online) =>
      var p3 := p.(onlineDriv := Some(online));
      match CompareVersions(p3.localDriv, online, e.decimalSep)
      case Err(_) =>
      case Ok(v) =>
        ShowResultEffects(p3, v, online);
  }

  /**
   * A check that completes has scraped the page's first `Windows/NNN.NN`
   * and keeps the NNN.NN part as the online version.
   */
  lemma LoadScrapesFirstVersion(p: Page, e: Env)
    requires LoadSpec(p, e).outcome == Completed
    ensures
      var online := LoadSpec(p, e).page.onlineDriv;
      && online.Some? && Scrape.IsVersion(online.value)
      && exists i: nat :: Scrape.MatchAt(e.pageText, i)
                          && e.pageText[i + |Scrape.Prefix|..i + Scrape.MatchLength] == online.value
                          && forall j: nat :: j < i ==> !Scrape.MatchAt(e.pageText, j)
  {
    var online, v := LoadCompleted(p, e);
    ShowResultEffects(ResolveGpuUrl(Prepared(p, e), e).page.(onlineDriv := Some(online)), v, online);
  }

  /**
   * A page without `Windows/NNN.NN` stops the check with NoVersionOnPage
   * once the URL has been found, and that is the only way to that fault.
   */
  lemma LoadNoVersionCrashes(p: Page, e: Env)
    ensures LoadSpec(p, e).outcome == Crashed(NoVersionOnPage) <==>
      && MarkerReadable(p)
      && (e.firstUrl.Url? || e.retryUrl.Url?)
      && forall i: nat :: !Scrape.MatchAt(e.pageText, i)
  {
    if MarkerReadable(p) {
      var r2 := ResolveGpuUrl(Prepared(p, e), e);
      assert r2.outcome == Completed <==> e.firstUrl.Url? || e.retryUrl.Url?;
      if r2.outcome == Completed {
        assert LoadSpec(p, e) == AfterLookup(r2.page, e);
        var scraped := Scrape.ExtractOnlineVersion(e.pageText);
        if scraped.Ok? {
          assert AfterLookup(r2.page, e).outcome != Crashed(NoVersionOnPage);
        }
      }
    }
  }

  /**
   * Load changes no file other than the two sentinel files, and of those
   * it only ever deletes.
   */
  lemma LoadOnlyDeletesSentinels(p: Page, e: Env)
    ensures p.files.Keys - LoadSpec(p, e).page.files.Keys <= {SkipFile, StudioFile}
    ensures LoadSpec(p, e).page.files == p.files - (p.files.Keys - LoadSpec(p, e).page.files.Keys)
  {
    if MarkerReadable(p) {
      var r2 := ResolveGpuUrl(Prepared(p, e), e);
      assert r2.page.files == p.files || r2.page.files == p.files - {StudioFile};
      if r2.outcome == Completed {
        AfterLookupEffects(r2.page, e);
      }
    }
  }

  /**
   * The update decision of a completed check: exactly one of "outdated"
   * (local older than online) and "up to date" holds, shown on the info
   * bar. When outdated, download is offered unless the installer is
   * already on disk, in which case install is offered instead. When up to
   * date, the skip button is hidden unless a stale marker was just
   * cleared.
   */
  lemma LoadDecision(p: Page, e: Env)
    requires LoadSpec(p, e).outcome == Completed
    ensures
      var r := LoadSpec(p, e).page;
      var online := OrEmpty(r.onlineDriv);
      var verdict := CompareVersions(p.localDriv, online, e.decimalSep);
      var marker := MarkerAfterRead(p);
      && r.onlineDriv == Some(online)
      && verdict.Ok?
      && (r.controls.info == Outdated <==> verdict.value.older)
      && (r.controls.info == UpToDate <==> !verdict.value.older)
      && (verdict.value.older && InstallerName(online) !in r.files ==> r.controls.downloadVisible)
      && (InstallerName(online) in r.files ==> r.controls.installVisible && !r.controls.downloadVisible)
      && (!verdict.value.older ==> (r.controls.skipVisible <==> marker.Some? && marker != Some(online)))
  {
    var online, v := LoadCompleted(p, e);
    var p3 := ResolveGpuUrl(Prepared(p, e), e).page.(onlineDriv := Some(online));
    assert p3.skippedVer == MarkerAfterRead(p);
    ShowResultEffects(p3, v, online);
    var p5 := ClearStaleMarker(ShowVerdict(p3, v, online));
    assert p5.files == ShowResult(p3, v, online).files;
  }

  /**
   * The update popup of a completed check is raised exactly when the local
   * version is older and the skip marker does not name the online version;
   * a marker equal to the online version suppresses it.
   */
  lemma LoadPopup(p: Page, e: Env)
    requires LoadSpec(p, e).outcome == Completed
    ensures
      var r := LoadSpec(p, e).page;
      var online := OrEmpty(r.onlineDriv);
      var verdict := CompareVersions(p.localDriv, online, e.decimalSep);
      && r.onlineDriv == Some(online)
      && verdict.Ok?
      && r.popups == if verdict.value.older && MarkerAfterRead(p) != Some(online) then p.popups + 1 else p.popups
  {
    var online, v := LoadCompleted(p, e);
    var p3 := ResolveGpuUrl(Prepared(p, e), e).page.(onlineDriv := Some(online));
    assert p3.skippedVer == MarkerAfterRead(p) && p3.popups == p.popups;
    ShowResultEffects(p3, v, online);
  }

  /**
   * A skipped version is still reported: when the marker names the online
   * version and the local one is older, the check shows "outdated" and
   * offers the download (unless the installer is on disk); the marker only
   * silences the popup. The skip button stays enabled after the first
   * parse and is disabled after the `,` retry.
   */
  lemma LoadSkippedVersion(p: Page, e: Env)
    requires LoadSpec(p, e).outcome == Completed
    requires MarkerAfterRead(p) == LoadSpec(p, e).page.onlineDriv
    ensures
      var r := LoadSpec(p, e).page;
      var online := OrEmpty(r.onlineDriv);
      var verdict := CompareVersions(p.localDriv, online, e.decimalSep);
      verdict.Ok? && verdict.value.older ==>
        && r.controls.info == Outdated
        && (InstallerName(online) !in r.files ==> r.controls.downloadVisible)
        && r.controls.skipEnabled == !verdict.value.fallback
        && r.popups == p.popups
        && r.skippedVer == r.onlineDriv
  {
    var online, v := LoadCompleted(p, e);
    var p3 := ResolveGpuUrl(Prepared(p, e), e).page.(onlineDriv := Some(online));
    assert p3.skippedVer == MarkerAfterRead(p) && p3.popups == p.popups;
    ShowResultEffects(p3, v, online);
    assert p3.skippedVer == Some(online);
    ShowResultMarker(p3, v, online);
    var p4 := ShowVerdict(p3, v, online);
    assert ClearStaleMarker(p4) == p4;
  }

  /**
   * After a completed check the skip marker is absent or names the online
   * version. A marker for another version is cleared: skip.envy is gone and
   * the skip button is enabled and shown. A marker naming the online
   * version is kept, and so is skip.envy.
   */
  lemma LoadMarker(p: Page, e: Env)
    requires LoadSpec(p, e).outcome == Completed
    ensures
      var r := LoadSpec(p, e).page;
      var marker := MarkerAfterRead(p);
      && (r.skippedVer.None? || r.skippedVer == r.onlineDriv)
      && (marker.Some? && marker != r.onlineDriv ==>
            r.skippedVer.None? && SkipFile !in r.files && r.controls.skipEnabled && r.controls.skipVisible)
      && (marker == r.onlineDriv ==> r.skippedVer == marker && SameFile(r.files, p.files, SkipFile))
      && (marker.None? ==> r.skippedVer.None?)
  {
    var online, v := LoadCompleted(p, e);
    var p3 := ResolveGpuUrl(Prepared(p, e), e).page.(onlineDriv := Some(online));
    assert p3.skippedVer == MarkerAfterRead(p);
    assert SameFile(p3.files, p.files, SkipFile) by { NamesDistinct("", ""); }
    ShowResultEffects(p3, v, online);
    ShowResultMarker(p3, v, online);
  }

  /**
   * The channel fallback. A first lookup that succeeds leaves sd.envy as it
   * was. One that fails deletes sd.envy before the single retry; a retry
   * that succeeds unchecks the studio switch, one that fails ends the
   * program (exit 11 for a null argument, 10 otherwise) before anything is
   * scraped, with no further retry.
   */
  lemma LoadChannel(p: Page, e: Env)
    requires MarkerReadable(p)
    ensures
      var run := LoadSpec(p, e);
      var r := run.page;
      && (e.firstUrl.Url? ==>
            && r.gpuURL == Some(e.firstUrl.url)
            && r.controls.studioChecked == (e.dtid == StudioDtid)
            && SameFile(r.files, p.files, StudioFile)
            && !run.outcome.Exited?)
      && (!e.firstUrl.Url? ==> StudioFile !in r.files)
      && (!e.firstUrl.Url? && e.retryUrl.Url? ==>
            r.gpuURL == Some(e.retryUrl.url) && !r.controls.studioChecked && !run.outcome.Exited?)
      && (!e.firstUrl.Url? && !e.retryUrl.Url? ==>
            && run.outcome == Exited(if e.retryUrl == NullArgument then ExitNoGpuList else ExitInvalidResponse)
            && r.gpuURL == p.gpuURL && r.onlineDriv == p.onlineDriv && r.popups == p.popups)
  {
    var r2 := ResolveGpuUrl(Prepared(p, e), e);
    if r2.outcome == Completed {
      AfterLookupEffects(r2.page, e);
      NamesDistinct("", "");
    }
  }

  /**
   * Skipping records the online version as the marker, writes exactly that
   * text to skip.envy (touching no other file) and disables the skip
   * button; skipping again changes nothing.
   */
  lemma SkipRecordsVersion(p: Page)
    ensures
      var r := SkipSpec(p);
      && r.skippedVer == p.onlineDriv
      && SkipFile in r.files && r.files[SkipFile] == OrEmpty(p.onlineDriv)
      && (forall f :: f != SkipFile ==> SameFile(r.files, p.files, f))
      && !r.controls.skipEnabled
      && SkipSpec(r) == r
  {
  }

  /** A page whose online version was skipped checks again, against the
      same catalog and driver page, to a completed run that keeps the
      marker and skip.envy and raises no popup. */
  lemma ReloadAfterSkip(first: Page, e: Env, online: string, v: Verdict)
    requires first.onlineDriv == Some(online) && Scrape.IsVersion(online)
    requires e.firstUrl.Url? || e.retryUrl.Url?
    requires Scrape.ExtractOnlineVersion(e.pageText) == Ok(online)
    requires CompareVersions(first.localDriv, online, e.decimalSep) == Ok(v)
    ensures
      var q := SkipSpec(first);
      var r := LoadSpec(q, e);
      && FirstLine(q.files[SkipFile]) == Some(online)
      && r.outcome == Completed
      && r.page.onlineDriv == Some(online)
      && r.page.skippedVer == Some(online)
      && SameFile(r.page.files, q.files, SkipFile)
      && r.page.popups == q.popups
  {
    VersionIsOneLine(online);
    WrittenLineReadsBack(online);
    var q := SkipSpec(first);
    assert MarkerAfterRead(q) == Some(online);
    var r2 := ResolveGpuUrl(Prepared(q, e), e);
    assert r2.outcome == Completed;
    assert r2.page.skippedVer == Some(online) && r2.page.localDriv == first.localDriv;
    assert SameFile(r2.page.files, q.files, SkipFile) by { NamesDistinct("", ""); }
    LoadFromSteps(q, e, online, v);
    var p3 := r2.page.(onlineDriv := Some(online));
    ShowResultEffects(p3, v, online);
    assert ShowVerdict(p3, v, online).popups == q.popups;
  }

  /**
   * The skip round trip: after a completed check and a skip, the same
   * check again reads the online version back from skip.envy's first line,
   * keeps the marker and the file, and raises no popup.
   */
  lemma {:induction false} SkipThenLoad(p: Page, e: Env)
    requires LoadSpec(p, e).outcome == Completed
    ensures
      var online := LoadSpec(p, e).page.onlineDriv;
      var q := SkipSpec(LoadSpec(p, e).page);
      var r := LoadSpec(q, e);
      && FirstLine(q.files[SkipFile]) == online
      && r.outcome == Completed
      && r.page.onlineDriv == online
      && r.page.skippedVer == online
      && SameFile(r.page.files, q.files, SkipFile)
      && r.page.popups == q.popups
  {
    var online, v := LoadCompleted(p, e);
    var r2 := ResolveGpuUrl(Prepared(p, e), e);
    assert e.firstUrl.Url? || e.retryUrl.Url?;
    ShowResultEffects(r2.page.(onlineDriv := Some(online)), v, online);
    ReloadAfterSkip(LoadSpec(p, e).page, e, online, v);
  }

  /**
   * Turning the studio switch on creates sd.envy only when it is absent,
   * and then checks again; with sd.envy present it does nothing. The new
   * file survives the check unless the studio lookup fails and the
   * fallback removes it; when it survives, turning the switch on again
   * does nothing.
   */
  lemma StudioCheckedCreates(p: Page, e: Env)
    ensures StudioFile in p.files ==> StudioCheckedSpec(p, e) == (p, None)
    ensures StudioFile !in p.files && MarkerReadable(p) ==>
      var (r, reload) := StudioCheckedSpec(p, e);
      && reload.Some?
      && (StudioFile in r.files <==> e.firstUrl.Url?)
      && (e.firstUrl.Url? ==> StudioCheckedSpec(r, e) == (r, None))
  {
    if StudioFile !in p.files && MarkerReadable(p) {
      NamesDistinct("", "");
      LoadChannel(p.(files := p.files[StudioFile := ""]), e);
    }
  }

  /**
   * Turning the studio switch off deletes sd.envy when it is present and
   * then checks again; afterwards sd.envy is absent in every case, so
   * turning it off again does nothing.
   */
  lemma StudioUncheckedRemoves(p: Page, e: Env)
    ensures StudioFile !in p.files ==> StudioUncheckedSpec(p, e) == (p, None)
    ensures StudioFile in p.files ==> StudioUncheckedSpec(p, e).1.Some?
    ensures StudioFile !in StudioUncheckedSpec(p, e).0.files
    ensures StudioUncheckedSpec(StudioUncheckedSpec(p, e).0, e) == (StudioUncheckedSpec(p, e).0, None)
  {
    if StudioFile in p.files {
      LoadOnlyDeletesSentinels(p.(files := p.files - {StudioFile}), e);
    }
  }

  /**
   * Starting a download disables the download button, shows the progress
   * bar and removes a stale partial file of the online version, and
   * nothing else.
   */
  lemma StartRemovesStale(p: Page)
    ensures
      var v := OrEmpty(p.onlineDriv);
      var r := StartDownloadSpec(p);
      && PartialName(v) !in r.files
      && (forall f :: f != PartialName(v) ==> SameFile(r.files, p.files, f))
      && !r.controls.downloadEnabled && r.controls.progressVisible
  {
  }

  /**
   * A whole download, started and completed: no partial file is left and
   * the button and progress bar are restored. A success leaves the
   * transferred installer under its final name, replacing any older one,
   * and offers install; a failure leaves the final installer as it was.
   * No other file changes.
   */
  lemma {:induction false} DownloadLifecycle(p: Page, t: Transfer)
    ensures
      var v := OrEmpty(p.onlineDriv);
      var r := DownloadCompletedSpec(StartDownloadSpec(p), t);
      && PartialName(v) !in r.files
      && r.controls.downloadEnabled && !r.controls.progressVisible
      && (t.Succeeded? ==>
            && InstallerName(v) in r.files && r.files[InstallerName(v)] == t.body
            && r.controls.installVisible && !r.controls.downloadVisible)
      && (t.Failed? ==> SameFile(r.files, p.files, InstallerName(v)))
      && (forall f :: f != PartialName(v) && f != InstallerName(v) ==> SameFile(r.files, p.files, f))
  {
    PartialIsNotInstaller(OrEmpty(p.onlineDriv));
  }

  /**
   * After a successful download, a check that finds the same online
   * version offers install, not download.
   */
  lemma {:induction false} DownloadThenLoadOffersInstall(p: Page, body: string, e: Env)
    requires p.onlineDriv.Some?
    requires LoadSpec(DownloadCompletedSpec(StartDownloadSpec(p), Succeeded(body)), e).outcome == Completed
    requires LoadSpec(DownloadCompletedSpec(StartDownloadSpec(p), Succeeded(body)), e).page.onlineDriv == p.onlineDriv
    ensures
      var r := LoadSpec(DownloadCompletedSpec(StartDownloadSpec(p), Succeeded(body)), e).page;
      r.controls.installVisible && !r.controls.downloadVisible
  {
    var v := p.onlineDriv.value;
    var q := DownloadCompletedSpec(StartDownloadSpec(p), Succeeded(body));
    DownloadLifecycle(p, Succeeded(body));
    NamesDistinct(v, v);
    LoadOnlyDeletesSentinels(q, e);
    assert InstallerName(v) in LoadSpec(q, e).page.files;
    LoadDecision(q, e);
  }
}
