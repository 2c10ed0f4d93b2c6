/** The orchestrator: what its two persistent keys say about each other at every moment (core.c). */
module Core {
  import opened Bytes
  import opened Versions
  import opened Power
  import RpManager

  datatype State = Idle | Download | Upgrade
  datatype Status = Critical | Ok | Error

  datatype Update = Update(uuid: Option<string>, fromVersion: Option<Version>, toVersion: Option<Version>, files: nat)
  datatype Config = Config(update: Option<Update>)

  /** The configurations for which setupConfigCache makes an updateFilesPath. */
  predicate HasPath(c: Option<Config>) {
    && c.Some? && c.value.update.Some?
    && var u := c.value.update.value;
       && u.uuid.Some? && u.toVersion.Some?
       && u.toVersion.value.major.Some? && u.toVersion.value.minor.Some? && u.toVersion.value.build.Some?
  }

  /** The test for a message that has been handled already. */
  predicate SameUpdate(a: Option<Config>, b: Config) {
    && a.Some? && a.value.update.Some? && b.update.Some?
    && var u, v := a.value.update.value, b.update.value;
       && u.uuid.Some? && u.uuid == v.uuid
       && VersionCmp(u.fromVersion, v.fromVersion) == 0
       && VersionCmp(u.toVersion, v.toVersion) == 0
  }

  /** The installed package of the update's uuid has the version the update starts from. */
  predicate Applies(installed: seq<RpManager.Package>, u: Update) {
    && u.uuid.Some?
    && var p := RpManager.Find(installed, u.uuid.value);
       p.Some? && VersionCmp(Some(installed[p.value].version), u.fromVersion) == 0
  }

  /** What a handler finds: the installed packages, and whether all files of the update have been downloaded already. */
  datatype Findings = Findings(installed: seq<RpManager.Package>, allThere: bool)

  /** A call of the release package manager, which resumes or begins an installation; no answer means that the power went. */
  datatype Call = Call(resumed: bool, config: Config, answer: Option<RpManager.Status>)

  class Orchestrator {
    // permanent storage
    var storedState: Option<State>
    var storedConfig: Option<Config>

    // volatile
    var open: bool
    var autoUpgrade: bool
    var lastState: State
    var lastStatus: Status
    var cache: Option<Config>
    /** Some download of the download manager is active. */
    var downloading: bool

    /** The surroundings: what will become of the next writes and reads, and what the release package manager will answer. */
    var fates: seq<Fate>
    var answers: seq<RpManager.Status>

    /** So far, every configuration that replaced another one during a download had a path. */
    ghost var clean: bool

    /** What the starts of the service found instead of a configuration to go on with. */
    ghost var misses: seq<Option<Config>>

    /** All calls of the release package manager. */
    ghost var calls: seq<Call>

    /** Holds between any two writes, hence after a power cut at any moment. */
    ghost predicate Safe()
      reads this
    {
      && (storedState == Some(Download) || storedState == Some(Upgrade) ==> storedConfig.Some?)
      && (storedState == Some(Download) && clean ==> HasPath(storedConfig))
      && (storedState == Some(Upgrade) ==> HasPath(storedConfig))
      && (forall c | c in calls :: HasPath(Some(c.config)))
    }

    /** How memory and storage agree while the service runs. */
    ghost predicate Agrees()
      reads this
    {
      && (cache.Some? ==> open && cache == storedConfig)
      && (downloading ==> open && lastState == Download && HasPath(cache))
      && (open && lastState != Idle ==> storedState == Some(lastState) && cache.Some?)
      && (open && lastState == Idle ==> storedState != Some(Download) && storedState != Some(Upgrade))
    }

    ghost predicate Settled()
      reads this
    {
      Safe() && Agrees() && (open ==> lastState != Upgrade)
    }

    /** Between two events no download is stuck: what has files to download in state DOWNLOAD has them on their way. */
    ghost predicate Between()
      reads this
    {
      Settled() && (open && lastState == Download && HasPath(cache) && cache.value.update.value.files > 0 ==> downloading)
    }

    constructor (fates: seq<Fate>, answers: seq<RpManager.Status>)
      ensures this.answers == answers && calls == []
      ensures this.fates == fates && Between() && !open && clean && storedState == None && storedConfig == None
              && misses == []
    {
      storedState, storedConfig, cache := None, None, None;
      open, downloading, autoUpgrade, clean := false, false, true, true;
      lastState, lastStatus, this.fates, this.answers, misses, calls := Idle, Ok, fates, answers, [], [];
    }

    // ----- effects: each write may fail, and the power may go before or after it -----

    method Draw() returns (f: Fate)
      modifies this`fates
      ensures f == FateAt(old(fates), 0) && fates == After(old(fates), 1)
    {
      f := FateAt(fates, 0);
      fates := After(fates, 1);
    }

    /** What the release package manager answers next; behind the end of the list everything goes well. */
    function NextAnswer(): RpManager.Status
      reads this`answers
    {
      if answers == [] then RpManager.Ok else answers[0]
    }

    method Answer() returns (a: RpManager.Status)
      modifies this`answers
      ensures a == old(NextAnswer())
    {
      a := NextAnswer();
      answers := if answers == [] then [] else answers[1..];
    }

    method WriteState(s: State) returns (r: Flow<bool>)
      modifies this`storedState, this`fates
      ensures r.Done? && r.value ==> storedState == Some(s)
      ensures r.Done? && !r.value ==> storedState == old(storedState)
      ensures r.Crash? ==> storedState == Some(s) || storedState == old(storedState)
      ensures !r.Stuck?
      ensures FateAt(old(fates), 0) == Goes ==> r == Done(true) && fates == After(old(fates), 1)
    {
      var f := Draw();
      if f == CutBefore || f == CutAmid {
        return Crash;
      } else if f == Fails {
        return Done(false);
      }
      storedState := Some(s);
      return if f == CutAfter then Crash else Done(true);
    }

    /** Writing the key, or removing it; removing an absent key is an error. */
    method WriteConfig(c: Option<Config>) returns (r: Flow<bool>)
      modifies this`storedConfig, this`fates
      ensures r.Done? && r.value ==> storedConfig == c
      ensures r.Done? && !r.value ==> storedConfig == old(storedConfig)
      ensures r.Crash? ==> storedConfig == c || storedConfig == old(storedConfig)
      ensures !r.Stuck?
      ensures old(fates) == [] ==> fates == [] && r == Done(c.Some? || old(storedConfig).Some?)
    {
      var f := Draw();
      if f == CutBefore || f == CutAmid {
        return Crash;
      } else if f == Fails || (c == None && storedConfig == None) {
        return Done(false);
      }
      storedConfig := c;
      return if f == CutAfter then Crash else Done(true);
    }

    // ----- core.c -----

    /** handleBrokenState: nothing is written, and the service is down. */
    method HandleBroken()
      requires Safe()
      modifies this`open, this`cache, this`downloading, this`lastStatus
      ensures Between() && !open && lastStatus == Critical && cache == None && !downloading
    {
      open, cache, downloading := false, None, false;
      lastStatus := Critical;
    }

    /** changeStatus; false is CORE_STATUS_CRITICAL. */
    method ChangeStatus(newState: State, newStatus: Status) returns (r: Flow<bool>)
      requires open && Safe() && newStatus != Critical
      requires newState != Idle ==> storedConfig.Some? && cache == storedConfig
      requires newState != Idle ==> HasPath(storedConfig)
      requires lastState == newState && lastStatus == newStatus ==> Agrees()
      modifies this`lastState, this`lastStatus, this`storedState, this`open, this`cache, this`downloading, this`fates
      ensures Safe() && !r.Stuck?
      ensures r.Done? && r.value ==> open && lastState == newState && lastStatus == newStatus
      ensures r.Done? && r.value && (old(lastState) != newState || old(lastStatus) != newStatus) ==> storedState == Some(newState)
      ensures r.Done? && r.value ==> cache == old(cache) && downloading == old(downloading)
      ensures r.Done? && !r.value ==> !open && Between() && lastStatus == Critical
      ensures storedState == old(storedState) || storedState == Some(newState)
      ensures old(fates) == [] ==> fates == [] && r == Done(true)
      ensures FateAt(old(fates), 0) == Goes && (old(lastState) != newState || old(lastStatus) != newStatus) ==>
                r == Done(true) && fates == After(old(fates), 1)
    {
      if lastState != newState || lastStatus != newStatus {
        lastState, lastStatus := newState, newStatus;
        var written :- WriteState(newState);
        if !written {
          HandleBroken();
          return Done(false);
        }
      }
      return Done(true);
    }

    /** saveAvailableConfig. */
    method SaveAvailableConfig(c: Option<Config>) returns (r: Flow<bool>)
      requires Safe() && Agrees() && (c.Some? ==> open)
      requires c == None ==> (open ==> lastState == Idle)
      requires c.Some? && storedState == Some(Download) && clean ==> HasPath(c)
      requires c.Some? || cache.Some? ==> storedState != Some(Upgrade)
      modifies this`storedConfig, this`open, this`cache, this`downloading, this`lastStatus, this`fates
      ensures Safe() && !r.Stuck?
      ensures open ==> old(open)
      ensures r.Done? && r.value ==> cache == c && open == old(open) && lastStatus == old(lastStatus)
      ensures r.Done? && r.value ==> downloading == old(downloading) && (c.Some? ==> storedConfig == c)
      ensures r.Done? && !r.value ==> !open && Between() && lastStatus == Critical
      ensures old(fates) == [] && (c.Some? || old(cache) == None || old(storedConfig).Some?) ==> fates == [] && r == Done(true)
      ensures r.Done? && r.value && old(cache).Some? ==> storedConfig == c
      ensures storedConfig == old(storedConfig) || storedConfig == c
    {
      if c == None && cache == None {
        return Done(true);
      }
      var written :- WriteConfig(c);
      if !written {
        HandleBroken();
        return Done(false);
      }
      cache := storedConfig;
      return Done(true);
    }

    /** updateNotificationHandler: the request it sends is answered by a later event. */
    method UpdateNotification()
      requires Safe() && (open ==> Agrees() || lastState == Idle)
      modifies this`open, this`cache, this`downloading, this`lastStatus, this`fates
      ensures old(fates) == [] ==> fates == [] && open == old(open)
      ensures Safe() && (old(Between()) ==> Between()) && (old(Agrees()) ==> Agrees())
      ensures open ==> old(open) && cache == old(cache) && downloading == old(downloading) && lastStatus == old(lastStatus)
      ensures !open && old(open) ==> Between() && lastStatus == Critical
    {
      var readable := Draw();
      if readable == Fails {
        HandleBroken();    // the installed configuration cannot be read
      }
    }

    /** The common end of a failed download or a finished upgrade. */
    method DropConfig() returns (r: Flow<bool>)
      requires Between() && (open ==> lastState == Idle) && !downloading
      modifies this`storedConfig, this`open, this`cache, this`downloading, this`lastStatus, this`fates
      ensures Safe() && !r.Stuck? && (r.Done? ==> Between() && (open ==> lastState == Idle))
      ensures open ==> old(open)
      ensures r.Done? && !r.value ==> !open && lastStatus == Critical
      ensures r.Done? && r.value ==> lastStatus == old(lastStatus) && open == old(open) && cache == None
      ensures old(fates) == [] && old(cache).Some? ==> fates == [] && r == Done(true) && storedConfig == None
      ensures storedConfig == old(storedConfig) || storedConfig == None
    {
      r := SaveAvailableConfig(None);
    }

    /** Idle with an error, and the configuration dropped. */
    method GiveUp() returns (r: Flow<bool>)
      requires open && Safe() && !downloading && (cache.Some? ==> cache == storedConfig)
      requires lastState == Idle && lastStatus == Error ==> Agrees()
      modifies this`lastState, this`storedState, this`storedConfig, this`open, this`cache, this`downloading, this`lastStatus,
               this`fates
      ensures Safe() && !r.Stuck? && (r.Done? ==> Between() && !downloading && (open ==> lastState == Idle))
      ensures r.Done? && !r.value ==> !open && lastStatus == Critical
      ensures old(fates) == [] && old(cache).Some? ==>
                && fates == [] && r == Done(true) && open && lastState == Idle && lastStatus == Error && storedConfig == None
                && cache == None && (old(lastState) != Idle ==> storedState == Some(Idle))
      ensures storedConfig == old(storedConfig) || storedConfig == None
    {
      var changed :- ChangeStatus(Idle, Error);
      if !changed {
        return Done(false);
      }
      r := DropConfig();
    }

    /** Where an answer of the release package manager leads: to idle with the configuration dropped, or, when it is
        critical, to a closed service that resumes the installation at its next start. */
    ghost predicate Follows(call: Call)
      reads this
    {
      match call.answer
      case Some(Ok) => open && lastState == Idle && lastStatus == Ok && storedState == Some(Idle) && cache == storedConfig == None
      case Some(Error) =>
        open && lastState == Idle && lastStatus == Error && storedState == Some(Idle) && cache == storedConfig == None
      case _ => !open && storedState == Some(Upgrade) && storedConfig == Some(call.config)
    }

    /** The release package manager was not called. */
    twostate predicate Quiet()
      reads this`calls, this`answers
    {
      calls == old(calls) && answers == old(answers)
    }

    /** It was called at most once, in this way, perhaps without an answer. */
    twostate predicate AtMost(call: Call)
      reads this`calls, this`answers
    {
      Quiet() || calls == old(calls) + [call] || (calls == old(calls) + [call.(answer := None)] && answers == old(answers))
    }

    /** The call that asks to install or to go on with this configuration, with the answer it is going to get. */
    ghost function Request(resumed: bool, config: Option<Config>): Call
      requires config.Some?
      reads this`answers
    {
      Call(resumed, config.value, Some(NextAnswer()))
    }

    /** performUpgrade. */
    method PerformUpgrade(resume: bool) returns (r: Flow<bool>)
      requires open && Safe() && !downloading && lastState != Upgrade && HasPath(cache) && cache == storedConfig
      modifies this`lastState, this`storedState, this`storedConfig, this`open, this`cache, this`downloading, this`lastStatus,
               this`fates, this`answers, this`calls
      ensures Safe() && !r.Stuck? && (r.Done? ==> Between() && (open ==> lastState == Idle))
      ensures r.Done? && !r.value ==> !open && lastStatus == Critical
      ensures AtMost(old(Request(resume, cache)))
      ensures old(fates) == [] ==>
                && calls == old(calls) + [old(Request(resume, cache))] && Follows(old(Request(resume, cache))) && fates == []
                && r == Done(old(NextAnswer()) != RpManager.Critical)
      ensures FateAt(old(fates), 0) == Goes && FateAt(old(fates), 1) == CutAmid ==>
                && r == Crash && calls == old(calls) + [old(Request(resume, cache)).(answer := None)] && answers == old(answers)
                && storedState == Some(Upgrade) && storedConfig == old(storedConfig)
      ensures storedConfig == old(storedConfig) || storedConfig == None
    {
      assert cache.Some?;
      hide HasPath;
      var changed :- ChangeStatus(Upgrade, Ok);
      if !changed {
        return Done(false);
      }
      var f := Draw();
      if f == CutBefore {
        return Crash;
      } else if f == CutAmid || f == CutAfter {
        calls := calls + [Call(resume, cache.value, None)];
        return Crash;    // while the package is installed
      }
      var result := Answer();
      calls := calls + [Call(resume, cache.value, Some(result))];
      r := UpgradeAnswered(resume, result);
    }

    /** What performUpgrade makes of the answer. */
    method UpgradeAnswered(ghost resume: bool, result: RpManager.Status) returns (r: Flow<bool>)
      requires open && Safe() && !downloading && lastState == Upgrade && HasPath(cache) && cache == storedConfig
      requires storedState == Some(Upgrade)
      modifies this`lastState, this`storedState, this`storedConfig, this`open, this`cache, this`downloading, this`lastStatus,
               this`fates
      ensures Safe() && !r.Stuck? && (r.Done? ==> Between() && (open ==> lastState == Idle))
      ensures r.Done? && !r.value ==> !open && lastStatus == Critical
      ensures storedConfig == old(storedConfig) || storedConfig == None
      ensures old(fates) == [] ==>
                fates == [] && r == Done(result != RpManager.Critical) && Follows(Call(resume, old(cache).value, Some(result)))
    {
      var changed: bool;
      match result {
        case Ok =>
          changed :- ChangeStatus(Idle, Ok);
          if !changed {
            return Done(false);
          }
          UpdateNotification();
        case Critical =>
          HandleBroken();
          return Done(false);
        case Error =>
          changed :- ChangeStatus(Idle, Error);
          if !changed {
            return Done(false);
          }
      }
      r := DropConfig();
    }

    /** downloadFinishedHandler, called by the download manager after it let go of its downloads. */
    method DownloadFinished(success: bool) returns (r: Flow<()>)
      requires Settled() && open && lastState == Download && !downloading && HasPath(cache)
      modifies this`lastState, this`storedState, this`storedConfig, this`open, this`cache, this`downloading, this`lastStatus,
               this`fates, this`answers, this`calls
      ensures Safe() && !r.Stuck? && (r.Done? ==> Between() && (open ==> lastState == Idle))
      ensures if success && autoUpgrade then AtMost(old(Request(false, cache))) else Quiet()
      ensures old(fates) == [] ==>
                && r.Done? && fates == []
                && if success && autoUpgrade then
                     calls == old(calls) + [old(Request(false, cache))] && Follows(old(Request(false, cache)))
                   else
                     && open && lastState == Idle && lastStatus == (if success then Ok else Error) && storedState == Some(Idle)
                     && cache == storedConfig == if success then old(storedConfig) else None
      ensures storedConfig == old(storedConfig) || storedConfig == None
    {
      var ok: bool;
      if success {
        if autoUpgrade {
          ok :- PerformUpgrade(false);
        } else {
          ok :- ChangeStatus(Idle, Ok);
        }
      } else {
        ok :- GiveUp();
      }
      return Done(());
    }

    /** downloadmgr_downloadUFs and downloadmgr_resume: they fail with nothing active, leave downloads running, or find
        that everything is there already and call back. */
    method StartDownloads(found: Findings) returns (r: Flow<bool>)
      requires Settled() && open && lastState == Download && HasPath(cache) && !downloading
      modifies this`lastState, this`storedState, this`storedConfig, this`open, this`cache, this`downloading, this`lastStatus,
               this`fates, this`answers, this`calls
      ensures Safe() && !r.Stuck? && (r.Done? ==> Settled() && (r.value ==> Between()))
      ensures r.Done? && !r.value ==> open && lastState == Download && !downloading && cache == old(cache)
      ensures if found.allThere && autoUpgrade then AtMost(old(Request(false, cache))) else Quiet()
      ensures old(fates) == [] ==>
                && r == Done(true) && fates == []
                && if !found.allThere then
                     downloading && open && lastState == Download && lastStatus == old(lastStatus) && cache == old(cache)
                   else if autoUpgrade then
                     calls == old(calls) + [old(Request(false, cache))] && Follows(old(Request(false, cache)))
                   else open && lastState == Idle && lastStatus == Ok && storedState == Some(Idle) && cache == old(cache)
      ensures storedConfig == old(storedConfig) || storedConfig == None
    {
      var f := Draw();
      if f == CutBefore || f == CutAmid || f == CutAfter {
        return Crash;
      } else if f == Fails {
        return Done(false);
      }
      if !found.allThere {
        downloading := true;
        return Done(true);
      }
      var finished :- DownloadFinished(true);
      return Done(true);
    }

    /** applyConfig. */
    method ApplyConfig(found: Findings) returns (r: Flow<bool>)
      requires Settled() && open && cache.Some? && !downloading
      modifies this`lastState, this`storedState, this`storedConfig, this`open, this`cache, this`downloading, this`lastStatus,
               this`fates, this`answers, this`calls
      ensures Safe() && !r.Stuck? && (r.Done? ==> Between())
      ensures r.Done? && !(HasPath(old(cache)) && old(cache).value.update.value.files > 0) ==>
                r.value && lastState == old(lastState) && storedState == old(storedState) && storedConfig == old(storedConfig)
      ensures !(HasPath(old(cache)) && old(cache).value.update.value.files > 0) ==>
                r == Done(true) && fates == old(fates) && open
      ensures if found.allThere && autoUpgrade then AtMost(old(Request(false, cache))) else Quiet()
      ensures old(fates) == [] && HasPath(old(cache)) && old(cache).value.update.value.files > 0 ==>
                && r == Done(true) && fates == []
                && if !Applies(found.installed, old(cache).value.update.value) then
                     open && lastState == Idle && lastStatus == Error && storedConfig == None && Quiet()
                   else if !found.allThere then
                     downloading && open && lastState == Download && cache == old(cache) && Quiet()
                   else if autoUpgrade then
                     calls == old(calls) + [old(Request(false, cache))] && Follows(old(Request(false, cache)))
                   else open && lastState == Idle && lastStatus == Ok && storedState == Some(Idle) && cache == old(cache)
      ensures storedConfig == old(storedConfig) || storedConfig == None
    {
      if !HasPath(cache) || cache.value.update.value.files == 0 {
        return Done(true);    // nothing to upgrade
      }
      var readable := Draw();
      if readable == Fails {
        HandleBroken();    // the installed configuration cannot be read
        return Done(false);
      }
      if !Applies(found.installed, cache.value.update.value) {
        r := GiveUp();
        return;
      }
      var changed :- ChangeStatus(Download, Ok);
      if !changed {
        return Done(false);
      }
      var started :- StartDownloads(found);
      if started {
        return Done(true);
      }
      r := GiveUp();
    }

    /** availableConfigHandler. */
    method AvailableConfigReceived(c: Config, found: Findings) returns (r: Flow<()>)
      requires Between() && open
      modifies this
      ensures Safe() && !r.Stuck? && (r.Done? ==> Between())
      ensures misses == old(misses) && autoUpgrade == old(autoUpgrade) && (old(fates) == [] ==> r.Done? && fates == [])
      ensures clean == (old(clean) && (old(lastState) == Download && !SameUpdate(old(cache), c) ==> HasPath(Some(c))))
      ensures r.Done? && open && old(lastState) == Download && !SameUpdate(old(cache), c) && !HasPath(Some(c)) ==>
                storedState == Some(Download) && storedConfig == Some(c)
      ensures old(fates) == [] && old(lastState) == Download && !SameUpdate(old(cache), c) && !HasPath(Some(c)) ==>
                r.Done? && open && fates == []
      ensures if found.allThere && autoUpgrade then AtMost(old(Request(false, Some(c)))) else Quiet()
      ensures old(lastState) == Download && SameUpdate(old(cache), c) ==>
                && r.Done? && open && downloading == old(downloading) && cache == old(cache) && lastState == old(lastState)
                && storedState == old(storedState) && storedConfig == old(storedConfig) && Quiet() && fates == old(fates)
      ensures old(fates) == [] && !(old(lastState) == Download && SameUpdate(old(cache), c))
              && HasPath(Some(c)) && c.update.value.files > 0 ==>
                && r.Done? && fates == []
                && if !Applies(found.installed, c.update.value) then
                     open && lastState == Idle && lastStatus == Error && storedConfig == None && Quiet()
                   else if !found.allThere then
                     downloading && open && lastState == Download && cache == Some(c) && Quiet()
                   else if autoUpgrade then
                     calls == old(calls) + [old(Request(false, Some(c)))] && Follows(old(Request(false, Some(c))))
                   else open && lastState == Idle && lastStatus == Ok && storedState == Some(Idle) && cache == Some(c)
      ensures storedConfig == old(storedConfig) || storedConfig == None || storedConfig == Some(c)
    {
      hide SameUpdate, Applies, FateAt, After;
      if lastState == Download {
        if SameUpdate(cache, c) {
          return Done(());
        }
        downloading := false;    // downloadmgr_cancel
        clean := clean && HasPath(Some(c));
      }
      var saved :- SaveAvailableConfig(Some(c));
      if !saved {
        return Done(());
      }
      var applied :- ApplyConfig(found);
      return Done(());
    }

    /** The beginning of core_init. */
    method Setup(autoUpgrade: bool) returns (ready: bool)
      requires Between() && !open
      modifies this`open, this`cache, this`downloading, this`lastState, this`lastStatus, this`autoUpgrade, this`fates
      ensures Safe() && cache == None && !downloading
      ensures ready ==>
                && open && this.autoUpgrade == autoUpgrade && lastState == Idle && lastStatus == Ok
                && fates == After(After(old(fates), 1), 1)
      ensures !ready ==> !open && Between()
      ensures !ready ==> FateAt(old(fates), 0) == Fails || FateAt(After(old(fates), 1), 0) == Fails
    {
      var connected := Draw();
      if connected == Fails {
        return false;    // no storage, or no connection
      }
      open := true;
      lastState, lastStatus, this.autoUpgrade := Idle, Ok, autoUpgrade;
      var initialised := Draw();
      if initialised == Fails {
        HandleBroken();    // rpmanager_init or downloadmgr_init failed
        return false;
      }
      return true;
    }

    /** core_init.  `missing` tells that a download could not be resumed for want of a configuration. */
    method Init(autoUpgrade: bool, found: Findings) returns (r: Flow<Status>, ghost missing: bool)
      requires Between()
      modifies this
      ensures Safe() && !r.Stuck? && (r.Done? ==> Between()) && clean == old(clean)
      ensures misses == old(misses) + if missing then [old(storedConfig)] else []
      ensures missing ==> old(storedState) == Some(Download) && !HasPath(old(storedConfig))
      ensures r.Done? && !old(open) && open && old(storedState) == Some(Download) && !HasPath(old(storedConfig)) ==> missing
      ensures old(fates) == [] && !old(open) && old(storedState) == Some(Download) && !HasPath(old(storedConfig)) ==>
                r == Done(Error) && missing && open && lastState == Idle && storedState == Some(Idle)
                && storedConfig == old(storedConfig)
      ensures old(fates) == [] && !old(open) && old(storedState) != Some(Download) && old(storedState) != Some(Upgrade) ==>
                && r == Done(Ok) && open && lastState == Idle && fates == [] && Quiet() && cache == None
                && this.autoUpgrade == autoUpgrade && storedConfig == old(storedConfig)
      ensures !old(open) && old(storedState) == Some(Upgrade) ==>
                && AtMost(old(Request(true, storedConfig)))
                && (old(fates) == [] ==>
                      && r == Done(lastStatus) && fates == [] && calls == old(calls) + [old(Request(true, storedConfig))]
                      && Follows(old(Request(true, storedConfig))))
                && (CutInUpgrade(old(fates)) ==>
                      && r == Crash && calls == old(calls) + [old(Request(true, storedConfig)).(answer := None)]
                      && answers == old(answers)
                      && storedState == Some(Upgrade) && storedConfig == old(storedConfig))
      ensures !old(open) && old(storedState) == Some(Download) && HasPath(old(storedConfig)) ==>
                && (if found.allThere && autoUpgrade then AtMost(old(Request(false, storedConfig)))
                    else Quiet())
                && (old(fates) == [] && !found.allThere ==>
                      r == Done(Ok) && fates == [] && downloading && open && lastState == Download && cache == old(storedConfig))
                && (old(fates) == [] && found.allThere && autoUpgrade ==>
                      && r == Done(lastStatus) && fates == [] && calls == old(calls) + [old(Request(false, storedConfig))]
                      && Follows(old(Request(false, storedConfig))))
      ensures old(open) || (old(storedState) != Some(Upgrade) && !(old(storedState) == Some(Download) && found.allThere
                                                                       && HasPath(old(storedConfig)))) ==>
                Quiet()
      ensures old(fates) == [] ==> r.Done? && fates == []
      ensures storedConfig == old(storedConfig) || storedConfig == None
    {
      FirstDraws(fates);
      hide HasPath, FateAt, After, CutInUpgrade, Follows, Request;
      missing := false;
      if open {
        return Done(Error), false;
      }
      var ready := Setup(autoUpgrade);
      if !ready {
        return Done(Critical), false;
      }
      if storedState == Some(Download) {
        r, missing := ResumeDownload(found);
        return;
      } else if storedState == Some(Upgrade) {
        r := ResumeUpgrade();
        return;
      }
      UpdateNotification();
      return Done(lastStatus), false;
    }

    /** The branch for an interrupted upgrade. */
    method ResumeUpgrade() returns (r: Flow<Status>)
      requires Safe() && open && storedState == Some(Upgrade) && lastState == Idle && lastStatus == Ok && !downloading
      modifies this`lastState, this`storedState, this`storedConfig, this`open, this`cache, this`downloading, this`lastStatus,
               this`fates, this`answers, this`calls
      ensures Safe() && !r.Stuck? && (r.Done? ==> Between() && r.value == lastStatus)
      ensures AtMost(old(Request(true, storedConfig)))
      ensures old(fates) == [] ==>
                && r.Done? && fates == [] && calls == old(calls) + [old(Request(true, storedConfig))]
                && Follows(old(Request(true, storedConfig)))
      ensures FateAt(old(fates), 0) == Goes && FateAt(old(fates), 1) == CutAmid ==>
                && r == Crash && calls == old(calls) + [old(Request(true, storedConfig)).(answer := None)]
                && answers == old(answers)
                && storedState == Some(Upgrade) && storedConfig == old(storedConfig)
      ensures storedConfig == old(storedConfig) || storedConfig == None
    {
      cache := storedConfig;
      if cache.Some? {
        var upgraded := PerformUpgrade(true);
        return if upgraded.Done? then Done(lastStatus) else Crash;
      } else {
        assert false;    // "failed to get available config from storage" after an interrupted upgrade
      }
    }

    /** The power goes while an installation is resumed. */
    ghost predicate CutInUpgrade(fates: seq<Fate>) {
      FateAt(fates, 0) == FateAt(fates, 1) == FateAt(fates, 2) == Goes && FateAt(fates, 3) == CutAmid
    }

    lemma FirstDraws(fates: seq<Fate>)
      ensures var next := After(After(fates, 1), 1);
              && (fates == [] ==> FateAt(fates, 0) == FateAt(After(fates, 1), 0) == Goes && next == [])
              && (CutInUpgrade(fates) ==>
                    && FateAt(fates, 0) == FateAt(After(fates, 1), 0) == Goes
                    && FateAt(next, 0) == Goes && FateAt(next, 1) == CutAmid)
    {
    }

    /** The branch of core_init for an interrupted download. */
    method ResumeDownload(found: Findings) returns (r: Flow<Status>, ghost missing: bool)
      requires Safe() && open && storedState == Some(Download)
      requires lastState == Idle && lastStatus == Ok && !downloading && cache == None
      modifies this`lastState, this`storedState, this`storedConfig, this`open, this`cache, this`downloading, this`lastStatus,
               this`fates, this`misses, this`answers, this`calls
      ensures Safe() && !r.Stuck? && (r.Done? ==> Between())
      ensures misses == old(misses) + if missing then [old(storedConfig)] else []
      ensures missing ==> !HasPath(old(storedConfig))
      ensures r.Done? && open && !HasPath(old(storedConfig)) ==> missing
      ensures old(fates) == [] ==> r.Done? && fates == []
      ensures old(fates) == [] && HasPath(old(storedConfig)) && !found.allThere ==>
                r == Done(Ok) && fates == [] && downloading && open && lastState == Download && cache == old(storedConfig)
      ensures if found.allThere && autoUpgrade && HasPath(old(storedConfig)) then
                AtMost(old(Request(false, storedConfig)))
              else Quiet()
      ensures old(fates) == [] && HasPath(old(storedConfig)) && found.allThere && autoUpgrade ==>
                && r == Done(lastStatus) && fates == [] && calls == old(calls) + [old(Request(false, storedConfig))]
                && Follows(old(Request(false, storedConfig)))
      ensures old(fates) == [] && !HasPath(old(storedConfig)) ==>
                && r == Done(Error) && missing && open && lastState == Idle && storedState == Some(Idle)
                && storedConfig == old(storedConfig)
      ensures storedConfig == old(storedConfig) || storedConfig == None
    {
      hide HasPath;
      missing := false;
      UpdateNotification();
      if !open {
        return Done(Critical), false;
      }
      cache := storedConfig;
      if HasPath(cache) {
        var changed := ChangeStatus(Download, Ok);
        if !changed.Done? {
          return Crash, false;
        } else if !changed.value {
          return Done(Critical), false;
        }
        var started := StartDownloads(found);
        if !started.Done? {
          return Crash, false;
        } else if !started.value {
          var gaveUp := GiveUp();
          if !gaveUp.Done? {
            return Crash, false;
          } else if !gaveUp.value {
            return Done(Critical), false;
          }
        }
      } else {
        missing, misses := true, misses + [cache];
        var changed := ChangeStatus(Idle, Error);
        if !changed.Done? {
          return Crash, true;
        } else if !changed.value {
          return Done(Critical), true;
        }
      }
      return Done(lastStatus), missing;
    }

    /** Power off: memory is gone. */
    method PowerOff()
      requires Safe()
      modifies this`open, this`cache, this`downloading, this`lastState, this`lastStatus
      ensures Between() && !open
    {
      open, cache, downloading := false, None, false;
      lastState, lastStatus := Idle, Ok;
    }
  }

  datatype Event =
    | Start(autoUpgrade: bool, found: Findings)
    | Notified
    | ConfigReceived(config: Config, found: Findings)
    | DownloadEnded(success: bool)
    | PowerGone

  /** What lets an event call the release package manager: an interrupted upgrade, or a download that is complete. */
  predicate Causes(event: Event, storedState: Option<State>, storedConfig: Option<Config>, autoUpgrade: bool, call: Call) {
    match event
    case Start(_, found) =>
      storedConfig == Some(call.config)
      && if call.resumed then storedState == Some(Upgrade) else storedState == Some(Download) && found.allThere
    case ConfigReceived(config, found) => found.allThere && !call.resumed && call.config == config
    case DownloadEnded(success) => success && autoUpgrade && !call.resumed && storedConfig == Some(call.config)
    case _ => false
  }

  /** What an event comes to when nothing fails. */
  twostate predicate Smooth(core: Orchestrator, event: Event)
    reads core
  {
    match event
    case Start(autoUpgrade, _) =>
      if old(core.open) || old(core.storedState) == Some(Download) then true
      else if old(core.storedState) == Some(Upgrade) then
        old(core.storedConfig).Some? ==>
          var call := Call(true, old(core.storedConfig).value, Some(old(core.NextAnswer())));
          core.calls == old(core.calls) + [call] && core.Follows(call)
      else core.open && core.lastState == Idle && core.autoUpgrade == autoUpgrade && core.Quiet()
    case ConfigReceived(config, found) =>
      old(core.open) && old(core.lastState) == Idle && HasPath(Some(config)) && config.update.value.files > 0
      && Applies(found.installed, config.update.value) && !found.allThere ==>
        core.downloading && core.cache == Some(config) && core.autoUpgrade == old(core.autoUpgrade) && core.Quiet()
    case DownloadEnded(success) =>
      old(core.downloading) && old(core.storedConfig).Some? ==>
        var call := Call(false, old(core.storedConfig).value, Some(old(core.NextAnswer())));
        if success && old(core.autoUpgrade) then core.calls == old(core.calls) + [call] && core.Follows(call)
        else
          && core.open && core.lastState == Idle && core.lastStatus == (if success then Ok else Error)
          && core.storedConfig == (if success then old(core.storedConfig) else None) && core.calls == old(core.calls)
    case _ => true
  }

  /** One event of a run; those that the service cannot see at the moment are dropped. */
  method Handle(core: Orchestrator, event: Event) returns (ghost missing: bool)
    requires core.Between()
    modifies core
    ensures core.Between()
    ensures core.misses == old(core.misses) + if missing then [old(core.storedConfig)] else []
    ensures missing ==> old(core.storedState) == Some(Download) && !HasPath(old(core.storedConfig))
    ensures core.clean ==> old(core.clean)
    ensures core.Quiet()
            || (|core.calls| == |old(core.calls)| + 1 && core.calls[..|old(core.calls)|] == old(core.calls)
                && Causes(event, old(core.storedState), old(core.storedConfig), old(core.autoUpgrade),
                          core.calls[|old(core.calls)|]))
    ensures old(core.fates) == [] ==> core.fates == [] && Smooth(core, event)
    ensures core.storedConfig == old(core.storedConfig) || core.storedConfig == None
            || (event.ConfigReceived? && core.storedConfig == Some(event.config))
  {
    hide HasPath, SameUpdate, Applies, FateAt, After;
    missing := false;
    match event {
      case Start(autoUpgrade, found) =>
        var r: Flow<Status>;
        r, missing := core.Init(autoUpgrade, found);
        if r.Crash? {
          core.PowerOff();
        }
      case Notified =>
        if core.open {
          core.UpdateNotification();
        }
      case ConfigReceived(config, found) =>
        if core.open {
          var r := core.AvailableConfigReceived(config, found);
          if r.Crash? {
            core.PowerOff();
          }
        }
      case DownloadEnded(success) =>
        if core.downloading {
          core.downloading := false;
          var r := core.DownloadFinished(success);
          if r.Crash? {
            core.PowerOff();
          }
        }
      case PowerGone =>
        core.PowerOff();
    }
  }

  /** The service has been sent this configuration. */
  predicate Sent(events: seq<Event>, config: Config) {
    exists i :: 0 <= i < |events| && events[i].ConfigReceived? && events[i].config == config
  }

  /** Any run, with any write failures and any power cuts: a start that finds no update to resume has before it a
      configuration without a path, and as long as none such replaces one that is being downloaded, no start does.  Only
      configurations that have a path and have been sent are ever installed. */
  method Run(events: seq<Event>, fates: seq<Fate>, answers: seq<RpManager.Status>) returns (core: Orchestrator)
    ensures core.Between() && |core.misses| <= |events|
    ensures forall c | c in core.misses :: !HasPath(c)
    ensures core.clean ==> core.misses == []
    ensures |core.calls| <= |events| && forall c | c in core.calls :: HasPath(Some(c.config)) && Sent(events, c.config)
  {
    core := new Orchestrator(fates, answers);
    for i := 0 to |events|
      invariant core.Between() && fresh(core) && |core.misses| <= i && |core.calls| <= i
      invariant (forall c | c in core.misses :: !HasPath(c)) && (core.clean ==> core.misses == [])
      invariant core.storedConfig.Some? ==> Sent(events[..i], core.storedConfig.value)
      invariant forall c | c in core.calls :: Sent(events[..i], c.config)
    {
      SentMore(events, i);
      hide Sent;
      ghost var missing := Handle(core, events[i]);
    }
    assert events[..|events|] == events;
  }

  lemma SentMore(events: seq<Event>, i: nat)
    requires i < |events|
    ensures forall c | Sent(events[..i], c) :: Sent(events[..i + 1], c)
    ensures events[i].ConfigReceived? ==> Sent(events[..i + 1], events[i].config)
  {
    forall c | Sent(events[..i], c) ensures Sent(events[..i + 1], c) {
      var k :| 0 <= k < i && events[k].ConfigReceived? && events[k].config == c;
      assert events[..i + 1][k] == events[k];
    }
    assert events[..i + 1][i] == events[i];
  }

  /** The other direction: when nothing fails, such a replacement makes the next start take the branch for a missing
      configuration, and the download that was under way is forgotten. */
  method ReplacedDownload(core: Orchestrator, config: Config, found: Findings)
    returns (restarted: Flow<Status>, ghost missing: bool)
    requires core.Between() && core.open && core.lastState == Download && core.fates == []
    requires !SameUpdate(core.cache, config) && !HasPath(Some(config))
    modifies core
    ensures missing && restarted == Done(Error) && core.storedState == Some(Idle)
    ensures core.misses == old(core.misses) + [Some(config)]
    ensures core.Between() && core.open && core.lastState == Idle && core.storedConfig == Some(config)
  {
    var r := core.AvailableConfigReceived(config, found);
    core.PowerOff();
    restarted, missing := core.Init(true, found);
  }

  /** A whole update when nothing fails: the service starts on an empty storage, a configuration comes in that fits what is
      installed, all of it is downloaded, and it is installed once. */
  method WholeUpdate(config: Config, found: Findings, answer: RpManager.Status) returns (core: Orchestrator)
    requires HasPath(Some(config)) && config.update.value.files > 0 && Applies(found.installed, config.update.value)
    requires !found.allThere
    ensures core.calls == [Call(false, config, Some(answer))] && core.Follows(core.calls[0]) && core.misses == []
  {
    core := new Orchestrator([], [answer]);
    ghost var missing := Handle(core, Start(true, found));
    missing := Handle(core, ConfigReceived(config, found));
    missing := Handle(core, DownloadEnded(true));
  }

  /** However often the power goes during an installation, every start goes on with it, until the release package manager
      answers. */
  method ResumedUpgrade(core: Orchestrator, cuts: nat, found: Findings)
    requires core.Between() && !core.open && core.storedState == Some(Upgrade)
    requires core.storedConfig.Some?
    modifies core
    ensures var config, answer := old(core.storedConfig).value, old(core.NextAnswer());
            && core.calls == old(core.calls) + seq(cuts, _ => Call(true, config, None)) + [Call(true, config, Some(answer))]
            && core.Follows(Call(true, config, Some(answer)))
  {
    ghost var config := core.storedConfig.value;
    for i := 0 to cuts
      invariant core.Between() && !core.open && core.storedState == Some(Upgrade)
      invariant core.storedConfig == old(core.storedConfig) && core.answers == old(core.answers)
      invariant core.calls == old(core.calls) + seq(i, _ => Call(true, config, None))
    {
      core.fates := [Goes, Goes, Goes, CutAmid];
      ghost var was := core.calls;
      ghost var r, missing := core.Init(true, found);
      core.PowerOff();
    }
    core.fates := [];
    ghost var missing := Handle(core, Start(true, found));
  }

  /** A whole run of that kind, from an empty storage: an update begins to download, a message without an update comes
      in, the power goes, and the service starts again. */
  method LostDownload() returns (core: Orchestrator, restarted: Flow<Status>, ghost missing: bool)
    ensures missing && restarted == Done(Error) && core.misses == [Some(Config(None))]
  {
    var fromVersion, toVersion := Some(Version(Some(1), Some(0), Some(0))), Some(Version(Some(2), Some(0), Some(0)));
    var update := Update(Some("ecu"), fromVersion, toVersion, 1);
    var found := Findings([RpManager.Package("ecu", fromVersion.value)], false);
    core := new Orchestrator([], []);
    var started: Flow<Status>;
    started, missing := core.Init(true, found);
    assert Applies(found.installed, update);
    var r := core.AvailableConfigReceived(Config(Some(update)), found);
    restarted, missing := ReplacedDownload(core, Config(None), found);
  }
}
