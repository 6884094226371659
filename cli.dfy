/** main.py: the three commands and their dispatch. One run sees a fixed
    world: the portal's answers, the clock, how the SMTP exchange ends,
    whether the SMS package is installed and which text messages go out. */
module Cli {
  import opened Wrappers
  import opened Studies
  import Scraper
  import opened Storage
  import Notifier
  import opened Config

  datatype World = World(
    web: Scraper.Web,
    now: string,
    smtp: Notifier.SmtpOutcome,
    twilioInstalled: bool,
    smsDelivered: nat -> bool)

  /** The command-line switches that choose what a run does. */
  datatype Options = Options(discover: bool, reset: bool, dryRun: bool)

  // ---------------------------------------------------------------------
  // cmd_check, as functions of the configuration, the world and the store

  /** `SPPScraper(year_type_ids=config.year_type_ids or None, ...)` */
  function CheckSettings(config: AppConfig): (s: Scraper.Settings)
    ensures s.yearTypeIds.None? <==> config.yearTypeIds == []
    ensures s.yearTypeIds.Some? ==> s.yearTypeIds.value == config.yearTypeIds
    ensures s.requestDelay == config.requestDelay && s.maxRetries == config.maxRetries
  {
    Scraper.Settings(if config.yearTypeIds == [] then None else Some(config.yearTypeIds),
      config.requestDelay, config.maxRetries)
  }

  /** The studies the check fetches. */
  function Fetched(config: AppConfig, world: World): seq<Study> {
    Scraper.AllStudies(world.web, CheckSettings(config))
  }

  /** E-mail goes out only with recipients and an SMTP user name. */
  predicate EmailOn(config: AppConfig) {
    config.emailRecipients != [] && config.smtp.username != ""
  }

  /** Text messages go out only with recipients and an account id. */
  predicate SmsOn(config: AppConfig) {
    config.smsRecipients != [] && config.twilio.accountSid != ""
  }

  function Mailer(config: AppConfig): Notifier.EmailNotifier {
    Notifier.EmailNotifier(config.smtp.host, config.smtp.port, config.smtp.username, config.smtp.password,
      config.smtp.fromAddress, config.smtp.useTls)
  }

  /** The e-mail channel did not fail: it was skipped or it delivered. */
  predicate EmailOk(config: AppConfig, world: World, studies: seq<Study>) {
    !EmailOn(config) || Mailer(config).Send(config.emailRecipients, studies, world.smtp).value
  }

  /** The SMS channel did not fail: it was skipped or every number got its message. */
  predicate SmsOk(config: AppConfig, world: World) {
    !SmsOn(config) || forall k :: 0 <= k < |config.smsRecipients| ==> world.smsDelivered(k)
  }

  /** The exit code of `cmd_check`: 1 when the portal yields no study, 0
      when nothing is new or on a dry run, otherwise 0 when every attempted
      channel succeeded and 2 when one failed; a missing SMS package is an
      ImportError. */
  function CheckExit(config: AppConfig, dryRun: bool, world: World, seen: map<string, SeenRecord>): (r: Completion<int>)
    ensures r.Returned? ==> r.value in {0, 1, 2}
    ensures r.Returned? && r.value == 1 <==> Fetched(config, world) == []
    ensures r.Raised? <==>
      NewStudies(seen, Fetched(config, world)) != [] && !dryRun && SmsOn(config) && !world.twilioInstalled
    ensures r.Raised? ==> r.exception == ImportError
  {
    var all := Fetched(config, world);
    var newStudies := NewStudies(seen, all);
    if all == [] then Returned(1)
    else if newStudies == [] || dryRun then Returned(0)
    else if SmsOn(config) && !world.twilioInstalled then Raised(ImportError)
    else Returned(if EmailOk(config, world, newStudies) && SmsOk(config, world) then 0 else 2)
  }

  /** The store after `cmd_check`. */
  function CheckedStore(config: AppConfig, dryRun: bool, world: World, data: StoreData): StoreData {
    var all := Fetched(config, world);
    var newStudies := NewStudies(data.seen, all);
    if all == [] || newStudies == [] then data.(lastCheck := Some(world.now))
    else if dryRun || (SmsOn(config) && !world.twilioInstalled) then data
    else StoreData(MarkAll(data.seen, newStudies, world.now), Some(world.now))
  }

  /** Whatever the channels report, a run that gets past the SMS client marks
      every new study as seen, and exits 2 exactly when a channel failed. */
  lemma AlertsFailAndStillMark(config: AppConfig, world: World, data: StoreData)
    requires NewStudies(data.seen, Fetched(config, world)) != []
    requires !(SmsOn(config) && !world.twilioInstalled)
    ensures forall s :: s in Fetched(config, world) ==> UniqueId(s) in CheckedStore(config, false, world, data).seen
    ensures CheckExit(config, false, world, data.seen) ==
      Returned(if EmailOk(config, world, NewStudies(data.seen, Fetched(config, world))) && SmsOk(config, world) then 0 else 2)
  {
    MarkNewCoversAll(data.seen, Fetched(config, world), world.now);
  }

  /** A dry run reports and changes nothing. */
  lemma DryRunKeepsStore(config: AppConfig, world: World, data: StoreData)
    requires NewStudies(data.seen, Fetched(config, world)) != []
    ensures CheckedStore(config, true, world, data) == data
    ensures CheckExit(config, true, world, data.seen) == Returned(0)
  {
  }

  /** Checking again against the same portal right after a completed check
      finds nothing new and exits 0. */
  lemma SecondCheckQuiet(config: AppConfig, dryRun: bool, world: World, data: StoreData)
    requires Fetched(config, world) != []
    requires !dryRun && CheckExit(config, dryRun, world, data.seen).Returned?
    ensures NewStudies(CheckedStore(config, dryRun, world, data).seen, Fetched(config, world)) == []
    ensures CheckExit(config, false, world, CheckedStore(config, dryRun, world, data).seen) == Returned(0)
  {
    MarkNewCoversAll(data.seen, Fetched(config, world), world.now);
  }

  // ---------------------------------------------------------------------
  // cmd_check over `EmailNotifier.send` as written, which lets a socket
  // error escape (see Notifier.EmailNotifier.SendAsWritten)

  /** The e-mail step raises: there are new studies to alert on, e-mail is
      enabled and the SMTP exchange ends in a socket error. */
  predicate EmailRaises(config: AppConfig, dryRun: bool, world: World, seen: map<string, SeenRecord>) {
    NewStudies(seen, Fetched(config, world)) != [] && !dryRun && EmailOn(config) && world.smtp == Notifier.SocketError
  }

  /** The exit of `cmd_check` as written: the OSError of the e-mail step
      is not caught, so it ends the run before the SMS step. */
  function CheckExitAsWritten(config: AppConfig, dryRun: bool, world: World, seen: map<string, SeenRecord>)
    : (r: Completion<int>)
    ensures r.Returned? ==> r.value in {0, 1, 2}
    ensures r.Returned? && r.value == 1 <==> Fetched(config, world) == []
    ensures r == Raised(OSError) <==> EmailRaises(config, dryRun, world, seen)
    ensures r == Raised(ImportError) <==>
      NewStudies(seen, Fetched(config, world)) != [] && !dryRun && !EmailRaises(config, dryRun, world, seen)
      && SmsOn(config) && !world.twilioInstalled
  {
    var all := Fetched(config, world);
    var newStudies := NewStudies(seen, all);
    if all == [] then Returned(1)
    else if newStudies == [] || dryRun then Returned(0)
    else
      var email := if EmailOn(config) then Mailer(config).SendAsWritten(config.emailRecipients, newStudies, world.smtp)
        else Returned(true);
      if email.Raised? then Raised(email.exception)
      else if SmsOn(config) && !world.twilioInstalled then Raised(ImportError)
      else Returned(if email.value && SmsOk(config, world) then 0 else 2)
  }

  /** The store after `cmd_check` as written: a raise in either channel
      leaves it as loaded. */
  function CheckedStoreAsWritten(config: AppConfig, dryRun: bool, world: World, data: StoreData): StoreData {
    var all := Fetched(config, world);
    var newStudies := NewStudies(data.seen, all);
    if all == [] || newStudies == [] then data.(lastCheck := Some(world.now))
    else if dryRun then data
    else if EmailOn(config) && Mailer(config).SendAsWritten(config.emailRecipients, newStudies, world.smtp).Raised? then data
    else if SmsOn(config) && !world.twilioInstalled then data
    else StoreData(MarkAll(data.seen, newStudies, world.now), Some(world.now))
  }

  /** The check as written and the corrected check differ exactly on a run
      whose e-mail step meets a socket error: as written it raises OSError
      and marks nothing, while the corrected check never raises OSError. */
  lemma CheckAsWrittenDiffers(config: AppConfig, dryRun: bool, world: World, data: StoreData)
    ensures CheckExitAsWritten(config, dryRun, world, data.seen) == CheckExit(config, dryRun, world, data.seen)
      <==> !EmailRaises(config, dryRun, world, data.seen)
    ensures !EmailRaises(config, dryRun, world, data.seen) ==>
      CheckedStoreAsWritten(config, dryRun, world, data) == CheckedStore(config, dryRun, world, data)
    ensures EmailRaises(config, dryRun, world, data.seen) ==>
      CheckExitAsWritten(config, dryRun, world, data.seen) == Raised(OSError)
      && CheckedStoreAsWritten(config, dryRun, world, data) == data
  {
    var newStudies := NewStudies(data.seen, Fetched(config, world));
    if newStudies != [] && EmailOn(config) {
      Mailer(config).SendAgreesWhenNoSocketError(config.emailRecipients, newStudies, world.smtp);
    }
  }

  /** The SMS step of `cmd_check`: skipped (True) when SMS is not enabled;
      otherwise the notifier's outcome, a missing package raising. */
  method SmsStep(config: AppConfig, world: World, newStudies: seq<Study>) returns (r: Completion<bool>)
    requires newStudies != []
    ensures r == if SmsOn(config) && !world.twilioInstalled then Raised(ImportError) else Returned(SmsOk(config, world))
  {
    r := Returned(true);
    if config.smsRecipients != [] && config.twilio.accountSid != "" {
      var sms := new Notifier.SmsNotifier(config.twilio.accountSid, config.twilio.authToken, config.twilio.fromNumber);
      ghost var messages;
      r, messages := sms.Send(config.smsRecipients, newStudies, world.twilioInstalled, world.smsDelivered);
    }
  }

  /** The alerting part of `cmd_check`: e-mail, then SMS; `success` falls to
      false when an attempted channel fails, and a missing SMS package
      raises. */
  method SendAlerts(config: AppConfig, world: World, newStudies: seq<Study>) returns (r: Completion<bool>)
    requires newStudies != []
    ensures r == if SmsOn(config) && !world.twilioInstalled then Raised(ImportError)
      else Returned(EmailOk(config, world, newStudies) && SmsOk(config, world))
  {
    var success := true;
    if config.emailRecipients != [] && config.smtp.username != "" {
      var sent := Mailer(config).Send(config.emailRecipients, newStudies, world.smtp);
      if !sent.value {
        success := false;
      }
    }
    var sent := SmsStep(config, world, newStudies);
    if sent.Raised? {
      return Raised(sent.exception);
    }
    if !sent.value {
      success := false;
    }
    r := Returned(success);
  }

  /** The alerting part of `cmd_check` over `send` as written: a socket
      error in the e-mail step raises OSError before SMS is tried. */
  method SendAlertsAsWritten(config: AppConfig, world: World, newStudies: seq<Study>) returns (r: Completion<bool>)
    requires newStudies != []
    ensures r == if EmailOn(config) && world.smtp == Notifier.SocketError then Raised(OSError)
      else if SmsOn(config) && !world.twilioInstalled then Raised(ImportError)
      else Returned(EmailOk(config, world, newStudies) && SmsOk(config, world))
  {
    var success := true;
    if config.emailRecipients != [] && config.smtp.username != "" {
      var sent := Mailer(config).SendAsWritten(config.emailRecipients, newStudies, world.smtp);
      if sent.Raised? {
        return Raised(sent.exception);
      }
      if !sent.value {
        success := false;
      }
    }
    var sent := SmsStep(config, world, newStudies);
    if sent.Raised? {
      return Raised(sent.exception);
    }
    if !sent.value {
      success := false;
    }
    r := Returned(success);
  }

  /** The tail of `cmd_check` once there are new studies and it is not a dry
      run: alert, then mark the new studies as seen unless the SMS client
      could not be made. */
  method AlertAndMark(config: AppConfig, world: World, storage: StudyStorage, newStudies: seq<Study>)
    returns (r: Completion<int>)
    requires newStudies != []
    modifies storage
    ensures r == if SmsOn(config) && !world.twilioInstalled then Raised(ImportError)
      else Returned(if EmailOk(config, world, newStudies) && SmsOk(config, world) then 0 else 2)
    ensures r.Raised? ==> unchanged(storage)
    ensures r.Returned? ==>
      storage.data == StoreData(MarkAll(old(storage.data.seen), newStudies, world.now), Some(world.now))
      && storage.Persisted()
  {
    var success := SendAlerts(config, world, newStudies);
    if success.Raised? {
      return Raised(success.exception);
    }
    storage.MarkSeen(newStudies, world.now);
    r := Returned(if success.value then 0 else 2);
  }

  /** The same tail over `send` as written: a socket error in the e-mail
      step raises before `mark_seen`, so the store is left as it was. */
  method AlertAndMarkAsWritten(config: AppConfig, world: World, storage: StudyStorage, newStudies: seq<Study>)
    returns (r: Completion<int>)
    requires newStudies != []
    modifies storage
    ensures r == if EmailOn(config) && world.smtp == Notifier.SocketError then Raised(OSError)
      else if SmsOn(config) && !world.twilioInstalled then Raised(ImportError)
      else Returned(if EmailOk(config, world, newStudies) && SmsOk(config, world) then 0 else 2)
    ensures r.Raised? ==> unchanged(storage)
    ensures r.Returned? ==>
      storage.data == StoreData(MarkAll(old(storage.data.seen), newStudies, world.now), Some(world.now))
      && storage.Persisted()
  {
    var success := SendAlertsAsWritten(config, world, newStudies);
    if success.Raised? {
      return Raised(success.exception);
    }
    storage.MarkSeen(newStudies, world.now);
    r := Returned(if success.value then 0 else 2);
  }

  /** `cmd_check`: fetch, filter against the store, report, alert, mark.
      `emailAsWritten` chooses `EmailNotifier.send` as written (a socket
      error escapes) or corrected (it reports failure). */
  method CmdCheck(config: AppConfig, dryRun: bool, world: World, stored: StoredFile, emailAsWritten: bool)
    returns (r: Completion<int>, storage: StudyStorage)
    ensures fresh(storage) && storage.Persisted()
    ensures !emailAsWritten ==>
      r == CheckExit(config, dryRun, world, Load(stored).seen)
      && storage.data == CheckedStore(config, dryRun, world, Load(stored))
    ensures emailAsWritten ==>
      r == CheckExitAsWritten(config, dryRun, world, Load(stored).seen)
      && storage.data == CheckedStoreAsWritten(config, dryRun, world, Load(stored))
  {
    storage := new StudyStorage(stored);
    var all;
    ghost var waits;
    all, waits := Scraper.FetchAllStudies(world.web, CheckSettings(config));
    assert all == Fetched(config, world);
    if all == [] {
      storage.UpdateLastCheck(world.now);
      return Returned(1), storage;
    }
    var newStudies := storage.FindNewStudies(all);
    if newStudies == [] {
      storage.UpdateLastCheck(world.now);
      return Returned(0), storage;
    }
    if dryRun {
      return Returned(0), storage;
    }
    if emailAsWritten {
      r := AlertAndMarkAsWritten(config, world, storage, newStudies);
      CheckTailAsWritten(config, world, Load(stored));
    } else {
      r := AlertAndMark(config, world, storage, newStudies);
      CheckTail(config, world, Load(stored));
    }
  }

  /** The outcome of the corrected check once there are new studies and it
      is not a dry run. */
  lemma CheckTail(config: AppConfig, world: World, data: StoreData)
    requires NewStudies(data.seen, Fetched(config, world)) != []
    ensures var newStudies := NewStudies(data.seen, Fetched(config, world));
      && CheckExit(config, false, world, data.seen) ==
        (if SmsOn(config) && !world.twilioInstalled then Raised(ImportError)
         else Returned(if EmailOk(config, world, newStudies) && SmsOk(config, world) then 0 else 2))
      && CheckedStore(config, false, world, data) ==
        (if SmsOn(config) && !world.twilioInstalled then data
         else StoreData(MarkAll(data.seen, newStudies, world.now), Some(world.now)))
  {
  }

  /** The outcome of the check as written once there are new studies and it
      is not a dry run. */
  lemma CheckTailAsWritten(config: AppConfig, world: World, data: StoreData)
    requires NewStudies(data.seen, Fetched(config, world)) != []
    ensures var newStudies := NewStudies(data.seen, Fetched(config, world));
      && CheckExitAsWritten(config, false, world, data.seen) ==
        (if EmailOn(config) && world.smtp == Notifier.SocketError then Raised(OSError)
         else if SmsOn(config) && !world.twilioInstalled then Raised(ImportError)
         else Returned(if EmailOk(config, world, newStudies) && SmsOk(config, world) then 0 else 2))
      && CheckedStoreAsWritten(config, false, world, data) ==
        (if (EmailOn(config) && world.smtp == Notifier.SocketError) || (SmsOn(config) && !world.twilioInstalled) then data
         else StoreData(MarkAll(data.seen, newStudies, world.now), Some(world.now)))
  {
  }

  // ---------------------------------------------------------------------
  // cmd_discover, cmd_reset and the dispatch

  /** `cmd_discover`: 1 when no category is found, else 0. */
  method CmdDiscover(config: AppConfig, world: World) returns (r: int)
    ensures r == 1 <==> Scraper.Discovered(world.web, config.maxRetries) == []
    ensures r == 0 || r == 1
  {
    var yearTypes;
    ghost var waits;
    yearTypes, waits := Scraper.DiscoverYearTypes(world.web, config.maxRetries);
    if yearTypes == [] {
      return 1;
    }
    r := 0;
  }

  /** `cmd_reset`: forget every seen study (the count it prints is not
      modelled). */
  method CmdReset(stored: StoredFile) returns (r: int, storage: StudyStorage)
    ensures fresh(storage)
    ensures r == 0 && storage.data == EMPTY && storage.file == Stored(EMPTY)
  {
    storage := new StudyStorage(stored);
    storage.Clear();
    r := 0;
  }

  /** `main`: load the configuration (a bad SMTP_PORT or SPP_YEAR_TYPE_IDS
      raises ValueError), then discover, else reset, else check. `after` is
      the store file when the run ends. */
  method Run(options: Options, file: Option<YamlDoc>, env: Env, stored: StoredFile, world: World)
    returns (r: Completion<int>, ghost after: StoredFile)
    ensures ApplyEnv(FromYaml(file), env).Raised? ==> r == Raised(ValueError) && after == stored
    ensures ApplyEnv(FromYaml(file), env).Returned? ==>
      var config := ApplyEnv(FromYaml(file), env).value;
      && (options.discover ==>
            r == Returned(if Scraper.Discovered(world.web, config.maxRetries) == [] then 1 else 0) && after == stored)
      && (!options.discover && options.reset ==> r == Returned(0) && after == Stored(EMPTY))
      && (!options.discover && !options.reset ==>
            r == CheckExit(config, options.dryRun, world, Load(stored).seen)
            && Load(after) == CheckedStore(config, options.dryRun, world, Load(stored)))
  {
    var loaded := LoadConfig(file, env);
    after := stored;
    if loaded.Raised? {
      return Raised(loaded.exception), after;
    }
    var config := loaded.value;
    if options.discover {
      var code := CmdDiscover(config, world);
      r := Returned(code);
    } else if options.reset {
      var code, storage := CmdReset(stored);
      r := Returned(code);
      after := storage.file;
    } else {
      var storage;
      r, storage := CmdCheck(config, options.dryRun, world, stored, false);
      after := storage.file;
    }
  }
}
