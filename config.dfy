/** config.py: the configuration records with their defaults, the values a
    YAML file supplies, and the environment variables that override them.
    The parsed YAML document and the environment are inputs. */
module Config {
  import opened Wrappers
  import opened Text

  datatype SmtpConfig = SmtpConfig(
    host: string, port: int, username: string, password: string, fromAddress: string, useTls: bool)

  const DEFAULT_SMTP: SmtpConfig := SmtpConfig("smtp.gmail.com", 587, "", "", "", true)

  datatype TwilioConfig = TwilioConfig(accountSid: string, authToken: string, fromNumber: string)

  const DEFAULT_TWILIO: TwilioConfig := TwilioConfig("", "", "")

  datatype AppConfig = AppConfig(
    yearTypeIds: seq<int>,
    requestDelay: real,
    maxRetries: int,
    emailRecipients: seq<string>,
    smsRecipients: seq<string>,
    smtp: SmtpConfig,
    twilio: TwilioConfig,
    storagePath: string,
    logLevel: string)

  /** `AppConfig()` */
  const DEFAULT_CONFIG: AppConfig :=
    AppConfig([], 2.0, 3, [], [], DEFAULT_SMTP, DEFAULT_TWILIO, "data/seen_studies.json", "INFO")

  // ---------------------------------------------------------------------
  // The YAML document: every key may be absent; a section that is absent
  // reads like a section whose keys are all absent.

  datatype MonitorSection = MonitorSection(
    yearTypeIds: Option<seq<int>>, requestDelay: Option<real>, maxRetries: Option<int>)

  datatype NotificationsSection = NotificationsSection(
    emailRecipients: Option<seq<string>>, smsRecipients: Option<seq<string>>)

  datatype SmtpSection = SmtpSection(
    host: Option<string>, port: Option<int>, username: Option<string>, password: Option<string>,
    fromAddress: Option<string>, useTls: Option<bool>)

  datatype TwilioSection = TwilioSection(
    accountSid: Option<string>, authToken: Option<string>, fromNumber: Option<string>)

  datatype YamlDoc = YamlDoc(
    monitor: MonitorSection,
    notifications: NotificationsSection,
    smtp: SmtpSection,
    twilio: TwilioSection,
    storagePath: Option<string>,
    logLevel: Option<string>)

  /** An empty file (`yaml.safe_load(f) or {}`). */
  const EMPTY_DOC: YamlDoc := YamlDoc(
    MonitorSection(None, None, None),
    NotificationsSection(None, None),
    SmtpSection(None, None, None, None, None, None),
    TwilioSection(None, None, None),
    None, None)

  /** The configuration after the YAML part of `load_config`; None when
      the file does not exist. */
  function FromYaml(file: Option<YamlDoc>): (c: AppConfig)
    ensures file.None? ==> c == DEFAULT_CONFIG
  {
    match file
    case None => DEFAULT_CONFIG
    case Some(doc) =>
      AppConfig(
        doc.monitor.yearTypeIds.GetOr([]),
        doc.monitor.requestDelay.GetOr(2.0),
        doc.monitor.maxRetries.GetOr(3),
        doc.notifications.emailRecipients.GetOr([]),
        doc.notifications.smsRecipients.GetOr([]),
        SmtpConfig(
          doc.smtp.host.GetOr("smtp.gmail.com"),
          doc.smtp.port.GetOr(587),
          doc.smtp.username.GetOr(""),
          doc.smtp.password.GetOr(""),
          doc.smtp.fromAddress.GetOr(""),
          doc.smtp.useTls.GetOr(true)),
        TwilioConfig(
          doc.twilio.accountSid.GetOr(""),
          doc.twilio.authToken.GetOr(""),
          doc.twilio.fromNumber.GetOr("")),
        doc.storagePath.GetOr("data/seen_studies.json"),
        doc.logLevel.GetOr("INFO"))
  }

  /** Every key the file leaves out falls back to its dataclass default; a
      key it gives is taken as given. */
  lemma YamlFallback(doc: YamlDoc)
    ensures FromYaml(Some(EMPTY_DOC)) == DEFAULT_CONFIG
    ensures FromYaml(Some(doc)).yearTypeIds == (if doc.monitor.yearTypeIds.Some? then doc.monitor.yearTypeIds.value else DEFAULT_CONFIG.yearTypeIds)
    ensures FromYaml(Some(doc)).requestDelay == (if doc.monitor.requestDelay.Some? then doc.monitor.requestDelay.value else DEFAULT_CONFIG.requestDelay)
    ensures FromYaml(Some(doc)).maxRetries == (if doc.monitor.maxRetries.Some? then doc.monitor.maxRetries.value else DEFAULT_CONFIG.maxRetries)
    ensures FromYaml(Some(doc)).emailRecipients == (if doc.notifications.emailRecipients.Some? then doc.notifications.emailRecipients.value else DEFAULT_CONFIG.emailRecipients)
    ensures FromYaml(Some(doc)).smsRecipients == (if doc.notifications.smsRecipients.Some? then doc.notifications.smsRecipients.value else DEFAULT_CONFIG.smsRecipients)
    ensures FromYaml(Some(doc)).smtp.host == (if doc.smtp.host.Some? then doc.smtp.host.value else DEFAULT_SMTP.host)
    ensures FromYaml(Some(doc)).smtp.port == (if doc.smtp.port.Some? then doc.smtp.port.value else DEFAULT_SMTP.port)
    ensures FromYaml(Some(doc)).smtp.username == (if doc.smtp.username.Some? then doc.smtp.username.value else DEFAULT_SMTP.username)
    ensures FromYaml(Some(doc)).smtp.password == (if doc.smtp.password.Some? then doc.smtp.password.value else DEFAULT_SMTP.password)
    ensures FromYaml(Some(doc)).smtp.fromAddress == (if doc.smtp.fromAddress.Some? then doc.smtp.fromAddress.value else DEFAULT_SMTP.fromAddress)
    ensures FromYaml(Some(doc)).smtp.useTls == (if doc.smtp.useTls.Some? then doc.smtp.useTls.value else DEFAULT_SMTP.useTls)
    ensures FromYaml(Some(doc)).twilio.accountSid == (if doc.twilio.accountSid.Some? then doc.twilio.accountSid.value else DEFAULT_TWILIO.accountSid)
    ensures FromYaml(Some(doc)).twilio.authToken == (if doc.twilio.authToken.Some? then doc.twilio.authToken.value else DEFAULT_TWILIO.authToken)
    ensures FromYaml(Some(doc)).twilio.fromNumber == (if doc.twilio.fromNumber.Some? then doc.twilio.fromNumber.value else DEFAULT_TWILIO.fromNumber)
    ensures FromYaml(Some(doc)).storagePath == (if doc.storagePath.Some? then doc.storagePath.value else DEFAULT_CONFIG.storagePath)
    ensures FromYaml(Some(doc)).logLevel == (if doc.logLevel.Some? then doc.logLevel.value else DEFAULT_CONFIG.logLevel)
  {
  }

  // ---------------------------------------------------------------------
  // Environment overrides

  type Env = map<string, string>

  /** `os.environ.get(name)` is truthy: set and not empty. */
  predicate IsSet(env: Env, name: string) {
    name in env && env[name] != ""
  }

  /** `_env_override`: a variable that is present wins, even when empty. */
  function EnvOverride(yamlValue: string, env: Env, name: string): (r: string)
    ensures name in env ==> r == env[name]
    ensures name !in env ==> r == yamlValue
  {
    if name in env then env[name] else yamlValue
  }

  /** `[p.strip() for p in parts if p.strip()]` */
  function StrippedPieces(parts: seq<string>): (r: seq<string>)
    ensures |r| <= |parts|
    ensures forall x :: x in r <==> x != "" && exists p :: p in parts && Strip(p) == x
  {
    if parts == [] then []
    else
      var rest := StrippedPieces(parts[1..]);
      var head := Strip(parts[0]);
      assert forall p :: p in parts <==> p == parts[0] || p in parts[1..];
      if head != "" then [head] + rest else rest
  }

  /** The filter keeps the order of the pieces: it distributes over
      concatenation, and a single piece is kept, stripped, exactly when it
      is not blank. */
  lemma {:induction false} StrippedPiecesAppend(a: seq<string>, b: seq<string>)
    ensures StrippedPieces(a + b) == StrippedPieces(a) + StrippedPieces(b)
    ensures forall p :: StrippedPieces([p]) == if Strip(p) != "" then [Strip(p)] else []
  {
    forall p
      ensures StrippedPieces([p]) == if Strip(p) != "" then [Strip(p)] else []
    {
      assert [p][1..] == [];
    }
    if a == [] {
      assert a + b == b;
    } else {
      assert (a + b)[1..] == a[1..] + b;
      StrippedPiecesAppend(a[1..], b);
    }
  }

  /** The list a comma-separated variable gives. */
  function CommaList(text: string): seq<string> {
    StrippedPieces(Split(text, ","))
  }

  /** Every entry of such a list is non-empty and has no whitespace at
      either end. */
  lemma CommaListClean(text: string)
    ensures forall x :: x in CommaList(text) ==> x != "" && Strip(x) == x
  {
    forall x | x in CommaList(text)
      ensures Strip(x) == x
    {
      var p :| p in Split(text, ",") && Strip(p) == x;
      StripUnchanged(Strip(p));
    }
  }

  /** `[parse(x) for x in pieces]`: None as soon as one piece does not
      parse (Python raises ValueError). */
  function ParseAll(pieces: seq<string>, parse: string -> Option<int>): (r: Option<seq<int>>)
    ensures r.None? <==> exists k :: 0 <= k < |pieces| && parse(pieces[k]).None?
    ensures r.Some? ==> |r.value| == |pieces| && forall k :: 0 <= k < |pieces| ==> Some(r.value[k]) == parse(pieces[k])
  {
    if pieces == [] then Some([])
    else
      var rest := ParseAll(pieces[1..], parse);
      assert forall k :: 1 <= k < |pieces| ==> pieces[k] == pieces[1..][k - 1];
      match parse(pieces[0])
      case None => None
      case Some(i) =>
        if rest.None? then None
        else Some([i] + rest.value)
  }

  /** The id list a comma-separated variable gives:
      `[int(x.strip()) for x in text.split(",") if x.strip()]`. */
  function CommaIds(text: string): Option<seq<int>> {
    ParseAll(CommaList(text), ParseInt)
  }

  /** The SMTP overrides: the three secrets whenever their variable is
      present, the host only when SMTP_HOST is not empty, the port only when
      SMTP_PORT is not empty, and then it must parse. */
  function EnvSmtp(smtp: SmtpConfig, env: Env): (r: Option<SmtpConfig>)
    ensures r.None? <==> IsSet(env, "SMTP_PORT") && ParseInt(env["SMTP_PORT"]).None?
    ensures r.Some? ==>
      && r.value.username == (if "SMTP_USERNAME" in env then env["SMTP_USERNAME"] else smtp.username)
      && r.value.password == (if "SMTP_PASSWORD" in env then env["SMTP_PASSWORD"] else smtp.password)
      && r.value.fromAddress == (if "SMTP_FROM_ADDRESS" in env then env["SMTP_FROM_ADDRESS"] else smtp.fromAddress)
      && r.value.host == (if IsSet(env, "SMTP_HOST") then env["SMTP_HOST"] else smtp.host)
      && r.value.port == (if IsSet(env, "SMTP_PORT") then ParseInt(env["SMTP_PORT"]).value else smtp.port)
      && r.value.useTls == smtp.useTls
  {
    var smtp := smtp.(
      username := EnvOverride(smtp.username, env, "SMTP_USERNAME"),
      password := EnvOverride(smtp.password, env, "SMTP_PASSWORD"),
      fromAddress := EnvOverride(smtp.fromAddress, env, "SMTP_FROM_ADDRESS"));
    var host := EnvOverride(smtp.host, env, "SMTP_HOST");
    var smtp := smtp.(host := if host != "" then host else smtp.host);
    if !IsSet(env, "SMTP_PORT") then Some(smtp)
    else
      match ParseInt(env["SMTP_PORT"])
      case None => None
      case Some(port) => Some(smtp.(port := port))
  }

  /** The Twilio overrides: each variable that is present wins. */
  function EnvTwilio(twilio: TwilioConfig, env: Env): (r: TwilioConfig)
    ensures r.accountSid == (if "TWILIO_ACCOUNT_SID" in env then env["TWILIO_ACCOUNT_SID"] else twilio.accountSid)
    ensures r.authToken == (if "TWILIO_AUTH_TOKEN" in env then env["TWILIO_AUTH_TOKEN"] else twilio.authToken)
    ensures r.fromNumber == (if "TWILIO_FROM_NUMBER" in env then env["TWILIO_FROM_NUMBER"] else twilio.fromNumber)
  {
    TwilioConfig(
      EnvOverride(twilio.accountSid, env, "TWILIO_ACCOUNT_SID"),
      EnvOverride(twilio.authToken, env, "TWILIO_AUTH_TOKEN"),
      EnvOverride(twilio.fromNumber, env, "TWILIO_FROM_NUMBER"))
  }

  /** A recipient list: replaced by the variable's pieces when it is not empty. */
  function EnvList(list: seq<string>, env: Env, name: string): seq<string> {
    if IsSet(env, name) then CommaList(env[name]) else list
  }

  /** The id list: replaced when SPP_YEAR_TYPE_IDS is not empty, and then
      every piece must parse. */
  function EnvIds(ids: seq<int>, env: Env): (r: Option<seq<int>>)
    ensures r.None? <==> IsSet(env, "SPP_YEAR_TYPE_IDS") && CommaIds(env["SPP_YEAR_TYPE_IDS"]).None?
    ensures !IsSet(env, "SPP_YEAR_TYPE_IDS") ==> r == Some(ids)
    ensures IsSet(env, "SPP_YEAR_TYPE_IDS") && r.Some? ==> r == CommaIds(env["SPP_YEAR_TYPE_IDS"])
  {
    if IsSet(env, "SPP_YEAR_TYPE_IDS") then CommaIds(env["SPP_YEAR_TYPE_IDS"]) else Some(ids)
  }

  /** The environment part of `load_config`, applied to the configuration
      the YAML part produced: ValueError when SMTP_PORT or
      SPP_YEAR_TYPE_IDS does not parse; otherwise the overrides above and
      every other field as the YAML part left it. */
  function ApplyEnv(c: AppConfig, env: Env): (r: Completion<AppConfig>)
    ensures r.Raised? <==>
      (IsSet(env, "SMTP_PORT") && ParseInt(env["SMTP_PORT"]).None?) ||
      (IsSet(env, "SPP_YEAR_TYPE_IDS") && CommaIds(env["SPP_YEAR_TYPE_IDS"]).None?)
    ensures r.Raised? ==> r.exception == ValueError
    ensures r.Returned? ==>
      && r.value.smtp == EnvSmtp(c.smtp, env).value
      && r.value.twilio == EnvTwilio(c.twilio, env)
      && r.value.emailRecipients == EnvList(c.emailRecipients, env, "ALERT_EMAIL_RECIPIENTS")
      && r.value.smsRecipients == EnvList(c.smsRecipients, env, "ALERT_SMS_RECIPIENTS")
      && r.value.yearTypeIds == EnvIds(c.yearTypeIds, env).value
      && r.value.requestDelay == c.requestDelay && r.value.maxRetries == c.maxRetries
      && r.value.storagePath == c.storagePath && r.value.logLevel == c.logLevel
  {
    var smtp := EnvSmtp(c.smtp, env);
    var ids := EnvIds(c.yearTypeIds, env);
    if smtp.None? || ids.None? then Raised(ValueError)
    else
      Returned(c.(
        smtp := smtp.value,
        twilio := EnvTwilio(c.twilio, env),
        emailRecipients := EnvList(c.emailRecipients, env, "ALERT_EMAIL_RECIPIENTS"),
        smsRecipients := EnvList(c.smsRecipients, env, "ALERT_SMS_RECIPIENTS"),
        yearTypeIds := ids.value))
  }

  /** The variables `load_config` consults. */
  const OVERRIDES: set<string> := {
    "SMTP_USERNAME", "SMTP_PASSWORD", "SMTP_FROM_ADDRESS", "SMTP_HOST", "SMTP_PORT",
    "TWILIO_ACCOUNT_SID", "TWILIO_AUTH_TOKEN", "TWILIO_FROM_NUMBER",
    "ALERT_EMAIL_RECIPIENTS", "ALERT_SMS_RECIPIENTS", "SPP_YEAR_TYPE_IDS"}

  /** Without a config file and without any of the variables, the result is
      the dataclass defaults. */
  lemma DefaultsWithoutFile(env: Env)
    requires forall name :: name in OVERRIDES ==> name !in env
    ensures ApplyEnv(FromYaml(None), env) == Returned(DEFAULT_CONFIG)
  {
    assert "SMTP_USERNAME" in OVERRIDES && "SMTP_PASSWORD" in OVERRIDES && "SMTP_FROM_ADDRESS" in OVERRIDES;
    assert "SMTP_HOST" in OVERRIDES && "SMTP_PORT" in OVERRIDES;
    assert "TWILIO_ACCOUNT_SID" in OVERRIDES && "TWILIO_AUTH_TOKEN" in OVERRIDES && "TWILIO_FROM_NUMBER" in OVERRIDES;
    assert "ALERT_EMAIL_RECIPIENTS" in OVERRIDES && "ALERT_SMS_RECIPIENTS" in OVERRIDES && "SPP_YEAR_TYPE_IDS" in OVERRIDES;
  }

  /** A list written out with "," as separator, of stripped, non-empty,
      comma-free entries, is read back as the same list. */
  lemma {:induction false} CommaListRoundTrip(items: seq<string>)
    requires items != []
    requires forall k :: 0 <= k < |items| ==> items[k] != "" && Strip(items[k]) == items[k] && ',' !in items[k]
    ensures CommaList(Join(items, ",")) == items
  {
    SplitJoin(items, ",");
    StrippedPiecesUnchanged(items);
  }

  lemma {:induction false} StrippedPiecesUnchanged(items: seq<string>)
    requires forall k :: 0 <= k < |items| ==> items[k] != "" && Strip(items[k]) == items[k]
    ensures StrippedPieces(items) == items
  {
    if items != [] {
      StrippedPiecesUnchanged(items[1..]);
    }
  }

  /** `str(i)` for each id. */
  function IdStrings(ids: seq<int>): (r: seq<string>)
    ensures |r| == |ids| && forall k :: 0 <= k < |ids| ==> r[k] == IntToString(ids[k])
  {
    seq(|ids|, k requires 0 <= k < |ids| => IntToString(ids[k]))
  }

  /** Ids written out as "1,2,3" are read back unchanged. */
  lemma CommaIdsRoundTrip(ids: seq<int>)
    requires ids != []
    ensures CommaIds(Join(IdStrings(ids), ",")) == Some(ids)
  {
    var strs := IdStrings(ids);
    forall k | 0 <= k < |strs|
      ensures strs[k] != "" && Strip(strs[k]) == strs[k] && ',' !in strs[k]
    {
      StripUnchanged(strs[k]);
      ParseIntToString(ids[k]);
    }
    SplitJoin(strs, ",");
    StrippedPiecesUnchanged(strs);
    var r := ParseAll(strs, ParseInt);
    forall k | 0 <= k < |ids|
      ensures ParseInt(strs[k]) == Some(ids[k])
    {
      ParseIntToString(ids[k]);
    }
    assert r.Some?;
    assert r.value == ids;
  }

  /** The YAML part of `load_config`: every key the file gives, one
      assignment after another. */
  method ReadYaml(file: Option<YamlDoc>) returns (config: AppConfig)
    ensures config == FromYaml(file)
  {
    config := DEFAULT_CONFIG;
    if file.Some? {
      var data := file.value;
      config := config.(yearTypeIds := data.monitor.yearTypeIds.GetOr([]));
      config := config.(requestDelay := data.monitor.requestDelay.GetOr(2.0));
      config := config.(maxRetries := data.monitor.maxRetries.GetOr(3));
      config := config.(emailRecipients := data.notifications.emailRecipients.GetOr([]));
      config := config.(smsRecipients := data.notifications.smsRecipients.GetOr([]));
      config := config.(smtp := config.smtp.(host := data.smtp.host.GetOr("smtp.gmail.com")));
      config := config.(smtp := config.smtp.(port := data.smtp.port.GetOr(587)));
      config := config.(smtp := config.smtp.(username := data.smtp.username.GetOr("")));
      config := config.(smtp := config.smtp.(password := data.smtp.password.GetOr("")));
      config := config.(smtp := config.smtp.(fromAddress := data.smtp.fromAddress.GetOr("")));
      config := config.(smtp := config.smtp.(useTls := data.smtp.useTls.GetOr(true)));
      config := config.(twilio := config.twilio.(accountSid := data.twilio.accountSid.GetOr("")));
      config := config.(twilio := config.twilio.(authToken := data.twilio.authToken.GetOr("")));
      config := config.(twilio := config.twilio.(fromNumber := data.twilio.fromNumber.GetOr("")));
      config := config.(storagePath := data.storagePath.GetOr("data/seen_studies.json"));
      config := config.(logLevel := data.logLevel.GetOr("INFO"));
    }
  }

  /** The SMTP overrides of `load_config`, in source order. */
  method OverrideSmtp(smtp0: SmtpConfig, env: Env) returns (r: Option<SmtpConfig>)
    ensures r == EnvSmtp(smtp0, env)
  {
    var smtp := smtp0;
    smtp := smtp.(username := EnvOverride(smtp.username, env, "SMTP_USERNAME"));
    smtp := smtp.(password := EnvOverride(smtp.password, env, "SMTP_PASSWORD"));
    smtp := smtp.(fromAddress := EnvOverride(smtp.fromAddress, env, "SMTP_FROM_ADDRESS"));
    var host := EnvOverride(smtp.host, env, "SMTP_HOST");
    if host == "" {
      host := smtp.host;
    }
    smtp := smtp.(host := host);
    if IsSet(env, "SMTP_PORT") {
      var port := ParseInt(env["SMTP_PORT"]);
      if port.None? {
        return None;
      }
      smtp := smtp.(port := port.value);
    }
    r := Some(smtp);
  }

  /** `load_config`: the defaults, then the YAML values, then each
      environment override in turn. */
  method LoadConfig(file: Option<YamlDoc>, env: Env) returns (r: Completion<AppConfig>)
    ensures r == ApplyEnv(FromYaml(file), env)
  {
    var config := ReadYaml(file);
    var smtp := OverrideSmtp(config.smtp, env);
    if smtp.None? {
      return Raised(ValueError);
    }
    config := config.(smtp := smtp.value);
    config := config.(twilio := config.twilio.(accountSid := EnvOverride(config.twilio.accountSid, env, "TWILIO_ACCOUNT_SID")));
    config := config.(twilio := config.twilio.(authToken := EnvOverride(config.twilio.authToken, env, "TWILIO_AUTH_TOKEN")));
    config := config.(twilio := config.twilio.(fromNumber := EnvOverride(config.twilio.fromNumber, env, "TWILIO_FROM_NUMBER")));
    if IsSet(env, "ALERT_EMAIL_RECIPIENTS") {
      config := config.(emailRecipients := CommaList(env["ALERT_EMAIL_RECIPIENTS"]));
    }
    if IsSet(env, "ALERT_SMS_RECIPIENTS") {
      config := config.(smsRecipients := CommaList(env["ALERT_SMS_RECIPIENTS"]));
    }
    if IsSet(env, "SPP_YEAR_TYPE_IDS") {
      var ids := CommaIds(env["SPP_YEAR_TYPE_IDS"]);
      if ids.None? {
        return Raised(ValueError);
      }
      config := config.(yearTypeIds := ids.value);
    }
    r := Returned(config);
  }
}
