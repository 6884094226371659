/** notifier.py: the plain-text and HTML alert bodies, the e-mail notifier's
    guards and outcome, and the SMS notifier's body, truncation, lazy client
    and per-number loop. SMTP and the carrier API are not modelled: each
    delivery attempt's outcome is an input. */
module Notifier {
  import opened Wrappers
  import opened Text
  import opened Dicts
  import opened Studies

  const PORTAL_URL: string := "https://opsportal.spp.org/Studies/Gen"

  // ---------------------------------------------------------------------
  // Detail filtering, shared by the text and HTML bodies

  /** A detail entry is shown when its key is not a "_url" companion and its
      value is not empty. */
  predicate Shown(entry: (string, string)) {
    !EndsWith(entry.0, "_url") && entry.1 != ""
  }

  /** The elements of xs that keep accepts, in their order. */
  function Filter<T>(xs: seq<T>, keep: T -> bool): seq<T> {
    if xs == [] then []
    else Filter(xs[..|xs| - 1], keep) + (if keep(xs[|xs| - 1]) then [xs[|xs| - 1]] else [])
  }

  lemma {:induction false} FilterMembers<T>(xs: seq<T>, keep: T -> bool)
    ensures |Filter(xs, keep)| <= |xs|
    ensures forall x :: x in Filter(xs, keep) <==> x in xs && keep(x)
  {
    if xs != [] {
      var n := |xs| - 1;
      FilterMembers(xs[..n], keep);
      assert xs == xs[..n] + [xs[n]];
    }
  }

  lemma {:induction false} FilterAppend<T>(a: seq<T>, b: seq<T>, keep: T -> bool)
    ensures Filter(a + b, keep) == Filter(a, keep) + Filter(b, keep)
    decreases |b|
  {
    if b == [] {
      assert a + b == a;
    } else {
      var n := |b| - 1;
      assert (a + b)[..|a| + n] == a + b[..n];
      FilterAppend(a, b[..n], keep);
    }
  }

  /** The details that are shown, in their order. */
  function ShownDetails(details: Dict<string, string>): (r: Dict<string, string>)
    ensures |r| <= |details|
    ensures forall e :: e in r <==> e in details && Shown(e)
  {
    FilterMembers(details, Shown);
    assert forall e :: e in Filter(details, Shown) <==> e in details && Shown(e) by {
      forall e
        ensures e in Filter(details, Shown) <==> e in details && Shown(e)
      {
        var keep: ((string, string)) -> bool := Shown;
        assert keep(e) == Shown(e);
      }
    }
    Filter(details, Shown)
  }

  /** The filter keeps dictionary order: it distributes over concatenation. */
  lemma ShownDetailsAppend(a: Dict<string, string>, b: Dict<string, string>)
    ensures ShownDetails(a + b) == ShownDetails(a) + ShownDetails(b)
  {
    FilterAppend(a, b, Shown);
  }

  /** A single entry is kept exactly when it is shown. */
  lemma ShownDetailsOne(e: (string, string))
    ensures ShownDetails([e]) == if Shown(e) then [e] else []
  {
    var keep: ((string, string)) -> bool := Shown;
    assert [e][..0] == [];
    assert Filter([e], keep) == Filter([], keep) + (if keep(e) then [e] else []);
    assert keep(e) == Shown(e);
  }

  // ---------------------------------------------------------------------
  // _build_study_summary

  function DetailLine(entry: (string, string)): string {
    "   " + entry.0 + ": " + entry.1
  }

  /** One line per shown detail, in order. */
  function DetailLines(details: Dict<string, string>): (r: seq<string>)
    ensures |r| == |ShownDetails(details)|
    ensures forall k :: 0 <= k < |r| ==> r[k] == DetailLine(ShownDetails(details)[k])
  {
    var shown := ShownDetails(details);
    seq(|shown|, k requires 0 <= k < |shown| => DetailLine(shown[k]))
  }

  function Header(n: nat): string {
    "Found " + NatToString(n) + " new SPP Impact Study posting(s):\n"
  }

  /** The lines for the study numbered i. */
  function StudyBlock(i: nat, s: Study): seq<string> {
    [NatToString(i) + ". " + s.name, "   Category: " + s.yearTypeLabel, "   Link: " + s.url]
    + DetailLines(s.details) + [""]
  }

  /** The blocks of a list, numbered from first on. */
  function Numbered<T>(xs: seq<T>, first: nat, block: (nat, T) -> seq<string>): seq<string> {
    if xs == [] then []
    else
      var n := |xs| - 1;
      Numbered(xs[..n], first, block) + block(first + n, xs[n])
  }

  /** Numbering follows list order: the blocks of a + b are those of a, then
      those of b numbered on from where a stopped. */
  lemma {:induction false} NumberedAppend<T>(a: seq<T>, b: seq<T>, first: nat, block: (nat, T) -> seq<string>)
    ensures Numbered(a + b, first, block) == Numbered(a, first, block) + Numbered(b, first + |a|, block)
    decreases |b|
  {
    if b == [] {
      assert a + b == a;
    } else {
      var n := |b| - 1;
      assert (a + b)[..|a| + n] == a + b[..n];
      assert (a + b)[|a| + n] == b[n];
      NumberedAppend(a, b[..n], first, block);
    }
  }

  /** The study blocks, numbered from first on. */
  function Blocks(studies: seq<Study>, first: nat): seq<string> {
    Numbered(studies, first, StudyBlock)
  }

  const FOOTER: seq<string> := ["---", "SPP OpsPortal: " + PORTAL_URL]

  function SummaryLines(studies: seq<Study>): seq<string> {
    [Header(|studies|)] + Blocks(studies, 1) + FOOTER
  }

  /** The text `_build_study_summary` returns. */
  function Summary(studies: seq<Study>): string {
    Join(SummaryLines(studies), "\n")
  }

  /** Study j (from 0) is the block numbered j + 1, between the blocks of
      the studies before and after it. */
  lemma StudyNumbered(studies: seq<Study>, j: int)
    requires 0 <= j < |studies|
    ensures Blocks(studies, 1) ==
      Blocks(studies[..j], 1) + StudyBlock(j + 1, studies[j]) + Blocks(studies[j + 1..], j + 2)
  {
    assert studies == studies[..j] + [studies[j]] + studies[j + 1..];
    NumberedAppend(studies[..j] + [studies[j]], studies[j + 1..], 1, StudyBlock);
    NumberedAppend(studies[..j], [studies[j]], 1, StudyBlock);
    assert Numbered([studies[j]], 1 + j, StudyBlock) == StudyBlock(j + 1, studies[j]) by {
      assert [studies[j]][..0] == [];
    }
  }

  /** Joining a head line, some middle lines and two closing lines. */
  lemma JoinFrame(head: string, middle: seq<string>, x: string, y: string, sep: string)
    ensures head <= Join([head] + middle + [x, y], sep)
    ensures EndsWith(Join([head] + middle + [x, y], sep), sep + x + sep + y)
  {
    var body := [head] + middle;
    assert [head] + middle + [x, y] == body + [x] + [y];
    JoinStartsWith(body + [x] + [y], sep);
    JoinAppend(body, x, sep);
    JoinAppend(body + [x], y, sep);
    var s := Join(body, sep) + sep + x + sep + y;
    var t := sep + x + sep + y;
    assert s == Join(body, sep) + t;
    assert s[|s| - |t|..] == t;
  }

  /** The summary opens with the count line and closes with the "---" line
      and the portal line. */
  lemma SummaryFrame(studies: seq<Study>)
    ensures Header(|studies|) <= Summary(studies)
    ensures EndsWith(Summary(studies), "\n---\nSPP OpsPortal: " + PORTAL_URL)
  {
    var lines := SummaryLines(studies);
    assert lines == [Header(|studies|)] + Blocks(studies, 1) + [FOOTER[0], FOOTER[1]];
    JoinFrame(Header(|studies|), Blocks(studies, 1), FOOTER[0], FOOTER[1], "\n");
    FooterText();
  }

  lemma FooterText()
    ensures "\n" + FOOTER[0] + "\n" + FOOTER[1] == "\n---\nSPP OpsPortal: " + PORTAL_URL
  {
  }

  /** The inner loop of `_build_study_summary`: one line per detail that
      is shown, in order. */
  method DetailLinesOf(details: Dict<string, string>) returns (lines: seq<string>)
    ensures lines == DetailLines(details)
  {
    lines := [];
    for j := 0 to |details|
      invariant lines == DetailLines(details[..j])
    {
      assert details[..j + 1][..j] == details[..j];
      if Shown(details[j]) {
        lines := lines + [DetailLine(details[j])];
      }
    }
    assert details[..|details|] == details;
  }

  /** `_build_study_summary`: the loops that fill `lines`, then the join. */
  method BuildStudySummary(studies: seq<Study>) returns (text: string)
    ensures text == Summary(studies)
  {
    var lines := [Header(|studies|)];
    for i := 0 to |studies|
      invariant lines == [Header(|studies|)] + Blocks(studies[..i], 1)
    {
      assert studies[..i + 1][..i] == studies[..i];
      var study := studies[i];
      var details := DetailLinesOf(study.details);
      var block := [NatToString(i + 1) + ". " + study.name, "   Category: " + study.yearTypeLabel, "   Link: " + study.url]
        + details + [""];
      assert block == StudyBlock(i + 1, study);
      assert Blocks(studies[..i + 1], 1) == Blocks(studies[..i], 1) + block;
      lines := lines + block;
    }
    assert studies[..|studies|] == studies;
    lines := lines + FOOTER;
    text := Join(lines, "\n");
  }

  // ---------------------------------------------------------------------
  // _build_study_html (markup reduced to its structure)

  function DetailCell(entry: (string, string)): string {
    "<br><small><b>" + entry.0 + ":</b> " + entry.1 + "</small>"
  }

  /** `detail_cells`: one fragment per shown detail, in order. */
  function DetailCells(details: Dict<string, string>): string {
    var shown := ShownDetails(details);
    Concat(seq(|shown|, k requires 0 <= k < |shown| => DetailCell(shown[k])))
  }

  /** The table row of one study: a link with its name, its category, and a
      "View" link followed by its shown details. */
  function HtmlRow(s: Study): string {
    "<tr><td><a href=\"" + s.url + "\">" + s.name + "</a></td><td>" + s.yearTypeLabel
    + "</td><td><a href=\"" + s.url + "\">View</a>" + DetailCells(s.details) + "</td></tr>"
  }

  /** `rows`: one per study, in order. */
  function HtmlRows(studies: seq<Study>): (r: seq<string>)
    ensures |r| == |studies| && forall i :: 0 <= i < |studies| ==> r[i] == HtmlRow(studies[i])
  {
    seq(|studies|, i requires 0 <= i < |studies| => HtmlRow(studies[i]))
  }

  /** The page `_build_study_html` returns. */
  function HtmlPage(studies: seq<Study>): string {
    PageFrame(|studies|, Concat(HtmlRows(studies)))
  }

  /** The page around the joined rows. */
  function PageFrame(count: nat, rows: string): string {
    "<html><body><h2>New SPP Impact Studies Available</h2><p>" + NatToString(count)
    + " new study posting(s) detected on the <a href=\"" + PORTAL_URL + "\">SPP OpsPortal</a>.</p>"
    + "<table><tr><th>Study Name</th><th>Category</th><th>Details</th></tr>"
    + rows
    + "</table><p>This alert was sent by the SPP Impact Study Monitor.<br>Visit <a href=\""
    + PORTAL_URL + "\">SPP OpsPortal</a> for full details.</p></body></html>"
  }

  /** `_build_study_html`: `detail_cells` and `rows` accumulated in loops,
      then the rows joined inside the page. */
  method BuildStudyHtml(studies: seq<Study>) returns (html: string)
    ensures html == HtmlPage(studies)
  {
    var rows: seq<string> := [];
    for i := 0 to |studies|
      invariant rows == HtmlRows(studies[..i])
    {
      var study := studies[i];
      var shown := ShownDetails(study.details);
      ghost var cells := seq(|shown|, k requires 0 <= k < |shown| => DetailCell(shown[k]));
      var detailCells := "";
      for j := 0 to |shown|
        invariant detailCells == Concat(cells[..j])
      {
        assert cells[..j + 1][..j] == cells[..j];
        detailCells := detailCells + DetailCell(shown[j]);
      }
      assert cells[..|shown|] == cells;
      assert detailCells == DetailCells(study.details);
      var row := "<tr><td><a href=\"" + study.url + "\">" + study.name + "</a></td><td>" + study.yearTypeLabel
        + "</td><td><a href=\"" + study.url + "\">View</a>" + detailCells + "</td></tr>";
      assert HtmlRows(studies[..i + 1]) == HtmlRows(studies[..i]) + [row];
      rows := rows + [row];
    }
    assert studies[..|studies|] == studies;
    html := PageFrame(|studies|, Concat(rows));
  }

  // ---------------------------------------------------------------------
  // EmailNotifier

  /** The message `EmailNotifier.send` builds. */
  datatype EmailMessage = EmailMessage(subject: string, sender: string, to: string, text: string, html: string)

  /** How the SMTP exchange for one message ends: delivered, an
      `smtplib.SMTPException` (refused login, rejected recipients, ...), or a
      socket-level `OSError` (connection refused, DNS failure, TLS error). */
  datatype SmtpOutcome = Delivered | SmtpError | SocketError

  datatype EmailNotifier = EmailNotifier(
    smtpHost: string, smtpPort: int, username: string, password: string, fromAddress: string, useTls: bool)
  {
    function Message(recipients: seq<string>, studies: seq<Study>): (m: EmailMessage)
      ensures Contains(m.subject, NatToString(|studies|))
    {
      ContainsMiddle("[SPP Alert] ", NatToString(|studies|), " New Impact Study Posting(s)");
      EmailMessage("[SPP Alert] " + NatToString(|studies|) + " New Impact Study Posting(s)",
        fromAddress, Join(recipients, ", "), Summary(studies), HtmlPage(studies))
    }

    /** `send` as written: only `SMTPException` is caught, so a socket error
        escapes to the caller. */
    function SendAsWritten(recipients: seq<string>, studies: seq<Study>, smtp: SmtpOutcome): Completion<bool> {
      if recipients == [] then Returned(false)
      else if studies == [] then Returned(true)
      else
        match smtp
        case Delivered => Returned(true)
        case SmtpError => Returned(false)
        case SocketError => Raised(OSError)
    }

    /** `send` as its contract reads: every delivery failure is a False return. */
    function Send(recipients: seq<string>, studies: seq<Study>, smtp: SmtpOutcome): (r: Completion<bool>)
      ensures r.Returned?
      ensures r.value <==> recipients != [] && (studies == [] || smtp == Delivered)
    {
      if recipients == [] then Returned(false)
      else if studies == [] then Returned(true)
      else
        match smtp
        case Delivered => Returned(true)
        case SmtpError | SocketError => Returned(false)
    }

    /** A refused connection raises out of `send`, though `send` promises a
        boolean. */
    lemma SocketErrorEscapes(recipients: seq<string>, studies: seq<Study>)
      requires recipients != [] && studies != []
      ensures SendAsWritten(recipients, studies, SocketError) == Raised(OSError)
      ensures Send(recipients, studies, SocketError) == Returned(false)
    {
    }

    /** Where the written code returns, the corrected one returns the same. */
    lemma SendAgreesWhenNoSocketError(recipients: seq<string>, studies: seq<Study>, smtp: SmtpOutcome)
      ensures SendAsWritten(recipients, studies, smtp).Returned? ==>
        SendAsWritten(recipients, studies, smtp) == Send(recipients, studies, smtp)
      ensures SendAsWritten(recipients, studies, smtp).Raised? <==>
        recipients != [] && studies != [] && smtp == SocketError
    {
    }
  }

  // ---------------------------------------------------------------------
  // SMSNotifier

  const SMS_LIMIT: nat := 1600

  function StudyNames(studies: seq<Study>): (r: seq<string>)
    ensures |r| == |studies| && forall i :: 0 <= i < |studies| ==> r[i] == studies[i].name
  {
    seq(|studies|, i requires 0 <= i < |studies| => studies[i].name)
  }

  function Min(a: int, b: int): int {
    if a < b then a else b
  }

  /** " (+k more)" when more than three studies are left unnamed; else nothing. */
  function MoreSuffix(n: nat): string {
    if n > 3 then " (+" + NatToString(n - 3) + " more)" else ""
  }

  /** The body for a single study: its name, category and link. */
  function OneStudySms(s: Study): string {
    "SPP Alert: New impact study posted - " + s.name + ". Category: " + s.yearTypeLabel + ". View: " + s.url
  }

  /** The body for n studies, naming the given ones. */
  function SeveralStudiesSms(n: nat, names: seq<string>): string {
    "SPP Alert: " + NatToString(n) + " new impact studies posted: " + Join(names, ", ") + MoreSuffix(n)
    + ". View all: " + PORTAL_URL
  }

  /** The message body before truncation: the single-study form, or the
      count and the first three names. */
  function SmsBody(studies: seq<Study>): string
    requires studies != []
  {
    if |studies| == 1 then OneStudySms(studies[0])
    else SeveralStudiesSms(|studies|, StudyNames(studies[..Min(|studies|, 3)]))
  }

  /** The 1600-character cap, with "..." marking a cut. */
  function Truncate(body: string): (r: string)
    ensures |r| <= SMS_LIMIT
    ensures |body| <= SMS_LIMIT ==> r == body
    ensures |body| > SMS_LIMIT ==> |r| == SMS_LIMIT && r[..SMS_LIMIT - 3] <= body && EndsWith(r, "...")
  {
    if |body| > SMS_LIMIT then body[..SMS_LIMIT - 3] + "..." else body
  }

  /** The text every recipient receives. */
  function SmsText(studies: seq<Study>): string
    requires studies != []
  {
    Truncate(SmsBody(studies))
  }

  /** A one-study message names the study, its category and its url. */
  lemma SingleStudySms(s: Study)
    ensures Contains(SmsBody([s]), s.name)
    ensures Contains(SmsBody([s]), s.yearTypeLabel)
    ensures Contains(SmsBody([s]), s.url)
  {
    var p1 := "SPP Alert: New impact study posted - " + s.name;
    var p2 := p1 + ". Category: " + s.yearTypeLabel;
    var p3 := p2 + ". View: " + s.url;
    assert SmsBody([s]) == p3;
    ContainsEnd("SPP Alert: New impact study posted - ", s.name);
    ContainsExtend(p1, ". Category: ", s.name);
    ContainsExtend(p1 + ". Category: ", s.yearTypeLabel, s.name);
    ContainsExtend(p2, ". View: ", s.name);
    ContainsExtend(p2 + ". View: ", s.url, s.name);
    ContainsEnd(p1 + ". Category: ", s.yearTypeLabel);
    ContainsExtend(p2, ". View: ", s.yearTypeLabel);
    ContainsExtend(p2 + ". View: ", s.url, s.yearTypeLabel);
    ContainsEnd(p2 + ". View: ", s.url);
  }

  /** A message for n > 1 studies states n, lists the first min(n, 3) names
      joined by ", ", and ends the list with " (+k more)" exactly when
      k = n - 3 studies are left unnamed. */
  lemma SeveralStudiesSmsContent(studies: seq<Study>)
    requires |studies| > 1
    ensures Contains(SmsBody(studies), NatToString(|studies|))
    ensures Contains(SmsBody(studies), Join(StudyNames(studies[..Min(|studies|, 3)]), ", "))
    ensures |StudyNames(studies[..Min(|studies|, 3)])| == Min(|studies|, 3)
    ensures MoreSuffix(|studies|) != "" <==> |studies| > 3
    ensures |studies| > 3 ==> Contains(SmsBody(studies), " (+" + NatToString(|studies| - 3) + " more)")
    ensures |studies| <= 3 ==>
      SmsBody(studies) == "SPP Alert: " + NatToString(|studies|) + " new impact studies posted: "
        + Join(StudyNames(studies), ", ") + ". View all: " + PORTAL_URL
  {
    CountAndNamesInSms(studies);
    if |studies| > 3 {
      MoreInSms(studies);
    } else {
      FewStudiesSms(studies);
    }
  }

  /** The count and the joined names appear in a several-study body. */
  lemma CountAndNamesInSms(studies: seq<Study>)
    requires |studies| > 1
    ensures Contains(SmsBody(studies), NatToString(|studies|))
    ensures Contains(SmsBody(studies), Join(StudyNames(studies[..Min(|studies|, 3)]), ", "))
  {
    var n := |studies|;
    var names := Join(StudyNames(studies[..Min(n, 3)]), ", ");
    var p1 := "SPP Alert: " + NatToString(n);
    var p2 := p1 + " new impact studies posted: " + names;
    var p3 := p2 + MoreSuffix(n) + ". View all: ";
    assert SmsBody(studies) == p3 + PORTAL_URL;
    ContainsEnd("SPP Alert: ", NatToString(n));
    ContainsExtend(p1, " new impact studies posted: ", NatToString(n));
    ContainsExtend(p1 + " new impact studies posted: ", names, NatToString(n));
    ContainsExtend(p2, MoreSuffix(n), NatToString(n));
    ContainsExtend(p2 + MoreSuffix(n), ". View all: ", NatToString(n));
    ContainsExtend(p3, PORTAL_URL, NatToString(n));
    ContainsEnd(p1 + " new impact studies posted: ", names);
    ContainsExtend(p2, MoreSuffix(n), names);
    ContainsExtend(p2 + MoreSuffix(n), ". View all: ", names);
    ContainsExtend(p3, PORTAL_URL, names);
  }

  /** With more than three studies the body carries " (+k more)", k being
      the number of studies left unnamed. */
  lemma MoreInSms(studies: seq<Study>)
    requires |studies| > 3
    ensures Contains(SmsBody(studies), " (+" + NatToString(|studies| - 3) + " more)")
  {
    var n := |studies|;
    var p := "SPP Alert: " + NatToString(n) + " new impact studies posted: " + Join(StudyNames(studies[..3]), ", ");
    assert SmsBody(studies) == p + MoreSuffix(n) + ". View all: " + PORTAL_URL;
    ContainsEnd(p, MoreSuffix(n));
    ContainsExtend(p + MoreSuffix(n), ". View all: ", MoreSuffix(n));
    ContainsExtend(p + MoreSuffix(n) + ". View all: ", PORTAL_URL, MoreSuffix(n));
  }

  lemma MoreSuffixFive()
    ensures MoreSuffix(5) == " (+2 more)"
  {
    assert NatToString(2) == "2";
  }

  /** Five studies: three names and "(+2 more)". */
  lemma FiveStudiesSms(studies: seq<Study>)
    requires |studies| == 5
    ensures StudyNames(studies[..Min(|studies|, 3)]) == [studies[0].name, studies[1].name, studies[2].name]
    ensures Contains(SmsBody(studies), " (+2 more)")
  {
    var p := "SPP Alert: " + NatToString(5) + " new impact studies posted: "
      + Join(StudyNames(studies[..3]), ", ");
    assert SmsBody(studies) == p + MoreSuffix(5) + ". View all: " + PORTAL_URL;
    ContainsEnd(p, MoreSuffix(5));
    ContainsExtend(p + MoreSuffix(5), ". View all: ", MoreSuffix(5));
    ContainsExtend(p + MoreSuffix(5) + ". View all: ", PORTAL_URL, MoreSuffix(5));
    MoreSuffixFive();
  }

  /** Up to three studies are all named, with no "more" suffix. */
  lemma FewStudiesSms(studies: seq<Study>)
    requires 1 < |studies| <= 3
    ensures SmsBody(studies) == SeveralStudiesSms(|studies|, StudyNames(studies))
    ensures MoreSuffix(|studies|) == ""
    ensures SmsBody(studies) ==
      "SPP Alert: " + NatToString(|studies|) + " new impact studies posted: " + Join(StudyNames(studies), ", ")
      + ". View all: " + PORTAL_URL
  {
    assert studies[..Min(|studies|, 3)] == studies;
  }

  /** The Twilio REST client a notifier creates on first use. */
  datatype SmsClient = SmsClient(accountSid: string, authToken: string)

  /** One `client.messages.create` call. */
  datatype SmsMessage = SmsMessage(body: string, sender: string, to: string)

  /** What `SMSNotifier.send` returns: False without numbers, True without
      studies, ImportError when the client cannot be created, and otherwise
      whether every number's message went out. */
  function SmsOutcome(numbers: seq<string>, studies: seq<Study>, clientAvailable: bool, delivered: nat -> bool): Completion<bool> {
    if numbers == [] then Returned(false)
    else if studies == [] then Returned(true)
    else if !clientAvailable then Raised(ImportError)
    else Returned(forall k :: 0 <= k < |numbers| ==> delivered(k))
  }

  /** `SMSNotifier` with its lazily created client. */
  class SmsNotifier {
    const accountSid: string
    const authToken: string
    const fromNumber: string
    var client: Option<SmsClient>

    constructor(accountSid: string, authToken: string, fromNumber: string)
      ensures this.accountSid == accountSid && this.authToken == authToken && this.fromNumber == fromNumber
      ensures client.None?
    {
      this.accountSid := accountSid;
      this.authToken := authToken;
      this.fromNumber := fromNumber;
      client := None;
    }

    /** `_get_client`: create the client once; without the twilio package the
        ImportError is logged and raised again. */
    method GetClient(twilioInstalled: bool) returns (r: Completion<SmsClient>)
      modifies this
      ensures old(client).Some? ==> r == Returned(old(client).value) && client == old(client)
      ensures old(client).None? && twilioInstalled ==>
        r == Returned(SmsClient(accountSid, authToken)) && client == Some(r.value)
      ensures old(client).None? && !twilioInstalled ==> r == Raised(ImportError) && client.None?
    {
      if client.None? {
        if !twilioInstalled {
          return Raised(ImportError);
        }
        client := Some(SmsClient(accountSid, authToken));
      }
      return Returned(client.value);
    }

    /** `send`: one message per number, every number tried even after a
        failure; delivered(k) is whether the k-th message went out. */
    method Send(numbers: seq<string>, studies: seq<Study>, twilioInstalled: bool, delivered: nat -> bool)
      returns (r: Completion<bool>, ghost sent: seq<SmsMessage>)
      modifies this
      ensures r == SmsOutcome(numbers, studies, old(client).Some? || twilioInstalled, delivered)
      ensures r.Returned? && numbers != [] && studies != [] ==>
        |sent| == |numbers| &&
        forall k :: 0 <= k < |numbers| ==> sent[k] == SmsMessage(SmsText(studies), fromNumber, numbers[k])
      ensures old(client).None? && twilioInstalled && numbers != [] && studies != [] ==> client.Some?
      ensures client == if old(client).None? && twilioInstalled && numbers != [] && studies != []
        then Some(SmsClient(accountSid, authToken)) else old(client)
    {
      sent := [];
      if numbers == [] {
        return Returned(false), sent;
      }
      if studies == [] {
        return Returned(true), sent;
      }
      var body := SmsBody(studies);
      if |body| > SMS_LIMIT {
        body := body[..SMS_LIMIT - 3] + "...";
      }
      assert body == SmsText(studies);
      var c := GetClient(twilioInstalled);
      if c.Raised? {
        return Raised(c.exception), sent;
      }
      var allSent := true;
      for k := 0 to |numbers|
        invariant allSent <==> forall j :: 0 <= j < k ==> delivered(j)
        invariant |sent| == k && forall j :: 0 <= j < k ==> sent[j] == SmsMessage(body, fromNumber, numbers[j])
      {
        sent := sent + [SmsMessage(body, fromNumber, numbers[k])];
        if !delivered(k) {
          allSent := false;
        }
      }
      r := Returned(allSent);
    }
  }
}
