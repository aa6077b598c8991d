/** app/email_service.py: `EmailService.send_bulk`, which sends one message
    per recipient over one SMTP session and sorts the recipients into a
    success list and a failure list. The SMTP session, `str.format` and the
    sends are outcomes passed in. */
module Email {
  import opened Common

  /** One recipient dictionary; only its "email" entry is read by the loop. */
  datatype Recipient = Recipient(email: Option<string>, name: Option<string>)

  /** A result entry: `{"email", "status"}` plus "error" for failures. */
  datatype Entry = Entry(email: Option<string>, status: string, error: Option<string>)

  /** A message as `send_message` receives it. */
  datatype Message = Message(from: string, to: string, subject: string, body: string, html: bool)

  /** What `body_template.format(**recipient)` did. */
  datatype FormatOutcome = Formatted(text: string) | MissingKey | FormatFailed(message: string)

  /** How the SMTP session went: the connection, STARTTLS or login raised, or
      the session was opened and `close` says whether leaving it raised. */
  datatype Session = ConnectFailed(message: string) | Connected(closeError: Option<string>)

  /** The outcomes of the foreign calls of one `send_bulk` call. */
  datatype Outside = Outside(
    session: Session,
    format: (string, Recipient) -> FormatOutcome,
    send: (nat, Message) -> Option<string>)

  function Sent(email: string): Entry {
    Entry(Some(email), "sent", None)
  }

  function Failed(email: Option<string>, error: string): Entry {
    Entry(email, "failed", Some(error))
  }

  /** The body for one recipient: the formatted template, the raw template
      when a key is missing, or the formatting error. */
  function BodyFor(template: string, r: Recipient, format: (string, Recipient) -> FormatOutcome): Result<string, string> {
    match format(template, r)
    case Formatted(t) => Ok(t)
    case MissingKey => Ok(template)
    case FormatFailed(m) => Err(m)
  }

  /** The two lists after the loop body ran for recipient `i`. */
  function Step(acc: (seq<Entry>, seq<Entry>), i: nat, r: Recipient, sender: string, subject: string,
                template: string, html: bool, out: Outside): (seq<Entry>, seq<Entry>)
  {
    if !Truthy(r.email) then acc
    else
      var email := r.email.value;
      match BodyFor(template, r, out.format)
      case Err(m) => (acc.0, acc.1 + [Failed(Some(email), m)])
      case Ok(body) =>
        match out.send(i, Message(sender, email, subject, body, html))
        case None => (acc.0 + [Sent(email)], acc.1)
        case Some(m) => (acc.0, acc.1 + [Failed(Some(email), m)])
  }

  /** The two lists after the loop has handled the first `k` recipients. */
  function Run(rs: seq<Recipient>, k: nat, sender: string, subject: string, template: string,
               html: bool, out: Outside): (seq<Entry>, seq<Entry>)
    requires k <= |rs|
  {
    if k == 0 then ([], [])
    else Step(Run(rs, k - 1, sender, subject, template, html, out), k - 1, rs[k - 1],
              sender, subject, template, html, out)
  }

  /** One "Connection Error" entry per recipient, email or not. */
  function ConnectionErrors(rs: seq<Recipient>, message: string): (r: seq<Entry>)
    ensures |r| == |rs|
    ensures forall i :: 0 <= i < |rs| ==> r[i] == Failed(rs[i].email, "Connection Error: " + message)
  {
    seq(|rs|, i requires 0 <= i < |rs| => Failed(rs[i].email, "Connection Error: " + message))
  }

  /** Number of recipients with a non-empty email. */
  function WithEmail(rs: seq<Recipient>): nat {
    if rs == [] then 0 else WithEmail(rs[..|rs| - 1]) + (if Truthy(rs[|rs| - 1].email) then 1 else 0)
  }

  /** The two lists `send_bulk` returns. */
  function BulkResult(rs: seq<Recipient>, sender: string, subject: string, template: string,
                      html: bool, out: Outside): (seq<Entry>, seq<Entry>)
  {
    if rs == [] then ([], [])
    else match out.session
      case ConnectFailed(m) => ([], ConnectionErrors(rs, m))
      case Connected(None) => Run(rs, |rs|, sender, subject, template, html, out)
      case Connected(Some(m)) =>
        var run := Run(rs, |rs|, sender, subject, template, html, out);
        (run.0, run.1 + ConnectionErrors(rs, m))
  }

  class EmailService {
    var senderEmail: string
    var appPassword: string
    const smtpServer: string
    const smtpPort: nat

    constructor(sender: string, password: string)
      ensures senderEmail == sender && appPassword == password
      ensures smtpServer == "smtp.gmail.com" && smtpPort == 587
    {
      senderEmail := sender;
      appPassword := password;
      smtpServer := "smtp.gmail.com";
      smtpPort := 587;
    }

    /** `send_bulk`. No recipients: nothing happens. A failed connection or
        login: every recipient is a connection failure. Otherwise the loop's
        lists, followed, when closing the session raised, by a connection
        failure for every recipient. */
    method SendBulk(rs: seq<Recipient>, subject: string, template: string, html: bool, out: Outside)
      returns (success: seq<Entry>, failed: seq<Entry>)
      ensures rs == [] ==> success == [] && failed == []
      ensures rs != [] && out.session.ConnectFailed? ==>
                success == [] && failed == ConnectionErrors(rs, out.session.message)
      ensures rs != [] && out.session.Connected? ==>
                var run := Run(rs, |rs|, senderEmail, subject, template, html, out);
                && success == run.0
                && (out.session.closeError.None? ==> failed == run.1)
                && (out.session.closeError.Some? ==>
                      failed == run.1 + ConnectionErrors(rs, out.session.closeError.value))
      ensures (success, failed) == BulkResult(rs, senderEmail, subject, template, html, out)
    {
      success, failed := [], [];
      if rs == [] {
        return;
      }
      if out.session.ConnectFailed? {
        failed := ConnectionErrors(rs, out.session.message);
        return;
      }
      var i := 0;
      while i < |rs|
        invariant 0 <= i <= |rs|
        invariant (success, failed) == Run(rs, i, senderEmail, subject, template, html, out)
      {
        var r := rs[i];
        ghost var before := (success, failed);
        if Truthy(r.email) {
          var email := r.email.value;
          var body: string;
          var formatError: Option<string> := None;
          match out.format(template, r) {
            case Formatted(t) => body := t;
            case MissingKey => body := template;
            case FormatFailed(m) => body := template; formatError := Some(m);
          }
          if formatError.Some? {
            failed := failed + [Failed(Some(email), formatError.value)];
          } else {
            var sent := out.send(i, Message(senderEmail, email, subject, body, html));
            if sent.None? {
              success := success + [Sent(email)];
            } else {
              failed := failed + [Failed(Some(email), sent.value)];
            }
          }
        }
        assert (success, failed) == Step(before, i, r, senderEmail, subject, template, html, out);
        i := i + 1;
      }
      if out.session.closeError.Some? {
        failed := failed + ConnectionErrors(rs, out.session.closeError.value);
      }
    }
  }

  /** Each recipient with an email lands in exactly one list; the others in none. */
  lemma {:induction false} RunPartition(rs: seq<Recipient>, k: nat, sender: string, subject: string,
                                        template: string, html: bool, out: Outside)
    requires k <= |rs|
    ensures var run := Run(rs, k, sender, subject, template, html, out);
            |run.0| + |run.1| == WithEmail(rs[..k])
  {
    if k > 0 {
      RunPartition(rs, k - 1, sender, subject, template, html, out);
      assert rs[..k][..k - 1] == rs[..k - 1];
    }
  }

  /** Every listed entry names a recipient's non-empty email; successes say
      "sent" and carry no error, failures say "failed" and carry one. */
  lemma {:induction false} RunEntries(rs: seq<Recipient>, k: nat, sender: string, subject: string,
                                      template: string, html: bool, out: Outside)
    requires k <= |rs|
    ensures var run := Run(rs, k, sender, subject, template, html, out);
            && (forall e :: e in run.0 ==>
                  e.status == "sent" && e.error.None? && Truthy(e.email)
                  && exists i :: 0 <= i < k && rs[i].email == e.email)
            && (forall e :: e in run.1 ==>
                  e.status == "failed" && e.error.Some? && Truthy(e.email)
                  && exists i :: 0 <= i < k && rs[i].email == e.email)
  {
    if k > 0 {
      RunEntries(rs, k - 1, sender, subject, template, html, out);
    }
  }

  /** The lists only grow: what the first `j` recipients produced is a prefix
      of what the first `k` produce. */
  lemma {:induction false} RunGrows(rs: seq<Recipient>, j: nat, k: nat, sender: string, subject: string,
                                    template: string, html: bool, out: Outside)
    requires j <= k <= |rs|
    ensures var a := Run(rs, j, sender, subject, template, html, out);
            var b := Run(rs, k, sender, subject, template, html, out);
            && |a.0| <= |b.0| && b.0[..|a.0|] == a.0
            && |a.1| <= |b.1| && b.1[..|a.1|] == a.1
    decreases k
  {
    if j < k {
      RunGrows(rs, j, k - 1, sender, subject, template, html, out);
    }
  }

  /** A recipient with an email adds exactly one entry, carrying that email,
      to exactly one of the two lists, and leaves the other list as it was. */
  lemma RunStepWithEmail(rs: seq<Recipient>, k: nat, sender: string, subject: string,
                         template: string, html: bool, out: Outside)
    requires k < |rs| && Truthy(rs[k].email)
    ensures var a := Run(rs, k, sender, subject, template, html, out);
            var b := Run(rs, k + 1, sender, subject, template, html, out);
            || (b.0 == a.0 + [Sent(rs[k].email.value)] && b.1 == a.1)
            || (b.0 == a.0 && exists m :: b.1 == a.1 + [Failed(rs[k].email, m)])
  {
    var a := Run(rs, k, sender, subject, template, html, out);
    var email := rs[k].email.value;
    match BodyFor(template, rs[k], out.format)
    case Err(m) =>
      assert Run(rs, k + 1, sender, subject, template, html, out).1 == a.1 + [Failed(rs[k].email, m)];
    case Ok(body) =>
      match out.send(k, Message(sender, email, subject, body, html))
      case None =>
      case Some(m) =>
        assert Run(rs, k + 1, sender, subject, template, html, out).1 == a.1 + [Failed(rs[k].email, m)];
  }

  /** In the lists after `k` recipients, recipient `i < k` with an email holds
      exactly one entry: the next success slot or the next failure slot after
      what the recipients before it produced, and it adds nothing to the other list. */
  lemma RecipientListedOnce(rs: seq<Recipient>, i: nat, k: nat, sender: string, subject: string,
                            template: string, html: bool, out: Outside)
    requires i < k <= |rs| && Truthy(rs[i].email)
    ensures var a := Run(rs, i, sender, subject, template, html, out);
            var b := Run(rs, i + 1, sender, subject, template, html, out);
            var c := Run(rs, k, sender, subject, template, html, out);
            || (|a.0| < |c.0| && c.0[|a.0|] == Sent(rs[i].email.value) && b.0 == a.0 + [c.0[|a.0|]] && b.1 == a.1)
            || (|a.1| < |c.1| && c.1[|a.1|].email == rs[i].email && c.1[|a.1|].status == "failed"
                && b.1 == a.1 + [c.1[|a.1|]] && b.0 == a.0)
  {
    RunStepWithEmail(rs, i, sender, subject, template, html, out);
    RunGrows(rs, i + 1, k, sender, subject, template, html, out);
    var a := Run(rs, i, sender, subject, template, html, out);
    var b := Run(rs, i + 1, sender, subject, template, html, out);
    var c := Run(rs, k, sender, subject, template, html, out);
    if b.0 == a.0 + [Sent(rs[i].email.value)] && b.1 == a.1 {
      assert c.0[|a.0|] == b.0[|a.0|];
    } else {
      var m :| b.1 == a.1 + [Failed(rs[i].email, m)];
      assert c.1[|a.1|] == b.1[|a.1|];
    }
  }

  /** A recipient without an email changes neither list. */
  lemma SkipWithoutEmail(rs: seq<Recipient>, k: nat, sender: string, subject: string,
                         template: string, html: bool, out: Outside)
    requires k < |rs| && !Truthy(rs[k].email)
    ensures Run(rs, k + 1, sender, subject, template, html, out) == Run(rs, k, sender, subject, template, html, out)
  {
  }

  /** On a clean session every recipient with an email is sent or failed
      once, so the two lists hold as many entries as there are such recipients. */
  lemma CleanSessionAccountsForEveryone(rs: seq<Recipient>, sender: string, subject: string,
                                        template: string, html: bool, out: Outside)
    requires out.session == Connected(None)
    ensures var run := Run(rs, |rs|, sender, subject, template, html, out);
            |run.0| + |run.1| == WithEmail(rs)
  {
    RunPartition(rs, |rs|, sender, subject, template, html, out);
    assert rs[..|rs|] == rs;
  }
}
