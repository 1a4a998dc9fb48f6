/**
 * The alert dispatcher: e-mail and Telegram delivery, each gated on its
 * settings and each writing one audit row per attempt. The SMTP session and
 * the HTTP call are not modelled; their outcome is an input.
 */
module Alerts {
  import opened Wrappers
  import opened Text
  import opened Models
  import opened Crud

  /** The alerting part of the application settings. */
  datatype Settings = Settings(
    emailEnabled: bool,
    senderEmail: Option<string>,
    senderPassword: Option<string>,
    receiverEmail: Option<string>,
    telegramEnabled: bool,
    telegramBotToken: Option<string>,
    telegramChatId: Option<string>)

  /** What the SMTP exchange did: delivered, or raised with this text. */
  datatype MailOutcome = Delivered | MailError(reason: string)

  /** What the Telegram POST did: a response (its `ok` flag), or raised with this text. */
  datatype HttpOutcome = Reply(ok: bool) | NetworkError(reason: string)

  /** One audit row to write, without its job id and timestamp. */
  datatype LogEntry = LogEntry(channel: string, status: string, message: Option<string>)

  /** What one call returns, and the audit row it writes, if any. */
  datatype Delivery = Delivery(ok: bool, entry: Option<LogEntry>)

  const TelegramMessageLimit := 180

  predicate EmailConfigured(s: Settings) {
    s.emailEnabled && Truthy(s.senderEmail) && Truthy(s.senderPassword) && Truthy(s.receiverEmail)
  }

  predicate TelegramConfigured(s: Settings) {
    s.telegramEnabled && Truthy(s.telegramBotToken) && Truthy(s.telegramChatId)
  }

  /** A call succeeded exactly when it wrote a `sent` row. */
  predicate OkIffSent(d: Delivery) {
    d.ok <==> d.entry.Some? && d.entry.value.status == "sent"
  }

  /** `send_email_alert` as a value: the gate, then one `email` row for the attempt. */
  function EmailDelivery(s: Settings, subject: string, outcome: MailOutcome): (d: Delivery)
    ensures !EmailConfigured(s) ==> d == Delivery(false, None)
    ensures EmailConfigured(s) ==> d.entry.Some? && d.entry.value.channel == "email"
    ensures OkIffSent(d)
    ensures outcome.Delivered? && EmailConfigured(s) ==> d.ok && d.entry.value.message == Some(subject)
    ensures outcome.MailError? && EmailConfigured(s) ==>
      !d.ok && d.entry.value == LogEntry("email", "failed", Some(outcome.reason))
  {
    if !EmailConfigured(s) then Delivery(false, None)
    else
      match outcome
      case Delivered => Delivery(true, Some(LogEntry("email", "sent", Some(subject))))
      case MailError(e) => Delivery(false, Some(LogEntry("email", "failed", Some(e))))
  }

  /** `send_telegram_alert` as a value: the gate, then one `telegram` row for the attempt. */
  function TelegramDelivery(s: Settings, text: string, outcome: HttpOutcome): (d: Delivery)
    ensures !TelegramConfigured(s) ==> d == Delivery(false, None)
    ensures TelegramConfigured(s) ==> d.entry.Some? && d.entry.value.channel == "telegram"
    ensures OkIffSent(d)
    ensures outcome.Reply? && TelegramConfigured(s) ==>
      d.ok == outcome.ok && d.entry.value.message == Some(Take(text, TelegramMessageLimit))
    ensures outcome.NetworkError? && TelegramConfigured(s) ==>
      !d.ok && d.entry.value == LogEntry("telegram", "failed", Some(outcome.reason))
  {
    if !TelegramConfigured(s) then Delivery(false, None)
    else
      match outcome
      case Reply(ok) =>
        Delivery(ok, Some(LogEntry("telegram", if ok then "sent" else "failed", Some(Take(text, TelegramMessageLimit)))))
      case NetworkError(e) => Delivery(false, Some(LogEntry("telegram", "failed", Some(e))))
  }

  /** A logged Telegram message never exceeds the limit, and is the text itself when short enough. */
  lemma TelegramMessageBounded(s: Settings, text: string, outcome: HttpOutcome)
    requires outcome.Reply? && TelegramConfigured(s)
    ensures var m := TelegramDelivery(s, text, outcome).entry.value.message.value;
      |m| <= TelegramMessageLimit && m == text[..|m|] && (|text| <= TelegramMessageLimit ==> m == text)
  {
    TakeSound(text, TelegramMessageLimit);
  }

  /** The row the store holds for an entry written for `jobId` at `now`. */
  predicate Records(log: AlertLog, jobId: int, e: LogEntry, now: int) {
    log.jobId == jobId && log.channel == e.channel && log.status == e.status
    && log.message == e.message && log.createdAt == now
  }

  /** One audit row to be written for a job: the job it belongs to and what it says. */
  datatype Attempt = Attempt(jobId: int, entry: LogEntry)

  /** The rows a delivery writes for `jobId`: its entry, if it has one. */
  function AttemptOf(jobId: int, d: Delivery): (a: seq<Attempt>)
    ensures |a| <= 1
    ensures a != [] <==> d.entry.Some?
    ensures a != [] ==> a[0] == Attempt(jobId, d.entry.value)
  {
    if d.entry.Some? then [Attempt(jobId, d.entry.value)] else []
  }

  /**
   * The stored rows record the attempts one for one, in order, each written
   * at its own instant: row `i` at `now + i`.
   */
  predicate Logged(rows: seq<AlertLog>, attempts: seq<Attempt>, now: int) {
    |rows| == |attempts|
    && forall i :: 0 <= i < |rows| ==> Records(rows[i], attempts[i].jobId, attempts[i].entry, now + i)
  }

  /**
   * Rows of a run that starts once an earlier run's instants are used up are
   * all strictly newer than that run's rows.
   */
  lemma LoggedLater(rows: seq<AlertLog>, attempts: seq<Attempt>, now: int,
                    later: seq<AlertLog>, laterAttempts: seq<Attempt>, laterNow: int)
    requires Logged(rows, attempts, now) && Logged(later, laterAttempts, laterNow)
    requires laterNow >= now + |rows|
    ensures forall i, j :: 0 <= i < |rows| && 0 <= j < |later| ==> rows[i].createdAt < later[j].createdAt
  {
    forall i, j | 0 <= i < |rows| && 0 <= j < |later|
      ensures rows[i].createdAt < later[j].createdAt
    {
      assert Records(rows[i], attempts[i].jobId, attempts[i].entry, now + i);
      assert Records(later[j], laterAttempts[j].jobId, laterAttempts[j].entry, laterNow + j);
    }
  }

  /** Rows recorded in two runs, the second starting where the first left the clock, record both runs' attempts. */
  lemma LoggedAppend(rows: seq<AlertLog>, attempts: seq<Attempt>, more: seq<AlertLog>, moreAttempts: seq<Attempt>, now: int)
    requires Logged(rows, attempts, now) && Logged(more, moreAttempts, now + |rows|)
    ensures Logged(rows + more, attempts + moreAttempts, now)
  {
    var r, a := rows + more, attempts + moreAttempts;
    forall i | 0 <= i < |r|
      ensures Records(r[i], a[i].jobId, a[i].entry, now + i)
    {
      if i < |rows| {
        assert r[i] == rows[i] && a[i] == attempts[i];
      } else {
        assert r[i] == more[i - |rows|] && a[i] == moreAttempts[i - |rows|];
      }
    }
  }

  /** Writes the delivery's audit row, if it has one, at the current instant; the job table is untouched. */
  method WriteEntry(store: JobStore, jobId: int, d: Delivery)
    requires store.Valid() && HasJobId(store.jobs, jobId)
    modifies store
    ensures store.Valid() && store.jobs == old(store.jobs)
    ensures d.entry.None? ==> store.logs == old(store.logs)
    ensures d.entry.Some? ==>
      |store.logs| == |old(store.logs)| + 1 && store.logs[..|old(store.logs)|] == old(store.logs)
      && Records(store.logs[|old(store.logs)|], jobId, d.entry.value, old(store.clock))
    ensures |store.logs| >= |old(store.logs)| && store.logs[..|old(store.logs)|] == old(store.logs)
    ensures store.clock == old(store.clock) + (|store.logs| - |old(store.logs)|)
    ensures Logged(store.logs[|old(store.logs)|..], AttemptOf(jobId, d), old(store.clock))
  {
    if d.entry.Some? {
      var e := d.entry.value;
      var log := store.CreateAlertLog(jobId, e.channel, e.status, e.message);
    }
  }

  /**
   * `send_email_alert`: nothing when e-mail is off or not configured;
   * otherwise one `email` row, `sent` with the subject or `failed` with the error.
   */
  method SendEmailAlert(store: JobStore, s: Settings, jobId: int, subject: string, body: string,
                        outcome: MailOutcome) returns (ok: bool)
    requires store.Valid() && HasJobId(store.jobs, jobId)
    modifies store
    ensures store.Valid() && store.jobs == old(store.jobs)
    ensures ok == EmailDelivery(s, subject, outcome).ok
    ensures !EmailConfigured(s) ==> store.logs == old(store.logs)
    ensures EmailConfigured(s) ==>
      |store.logs| == |old(store.logs)| + 1 && store.logs[..|old(store.logs)|] == old(store.logs)
      && Records(store.logs[|old(store.logs)|], jobId, EmailDelivery(s, subject, outcome).entry.value, old(store.clock))
    ensures |store.logs| >= |old(store.logs)| && store.logs[..|old(store.logs)|] == old(store.logs)
    ensures store.clock == old(store.clock) + (|store.logs| - |old(store.logs)|)
    ensures Logged(store.logs[|old(store.logs)|..], AttemptOf(jobId, EmailDelivery(s, subject, outcome)), old(store.clock))
  {
    var d := EmailDelivery(s, subject, outcome);
    WriteEntry(store, jobId, d);
    ok := d.ok;
  }

  /**
   * `send_telegram_alert`: nothing when Telegram is off or not configured;
   * otherwise one `telegram` row whose status follows the response.
   */
  method SendTelegramAlert(store: JobStore, s: Settings, jobId: int, text: string,
                           outcome: HttpOutcome) returns (ok: bool)
    requires store.Valid() && HasJobId(store.jobs, jobId)
    modifies store
    ensures store.Valid() && store.jobs == old(store.jobs)
    ensures ok == TelegramDelivery(s, text, outcome).ok
    ensures !TelegramConfigured(s) ==> store.logs == old(store.logs)
    ensures TelegramConfigured(s) ==>
      |store.logs| == |old(store.logs)| + 1 && store.logs[..|old(store.logs)|] == old(store.logs)
      && Records(store.logs[|old(store.logs)|], jobId, TelegramDelivery(s, text, outcome).entry.value, old(store.clock))
    ensures |store.logs| >= |old(store.logs)| && store.logs[..|old(store.logs)|] == old(store.logs)
    ensures store.clock == old(store.clock) + (|store.logs| - |old(store.logs)|)
    ensures Logged(store.logs[|old(store.logs)|..], AttemptOf(jobId, TelegramDelivery(s, text, outcome)), old(store.clock))
  {
    var d := TelegramDelivery(s, text, outcome);
    WriteEntry(store, jobId, d);
    ok := d.ok;
  }
}
