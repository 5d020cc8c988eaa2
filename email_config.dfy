/** The sending side of emailConfig.js: the input guards and the mail
    options of `sendPengaduanNotificationToMultiple`, the skip rule of
    `sendNotificationToReporter`, and `getStatusColor`. Creating the
    transporter and `sendMail` are foreign; only their outcomes are inputs. */
module EmailConfig {
  import opened Common
  import opened Text
  import EmailTemplates

  /** The sender used when `EMAIL_USER` is not set. */
  const DefaultSender := "desa.moncongloebulu@gmail.com"

  /** The `recipientEmails` argument: an array of values, or anything else. */
  datatype Recipients = List(items: seq<Value>) | NotAList(v: Value)

  /** What `Array.prototype.join` writes for one element: null and
      undefined become the empty string. */
  function JoinPiece(v: Value): string {
    if v == Undefined || v == Null then "" else ToString(v)
  }

  function JoinPieces(items: seq<Value>): (r: seq<string>)
    ensures |r| == |items|
    ensures forall i :: 0 <= i < |items| ==> r[i] == JoinPiece(items[i])
  {
    seq(|items|, i requires 0 <= i < |items| => JoinPiece(items[i]))
  }

  /** The options handed to `sendMail`; the HTML and text bodies are not
      modelled. */
  datatype MailOptions = MailOptions(from: string, to: Value, subject: string)

  /** How the foreign steps went: `createTransporter` (its error message if
      it threw) and `sendMail` (the message id, or the error message). */
  datatype Transport = Transport(createError: Option<string>, delivery: Delivery)
  datatype Delivery = Delivered(messageId: string) | Refused(message: string)

  /** The object the senders resolve to. None of them throws: every error
      inside the `try` becomes `Failed`. */
  datatype SendResult =
    | Sent(mail: MailOptions, messageId: string)
    | Invalid(message: string)
    | Failed(error: JsError)
    | Skipped(reason: string)

  const InvalidRecipients := "Invalid recipient emails"
  const InvalidData := "Invalid pengaduan data"

  /** `!recipientEmails || !Array.isArray(recipientEmails) || recipientEmails.length === 0` */
  predicate BadRecipients(r: Recipients) {
    r.NotAList? || |r.items| == 0
  }

  /** `!pengaduanData || !pengaduanData.judul`; `None` is null or undefined. */
  predicate BadData(data: Option<Record>) {
    data.None? || !Truthy(Get(data.value, "judul"))
  }

  /** Creating the transporter, then `sendMail` with `mail`. */
  function Deliver(mail: MailOptions, t: Transport): (r: SendResult)
    ensures r.Sent? <==> t.createError.None? && t.delivery.Delivered?
    ensures r.Sent? ==> r.mail == mail && r.messageId == t.delivery.messageId
    ensures r.Failed? <==> !r.Sent?
  {
    if t.createError.Some? then Failed(LibraryError(t.createError.value))
    else match t.delivery
      case Delivered(id) => Sent(mail, id)
      case Refused(message) => Failed(LibraryError(message))
  }

  /** `sendPengaduanNotificationToMultiple(pengaduanData, recipientEmails)`
      (emailConfig.js:137-200). The transporter is created before the
      template is built, so a transporter error wins over a template error. */
  function SendToMultiple(data: Option<Record>, recipients: Recipients,
                          emailUser: Option<string>, t: Transport): (r: SendResult)
    ensures BadRecipients(recipients) ==> r == Invalid(InvalidRecipients)
    ensures !BadRecipients(recipients) && BadData(data) ==> r == Invalid(InvalidData)
    ensures r.Invalid? <==> BadRecipients(recipients) || BadData(data)
    ensures r.Sent? <==>
      !BadRecipients(recipients) && !BadData(data)
      && t.createError.None? && EmailTemplates.NotificationTemplate(data).Ok?
      && t.delivery.Delivered?
    ensures r.Sent? ==>
      && r.mail.to == Str(Join(JoinPieces(recipients.items), ", "))
      && r.mail.from == EnvOr(emailUser, DefaultSender)
      && r.mail.subject == EmailTemplates.NotificationTemplate(data).value.subject
      && Contains(r.mail.subject, ToString(Get(data.value, "judul")))
      && r.messageId == t.delivery.messageId
    ensures r.Skipped? == false
  {
    if BadRecipients(recipients) then Invalid(InvalidRecipients)
    else if BadData(data) then Invalid(InvalidData)
    else if t.createError.Some? then Failed(LibraryError(t.createError.value))
    else
      var content := EmailTemplates.NotificationTemplate(data);
      if content.Thrown? then Failed(content.error)
      else
        var mail := MailOptions(EnvOr(emailUser, DefaultSender),
                                Str(Join(JoinPieces(recipients.items), ", ")),
                                content.value.subject);
        Deliver(mail, t)
  }

  /** Every recipient, as `join` writes it, appears in the `to` field of
      the mail. */
  lemma RecipientsJoined(items: seq<Value>)
    ensures forall i :: 0 <= i < |items| ==>
      Contains(Join(JoinPieces(items), ", "), JoinPiece(items[i]))
  {
    forall i | 0 <= i < |items|
      ensures Contains(Join(JoinPieces(items), ", "), JoinPiece(items[i]))
    {
      JoinContains(JoinPieces(items), ", ", i);
    }
  }

  const SkipReason := "anonymous_or_no_email"

  /** `pengaduanData.nama === 'Anonim' || !pengaduanData.email` */
  predicate SkipsReporter(d: Record) {
    EmailTemplates.IsAnonymous(Get(d, "nama")) || !Truthy(Get(d, "email"))
  }

  /** The reporter's subject (emailConfig.js:235). */
  function ReporterSubject(judul: Value): string {
    "\U{1F4CA} Update Status Laporan Anda: " + ToString(judul)
  }

  /** `sendNotificationToReporter(pengaduanData, status, catatan_admin)`
      (emailConfig.js:227-331): nothing is sent to an anonymous reporter
      or one without an e-mail; otherwise the mail goes to that e-mail.
      Reading `nama` of null data throws inside the `try`. */
  function SendToReporter(data: Option<Record>, emailUser: Option<string>, t: Transport): (r: SendResult)
    ensures data.None? ==> r == Failed(TypeError("pengaduanData"))
    ensures data.Some? && SkipsReporter(data.value) ==> r == Skipped(SkipReason)
    ensures r.Skipped? <==> data.Some? && SkipsReporter(data.value)
    ensures r.Sent? <==>
      data.Some? && !SkipsReporter(data.value) && t.createError.None? && t.delivery.Delivered?
    ensures r.Sent? ==>
      && r.mail.to == Get(data.value, "email") && Truthy(r.mail.to)
      && r.mail.from == EnvOr(emailUser, DefaultSender)
      && r.mail.subject == ReporterSubject(Get(data.value, "judul"))
    ensures r.Invalid? == false
  {
    if data.None? then Failed(TypeError("pengaduanData"))
    else
      var d := data.value;
      if SkipsReporter(d) then Skipped(SkipReason)
      else
        Deliver(MailOptions(EnvOr(emailUser, DefaultSender), Get(d, "email"),
                            ReporterSubject(Get(d, "judul"))), t)
  }

  /** `getStatusColor(status)` (emailConfig.js:337-345): each known status
      has its own colour, and everything else (another string, a different
      case, a non-string) is grey. */
  function StatusColor(status: Value): (color: string)
    ensures color == "#f59e0b" <==> status == Str("pending")
    ensures color == "#3b82f6" <==> status == Str("proses")
    ensures color == "#10b981" <==> status == Str("selesai")
    ensures color == "#6b7280" <==>
      status != Str("pending") && status != Str("proses") && status != Str("selesai")
  {
    match status
    case Str("pending") => "#f59e0b"
    case Str("proses") => "#3b82f6"
    case Str("selesai") => "#10b981"
    case _ => "#6b7280"
  }
}
