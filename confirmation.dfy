/** POST /confirm_payment: look the participant up, render the ticket,
    upload it, mark the participant paid, mail the ticket. Each call on the
    datastore, the storage service and the mail API is an outcome supplied
    by the caller; the handler's visible behaviour is its reply and the
    sequence of effects it issues. */
module Confirmation {
  import opened Common
  import opened Records
  import opened Ticket
  import Registration

  type Bytes = seq<bv8>

  /** The select on the participants table. */
  datatype Lookup =
    | Found(participant: Participant)
    | NoParticipant   // participant_req.data is empty
    | LookupRaised    // the client raises (outside any try)

  /** QR code and PDF rendering, library code outside any try. */
  datatype Render = Rendered(pdf: Bytes) | RenderRaised

  /** A datastore or storage call inside the try: it returns or raises. */
  datatype Call = Completed | Raised

  datatype Effect =
    | SelectParticipant(email: Option<string>)
    | RenderTicket(qrPayload: string)
    | UploadTicket(bucket: string, path: string, pdf: Bytes)
    | UpdateParticipant(email: Option<string>, paymentStatus: PaymentStatus, qrPath: string)
    | SendTicket(to: Option<string>, subject: string, body: string, attachmentName: string, attachment: Bytes)

  datatype Stage = LookupStage | RenderStage | UploadStage | UpdateStage | NotifyStage

  function StageOf(e: Effect): Stage {
    match e
    case SelectParticipant(_) => LookupStage
    case RenderTicket(_) => RenderStage
    case UploadTicket(_, _, _) => UploadStage
    case UpdateParticipant(_, _, _) => UpdateStage
    case SendTicket(_, _, _, _, _) => NotifyStage
  }

  function Stages(trace: seq<Effect>): (stages: seq<Stage>)
    ensures |stages| == |trace|
  {
    seq(|trace|, i requires 0 <= i < |trace| => StageOf(trace[i]))
  }

  /** The fixed order of the handler's steps. */
  const Order: seq<Stage> := [LookupStage, RenderStage, UploadStage, UpdateStage, NotifyStage]

  datatype ConfirmReply = NotRegistered | TicketSent | IssueFailed | ServerError {
    function Status(): int {
      match this
      case NotRegistered => 404
      case TicketSent => 200
      case IssueFailed => 500
      case ServerError => 500  // Flask's default error page
    }

    function Message(): string
      requires !ServerError?
    {
      match this
      case NotRegistered => "Participant not found."
      case TicketSent => "Payment confirmed & ticket sent."
      case IssueFailed => "Failed to generate or upload ticket."
    }
  }

  const TicketSubject: string := "Your Arcane 2K25 Ticket is Here! \U{1F389}"
  const MailTail: string := ",<br><br>Your registration is confirmed! We are thrilled to have you at Arcane 2K25. Your personalized ticket is attached to this email.<br><br>See you there!"
  const Greeting: string := "Hello "
  const AttachmentName: string := "Arcane-2K25-Ticket.pdf"

  function TicketMailBody(name: Option<string>): string {
    Greeting + Show(name) + MailTail
  }

  /** The ticket mail's HTML body greets the participant by the stored name,
      as the f-string shows it. */
  lemma TicketMailGreeting(name: Option<string>)
    ensures var body := TicketMailBody(name);
            && |body| >= |Greeting| + |Show(name)|
            && body[..|Greeting|] == Greeting
            && body[|Greeting|..|Greeting| + |Show(name)|] == Show(name)
  {
  }

  /** The effects of a run that reaches the mail step, step by step. The
      status update records the `qr_path` the handler builds, which is
      `RecordedUrlAsWritten`. */
  function FullRun(email: Option<string>, p: Participant, pdf: Bytes, supabaseUrl: string): (trace: seq<Effect>)
    ensures Stages(trace) == Order
  {
    [ SelectParticipant(email),
      RenderTicket(p.id),
      UploadTicket(Bucket, TicketPath(email), pdf),
      UpdateParticipant(email, Paid, RecordedUrlAsWritten(supabaseUrl, email)),
      SendTicket(email, TicketSubject, TicketMailBody(p.row.name), AttachmentName, pdf) ]
  }

  /** The outcome of one confirm_payment request. */
  datatype Issuance = Issuance(reply: ConfirmReply, trace: seq<Effect>)

  /** The stages of a prefix are the prefix of the stages. */
  lemma StagesOfPrefix(trace: seq<Effect>, n: nat)
    requires n <= |trace|
    ensures Stages(trace[..n]) == Stages(trace)[..n]
  {
  }

  /** How many of the five steps a run issues: it stops after the first
      step that raises. */
  function Reached(lookup: Lookup, render: Render, upload: Call, update: Call): (n: nat)
    ensures 1 <= n <= |Order|
  {
    if !lookup.Found? then 1
    else if render.RenderRaised? then 2
    else if upload == Raised then 3
    else if update == Raised then 4
    else 5
  }

  /** The reference run: the effects of a complete run, cut off after the
      first step that raises, and the reply that step leads to. An
      ApiException from the mail API is caught inside send_ticket_email, and
      its False result is ignored. */
  function Confirm(email: Option<string>, lookup: Lookup, render: Render, upload: Call, update: Call,
                   delivery: Delivery, supabaseUrl: string): (r: Issuance)
    ensures |r.trace| == Reached(lookup, render, upload, update)
    ensures Stages(r.trace) == Order[..|r.trace|]
    ensures r.trace[0] == SelectParticipant(email)
    ensures r.reply == NotRegistered <==> lookup == NoParticipant
    ensures r.reply == TicketSent <==> |r.trace| == |Order| && delivery != TransportError
    ensures r.reply == ServerError <==> |r.trace| < 3 && !lookup.NoParticipant?
  {
    match lookup
    case LookupRaised => Issuance(ServerError, [SelectParticipant(email)])
    case NoParticipant => Issuance(NotRegistered, [SelectParticipant(email)])
    case Found(p) =>
      var pdf := if render.Rendered? then render.pdf else [];
      var full := FullRun(email, p, pdf, supabaseUrl);
      var n := Reached(lookup, render, upload, update);
      StagesOfPrefix(full, n);
      var reply := if n < 3 then ServerError
                   else if n < 5 || delivery == TransportError then IssueFailed
                   else TicketSent;
      Issuance(reply, full[..n])
  }

  /** A run reaches step `k` of Order exactly when its trace is longer than
      k; so the upload is attempted iff the participant is found and the
      ticket rendered, the update iff the upload also succeeds, and the mail
      iff the update also succeeds. */
  lemma StepsAttempted(email: Option<string>, lookup: Lookup, render: Render, upload: Call, update: Call,
                       delivery: Delivery, supabaseUrl: string)
    ensures var stages := Stages(Confirm(email, lookup, render, upload, update, delivery, supabaseUrl).trace);
            && (UploadStage in stages <==> lookup.Found? && render.Rendered?)
            && (UpdateStage in stages <==> lookup.Found? && render.Rendered? && upload == Completed)
            && (NotifyStage in stages <==>
                  lookup.Found? && render.Rendered? && upload == Completed && update == Completed)
  {
    var stages := Stages(Confirm(email, lookup, render, upload, update, delivery, supabaseUrl).trace);
    var n := |stages|;
    assert stages == Order[..n];
    assert UploadStage in stages <==> n > 2 by {
      if n > 2 { assert stages[2] == UploadStage; }
    }
    assert UpdateStage in stages <==> n > 3 by {
      if n > 3 { assert stages[3] == UpdateStage; }
    }
    assert NotifyStage in stages <==> n > 4 by {
      if n > 4 { assert stages[4] == NotifyStage; }
    }
  }

  /** The handler, step by step. */
  method ConfirmPayment(email: Option<string>, lookup: Lookup, render: Render, upload: Call, update: Call,
                        delivery: Delivery, supabaseUrl: string)
    returns (reply: ConfirmReply, trace: seq<Effect>)
    ensures Issuance(reply, trace) == Confirm(email, lookup, render, upload, update, delivery, supabaseUrl)
  {
    trace := [SelectParticipant(email)];
    if lookup.LookupRaised? {
      return ServerError, trace;
    }
    if lookup.NoParticipant? {
      return NotRegistered, trace;
    }
    var participant := lookup.participant;
    ghost var full := FullRun(email, participant, if render.Rendered? then render.pdf else [], supabaseUrl);
    trace := trace + [RenderTicket(participant.id)];
    if render.RenderRaised? {
      assert trace == full[..2];
      return ServerError, trace;
    }
    var pdf := render.pdf;
    var path := TicketPath(email);
    trace := trace + [UploadTicket(Bucket, path, pdf)];
    if upload == Raised {
      assert trace == full[..3];
      return IssueFailed, trace;
    }
    var url := RecordedUrlAsWritten(supabaseUrl, email);
    trace := trace + [UpdateParticipant(email, Paid, url)];
    if update == Raised {
      assert trace == full[..4];
      return IssueFailed, trace;
    }
    trace := trace + [SendTicket(email, TicketSubject, TicketMailBody(participant.row.name), AttachmentName, pdf)];
    assert trace == full[..5];
    var sent := SendResult(delivery);
    if sent.None? {
      return IssueFailed, trace;
    }
    reply := TicketSent;
  }

  /** In a trace that follows the order of the steps, the status update comes
      right after the upload and the mail right after the update. */
  lemma {:induction false} OrderedTrace(trace: seq<Effect>)
    requires |trace| <= |Order| && Stages(trace) == Order[..|trace|]
    ensures forall j :: 0 <= j < |trace| && trace[j].UpdateParticipant? ==> j > 0 && trace[j - 1].UploadTicket?
    ensures forall j :: 0 <= j < |trace| && trace[j].SendTicket? ==> j > 0 && trace[j - 1].UpdateParticipant?
    ensures forall j :: 0 <= j < |trace| && trace[j].UploadTicket? ==> j == 2
  {
    forall j | 0 <= j < |trace|
      ensures StageOf(trace[j]) == Order[j]
    {
      assert Stages(trace)[j] == StageOf(trace[j]);
    }
  }

  /** Whatever the outcomes, the upload precedes the update to "paid", and
      the update precedes the mail. */
  lemma PersistBeforeNotify(email: Option<string>, lookup: Lookup, render: Render, upload: Call, update: Call,
                            delivery: Delivery, supabaseUrl: string)
    ensures var t := Confirm(email, lookup, render, upload, update, delivery, supabaseUrl).trace;
            && (forall j :: 0 <= j < |t| && t[j].UpdateParticipant? ==> j > 0 && t[j - 1].UploadTicket?)
            && (forall j :: 0 <= j < |t| && t[j].SendTicket? ==> j > 0 && t[j - 1].UpdateParticipant?)
  {
    OrderedTrace(Confirm(email, lookup, render, upload, update, delivery, supabaseUrl).trace);
  }

  /** An unknown email is answered 404 after the lookup alone: nothing is
      rendered, uploaded, updated or mailed. */
  lemma UnknownEmailHasNoEffects(email: Option<string>, render: Render, upload: Call, update: Call,
                                 delivery: Delivery, supabaseUrl: string)
    ensures var r := Confirm(email, NoParticipant, render, upload, update, delivery, supabaseUrl);
            r.reply.Status() == 404 && r.trace == [SelectParticipant(email)]
  {
  }

  /** A failed upload is answered 500 with no status update and no mail. */
  lemma UploadFailureStopsIssuance(email: Option<string>, p: Participant, pdf: Bytes, update: Call,
                                   delivery: Delivery, supabaseUrl: string)
    ensures var r := Confirm(email, Found(p), Rendered(pdf), Raised, update, delivery, supabaseUrl);
            && r.reply == IssueFailed && r.reply.Status() == 500
            && r.trace[|r.trace| - 1] == UploadTicket(Bucket, TicketPath(email), pdf)
            && (forall e :: e in r.trace ==> !e.UpdateParticipant? && !e.SendTicket?)
  {
    var r := Confirm(email, Found(p), Rendered(pdf), Raised, update, delivery, supabaseUrl);
    assert r.trace == FullRun(email, p, pdf, supabaseUrl)[..3];
  }

  /** A failed status update after a successful upload is answered 500 and
      leaves the uploaded ticket behind, with no mail. */
  lemma UpdateFailureLeavesUpload(email: Option<string>, p: Participant, pdf: Bytes,
                                  delivery: Delivery, supabaseUrl: string)
    ensures var r := Confirm(email, Found(p), Rendered(pdf), Completed, Raised, delivery, supabaseUrl);
            && r.reply == IssueFailed
            && UploadTicket(Bucket, TicketPath(email), pdf) in r.trace
            && (forall e :: e in r.trace ==> !e.SendTicket?)
  {
    var r := Confirm(email, Found(p), Rendered(pdf), Completed, Raised, delivery, supabaseUrl);
    assert r.trace == FullRun(email, p, pdf, supabaseUrl)[..4];
    assert r.trace[2] == UploadTicket(Bucket, TicketPath(email), pdf);
  }

  /** When every datastore and storage call succeeds, the request is answered
      200 whether or not the mail API accepts the ticket mail, because the
      boolean send_ticket_email returns is ignored. The participant is
      marked paid, with a `qr_path` that does not name the uploaded ticket,
      and the mail carries the uploaded PDF. */
  lemma TicketSentDespiteMailRejection(email: Option<string>, p: Participant, pdf: Bytes,
                                       delivery: Delivery, supabaseUrl: string)
    requires delivery != TransportError
    ensures var r := Confirm(email, Found(p), Rendered(pdf), Completed, Completed, delivery, supabaseUrl);
            && r.reply == TicketSent && r.reply.Status() == 200
            && r.trace[1] == RenderTicket(p.id)
            && r.trace[3].UpdateParticipant? && r.trace[3].paymentStatus == Paid
            && r.trace[3].qrPath == RecordedUrlAsWritten(supabaseUrl, email)
            && ObjectAt(supabaseUrl, r.trace[3].qrPath) != Some((Bucket, TicketPath(email)))
            && r.trace[2] == UploadTicket(Bucket, TicketPath(email), pdf)
            && r.trace[4].SendTicket? && r.trace[4].attachment == pdf && r.trace[4].to == email
  {
    var r := Confirm(email, Found(p), Rendered(pdf), Completed, Completed, delivery, supabaseUrl);
    assert r.trace == FullRun(email, p, pdf, supabaseUrl);
    RecordedUrlMissesUpload(supabaseUrl, email);
  }

  /** The handler does not look at the stored payment status: confirming a
      participant again issues the same effects to the same ticket path as
      the first time, for whatever snapshot and PDF the second run sees. */
  lemma ReconfirmTargetsSamePath(email: Option<string>, p1: Participant, p2: Participant, pdf1: Bytes, pdf2: Bytes,
                                 delivery: Delivery, supabaseUrl: string)
    ensures var first := Confirm(email, Found(p1), Rendered(pdf1), Completed, Completed, delivery, supabaseUrl);
            var again := Confirm(email, Found(p2), Rendered(pdf2), Completed, Completed, delivery, supabaseUrl);
            && first.reply == again.reply
            && first.trace[2].path == again.trace[2].path == TicketPath(email)
            && first.trace[3] == again.trace[3]
  {
    assert Confirm(email, Found(p1), Rendered(pdf1), Completed, Completed, delivery, supabaseUrl).trace
        == FullRun(email, p1, pdf1, supabaseUrl);
    assert Confirm(email, Found(p2), Rendered(pdf2), Completed, Completed, delivery, supabaseUrl).trace
        == FullRun(email, p2, pdf2, supabaseUrl);
  }

  /** From registration to ticket: the row `register` inserts, stored under
      identifier `id`, is still pending; confirming its email renders a QR
      code of `id`, uploads the ticket under that email's path, marks the
      participant paid and mails the ticket, and the request is answered 200
      even when the mail API rejects the mail. */
  lemma RegisterThenConfirm(req: Registration.Request, draws: seq<nat>, id: string, pdf: Bytes,
                            delivery: Delivery, supabaseUrl: string)
    requires Registration.ValidDraws(draws) && delivery != TransportError
    ensures var reg := Registration.Register(req, draws, Registration.Inserted);
            var r := Confirm(req.email, Found(Participant(id, reg.row)), Rendered(pdf), Completed, Completed,
                             delivery, supabaseUrl);
            && reg.row.paymentStatus == Pending
            && reg.reply.Status() == 200
            && r.reply.Status() == 200
            && r.trace == [ SelectParticipant(req.email),
                            RenderTicket(id),
                            UploadTicket(Bucket, TicketPath(req.email), pdf),
                            UpdateParticipant(req.email, Paid, RecordedUrlAsWritten(supabaseUrl, req.email)),
                            SendTicket(req.email, TicketSubject, TicketMailBody(req.name), AttachmentName, pdf) ]
  {
    var reg := Registration.Register(req, draws, Registration.Inserted);
    var p := Participant(id, reg.row);
    assert Confirm(req.email, Found(p), Rendered(pdf), Completed, Completed, delivery, supabaseUrl).trace
        == FullRun(req.email, p, pdf, supabaseUrl);
  }
}
