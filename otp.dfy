/** The in-memory OTP store behind /api/send-otp and /api/verify-otp: one
    record per email, holding a six-digit code and its expiry time. Time is
    in whole seconds. */
module Otp {
  import opened Common
  import opened Numerals

  /** `timedelta(minutes=5)`, in seconds. */
  const Lifetime: int := 300

  /** The bounds of `random.randint(100000, 999999)`. */
  const LowestCode: nat := 100000
  const HighestCode: nat := 999999

  const MailSubject: string := "Your Arcane 2K25 Registration OTP"

  const MailIntro: string := "Your one-time password (OTP) is: "
  const MailClosing: string := "\n\nThis code is valid for 5 minutes."

  /** The OTP mail's text: the code can be read back from it. */
  function MailBody(code: string): (body: string)
    ensures |body| == |MailIntro| + |code| + |MailClosing|
    ensures body[|MailIntro|..|MailIntro| + |code|] == code
  {
    MailIntro + code + MailClosing
  }

  datatype Record = Record(code: string, expires: int)

  /** The message handed to send_otp_email. */
  datatype Mail = Mail(to: string, subject: string, body: string)

  datatype SendReply = EmailRequired | OtpSent | SendFailed | SendCrashed {
    function Status(): int {
      match this
      case EmailRequired => 400
      case OtpSent => 200
      case SendFailed => 500
      case SendCrashed => 500  // Flask's default error page
    }

    function Message(): string
      requires !SendCrashed?
    {
      match this
      case EmailRequired => "Email is required."
      case OtpSent => "OTP sent successfully."
      case SendFailed => "Failed to send OTP."
    }
  }

  datatype VerifyReply = ParamsRequired | NotFoundOrExpired | Verified | InvalidOtp {
    function Status(): int {
      match this
      case ParamsRequired => 400
      case NotFoundOrExpired => 410
      case Verified => 200
      case InvalidOtp => 401
    }

    function Message(): string {
      match this
      case ParamsRequired => "Email and OTP required."
      case NotFoundOrExpired => "OTP not found or has expired."
      case Verified => "Email verified!"
      case InvalidOtp => "Invalid OTP."
    }
  }

  /** What `str(random.randint(100000, 999999))` yields: six decimal digits,
      the first not zero. */
  predicate IsOtpCode(s: string) {
    |s| == 6 && AllDigits(s) && s[0] != '0'
  }

  /** Every stored code is one the store could have issued. */
  predicate WellFormed(store: map<string, Record>) {
    forall e :: e in store ==> IsOtpCode(store[e].code)
  }

  /** The record for `e` exists and `now` is not past its expiry. */
  predicate Live(store: map<string, Record>, e: string, now: int) {
    e in store && now <= store[e].expires
  }

  lemma SixDigitCode(draw: nat)
    requires LowestCode <= draw <= HighestCode
    ensures IsOtpCode(DecimalText(draw))
    ensures DecimalValue(DecimalText(draw)) == draw
  {
    assert Pow10(5) == 100000 by {
      assert Pow10(1) == 10;
      assert Pow10(2) == 100;
      assert Pow10(3) == 1000;
      assert Pow10(4) == 10000;
    }
    assert Pow10(6) == 1000000;
    DecimalLength(draw, 5);
    DecimalRoundTrip(draw);
  }

  /** The outcome of one send-otp request. */
  datatype Issued = Issued(reply: SendReply, store: map<string, Record>, mail: Option<Mail>)

  /** send_otp on the store `store` at time `now`, with `draw` the value of
      the random draw and `delivery` what the mail API does. */
  function Issue(store: map<string, Record>, email: Option<string>, now: int, draw: nat, delivery: Delivery): (r: Issued)
    requires LowestCode <= draw <= HighestCode
    ensures r.reply == EmailRequired <==> !Truthy(email)
    ensures !Truthy(email) ==> r.store == store && r.mail == None
    ensures Truthy(email) ==> r.store.Keys == store.Keys + {email.value}
    ensures Truthy(email) ==>
      forall other :: other in store && other != email.value ==> r.store[other] == store[other]
    ensures Truthy(email) ==> IsOtpCode(r.store[email.value].code)
    ensures Truthy(email) ==> DecimalValue(r.store[email.value].code) == draw
    ensures Truthy(email) ==> r.store[email.value].expires == now + Lifetime
    ensures Truthy(email) ==> r.mail == Some(Mail(email.value, MailSubject, MailBody(r.store[email.value].code)))
    ensures Truthy(email) ==> (r.reply == OtpSent <==> delivery == Accepted)
    ensures Truthy(email) ==> (r.reply == SendFailed <==> delivery == ApiRejected)
    ensures WellFormed(store) ==> WellFormed(r.store)
  {
    if !Truthy(email) then
      Issued(EmailRequired, store, None)
    else
      var code := DecimalText(draw);
      SixDigitCode(draw);
      var store' := store[email.value := Record(code, now + Lifetime)];
      var mail := Some(Mail(email.value, MailSubject, MailBody(code)));
      match SendResult(delivery)
      case Some(true) => Issued(OtpSent, store', mail)
      case Some(false) => Issued(SendFailed, store', mail)
      case None => Issued(SendCrashed, store', mail)
  }

  /** The outcome of one verify-otp request. */
  datatype Checked = Checked(reply: VerifyReply, store: map<string, Record>)

  /** verify_otp on the store `store` at time `now`: exactly one of missing
      parameters, absent or expired, match and mismatch holds. */
  function Check(store: map<string, Record>, email: Option<string>, otp: Option<string>, now: int): (r: Checked)
    ensures r.reply == ParamsRequired <==> !Truthy(email) || !Truthy(otp)
    ensures r.reply == NotFoundOrExpired <==>
      Truthy(email) && Truthy(otp) && !Live(store, email.value, now)
    ensures r.reply == Verified <==>
      Truthy(email) && Truthy(otp) && Live(store, email.value, now) && otp.value == store[email.value].code
    ensures r.reply == InvalidOtp <==>
      Truthy(email) && Truthy(otp) && Live(store, email.value, now) && otp.value != store[email.value].code
    ensures r.reply == Verified || r.reply == NotFoundOrExpired ==>
      email.Some? && r.store == store - {email.value}
    ensures r.reply == ParamsRequired || r.reply == InvalidOtp ==> r.store == store
    ensures WellFormed(store) ==> WellFormed(r.store)
  {
    if !Truthy(email) || !Truthy(otp) then
      Checked(ParamsRequired, store)
    else
      var e := email.value;
      if e !in store || now > store[e].expires then
        Checked(NotFoundOrExpired, if e in store then store - {e} else store)
      else if otp.value == store[e].code then
        Checked(Verified, store - {e})
      else
        Checked(InvalidOtp, store)
  }

  /** The module-level `otp_store` dictionary together with the two
      endpoints that update it. */
  class OtpStore {
    var entries: map<string, Record>

    ghost predicate Valid()
      reads this
    {
      WellFormed(entries)
    }

    constructor ()
      ensures Valid() && entries == map[]
    {
      entries := map[];
    }

    /** POST /api/send-otp. The record is stored before the mail is sent
        and stays whatever the mail API does. */
    method SendOtp(email: Option<string>, now: int, draw: nat, delivery: Delivery)
      returns (reply: SendReply, mail: Option<Mail>)
      requires Valid()
      requires LowestCode <= draw <= HighestCode
      modifies this
      ensures Valid()
      ensures Issued(reply, entries, mail) == Issue(old(entries), email, now, draw, delivery)
    {
      if !Truthy(email) {
        return EmailRequired, None;
      }
      var code := DecimalText(draw);
      SixDigitCode(draw);
      entries := entries[email.value := Record(code, now + Lifetime)];
      mail := Some(Mail(email.value, MailSubject, MailBody(code)));
      var sent := SendResult(delivery);
      if sent == Some(true) {
        reply := OtpSent;
      } else if sent == Some(false) {
        reply := SendFailed;
      } else {
        reply := SendCrashed;
      }
    }

    /** POST /api/verify-otp. */
    method VerifyOtp(email: Option<string>, otp: Option<string>, now: int) returns (reply: VerifyReply)
      requires Valid()
      modifies this
      ensures Valid()
      ensures Checked(reply, entries) == Check(old(entries), email, otp, now)
    {
      if !Truthy(email) || !Truthy(otp) {
        return ParamsRequired;
      }
      var e := email.value;
      if e !in entries || now > entries[e].expires {
        if e in entries {
          entries := entries - {e};
        }
        return NotFoundOrExpired;
      }
      if otp.value == entries[e].code {
        entries := entries - {e};
        reply := Verified;
      } else {
        reply := InvalidOtp;
      }
    }
  }

  /** The mailed code verifies once inside the window (the expiry instant
      included); a second attempt with the same code finds no record. */
  lemma IssuedCodeVerifiesOnce(store: map<string, Record>, email: string, now: int, draw: nat,
                               delivery: Delivery, t: int, later: int)
    requires email != "" && LowestCode <= draw <= HighestCode
    requires now <= t <= now + Lifetime
    ensures var issued := Issue(store, Some(email), now, draw, delivery);
            var code := issued.store[email].code;
            var first := Check(issued.store, Some(email), Some(code), t);
            && issued.mail.value.body == MailBody(code)
            && first.reply == Verified
            && Check(first.store, Some(email), Some(code), later).reply == NotFoundOrExpired
  {
  }

  /** A wrong code inside the window is refused and changes nothing, so the
      right code still verifies afterwards. */
  lemma WrongCodeAllowsRetry(store: map<string, Record>, email: string, wrong: string, t: int, retry: int)
    requires email != "" && wrong != "" && Live(store, email, t) && wrong != store[email].code
    requires WellFormed(store) && retry <= store[email].expires
    ensures var first := Check(store, Some(email), Some(wrong), t);
            && first.reply == InvalidOtp && first.store == store
            && Check(first.store, Some(email), Some(store[email].code), retry).reply == Verified
  {
  }

  /** After the window the request is answered 410 and the record is gone,
      whatever code is offered. */
  lemma ExpiredCodeIsDiscarded(store: map<string, Record>, email: string, now: int, draw: nat,
                               delivery: Delivery, otp: string, t: int)
    requires email != "" && otp != "" && LowestCode <= draw <= HighestCode
    requires t > now + Lifetime
    ensures var issued := Issue(store, Some(email), now, draw, delivery);
            var checked := Check(issued.store, Some(email), Some(otp), t);
            && checked.reply == NotFoundOrExpired && checked.reply.Status() == 410
            && email !in checked.store
            && (forall other :: other in store && other != email ==> checked.store[other] == store[other])
  {
  }

  /** A new request replaces the earlier code: inside the new window the
      earlier code is refused unless the two draws were equal. */
  lemma ReissueReplacesCode(store: map<string, Record>, email: string, now1: int, draw1: nat, d1: Delivery,
                            now2: int, draw2: nat, d2: Delivery, t: int)
    requires email != "" && LowestCode <= draw1 <= HighestCode && LowestCode <= draw2 <= HighestCode
    requires draw1 != draw2 && now2 <= t <= now2 + Lifetime
    ensures var first := Issue(store, Some(email), now1, draw1, d1);
            var second := Issue(first.store, Some(email), now2, draw2, d2);
            Check(second.store, Some(email), Some(first.store[email].code), t).reply == InvalidOtp
  {
    var first := Issue(store, Some(email), now1, draw1, d1);
    var second := Issue(first.store, Some(email), now2, draw2, d2);
    if first.store[email].code == second.store[email].code {
      DecimalRoundTrip(draw1);
      DecimalRoundTrip(draw2);
    }
  }
}
