/** Values shared by the endpoints: optional JSON fields, Python truthiness,
    Python's formatting of an optional string, and the mail sender's result. */
module Common {

  datatype Option<+T> = None | Some(value: T) {
    function GetOr(default: T): T {
      match this
      case Some(v) => v
      case None => default
    }
  }

  /** `bool(v)` for a field read with `data.get(key)`: an absent key, a
      null and the empty string are all falsy. */
  predicate Truthy(v: Option<string>) {
    v.Some? && v.value != ""
  }

  /** `data.get(key) or None`: a falsy field becomes None, a truthy one is
      kept as it is. */
  function OrNone(v: Option<string>): (r: Option<string>)
    ensures r.Some? <==> Truthy(v)
    ensures r.Some? ==> r == v
  {
    if Truthy(v) then v else None
  }

  /** `f"{v}"` for a value that is a string or None. */
  function Show(v: Option<string>): string {
    match v
    case Some(s) => s
    case None => "None"
  }

  /** What the transactional mail API does with one message. */
  datatype Delivery =
    | Accepted        // send_transac_email returns
    | ApiRejected     // send_transac_email raises ApiException
    | TransportError  // any other exception

  /** The boolean result of send_otp_email and send_ticket_email: True when
      the API accepts the message, False when it raises ApiException (which
      both helpers catch), and None when any other exception escapes. */
  function SendResult(d: Delivery): (r: Option<bool>)
    ensures r == Some(true) <==> d == Accepted
    ensures r == Some(false) <==> d == ApiRejected
    ensures r == None <==> d == TransportError
  {
    match d
    case Accepted => Some(true)
    case ApiRejected => Some(false)
    case TransportError => None
  }
}
