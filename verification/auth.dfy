/**
 * The `require_api_key` decision wrapped around every protected endpoint:
 * the key stored on the server (the stripped text of `api_key.txt`, or none
 * when the file is missing or unreadable) against the `X-API-KEY` header.
 */
module Auth {
  import opened Common

  datatype Decision = NotConfigured | Rejected | Granted

  const NotConfiguredMsg: string := "server_api_key_no_configurada"
  const RejectedMsg: string := "api_key_invalida_o_faltante"

  /**
   * No stored key: every request is refused as not configured, whatever it
   * sends. Otherwise an absent or empty header, or one that differs from the
   * key, is rejected; only an exact, non-empty match passes.
   */
  function Gate(serverKey: Option<string>, header: Option<string>): (d: Decision)
    ensures d == NotConfigured <==> serverKey.None?
    ensures d == Granted <==> serverKey.Some? && header.Some? && header.value != "" && header.value == serverKey.value
    ensures d == Rejected <==> serverKey.Some? && (header.GetOr("") == "" || header.value != serverKey.value)
  {
    if serverKey.None? then NotConfigured
    else
      var h := header.GetOr("");
      if h == "" || h != serverKey.value then Rejected else Granted
  }

  /** The HTTP status the wrapper answers with when it does not call the endpoint. */
  function RefusalStatus(d: Decision): (status: nat)
    requires d != Granted
    ensures status == 403 <==> d == NotConfigured
    ensures status == 401 <==> d == Rejected
  {
    match d
    case NotConfigured => 403
    case Rejected => 401
  }

  /** The `error` field of the refusal. */
  function RefusalMessage(d: Decision): (msg: string)
    requires d != Granted
    ensures msg == NotConfiguredMsg <==> d == NotConfigured
    ensures msg == RejectedMsg <==> d == Rejected
  {
    assert NotConfiguredMsg[0] != RejectedMsg[0];
    match d
    case NotConfigured => NotConfiguredMsg
    case Rejected => RejectedMsg
  }

  /** An empty `api_key.txt` is a configured key that no request can match. */
  lemma EmptyKeyAdmitsNobody(header: Option<string>)
    ensures Gate(Some(""), header) == Rejected
  {
  }
}
