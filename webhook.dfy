/**
  The provider's side of the controller: the webhook verification handshake
  (`verifyWebhook`, WhatsAppController.php lines 129-140) and the shape of an
  event payload (`handleWebhook`, lines 148-152).
 */
module Webhook {
  import opened Wrappers

  /** The token used when `services.whatsapp.verify_token` is not configured (line 135). */
  const DefaultVerifyToken: string := "ispwatch-token"

  const SubscribeMode: string := "subscribe"

  /** `response($challenge, 200)`, or the JSON `{"error": "Forbidden"}` with status 403. */
  datatype VerifyResponse = Challenge(body: Option<string>) | Forbidden

  function StatusCode(r: VerifyResponse): int {
    match r
    case Challenge(_) => 200
    case Forbidden => 403
  }

  /**
    The state of the `services.whatsapp.verify_token` configuration key: missing,
    or present with a string or with null.
   */
  datatype TokenSetting = Unset | Set(value: Option<string>)

  /**
    `config('services.whatsapp.verify_token', 'ispwatch-token')`: the default
    only when the key is missing; a key that holds null gives null.
   */
  function VerifyToken(setting: TokenSetting): Option<string> {
    match setting
    case Unset => Some(DefaultVerifyToken)
    case Set(v) => v
  }

  /**
    The handshake (lines 135-139): the challenge is echoed with status 200
    exactly when the mode is `subscribe` and the token is identical (`===`) to
    the configured value, null included; anything else is 403.
   */
  function VerifyWebhook(mode: Option<string>, token: Option<string>, challenge: Option<string>,
                         setting: TokenSetting): (r: VerifyResponse)
    ensures StatusCode(r) == 200 <==> mode == Some(SubscribeMode) && token == VerifyToken(setting)
    ensures r.Challenge? ==> r.body == challenge
  {
    if mode == Some(SubscribeMode) && token == VerifyToken(setting) then Challenge(challenge)
    else Forbidden
  }

  /** A request without a token passes only when the key is configured as null. */
  lemma MissingTokenPassesOnlyNullSetting(challenge: Option<string>, setting: TokenSetting)
    ensures StatusCode(VerifyWebhook(Some(SubscribeMode), None, challenge, setting)) == 200 <==> setting == Set(None)
  {
  }

  lemma HandshakeExamples()
    ensures VerifyWebhook(Some("subscribe"), Some("ispwatch-token"), Some("xyz"), Unset) == Challenge(Some("xyz"))
    ensures StatusCode(VerifyWebhook(Some("subscribe"), Some("wrong"), Some("xyz"), Unset)) == 403
    ensures StatusCode(VerifyWebhook(Some("subscribe"), Some("ispwatch-token"), Some("xyz"), Set(Some("secret")))) == 403
    ensures VerifyWebhook(Some("subscribe"), None, Some("xyz"), Set(None)) == Challenge(Some("xyz"))
    ensures StatusCode(VerifyWebhook(Some("subscribe"), Some("ispwatch-token"), Some("xyz"), Set(None))) == 403
  {
  }

  // ---------------------------------------------------------------------------
  // Event payloads: the part of the decoded JSON body the controller reads.
  // A missing key is an empty sequence or None.

  datatype Text = Text(body: Option<string>)
  datatype InboundMessage = InboundMessage(id: string, from: string, text: Option<Text>)
  datatype ChangeValue = ChangeValue(messages: seq<InboundMessage>)
  datatype Change = Change(value: Option<ChangeValue>)
  datatype Entry = Entry(changes: seq<Change>)
  datatype Payload = Payload(entry: seq<Entry>)

  /** `isset($payload['entry'][0]['changes'][0]['value']['messages'][0])` (line 148). */
  predicate HasMessage(p: Payload) {
    && |p.entry| > 0
    && |p.entry[0].changes| > 0
    && p.entry[0].changes[0].value.Some?
    && |p.entry[0].changes[0].value.value.messages| > 0
  }

  /** The message that line 149 reads. */
  function FirstMessage(p: Payload): InboundMessage
    requires HasMessage(p)
  {
    p.entry[0].changes[0].value.value.messages[0]
  }

  /** `$messageData['text']['body'] ?? ''` (line 152). */
  function TextBody(m: InboundMessage): string {
    match m.text
    case Some(t) => t.body.GetOr("")
    case None => ""
  }
}
