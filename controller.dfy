/**
  The controller (WhatsAppController.php) with its persisted state: the list of
  records in messages.json, held as the field `messages`. `Index` reads it,
  `Store` and `HandleWebhook` each read it, append at most one record, and
  write it back.
 */
module Controller {
  import opened Wrappers
  import opened Phone
  import opened Messages
  import opened Conversations
  import opened Webhook

  /** What `WhatsAppService::sendMessage` answers: `['success' => true, 'data' => ...]` or `['success' => false, 'error' => ...]`. */
  datatype SendResult = SendOk(data: Option<string>) | SendFailed(error: Option<string>)

  /** How `store` ends: validation errors, a redirect after sending, or a redirect with the send error. */
  datatype StoreOutcome = Rejected | Delivered(phone: string) | NotDelivered(phone: string, error: string)

  /** `api_response` of a record sent without provider data (line 117). */
  const MockResponse: string := "mock"

  /** The error shown when the service gives no error text (line 126). */
  const UnknownError: string := "Unknown error"

  /** The acknowledgement every webhook event gets (line 177). */
  const EventReceived: string := "EVENT_RECEIVED"

  /** The characters PHP's `trim` removes, which the `required` rule ignores. */
  predicate IsTrimmed(c: char) {
    c == ' ' || c == '\t' || c == '\n' || c == '\r' || c == '\0' || c == '\U{000B}'
  }

  /** `'phone' => 'required|numeric|digits_between:10,15'` (line 94): 10 to 15 ASCII digits and nothing else. */
  predicate ValidPhoneInput(phone: string) {
    AllDigits(phone) && 10 <= |phone| <= 15
  }

  /** `'message' => 'required|string'` (line 95): not empty once trimmed. */
  predicate ValidMessageInput(text: string) {
    exists i :: 0 <= i < |text| && !IsTrimmed(text[i])
  }

  /** The record `store` appends (lines 111-118). */
  function SentRecord(id: string, phone: string, text: string, data: Option<string>, now: int): Message {
    Message(id, phone, text, Sent, now, Some(data.GetOr(MockResponse)))
  }

  /** The record `handleWebhook` appends (lines 163-169). */
  function ReceivedRecord(m: InboundMessage, now: int): (r: Message)
    ensures Key(r) == r.phone && AllDigits(r.phone)
  {
    NormalizeIdempotent(m.from);
    Message(m.id, Normalize(m.from), TextBody(m), Received, now, None)
  }

  class WhatsAppController {
    /** The decoded contents of messages.json, oldest record first. */
    var messages: seq<Message>

    /** A controller over the stored log (empty when the file does not exist). */
    constructor (stored: seq<Message>)
      ensures messages == stored
    {
      messages := stored;
    }

    /** `index` (lines 33-89) without the rendering. */
    method Index(query: Option<string>) returns (view: Dashboard)
      ensures IsListing(messages, view.conversations)
      ensures ActiveChosen(query, view)
    {
      view := BuildDashboard(messages, query);
    }

    /**
      `store` (lines 91-127). The send service is `send`, called with the
      normalised phone; `id` and `now` stand for `uniqid()` and `now()`.
      Invalid input changes nothing; a successful send appends exactly one
      record; a failed send changes nothing and reports the error.
     */
    method Store(phone: string, text: string, send: (string, string) -> SendResult, id: string, now: int)
      returns (outcome: StoreOutcome)
      modifies this
      ensures !(ValidPhoneInput(phone) && ValidMessageInput(text)) ==> outcome == Rejected && messages == old(messages)
      ensures ValidPhoneInput(phone) && ValidMessageInput(text) ==>
                var p := Normalize(phone);
                match send(p, text)
                case SendOk(data) =>
                  outcome == Delivered(p) && messages == old(messages) + [SentRecord(id, p, text, data, now)]
                case SendFailed(error) =>
                  outcome == NotDelivered(p, error.GetOr(UnknownError)) && messages == old(messages)
    {
      if !(ValidPhoneInput(phone) && ValidMessageInput(text)) {
        return Rejected;
      }
      var p := Normalize(phone);
      var result := send(p, text);
      match result
      case SendOk(data) =>
        messages := messages + [SentRecord(id, p, text, data, now)];
        outcome := Delivered(p);
      case SendFailed(error) =>
        outcome := NotDelivered(p, error.GetOr(UnknownError));
    }

    /**
      `handleWebhook` (lines 142-178): a payload carrying a message appends
      exactly one received record; any other payload changes nothing. Every
      payload is acknowledged.
     */
    method HandleWebhook(payload: Payload, now: int) returns (ack: string)
      modifies this
      ensures HasMessage(payload) ==> messages == old(messages) + [ReceivedRecord(FirstMessage(payload), now)]
      ensures !HasMessage(payload) ==> messages == old(messages)
      ensures ack == EventReceived
    {
      if HasMessage(payload) {
        var m := FirstMessage(payload);
        messages := messages + [ReceivedRecord(m, now)];
      }
      ack := EventReceived;
    }
  }

  // ---------------------------------------------------------------------------
  // How the writes meet the read side

  /** A stored record already carries its grouping key: reading it back does not move it to another conversation. */
  lemma SentRecordKeyIsItsPhone(id: string, phone: string, text: string, data: Option<string>, now: int)
    ensures var r := SentRecord(id, Normalize(phone), text, data, now);
            Key(r) == r.phone
  {
    NormalizeIdempotent(phone);
  }

  /** A valid send form stores a phone that would pass the form's phone rule again. */
  lemma StoredPhoneStaysValid(phone: string)
    requires ValidPhoneInput(phone)
    ensures ValidPhoneInput(Normalize(phone))
  {
    NormalizeKeepsFormLength(phone);
  }

  /**
    A record appended with a time no earlier than any stored one sets the time
    at the head of the conversation list, and lands in the conversation of its
    own phone.
   */
  lemma AppendedNewestRecordLeadsListing(log: seq<Message>, r: Message, list: seq<Conversation>)
    requires forall x :: x in log ==> x.createdAt <= r.createdAt
    requires IsListing(log + [r], list)
    ensures list != [] && list[0].lastMessage.createdAt == r.createdAt
    ensures exists j :: 0 <= j < |list| && list[j].phone == Key(r) && r in list[j].messages
  {
    var log' := log + [r];
    assert r in log';
    FirstConversationIsNewest(log', list, r);
    var c := list[0];
    assert c.lastMessage in c.messages;
    ThreadMembers(log', c, c.lastMessage);
    ListingPartitionsLog(log', list, r);
    var j :| 0 <= j < |list| && list[j].phone == Key(r) && multiset(list[j].messages)[r] == multiset(log')[r];
    assert r in multiset(log');
  }

  /** The 9-digit phone posted by the repository's feature test fails the form's phone rule, so `store` rejects it. */
  lemma NineDigitPhoneIsRejected()
    ensures !ValidPhoneInput("123456789")
  {
  }
}
