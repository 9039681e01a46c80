/** The persisted message record (one element of messages.json). */
module Messages {
  import opened Wrappers

  /** `'sent'` for an outbound message, `'received'` for one taken from a webhook. */
  datatype Status = Sent | Received

  /**
    One stored record. `createdAt` is the record's `created_at` as the integer
    that `strtotime` turns it into; `apiResponse` is absent on received messages,
    which have no `api_response` key.
   */
  datatype Message = Message(
    id: string,
    phone: string,
    message: string,
    status: Status,
    createdAt: int,
    apiResponse: Option<string>)
}
