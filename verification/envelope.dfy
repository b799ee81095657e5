/**
 From a raw source entry to an envelope: the required fields.
 */
module EnvelopeParsing {
  import opened Prelude
  import opened Aggregation

  /** What JSON decoding makes of the bytes. A missing field decodes as the empty string. */
  datatype Raw = Malformed | Decoded(eventId: string, gateway: string, payload: string, receivedAt: int)

  datatype Fault = BadJson | NoEventId | NoGateway | NoPayload

  datatype Parsed = Ok(env: Envelope) | Unprocessable(fault: Fault)

  /** The first rule a decoded entry breaks. */
  function Validate(r: Raw): Option<Fault>
    requires r.Decoded?
  {
    if r.eventId == "" then Some(NoEventId)
    else if r.gateway == "" then Some(NoGateway)
    else if r.payload == "" || r.payload == "null" then Some(NoPayload)
    else None
  }

  function Parse(raw: Raw): Parsed {
    if raw.Malformed? then Unprocessable(BadJson) else
    var fault := Validate(raw);
    if fault.Some? then Unprocessable(fault.value) else Ok(Envelope(raw.gateway, raw.receivedAt))
  }

  /**
   An entry becomes an envelope exactly when it has every required field, and the envelope names its gateway and when it
   was received; otherwise the fault is the first field that is missing.
   */
  lemma ParsedExactly(raw: Raw)
    ensures Parse(raw).Ok? <==>
      raw.Decoded? && raw.eventId != "" && raw.gateway != "" && raw.payload != "" && raw.payload != "null"
    ensures Parse(raw) == Unprocessable(BadJson) <==> raw.Malformed?
    ensures Parse(raw) == Unprocessable(NoEventId) <==> raw.Decoded? && raw.eventId == ""
    ensures Parse(raw) == Unprocessable(NoGateway) <==> raw.Decoded? && raw.eventId != "" && raw.gateway == ""
    ensures Parse(raw).Ok? ==> Parse(raw).env == Envelope(raw.gateway, raw.receivedAt) && Parse(raw).env.gateway != ""
  {
  }
}
