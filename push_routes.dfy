/** The push router: `/subscribe` checks the payload and stores the
    caller's endpoint, `/unsubscribe` checks for an endpoint and removes the
    caller's record for it. Both run after the token guard. */
module PushRoutes {
  import opened Js
  import opened PushModel

  /** `req.body.keys` when it is truthy; a truthy non-object has neither
      property, which is `Keys(Undefined, Undefined)`. */
  datatype Keys = Keys(p256dh: JsVal, auth: JsVal)

  datatype SubscribeBody = SubscribeBody(endpoint: JsVal, keys: Option<Keys>)

  datatype PushReply =
    | Registered        // 201 'Push subscription registered'
    | Removed           // 200 'Push subscription removed'
    | InvalidPayload    // 400 'Invalid subscription payload'
    | EndpointRequired  // 400 'Endpoint required'
    | PushServerError   // 500 'Server error'

  /** The row a subscribe payload stores for `user`, or None when line 10
      rejects it (endpoint, keys, keys.p256dh or keys.auth falsy). */
  function RowFor(b: SubscribeBody, user: Id): (r: Option<PushRow>)
    ensures r.None? <==>
      !Truthy(b.endpoint) || b.keys.None? || !Truthy(b.keys.value.p256dh) || !Truthy(b.keys.value.auth)
    ensures r.Some? ==>
      r.value.user_id == user && r.value.endpoint == b.endpoint && Truthy(r.value.endpoint)
      && r.value.p256dh == b.keys.value.p256dh && r.value.auth == b.keys.value.auth
  {
    if !Truthy(b.endpoint) || b.keys.None? || !Truthy(b.keys.value.p256dh) || !Truthy(b.keys.value.auth)
    then None
    else Some(PushRow(user, b.endpoint, b.keys.value.p256dh, b.keys.value.auth))
  }

  /** POST `/subscribe`. */
  method Subscribe(table: PushTable, user: Id, b: SubscribeBody, dbError: bool) returns (reply: PushReply)
    requires table.Valid()
    modifies table
    ensures table.Valid()
    ensures RowFor(b, user).None? ==> reply == InvalidPayload && table.rows == old(table.rows)
    ensures RowFor(b, user).Some? && dbError ==> reply == PushServerError && table.rows == old(table.rows)
    ensures RowFor(b, user).Some? && !dbError ==>
      reply == Registered && table.rows == Replace(old(table.rows), RowFor(b, user).value)
  {
    var row := RowFor(b, user);
    if row.None? {
      return InvalidPayload;
    }
    var ok := table.Add(row.value, dbError);
    reply := if ok then Registered else PushServerError;
  }

  /** POST `/unsubscribe`. */
  method Unsubscribe(table: PushTable, user: Id, endpoint: JsVal, dbError: bool) returns (reply: PushReply)
    requires table.Valid()
    modifies table
    ensures table.Valid()
    ensures !Truthy(endpoint) ==> reply == EndpointRequired && table.rows == old(table.rows)
    ensures Truthy(endpoint) && dbError ==> reply == PushServerError && table.rows == old(table.rows)
    ensures Truthy(endpoint) && !dbError ==>
      reply == Removed && table.rows == RemoveWhere(old(table.rows), user, endpoint)
  {
    if !Truthy(endpoint) {
      return EndpointRequired;
    }
    var ok := table.Remove(user, endpoint, dbError);
    reply := if ok then Removed else PushServerError;
  }
}
