/** The handlers of the subscriptions router: list, get one (404 when the
    caller owns no such row), create and update (billing cycle lower-cased,
    then checked against the five allowed values before any other validation
    result is looked at; optional fields defaulted with `||`), and delete.
    Every handler runs after the token guard and gets the token's user id. */
module SubscriptionRoutes {
  import opened Js
  import opened SubscriptionModel

  const AllowedCycles: seq<string> := ["weekly", "biweekly", "monthly", "quarterly", "yearly"]

  /** The request-body fields the create and update handlers read. The
      ISO-8601 date is given as the calendar day it denotes. */
  datatype Body = Body(
    name: JsVal, price: JsVal, billing_cycle: JsVal, category: JsVal,
    description: JsVal, next_billing_date: int, color: JsVal, logo: JsVal,
    website: JsVal, notes: JsVal, currency: JsVal)

  /** One entry of the `errors` array of a 400 reply. */
  datatype FieldError = FieldError(value: JsVal, msg: string, path: string, location: string)

  datatype Reply =
    | Listed(subs: seq<Subscription>)            // 200
    | Found(sub: Subscription)                   // 200
    | Created(id: Id)                            // 201 'Subscription created'
    | Updated                                    // 200 'Subscription updated'
    | Deleted                                    // 200 'Subscription deleted'
    | BadRequest(errors: seq<FieldError>)        // 400
    | NotFound                                   // 404 'Not found'
    | ServerError                                // 500 'Server error'
    | Uncaught                                   // the handler throws outside its try

  /** The billing cycle after lines 45-47 (and 104-106): a truthy value is
      lower-cased; a truthy non-string has no `toLowerCase`, so the call
      throws (None). */
  function NormalizeCycle(v: JsVal): Option<JsVal> {
    if !Truthy(v) then Some(v)
    else if v.Str? then Some(Str(Lower(v.s)))
    else None
  }

  datatype CycleCheck = CycleOk(cycle: string) | CycleRejected(error: FieldError) | CycleThrows

  /** Normalisation followed by the `allowedCycles.includes` test. */
  function CheckCycle(v: JsVal): (r: CycleCheck)
    ensures r.CycleThrows? <==> Truthy(v) && !v.Str?
    ensures r.CycleOk? <==> v.Str? && Lower(v.s) in AllowedCycles
    ensures r.CycleOk? ==> r.cycle == Lower(v.s) && r.cycle in AllowedCycles
    ensures r.CycleRejected? ==>
      r.error == FieldError(if v.Str? then Str(Lower(v.s)) else v, "Invalid value", "billing_cycle", "body")
  {
    match NormalizeCycle(v)
    case None => CycleThrows
    case Some(n) =>
      if n.Str? && n.s in AllowedCycles then CycleOk(n.s)
      else CycleRejected(FieldError(n, "Invalid value", "billing_cycle", "body"))
  }

  /** "MONTHLY" is accepted and stored as "monthly"; "Daily" is refused. */
  lemma CheckCycleExamples()
    ensures CheckCycle(Str("MONTHLY")) == CycleOk("monthly")
    ensures CheckCycle(Str("Daily")).CycleRejected?
    ensures CheckCycle(Undefined).CycleRejected?
    ensures CheckCycle(Num(7)) == CycleThrows
  {
    assert Lower("MONTHLY") == "monthly";
    var d := Lower("Daily");
    assert d[0] == 'd';
    assert d !in AllowedCycles by {
      assert |d| == 5;
      assert d != "yearly" && d != "weekly" && d != "monthly";
    }
  }

  /** The eleven column values of lines 69-79 / 126-136, with the `||`
      defaults. */
  function ChangesFrom(b: Body, cycle: string): Changes {
    Changes(b.name, b.price, cycle, b.category, Or(b.description, Str("")),
            b.next_billing_date, Or(b.color, Null), Or(b.logo, Null),
            Or(b.website, Null), Or(b.notes, Null), Or(b.currency, Str("USD")))
  }

  /** What it means for stored columns to carry a body: the required fields
      as sent, each optional field as sent when truthy and its default
      ('' / null / 'USD') when falsy. */
  predicate CarriesBody(b: Body, c: Changes) {
    && c.name == b.name && c.price == b.price && c.category == b.category
    && c.next_billing_date == b.next_billing_date
    && c.description == (if Truthy(b.description) then b.description else Str(""))
    && c.color == (if Truthy(b.color) then b.color else Null)
    && c.logo == (if Truthy(b.logo) then b.logo else Null)
    && c.website == (if Truthy(b.website) then b.website else Null)
    && c.notes == (if Truthy(b.notes) then b.notes else Null)
    && c.currency == (if Truthy(b.currency) then b.currency else Str("USD"))
  }

  datatype Step<A> = Respond(reply: Reply) | Write(payload: A)

  /** The decision of the POST handler before it touches the table:
      `validation` is what express-validator collected for the other fields. */
  function DecideCreate(b: Body, user: Id, newId: Id, validation: seq<FieldError>): (d: Step<Subscription>)
    ensures d.Write? <==> CheckCycle(b.billing_cycle).CycleOk? && validation == []
    ensures d == Respond(Uncaught) <==> CheckCycle(b.billing_cycle).CycleThrows?
    ensures CheckCycle(b.billing_cycle).CycleRejected? ==>
      d == Respond(BadRequest([CheckCycle(b.billing_cycle).error]))
    ensures CheckCycle(b.billing_cycle).CycleOk? && validation != [] ==> d == Respond(BadRequest(validation))
    ensures d.Write? ==>
      && d.payload.id == newId && d.payload.user_id == user
      && d.payload.billing_cycle in AllowedCycles
      && d.payload.billing_cycle == Lower(b.billing_cycle.s)
      && CarriesBody(b, ChangesOf(d.payload))
  {
    match CheckCycle(b.billing_cycle)
    case CycleThrows => Respond(Uncaught)
    case CycleRejected(e) => Respond(BadRequest([e]))
    case CycleOk(cycle) =>
      if validation != [] then Respond(BadRequest(validation))
      else
        var c := ChangesFrom(b, cycle);
        Write(Subscription(newId, user, c.name, c.price, c.billing_cycle, c.category,
                           c.description, c.next_billing_date, c.color, c.logo,
                           c.website, c.notes, c.currency))
  }

  /** The decision of the PUT handler before it touches the table. */
  function DecideUpdate(b: Body, validation: seq<FieldError>): (d: Step<Changes>)
    ensures d.Write? <==> CheckCycle(b.billing_cycle).CycleOk? && validation == []
    ensures d == Respond(Uncaught) <==> CheckCycle(b.billing_cycle).CycleThrows?
    ensures CheckCycle(b.billing_cycle).CycleRejected? ==>
      d == Respond(BadRequest([CheckCycle(b.billing_cycle).error]))
    ensures CheckCycle(b.billing_cycle).CycleOk? && validation != [] ==> d == Respond(BadRequest(validation))
    ensures d.Write? ==>
      && d.payload.billing_cycle in AllowedCycles
      && d.payload.billing_cycle == Lower(b.billing_cycle.s)
      && CarriesBody(b, d.payload)
  {
    match CheckCycle(b.billing_cycle)
    case CycleThrows => Respond(Uncaught)
    case CycleRejected(e) => Respond(BadRequest([e]))
    case CycleOk(cycle) =>
      if validation != [] then Respond(BadRequest(validation)) else Write(ChangesFrom(b, cycle))
  }

  /** The row the create handler builds is stored as built: its currency is
      already truthy, so the model's own `|| 'USD'` changes nothing, and its
      cycle is already lower case. */
  lemma CreatedRowStoredAsBuilt(b: Body, user: Id, newId: Id, validation: seq<FieldError>)
    requires DecideCreate(b, user, newId, validation).Write?
    ensures Inserted(DecideCreate(b, user, newId, validation).payload)
            == DecideCreate(b, user, newId, validation).payload
    ensures Lower(Inserted(DecideCreate(b, user, newId, validation).payload).billing_cycle)
            == Inserted(DecideCreate(b, user, newId, validation).payload).billing_cycle
  {
    LowerIdempotent(b.billing_cycle.s);
  }

  /** GET `/`: the caller's rows. */
  function ListReply(rows: seq<Subscription>, user: Id, dbError: bool): (r: Reply)
    ensures dbError <==> r == ServerError
    ensures !dbError ==> r.Listed? && forall x :: x in r.subs <==> x in rows && x.user_id == user
  {
    if dbError then ServerError else Listed(SelectByUser(rows, user))
  }

  /** GET `/:id`: 404 unless the caller owns a row with that id. */
  function GetReply(rows: seq<Subscription>, id: Id, user: Id, dbError: bool): (r: Reply)
    ensures dbError <==> r == ServerError
    ensures r == NotFound <==> !dbError && forall x :: x in rows ==> !Owns(x, id, user)
    ensures r.Found? ==> r.sub in rows && r.sub.id == id && r.sub.user_id == user
  {
    if dbError then ServerError
    else match SelectById(rows, id, user)
      case None => NotFound
      case Some(s) => Found(s)
  }

  /** Asking for another user's subscription by its id gives 404. */
  lemma ForeignIdNotFound(rows: seq<Subscription>, k: nat, user: Id)
    requires UniqueIds(rows) && k < |rows| && rows[k].user_id != user
    ensures GetReply(rows, rows[k].id, user, false) == NotFound
  {
    forall x | x in rows ensures !Owns(x, rows[k].id, user) {
      var j :| 0 <= j < |rows| && rows[j] == x;
      assert j != k ==> rows[j].id != rows[k].id;
    }
  }

  /** POST `/`. */
  method PostSubscription(table: SubscriptionTable, user: Id, b: Body, validation: seq<FieldError>,
                          newId: Id, dbError: bool) returns (reply: Reply)
    requires table.Valid()
    modifies table
    ensures table.Valid()
    ensures DecideCreate(b, user, newId, validation).Respond? ==>
      reply == DecideCreate(b, user, newId, validation).reply && table.rows == old(table.rows)
    ensures DecideCreate(b, user, newId, validation).Write? ==>
      var row := DecideCreate(b, user, newId, validation).payload;
      if !dbError && !HasId(old(table.rows), newId)
      then reply == Created(newId) && table.rows == old(table.rows) + [row]
      else reply == ServerError && table.rows == old(table.rows)
  {
    var d := DecideCreate(b, user, newId, validation);
    if d.Respond? {
      return d.reply;
    }
    CreatedRowStoredAsBuilt(b, user, newId, validation);
    var ok := table.Create(d.payload, dbError);
    reply := if ok then Created(newId) else ServerError;
  }

  /** PUT `/:id`: updates only the row with this id owned by the caller; the
      reply is 200 even when no row matched. */
  method PutSubscription(table: SubscriptionTable, id: Id, user: Id, b: Body,
                         validation: seq<FieldError>, dbError: bool) returns (reply: Reply)
    requires table.Valid()
    modifies table
    ensures table.Valid()
    ensures DecideUpdate(b, validation).Respond? ==>
      reply == DecideUpdate(b, validation).reply && table.rows == old(table.rows)
    ensures DecideUpdate(b, validation).Write? ==>
      if dbError then reply == ServerError && table.rows == old(table.rows)
      else reply == Updated &&
           table.rows == UpdateWhere(old(table.rows), id, user, DecideUpdate(b, validation).payload)
  {
    var d := DecideUpdate(b, validation);
    if d.Respond? {
      return d.reply;
    }
    var ok := table.Update(id, user, d.payload, dbError);
    reply := if ok then Updated else ServerError;
  }

  /** DELETE `/:id`: removes only the caller's row; 200 even when none matched. */
  method DeleteSubscriptionRoute(table: SubscriptionTable, id: Id, user: Id, dbError: bool)
    returns (reply: Reply)
    requires table.Valid()
    modifies table
    ensures table.Valid()
    ensures reply == (if dbError then ServerError else Deleted)
    ensures table.rows == if dbError then old(table.rows) else DeleteWhere(old(table.rows), id, user)
  {
    var ok := table.Delete(id, user, dbError);
    reply := if ok then Deleted else ServerError;
  }
}
