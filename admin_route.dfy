/** POST `/notify-due-subscriptions` of the admin router: a shared-secret
    guard in front of the due-subscription notification pass. */
module AdminRoute {
  import opened Js
  import SubscriptionModel
  import PushModel
  import NotifyJob

  datatype AdminReply =
    | Unauthorized                   // 403 {error: 'Unauthorized'}
    | JobFailed(error: string)       // 500 {error: err.message}
    | NotificationsSent              // {status: 'ok', message: 'Notifications sent'}

  /** Line 14: the `x-admin-secret` header is truthy and strictly equal to
      `ADMIN_NOTIFY_SECRET` (None when the variable is unset). */
  predicate Authorised(header: Option<string>, secret: Option<string>) {
    header.Some? && header.value != "" && secret == header
  }

  /** An unset (or empty) secret rejects every request. */
  lemma UnsetSecretRejectsAll(header: Option<string>, secret: Option<string>)
    requires secret.None? || secret == Some("")
    ensures !Authorised(header, secret)
    ensures NotifyRoute(header, secret, NotifyJob.Run(NotifyJob.Completed, []), "") == Unauthorized
  {
  }

  /** The message of the TypeError raised by calling the imported module
      object, which is not a function. */
  const NotAFunction: string := "notifyDueSubscriptions is not a function"

  /** What `require('../notifyDueSubscriptions')` yields: the job module
      assigns nothing to `module.exports`, so the import is an empty object. */
  datatype JobExport = EmptyObject | JobFunction

  const ImportedJob: JobExport := EmptyObject

  /** The handler as written: the guard, then a call of the import, whose
      TypeError is caught and reported as a 500. */
  function NotifyRouteAsWritten(header: Option<string>, secret: Option<string>): (r: AdminReply)
    ensures !Authorised(header, secret) <==> r == Unauthorized
    ensures r != NotificationsSent
  {
    if !Authorised(header, secret) then Unauthorized
    else match ImportedJob
      case EmptyObject => JobFailed(NotAFunction)
      case JobFunction => NotificationsSent
  }

  /** Even a correctly authorised call never reaches the job. */
  lemma AuthorisedCallAlwaysFails(header: Option<string>, secret: Option<string>)
    requires Authorised(header, secret)
    ensures NotifyRouteAsWritten(header, secret) == JobFailed(NotAFunction)
  {
  }

  /** The handler with the job exported and awaited: the job's outcome is
      mapped to the reply; `errorMessage` is the message of whatever error the
      job propagates. */
  function NotifyRoute(header: Option<string>, secret: Option<string>, run: NotifyJob.Run, errorMessage: string)
    : (r: AdminReply)
    ensures !Authorised(header, secret) <==> r == Unauthorized
    ensures r == NotificationsSent <==> Authorised(header, secret) && run.outcome == NotifyJob.Completed
    ensures r.JobFailed? <==> Authorised(header, secret) && run.outcome != NotifyJob.Completed
    ensures r.JobFailed? ==> r.error == errorMessage
  {
    if !Authorised(header, secret) then Unauthorized
    else if run.outcome == NotifyJob.Completed then NotificationsSent
    else JobFailed(errorMessage)
  }

  /** The reply does not depend on which pushes the push service rejects. */
  lemma ReplyIgnoresSendFailures(header: Option<string>, secret: Option<string>, plan: seq<NotifyJob.Notice>,
                                 pushRows: seq<PushModel.PushRow>, fetchFails: Id -> bool,
                                 sendOk1: (PushModel.PushRow, NotifyJob.Message) -> bool,
                                 sendOk2: (PushModel.PushRow, NotifyJob.Message) -> bool, errorMessage: string)
    ensures NotifyRoute(header, secret, NotifyJob.Dispatch(plan, pushRows, fetchFails, sendOk1), errorMessage)
         == NotifyRoute(header, secret, NotifyJob.Dispatch(plan, pushRows, fetchFails, sendOk2), errorMessage)
  {
    NotifyJob.SendFailuresDoNotStopPass(plan, pushRows, fetchFails, sendOk1, sendOk2);
  }

  /** An authorised call whose endpoint fetches all succeed reports success. */
  lemma AuthorisedCompletePassSucceeds(header: Option<string>, secret: Option<string>, plan: seq<NotifyJob.Notice>,
                                       pushRows: seq<PushModel.PushRow>, fetchFails: Id -> bool,
                                       sendOk: (PushModel.PushRow, NotifyJob.Message) -> bool, errorMessage: string)
    requires Authorised(header, secret)
    requires forall i :: 0 <= i < |plan| ==> !fetchFails(plan[i].user)
    ensures NotifyRoute(header, secret, NotifyJob.Dispatch(plan, pushRows, fetchFails, sendOk), errorMessage)
         == NotificationsSent
  {
    NotifyJob.DispatchCompletes(plan, pushRows, fetchFails, sendOk);
  }

  /** The corrected handler end to end: it returns the reply and the sends
      the job made; a rejected request runs no part of the job. */
  method PostNotifyDueSubscriptions(header: Option<string>, secret: Option<string>,
                                    subs: seq<SubscriptionModel.Subscription>, pushRows: seq<PushModel.PushRow>,
                                    today: int, formatDate: int -> string, queryFails: bool, fetchFails: Id -> bool,
                                    sendOk: (PushModel.PushRow, NotifyJob.Message) -> bool, errorMessage: string)
    returns (reply: AdminReply, attempts: seq<NotifyJob.Attempt>)
    ensures !Authorised(header, secret) ==> reply == Unauthorized && attempts == []
    ensures Authorised(header, secret) && queryFails ==> reply == JobFailed(errorMessage) && attempts == []
    ensures Authorised(header, secret) && !queryFails ==>
      var run := NotifyJob.Dispatch(NotifyJob.Plan(NotifyJob.SelectDue(subs, today), formatDate), pushRows, fetchFails, sendOk);
      attempts == run.attempts && reply == NotifyRoute(header, secret, run, errorMessage)
  {
    if !Authorised(header, secret) {
      return Unauthorized, [];
    }
    var run := NotifyJob.NotifyDueSubscriptions(subs, pushRows, today, formatDate, queryFails, fetchFails, sendOk);
    reply := NotifyRoute(header, secret, run, errorMessage);
    attempts := run.attempts;
  }
}
