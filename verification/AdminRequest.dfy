/**
 One call of the management API (requestWithSemantics in adminclient/client.go): authorization before every send,
 retries after retryable outcomes, and a single send for the creation of an account.
 */
module AdminRequest {
  import opened Common

  /** What one send came to, as the transport and decodeResponse report it. */
  datatype Answer<T> =
    | Decoded(payload: T)
    | Broken                         // the transport failed, so the outcome at the site is unknown
    | Unreadable(retryable: bool)    // an answer came, but not a readable one
    | Refused(status: nat)           // a status outside 200-299
    | Declined                       // the site reports a failure, or that monitoring is disabled

  datatype Failure =
    | Denied(attempted: bool)        // the authorization was withdrawn
    | CommitUnknown                  // an account may have been created
    | Cancelled
    | NotSent                        // the request could not even be built
    | Failed

  datatype Event<T> = Authorized(granted: bool) | Sent(answer: Answer<T>)

  predicate Retryable<T>(answer: Answer<T>) {
    match answer
    case Broken => true
    case Unreadable(retryable) => retryable
    case Refused(status) => status == 408 || status == 425 || status == 429 || status >= 500
    case _ => false
  }

  /** The site may have created the account although the answer is not a success. */
  predicate MayHaveCommitted<T>(answer: Answer<T>) {
    match answer
    case Broken => true
    case Unreadable(_) => true
    case Refused(status) => status == 408 || status >= 500
    case _ => false
  }

  /** What a call did, latest event last. */
  datatype Trace<T> = Start | Then(before: Trace<T>, event: Event<T>)

  function Sends<T>(t: Trace<T>): nat {
    if t.Start? then 0 else Sends(t.before) + if t.event.Sent? then 1 else 0
  }

  function Answers<T>(t: Trace<T>): seq<Answer<T>> {
    if t.Start? then [] else Answers(t.before) + if t.event.Sent? then [t.event.answer] else []
  }

  /** The creation of an account is sent once at most. */
  function Limit(attempts: nat, create: bool): nat {
    if create then 1 else attempts
  }

  function LastAnswer<T>(t: Trace<T>): Option<Answer<T>> {
    if t.Start? then None else if t.event.Sent? then Some(t.event.answer) else LastAnswer(t.before)
  }

  /** Every write is sent right after a granted authorization, and only a retryable outcome is followed by anything. */
  predicate Orderly<T>(t: Trace<T>, write: bool) {
    t.Then? ==>
      && Orderly(t.before, write)
      && (t.event.Authorized? ==> write)
      && (t.event.Sent? && write ==> t.before.Then? && t.before.event.Authorized? && t.before.event.granted)
      && (t.before.Then? && t.before.event.Sent? ==> Retryable(t.before.event.answer))
      && (t.before.Then? && t.before.event.Authorized? ==> t.before.event.granted)
  }

  predicate EndsDenied<T>(t: Trace<T>) {
    t.Then? && t.event.Authorized? && !t.event.granted
  }

  /**
   `answers` stands for the outcomes of the sends, in order; the context is found ended after send number `ended`,
   counted from 0, and was live after all before.
   */
  method Request<T>(attempts: nat, write: bool, create: bool, buildable: bool, ended: nat, answers: seq<Answer<T>>)
    returns (result: Result<T, Failure>, trace: Trace<T>)
    requires attempts >= 1 && (create ==> write) && |answers| >= attempts
    ensures Orderly(trace, write) && Sends(trace) <= Limit(attempts, create) && Sends(trace) <= ended + 1
    ensures Answers(trace) == answers[..Sends(trace)]
    ensures result.Ok? ==> trace.Then? && trace.event == Sent(Decoded(result.value))
    ensures LastAnswer(trace).Some? && LastAnswer(trace).value.Decoded? ==> result.Ok?
    ensures EndsDenied(trace) <==> result.Err? && result.error.Denied?
    ensures result.Err? && result.error.Denied? ==> (result.error.attempted <==> Sends(trace) > 0)
    ensures result == Err(NotSent) <==> !buildable && !EndsDenied(trace)
    // Retryable outcomes are followed up until the context ends or the attempts are used up.
    ensures result == Err(Failed) <==>
      && trace.Then? && trace.event.Sent? && !trace.event.answer.Decoded? && result != Err(CommitUnknown)
      && (!Retryable(trace.event.answer) || (Sends(trace) == Limit(attempts, create) && Sends(trace) <= ended))
    ensures result == Err(Cancelled) <==>
      && trace.Then? && trace.event.Sent? && Retryable(trace.event.answer) && result != Err(CommitUnknown)
      && Sends(trace) == ended + 1
    ensures result == Err(CommitUnknown) <==>
      create && LastAnswer(trace).Some? && MayHaveCommitted(LastAnswer(trace).value)
  {
    trace := Start;
    var limit := Limit(attempts, create);
    for attempt := 0 to limit
      invariant Orderly(trace, write) && Sends(trace) == attempt && Answers(trace) == answers[..attempt]
      invariant attempt <= ended || (attempt == ended + 1 == limit)
      invariant if attempt == 0 then trace == Start else trace.Then? && trace.event.Sent? && Retryable(trace.event.answer)
      invariant LastAnswer(trace).Some? ==> Retryable(LastAnswer(trace).value)
      invariant attempt > 0 ==> buildable && (create ==> !MayHaveCommitted(trace.event.answer))
    {
      if write {
        var granted: bool := *;
        trace := Then(trace, Authorized(granted));
        if !granted { return Err(Denied(attempt > 0)), trace; }
      }
      if !buildable { return Err(NotSent), trace; }
      var answer := answers[attempt];
      trace := Then(trace, Sent(answer));
      if answer.Decoded? { return Ok(answer.payload), trace; }
      if create && MayHaveCommitted(answer) { return Err(CommitUnknown), trace; }
      if answer.Broken? && attempt == ended { return Err(Cancelled), trace; }
      if !Retryable(answer) { return Err(Failed), trace; }
      if attempt + 1 < limit && attempt == ended { return Err(Cancelled), trace; }
    }
    result := Err(if ended < limit then Cancelled else Failed);
  }
}
