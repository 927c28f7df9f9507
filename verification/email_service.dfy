/**
  `EmailServiceImpl`: an incoming message is sent once and stored with the
  outcome; a periodic pass re-sends every stored email whose status is ERROR.
  The mail sender is an abstract outcome per attempt, the clock an abstract
  instant, and the Elasticsearch repository a map from document id to email.
 */
module EmailService {
  import opened Wrappers

  /** The two statuses the service assigns to an email. */
  datatype EmailStatus = Sent | Error

  type Instant = int

  /** The stored document; its id is the key it is stored under. */
  datatype Email = Email(
    to: Option<string>,
    subject: Option<string>,
    content: Option<string>,
    status: Option<EmailStatus>,
    errorMessage: Option<string>,
    attemptCount: int,
    lastAttemptTime: Option<Instant>)

  /** EmailMessageDto as it arrives. */
  datatype EmailMessage = EmailMessage(to: Option<string>, subject: Option<string>, content: Option<string>)

  /** What one call of the mail sender does: return, or raise an exception with a simple class name and a message. */
  datatype SendOutcome = Delivered | Raised(exceptionName: string, message: string)

  type EmailStore = map<string, Email>

  /** The mapper: the three message fields are copied, nothing else is set, and the attempt count starts at 0. */
  function ToModel(dto: EmailMessage): (e: Email)
    ensures e.to == dto.to && e.subject == dto.subject && e.content == dto.content
    ensures e.status.None? && e.errorMessage.None? && e.lastAttemptTime.None?
    ensures e.attemptCount == 0
  {
    Email(dto.to, dto.subject, dto.content, None, None, 0, None)
  }

  function ErrorText(exceptionName: string, message: string): string {
    exceptionName + ": " + message
  }

  /**
    One send attempt recorded on the email: SENT when the sender returns,
    ERROR with "<class name>: <message>" when it raises, and the attempt time
    in every case. A success leaves any earlier error message in place.
   */
  function RecordAttempt(e: Email, outcome: SendOutcome, now: Instant): (r: Email)
    ensures r.status == Some(Sent) <==> outcome.Delivered?
    ensures r.status == Some(Error) <==> outcome.Raised?
    ensures outcome.Delivered? ==> r.errorMessage == e.errorMessage
    ensures outcome.Raised? ==> r.errorMessage == Some(ErrorText(outcome.exceptionName, outcome.message))
    ensures r.lastAttemptTime == Some(now)
    ensures r.attemptCount == e.attemptCount
    ensures r.to == e.to && r.subject == e.subject && r.content == e.content
  {
    match outcome
    case Delivered => e.(status := Some(Sent), lastAttemptTime := Some(now))
    case Raised(name, message) =>
      e.(status := Some(Error), errorMessage := Some(ErrorText(name, message)), lastAttemptTime := Some(now))
  }

  /**
    `handleEmailMessage`: the message becomes a new email, is sent once, and
    is saved exactly once under the id the store assigns, whatever the
    outcome; no other stored email changes and the attempt count stays 0.
   */
  function HandleEmailMessage(store: EmailStore, dto: EmailMessage, id: string, outcome: SendOutcome, now: Instant)
    : (updated: EmailStore)
    requires id !in store
    ensures updated.Keys == store.Keys + {id}
    ensures |updated| == |store| + 1
    ensures forall k :: k in store && k != id ==> updated[k] == store[k]
    ensures updated[id].status == Some(Sent) <==> outcome.Delivered?
    ensures updated[id].status == Some(Error) <==> outcome.Raised?
    ensures outcome.Delivered? ==> updated[id].errorMessage.None?
    ensures outcome.Raised? ==> updated[id].errorMessage == Some(ErrorText(outcome.exceptionName, outcome.message))
    ensures updated[id].attemptCount == 0 && updated[id].lastAttemptTime == Some(now)
    ensures updated[id].to == dto.to && updated[id].subject == dto.subject && updated[id].content == dto.content
  {
    store[id := RecordAttempt(ToModel(dto), outcome, now)]
  }

  /** The retry pass's treatment of one ERROR email: a new attempt, and the attempt count raised by one either way. */
  function RetryOne(e: Email, outcome: SendOutcome, now: Instant): (r: Email)
    ensures r.attemptCount == e.attemptCount + 1
    ensures r.status == Some(Sent) <==> outcome.Delivered?
    ensures r.status == Some(Error) <==> outcome.Raised?
    ensures outcome.Delivered? ==> r.errorMessage == e.errorMessage
    ensures outcome.Raised? ==> r.errorMessage == Some(ErrorText(outcome.exceptionName, outcome.message))
    ensures r.lastAttemptTime == Some(now)
    ensures r.to == e.to && r.subject == e.subject && r.content == e.content
  {
    RecordAttempt(e, outcome, now).(attemptCount := e.attemptCount + 1)
  }

  /**
    `retryFailedEmails`: every email found with status ERROR is retried
    (with the sender outcome and the clock reading taken for its id) and
    saved back; every other email is left exactly as it was, and no email is
    added or removed. For each email the pass is one round of `AcrossPasses`.
   */
  method RetryFailedEmails(store: EmailStore, outcomes: string -> SendOutcome, clock: string -> Instant)
    returns (updated: EmailStore)
    ensures updated.Keys == store.Keys
    ensures forall id :: id in store && store[id].status != Some(Error) ==> updated[id] == store[id]
    ensures forall id :: id in store && store[id].status == Some(Error) ==>
      updated[id] == RetryOne(store[id], outcomes(id), clock(id))
    ensures forall id :: id in store ==> updated[id] == AcrossPasses(store[id], [RetryRound(outcomes(id), clock(id))])
  {
    var failed := set id | id in store && store[id].status == Some(Error);
    var pending := failed;
    updated := store;
    while pending != {}
      invariant pending <= failed
      invariant updated.Keys == store.Keys
      invariant forall id :: id in store && id !in failed ==> updated[id] == store[id]
      invariant forall id :: id in pending ==> updated[id] == store[id]
      invariant forall id :: id in failed - pending ==> updated[id] == RetryOne(store[id], outcomes(id), clock(id))
      decreases pending
    {
      var id :| id in pending;
      updated := updated[id := RetryOne(store[id], outcomes(id), clock(id))];
      pending := pending - {id};
    }
    forall id | id in store
      ensures updated[id] == AcrossPasses(store[id], [RetryRound(outcomes(id), clock(id))])
    {
      SinglePass(store[id], RetryRound(outcomes(id), clock(id)));
    }
  }

  /** The outcome and clock of one retry pass, as seen by one email. */
  datatype RetryRound = RetryRound(outcome: SendOutcome, at: Instant)

  /** One email over successive retry passes: each pass retries it only while its status is ERROR. */
  function AcrossPasses(e: Email, rounds: seq<RetryRound>): Email
    decreases |rounds|
  {
    if |rounds| == 0 then e
    else
      var next := if e.status == Some(Error) then RetryOne(e, rounds[0].outcome, rounds[0].at) else e;
      AcrossPasses(next, rounds[1..])
  }

  /** One pass retries an ERROR email once and leaves any other email as it is. */
  lemma SinglePass(e: Email, round: RetryRound)
    ensures AcrossPasses(e, [round]) == if e.status == Some(Error) then RetryOne(e, round.outcome, round.at) else e
  {
    assert [round][1..] == [];
  }

  /** There is no attempt cap: an email that keeps failing stays ERROR and gains one attempt per pass. */
  lemma {:induction false} NoAttemptCap(e: Email, rounds: seq<RetryRound>)
    requires e.status == Some(Error)
    requires forall k :: 0 <= k < |rounds| ==> rounds[k].outcome.Raised?
    ensures AcrossPasses(e, rounds).status == Some(Error)
    ensures AcrossPasses(e, rounds).attemptCount == e.attemptCount + |rounds|
    decreases |rounds|
  {
    if |rounds| != 0 {
      var next := RetryOne(e, rounds[0].outcome, rounds[0].at);
      assert forall k :: 0 <= k < |rounds| - 1 ==> rounds[1..][k] == rounds[k + 1];
      NoAttemptCap(next, rounds[1..]);
    }
  }

  /** A sent email is never touched again by later passes. */
  lemma {:induction false} SentIsFinal(e: Email, rounds: seq<RetryRound>)
    requires e.status == Some(Sent)
    ensures AcrossPasses(e, rounds) == e
    decreases |rounds|
  {
    if |rounds| != 0 {
      SentIsFinal(e, rounds[1..]);
    }
  }

  /**
    The first successful pass ends the retries: after a run of failures and
    one success, the email is SENT, keeps the last failure's error message,
    and has one attempt per pass it took part in.
   */
  lemma FailuresThenSuccess(e: Email, failures: seq<RetryRound>, success: RetryRound, later: seq<RetryRound>)
    requires e.status == Some(Error)
    requires |failures| > 0
    requires forall k :: 0 <= k < |failures| ==> failures[k].outcome.Raised?
    requires success.outcome.Delivered?
    ensures var r := AcrossPasses(e, failures + [success] + later);
      var last := failures[|failures| - 1].outcome;
      && r.status == Some(Sent)
      && r.attemptCount == e.attemptCount + |failures| + 1
      && r.errorMessage == Some(ErrorText(last.exceptionName, last.message))
  {
    PassesAppend(e, failures, [success] + later);
    assert failures + [success] + later == failures + ([success] + later);
    var mid := AcrossPasses(e, failures);
    NoAttemptCap(e, failures);
    LastFailureMessage(e, failures);
    var next := RetryOne(mid, success.outcome, success.at);
    assert ([success] + later)[1..] == later;
    SentIsFinal(next, later);
  }

  lemma {:induction false} PassesAppend(e: Email, a: seq<RetryRound>, b: seq<RetryRound>)
    ensures AcrossPasses(e, a + b) == AcrossPasses(AcrossPasses(e, a), b)
    decreases |a|
  {
    if |a| == 0 {
      assert a + b == b;
    } else {
      assert (a + b)[0] == a[0];
      assert (a + b)[1..] == a[1..] + b;
      var next := if e.status == Some(Error) then RetryOne(e, a[0].outcome, a[0].at) else e;
      PassesAppend(next, a[1..], b);
    }
  }

  lemma {:induction false} LastFailureMessage(e: Email, failures: seq<RetryRound>)
    requires e.status == Some(Error)
    requires |failures| > 0
    requires forall k :: 0 <= k < |failures| ==> failures[k].outcome.Raised?
    ensures var last := failures[|failures| - 1].outcome;
      AcrossPasses(e, failures).errorMessage == Some(ErrorText(last.exceptionName, last.message))
    decreases |failures|
  {
    var next := RetryOne(e, failures[0].outcome, failures[0].at);
    if |failures| == 1 {
      assert AcrossPasses(e, failures) == AcrossPasses(next, []);
    } else {
      assert forall k :: 0 <= k < |failures| - 1 ==> failures[1..][k] == failures[k + 1];
      LastFailureMessage(next, failures[1..]);
    }
  }
}
