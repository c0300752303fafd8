/** One chunk's PUT with its two layers of retry: a bearer refresh on 401, and exponential backoff. */
module ChunkRetry {
  import opened Wrappers

  /** What the HTTP client returns for one PUT: a transport error, a cancellation, or a status. */
  datatype Answer = Transport(error: string) | Cancelled(error: string) | Http(code: int)

  /** How the retry loop ends: an error to record, the abort flag seen during a backoff, or a status to interpret. */
  datatype Outcome = Failed(error: string) | AbortSeen | Status(code: int)

  predicate RetryableStatus(code: int)
  {
    code == 429 || 500 <= code < 600
  }

  /** An answer after which another PUT may follow in a later attempt. */
  predicate Transient(a: Answer)
  {
    a.Transport? || (a.Http? && RetryableStatus(a.code))
  }

  function Pow2(n: nat): nat
  {
    if n == 0 then 1 else 2 * Pow2(n - 1)
  }

  /** The delay before attempt `k` + 1: it doubles each time and stops growing at 1024 times the first. */
  function Delay(initial: nat, k: nat): nat
  {
    initial * Pow2(Min(k, 10))
  }

  /** Sum of the first `k` backoff delays. */
  function Backoff(initial: nat, k: nat): nat
  {
    if k == 0 then 0 else Backoff(initial, k - 1) + Delay(initial, k - 1)
  }

  lemma {:induction false} BackoffMonotone(initial: nat, j: nat, k: nat)
    requires j <= k
    ensures Backoff(initial, j) <= Backoff(initial, k)
    decreases k
  {
    if j < k {
      BackoffMonotone(initial, j, k - 1);
    }
  }

  const EXHAUSTED := "gdrive: chunk PUT exhausted its retries"

  // The two layers as a fold over the answers

  /** The loop is in attempt `attempt`, with or without a refreshed bearer, or the last answer has ended it. */
  datatype Progress = At(attempt: nat, refreshed: bool) | Ended(outcome: Outcome)

  function Step(retries: nat, attempt: nat, refreshed: bool, a: Answer): Progress
  {
    match a
    case Cancelled(e) => Ended(Failed(e))
    case Transport(e) => if attempt < retries then At(attempt + 1, false) else Ended(Failed(e))
    case Http(code) =>
      if code == 401 && !refreshed then At(attempt, true)
      else if !RetryableStatus(code) then Ended(Status(code))
      else if attempt < retries then At(attempt + 1, false)
      else Ended(Failed(EXHAUSTED))
  }

  /** Where the loop stands after these answers. */
  function After(retries: nat, answers: seq<Answer>): Progress
  {
    if answers == [] then At(0, false)
    else
      var p := After(retries, answers[..|answers| - 1]);
      if p.Ended? then p else Step(retries, p.attempt, p.refreshed, answers[|answers| - 1])
  }

  /** After these answers the loop may end with `o`: the last one says so, no bearer can be had for the next PUT, or the abort flag is up after a backoff. */
  predicate Ends(retries: nat, answers: seq<Answer>, o: Outcome)
  {
    var p := After(retries, answers);
    if p.Ended? then o == p.outcome
    else o.Failed? || (o.AbortSeen? && p.attempt > 0 && !p.refreshed)
  }

  lemma AfterNext(retries: nat, answers: seq<Answer>, a: Answer)
    requires After(retries, answers).At?
    ensures var p := After(retries, answers); After(retries, answers + [a]) == Step(retries, p.attempt, p.refreshed, a)
  {
    assert (answers + [a])[..|answers|] == answers;
  }

  predicate Indecisive(a: Answer)
  {
    Transient(a) || a == Http(401)
  }

  /** While the loop goes on, nothing was decisive, and at most two PUTs were sent in each attempt. */
  lemma {:induction false} GoingOn(retries: nat, answers: seq<Answer>)
    requires After(retries, answers).At?
    ensures var p := After(retries, answers);
      && p.attempt <= retries
      && |answers| <= 2 * p.attempt + (if p.refreshed then 1 else 0)
      && (p.refreshed ==> |answers| > 0 && answers[|answers| - 1] == Http(401))
      && (p.attempt > 0 && !p.refreshed ==> |answers| > 0 && Transient(answers[|answers| - 1]))
    ensures forall k :: 0 <= k < |answers| ==> Indecisive(answers[k])
  {
    if answers != [] {
      var most := answers[..|answers| - 1];
      GoingOn(retries, most);
      assert forall k :: 0 <= k < |most| ==> answers[k] == most[k];
    }
  }

  /** No answer after the one that ends the loop. */
  predicate Sent(retries: nat, answers: seq<Answer>)
  {
    answers == [] || After(retries, answers[..|answers| - 1]).At?
  }

  /** What ends the loop is the last answer, and there are at most 2 * (retries + 1) of them. */
  lemma SentBound(retries: nat, answers: seq<Answer>)
    requires Sent(retries, answers)
    ensures |answers| <= 2 * (retries + 1)
    ensures forall k :: 0 <= k < |answers| - 1 ==> Indecisive(answers[k])
  {
    if answers != [] {
      GoingOn(retries, answers[..|answers| - 1]);
    }
  }

  lemma StatusIsLast(retries: nat, answers: seq<Answer>, code: int)
    requires Sent(retries, answers) && Ends(retries, answers, Status(code))
    ensures |answers| > 0 && answers[|answers| - 1] == Http(code) && !RetryableStatus(code)
    ensures code == 401 ==> |answers| > 1 && answers[|answers| - 2] == Http(401)
  {
    if answers != [] {
      GoingOn(retries, answers[..|answers| - 1]);
    }
  }

  // The loop

  /**
   * The answers to the environment's questions: the bearer error (if any) met before the k-th PUT,
   * the answer to the k-th PUT, and whether the abort flag is up after the backoff of attempt k.
   */
  datatype Environment = Environment(bearer: nat -> Option<string>, answer: nat -> Answer, aborted: nat -> bool)

  function Answers(env: Environment, n: nat): (s: seq<Answer>)
    ensures |s| == n
  {
    seq(n, (k: nat) => env.answer(k))
  }

  /** The loop may go on after the first `n` answers: none of them was decisive. */
  ghost predicate AllIndecisive(env: Environment, n: nat)
  {
    forall k :: 0 <= k < n ==> Indecisive(env.answer(k))
  }

  /** `outcome` is what the last answer, bearer error or abort flag said. */
  ghost predicate Reported(env: Environment, retries: nat, outcome: Outcome, attempts: nat, puts: nat)
  {
    match outcome
    case Status(code) =>
      && puts > 0 && env.answer(puts - 1) == Http(code) && !RetryableStatus(code)
      && (code == 401 ==> puts > 1 && env.answer(puts - 2) == Http(401))
    case AbortSeen =>
      attempts > 1 && env.aborted(attempts - 1) && puts > 0 && Transient(env.answer(puts - 1))
    case Failed(e) =>
      || (env.bearer(puts) == Some(e) && AllIndecisive(env, puts))
      || (puts > 0 && env.answer(puts - 1) == Cancelled(e))
      || (puts > 0 && attempts == retries + 1
          && (env.answer(puts - 1) == Transport(e)
              || (e == EXHAUSTED && env.answer(puts - 1).Http? && RetryableStatus(env.answer(puts - 1).code))))
  }

  /** Why the loop has stopped in attempt `attempt`: as `Ends` has it, and with the environment's own error or flag. */
  ghost predicate Stopped(env: Environment, retries: nat, outcome: Outcome, attempt: nat, puts: nat)
  {
    var answers := Answers(env, puts);
    && Sent(retries, answers) && Ends(retries, answers, outcome)
    && match After(retries, answers)
       case At(k, _) => k == attempt && (outcome.Failed? ==> env.bearer(puts) == Some(outcome.error)) && (outcome.AbortSeen? ==> env.aborted(attempt))
       case Ended(_) => var p := After(retries, answers[..puts - 1]); p.At? && p.attempt == attempt
  }

  lemma StoppedMeans(env: Environment, retries: nat, outcome: Outcome, attempt: nat, puts: nat)
    requires Stopped(env, retries, outcome, attempt, puts)
    ensures attempt <= retries && puts <= 2 * (attempt + 1)
    ensures AllIndecisive(env, if puts == 0 then 0 else puts - 1)
    ensures Reported(env, retries, outcome, attempt + 1, puts)
  {
    var answers := Answers(env, puts);
    match After(retries, answers)
    case At(_, _) =>
      GoingOn(retries, answers);
      assert forall k :: 0 <= k < puts ==> env.answer(k) == answers[k];
    case Ended(_) =>
      var most := answers[..puts - 1];
      GoingOn(retries, most);
      assert forall k :: 0 <= k < puts - 1 ==> env.answer(k) == most[k];
      assert env.answer(puts - 1) == answers[puts - 1];
      if outcome.Status? {
        StatusIsLast(retries, answers, outcome.code);
      }
  }

  /**
   * `attempts` counts the attempts begun, `puts` the requests sent, `waited` the backoff time asked for.
   */
  method PutChunk(configuredRetries: int, initial: nat, env: Environment)
    returns (outcome: Outcome, attempts: nat, puts: nat, waited: nat)
    ensures 1 <= attempts <= Max(0, configuredRetries) + 1
    ensures puts <= 2 * attempts
    ensures waited == Backoff(initial, attempts - 1) <= Backoff(initial, Max(0, configuredRetries))
    ensures AllIndecisive(env, if puts == 0 then 0 else puts - 1)
    ensures Reported(env, Max(0, configuredRetries), outcome, attempts, puts)
    ensures Sent(Max(0, configuredRetries), Answers(env, puts)) && Ends(Max(0, configuredRetries), Answers(env, puts), outcome)
  {
    var maxRetries := Max(0, configuredRetries);
    puts, waited, attempts, outcome := 0, 0, 0, AbortSeen;
    var done := false;
    while attempts <= maxRetries && !done
      invariant attempts <= maxRetries + 1
      invariant waited == if attempts == 0 then 0 else Backoff(initial, attempts - 1)
      invariant !done ==> attempts <= maxRetries && After(maxRetries, Answers(env, puts)) == At(attempts, false)
      invariant done ==> attempts > 0 && Stopped(env, maxRetries, outcome, attempts - 1, puts)
      decreases maxRetries + 1 - attempts, !done
    {
      var attempt := attempts;
      attempts := attempts + 1;
      if attempt > 0 {
        waited := waited + Delay(initial, attempt - 1);
      }
      if attempt > 0 && env.aborted(attempt) {
        outcome, done := AbortSeen, true;
        StopHere(env, maxRetries, puts);
      } else {
        var ended, sent := Attempt(maxRetries, attempt, env, puts);
        puts := puts + sent;
        if ended.Some? {
          outcome, done := ended.value, true;
        }
      }
    }
    StoppedMeans(env, maxRetries, outcome, attempts - 1, puts);
    BackoffMonotone(initial, attempts - 1, maxRetries);
  }

  /** One attempt and what its last answer means: the loop ends, or goes on with the next attempt. */
  method Attempt(maxRetries: nat, attempt: nat, env: Environment, from: nat) returns (ended: Option<Outcome>, sent: nat)
    requires attempt <= maxRetries && After(maxRetries, Answers(env, from)) == At(attempt, false)
    ensures ended.Some? ==> Stopped(env, maxRetries, ended.value, attempt, from + sent)
    ensures ended.None? ==> attempt < maxRetries && After(maxRetries, Answers(env, from + sent)) == At(attempt + 1, false)
  {
    var refused, last, n := Authorized(maxRetries, attempt, env, from);
    sent := n;
    if refused.Some? {
      StopHere(env, maxRetries, from + sent);
      return Some(Failed(refused.value)), sent;
    }
    match last
    case Cancelled(e) =>
      ended := Some(Failed(e));
    case Transport(e) =>
      ended := if attempt == maxRetries then Some(Failed(e)) else None;
    case Http(code) =>
      if !RetryableStatus(code) {
        ended := Some(Status(code));
      } else {
        ended := if attempt == maxRetries then Some(Failed(EXHAUSTED)) else None;
      }
  }

  lemma StopHere(env: Environment, retries: nat, puts: nat)
    requires After(retries, Answers(env, puts)).At?
    ensures Sent(retries, Answers(env, puts))
  {
    if puts > 0 {
      assert Answers(env, puts)[..puts - 1] == Answers(env, puts - 1);
    }
  }

  lemma AnswersNext(retries: nat, env: Environment, n: nat)
    requires After(retries, Answers(env, n)).At?
    ensures Answers(env, n + 1)[..n] == Answers(env, n)
    ensures var p := After(retries, Answers(env, n));
            After(retries, Answers(env, n + 1)) == Step(retries, p.attempt, p.refreshed, env.answer(n))
  {
    AfterNext(retries, Answers(env, n), env.answer(n));
    assert Answers(env, n + 1) == Answers(env, n) + [env.answer(n)];
  }

  /** One attempt: send, and send once more with a fresh bearer if the first answer is 401. */
  method Authorized(retries: nat, attempt: nat, env: Environment, from: nat) returns (refused: Option<string>, last: Answer, sent: nat)
    requires After(retries, Answers(env, from)) == At(attempt, false)
    ensures sent <= 2
    ensures refused.Some? ==> sent < 2 && env.bearer(from + sent) == refused
    ensures refused.None? ==> sent > 0 && last == env.answer(from + sent - 1)
    ensures sent == 2 || (sent == 1 && refused.Some?) ==> env.answer(from) == Http(401)
    ensures refused.None? && last == Http(401) ==> sent == 2
    ensures refused.Some? ==> After(retries, Answers(env, from + sent)) == At(attempt, sent == 1)
    ensures refused.None? ==>
      && After(retries, Answers(env, from + sent)[..from + sent - 1]) == At(attempt, sent == 2)
      && After(retries, Answers(env, from + sent)) == Step(retries, attempt, sent == 2, last)
  {
    var refreshed := false;
    sent, last, refused := 0, Http(0), None;
    while true
      invariant sent == if refreshed then 1 else 0
      invariant refreshed ==> env.answer(from) == Http(401)
      invariant refused.None? && After(retries, Answers(env, from + sent)) == At(attempt, refreshed)
      decreases !refreshed
    {
      refused := env.bearer(from + sent);
      if refused.Some? {
        break;
      }
      last := env.answer(from + sent);
      AnswersNext(retries, env, from + sent);
      sent := sent + 1;
      if !last.Http? || last.code != 401 || refreshed {
        break;
      }
      refreshed := true;
    }
  }
}
