/** The chunked ingestion run of one Remedy form: log in, read tickets window by
    window, push each window to TrueSight Intelligence, log out if the login
    succeeded. `readAndIngestIncidents` and `readAndIngestChanges` are the same
    code over two forms, so one method parameterised by the form models both. */
module Ingestion {

  /** Largest Java `int`; the reader reports the number of matches in an
      int-valued out-parameter, so no reported total exceeds it. */
  const INT_MAX: int := 0x7fff_ffff

  type Int32 = x: int | -0x8000_0000 <= x <= INT_MAX

  /** The Remedy form a reader queries (the help desk form for incidents,
      the change form for changes). */
  datatype Form = HelpDesk | ChangeForm

  /** One event built from one ticket; it is forwarded verbatim. */
  datatype Event = Event(payload: string)

  /** The outcome of a call into code the model cannot see. */
  datatype Call<T> = Returns(value: T) | Throws

  datatype Option<T> = None | Some(value: T)

  /** What one `readRemedyTickets` call yields: the events of the window and
      the value it leaves in the `nMatches` out-parameter. */
  datatype Page = Page(events: seq<Event>, nMatches: Int32)

  /** The outside world of one run: what `login()` does, the reply to the n-th
      `readRemedyTickets` call (counting from 0), and whether the n-th
      `pushBulkEventsToTSI` call returns normally. */
  datatype Backend = Backend(login: Call<bool>, answer: nat -> Call<Page>, accepts: nat -> bool)

  /** The arguments of one `readRemedyTickets` call. */
  datatype Query = Query(form: Form, startFrom: int, chunkSize: int)

  /** The exception the run's `catch` block logs. */
  datatype Failure = LoginFailed | ReadFailed | PushFailed

  /** What a run did to its collaborators: the reads it issued, the batches it
      pushed, how often it logged out, and the exception it caught, if any. */
  datatype Trace = Trace(fetches: seq<Query>, pushes: seq<seq<Event>>, logouts: nat, caught: Option<Failure>)

  /** `done` followed by `rest`: the calls already made, then those still to come. */
  function Then(done: Trace, rest: Trace): Trace {
    Trace(done.fetches + rest.fetches, done.pushes + rest.pushes, done.logouts + rest.logouts, rest.caught)
  }

  lemma ThenAssociative(a: Trace, b: Trace, c: Trace)
    ensures Then(Then(a, b), c) == Then(a, Then(b, c))
  {
    assert (a.fetches + b.fetches) + c.fetches == a.fetches + (b.fetches + c.fetches);
    assert (a.pushes + b.pushes) + c.pushes == a.pushes + (b.pushes + c.pushes);
  }

  /** The `while (readNext)` loop, entered with `startFrom` after `n` reads.
      An iteration reads the window, decides with the pre-increment `startFrom`
      whether to stop, advances `startFrom` and pushes the page; an exception
      from the read or the push leaves the loop. */
  function Loop(form: Form, b: Backend, chunkSize: int, startFrom: int, n: nat): (t: Trace)
    requires chunkSize >= 1
    ensures |t.fetches| >= 1 && t.fetches[0] == Query(form, startFrom, chunkSize)
    ensures |t.pushes| == if t.caught == Some(ReadFailed) then |t.fetches| - 1 else |t.fetches|
    ensures t.logouts == 0 && t.caught != Some(LoginFailed)
    decreases INT_MAX - startFrom
  {
    var q := Query(form, startFrom, chunkSize);
    match b.answer(n)
    case Throws => Trace([q], [], 0, Some(ReadFailed))
    case Returns(page) =>
      if !b.accepts(n) then Trace([q], [page.events], 0, Some(PushFailed))
      else if page.nMatches <= startFrom + chunkSize then Trace([q], [page.events], 0, None)
      else Then(Trace([q], [page.events], 0, None), Loop(form, b, chunkSize, startFrom + chunkSize, n + 1))
  }

  /** The loop has made the reads `queries` and pushes `pushed`, is about to
      read at `startFrom`, and will end with the trace `spec`. */
  ghost predicate Pending(form: Form, b: Backend, chunkSize: int, queries: seq<Query>, pushed: seq<seq<Event>>, startFrom: int, spec: Trace)
    requires chunkSize >= 1
  {
    Then(Trace(queries, pushed, 0, None), Loop(form, b, chunkSize, startFrom, |queries|)) == spec
  }

  lemma PendingReadThrows(form: Form, b: Backend, chunkSize: int, queries: seq<Query>, pushed: seq<seq<Event>>, startFrom: int, spec: Trace)
    requires chunkSize >= 1 && Pending(form, b, chunkSize, queries, pushed, startFrom, spec)
    requires b.answer(|queries|).Throws?
    ensures Trace(queries + [Query(form, startFrom, chunkSize)], pushed, 0, Some(ReadFailed)) == spec
  {
  }

  lemma PendingPage(form: Form, b: Backend, chunkSize: int, queries: seq<Query>, pushed: seq<seq<Event>>, startFrom: int, spec: Trace, page: Page)
    requires chunkSize >= 1 && Pending(form, b, chunkSize, queries, pushed, startFrom, spec)
    requires b.answer(|queries|) == Returns(page)
    ensures var qs, ps := queries + [Query(form, startFrom, chunkSize)], pushed + [page.events];
            if !b.accepts(|queries|) then Trace(qs, ps, 0, Some(PushFailed)) == spec
            else if page.nMatches <= startFrom + chunkSize then Trace(qs, ps, 0, None) == spec
            else Pending(form, b, chunkSize, qs, ps, startFrom + chunkSize, spec)
  {
    var q := Query(form, startFrom, chunkSize);
    if b.accepts(|queries|) && page.nMatches > startFrom + chunkSize {
      ThenAssociative(Trace(queries, pushed, 0, None), Trace([q], [page.events], 0, None),
                      Loop(form, b, chunkSize, startFrom + chunkSize, |queries| + 1));
    }
  }

  /** A whole run: login, the loop from window 1 (skipped when login throws),
      and the `finally` block, which logs out only when login returned true. */
  function Run(form: Form, b: Backend, chunkSize: int): (t: Trace)
    requires chunkSize >= 1
    ensures t.logouts == if b.login == Returns(true) then 1 else 0
    ensures t.caught == Some(LoginFailed) <==> b.login.Throws?
    ensures b.login.Throws? ==> t.fetches == [] && t.pushes == []
    ensures b.login.Returns? ==> |t.fetches| >= 1 && t.fetches[0] == Query(form, 1, chunkSize)
  {
    match b.login
    case Throws => Trace([], [], 0, Some(LoginFailed))
    case Returns(loggedIn) =>
      var t := Loop(form, b, chunkSize, 1, 0);
      Trace(t.fetches, t.pushes, if loggedIn then 1 else 0, t.caught)
  }

  /** The Remedy client of one run, recording the calls made on it. */
  class RemedyReader {
    const form: Form
    const backend: Backend
    var queries: seq<Query>
    var logouts: nat

    constructor (form: Form, backend: Backend)
      ensures this.form == form && this.backend == backend
      ensures queries == [] && logouts == 0
    {
      this.form := form;
      this.backend := backend;
      queries := [];
      logouts := 0;
    }

    method Login() returns (r: Call<bool>)
      ensures r == backend.login
    {
      r := backend.login;
    }

    /** Reads the window of `chunkSize` tickets starting at `startFrom`. */
    method ReadRemedyTickets(startFrom: int, chunkSize: int) returns (r: Call<Page>)
      modifies this
      ensures queries == old(queries) + [Query(form, startFrom, chunkSize)]
      ensures r == backend.answer(|old(queries)|)
      ensures logouts == old(logouts)
    {
      r := backend.answer(|queries|);
      queries := queries + [Query(form, startFrom, chunkSize)];
    }

    method Logout()
      modifies this
      ensures logouts == old(logouts) + 1 && queries == old(queries)
    {
      logouts := logouts + 1;
    }
  }

  /** The TrueSight Intelligence client of one run, recording the batches pushed. */
  class TsiHttpClient {
    const accepts: nat -> bool
    var pushed: seq<seq<Event>>

    constructor (accepts: nat -> bool)
      ensures this.accepts == accepts && pushed == []
    {
      this.accepts := accepts;
      pushed := [];
    }

    /** Pushes one batch; `ok` is false when the call throws. */
    method PushBulkEventsToTSI(events: seq<Event>) returns (ok: bool)
      modifies this
      ensures pushed == old(pushed) + [events]
      ensures ok == accepts(|old(pushed)|)
    {
      ok := accepts(|pushed|);
      pushed := pushed + [events];
    }
  }

  /** The body of the `try` block after login: the `while (readNext)` loop,
      whose exceptions end it and are reported as `caught`. */
  method ReadAndPush(reader: RemedyReader, client: TsiHttpClient, chunkSize: int) returns (caught: Option<Failure>)
    requires chunkSize >= 1
    requires reader.queries == [] && client.pushed == [] && client.accepts == reader.backend.accepts
    modifies reader, client
    ensures reader.logouts == old(reader.logouts)
    ensures Trace(reader.queries, client.pushed, 0, caught) == Loop(reader.form, reader.backend, chunkSize, 1, 0)
  {
    ghost var form, backend := reader.form, reader.backend;
    ghost var spec := Loop(form, backend, chunkSize, 1, 0);
    caught := None;
    var startFrom := 1;
    var iteration := 1;
    var nMatches: Int32 := 0;
    var readNext := true;
    while readNext
      invariant reader.logouts == old(reader.logouts) && caught == None
      invariant |client.pushed| == |reader.queries| && iteration == |reader.queries| + 1
      invariant readNext ==> startFrom <= INT_MAX
      invariant readNext ==> Pending(form, backend, chunkSize, reader.queries, client.pushed, startFrom, spec)
      invariant !readNext ==> Trace(reader.queries, client.pushed, 0, None) == spec
      decreases readNext, INT_MAX - startFrom
    {
      ghost var q0, p0, s0 := reader.queries, client.pushed, startFrom;
      var fetched := reader.ReadRemedyTickets(startFrom, chunkSize);
      if fetched.Throws? {
        PendingReadThrows(form, backend, chunkSize, q0, p0, s0, spec);
        caught := Some(ReadFailed);
        return;
      }
      var eventList := fetched.value.events;
      nMatches := fetched.value.nMatches;
      if nMatches <= startFrom + chunkSize {
        readNext := false;
      }
      iteration := iteration + 1;
      startFrom := startFrom + chunkSize;
      var ok := client.PushBulkEventsToTSI(eventList);
      PendingPage(form, backend, chunkSize, q0, p0, s0, spec, fetched.value);
      if !ok {
        caught := Some(PushFailed);
        return;
      }
    }
  }

  /** `readAndIngestIncidents` / `readAndIngestChanges` from the point where the
      configuration has been validated: builds the reader and the client, runs
      the loop inside try/catch/finally, and reports the calls it made. */
  method ReadAndIngest(form: Form, backend: Backend, chunkSize: int) returns (t: Trace)
    requires chunkSize >= 1
    ensures t == Run(form, backend, chunkSize)
  {
    var reader := new RemedyReader(form, backend);
    var client := new TsiHttpClient(backend.accepts);
    var hasLoggedIntoRemedy := false;
    var caught: Option<Failure> := None;
    var login := reader.Login();
    if login.Throws? {
      caught := Some(LoginFailed);
    } else {
      hasLoggedIntoRemedy := login.value;
      caught := ReadAndPush(reader, client, chunkSize);
    }
    if hasLoggedIntoRemedy {
      reader.Logout();
    }
    t := Trace(reader.queries, client.pushed, reader.logouts, caught);
  }
}
