/** The life of the archive bridge process: what it obtains, what it closes, and in which order, while the
    server listens in a goroutine of its own. */
module BridgeLifecycle {
  import opened Text

  datatype Event =
    | DatabaseOpened
    | DatabaseClosed
    | DriverObtained
    | DriverClosed
    | ListenStarted
    | ListenReturned
    | ShutdownRequested
    | ServerForceClosed

  datatype Error =
    | ContextRequired | FactoryRequired | ConfigInvalid | DriverUnavailable | SourceUnavailable | ProviderInvalid | RegistrarInvalid
    | RegisterFailed | FixtureStateInvalid | HandlerInvalid | ServerRequired | ServerClosed | ListenFailed
    | ShutdownTimedOut | ForceCloseFailed | DriverCloseFailed | DatabaseCloseFailed

  /** errors.Join of at most these, in order; no error is the empty list. */
  type Errors = seq<Error>

  datatype Config = Config(sdkEnabled: bool, fixtureEnabled: bool)

  /** What the outside answers, call by call. Each of these calls is made at most once in a run. */
  datatype Answers = Answers(
    config: Option<Config>,
    configured: bool,
    opens: bool,
    pings: bool,
    providerBuilt: bool,
    registrarBuilt: bool,
    registers: bool,
    registered: nat,
    drivers: nat,
    fixtureLoads: bool,
    handlerBuilt: bool,
    serverBuilt: bool,
    contextEndsFirst: bool,
    listenResult: Error,
    shutsDown: bool,
    forceCloses: bool,
    driverCloses: bool,
    databaseCloses: bool)

  predicate IsClose(e: Event) {
    e == DriverClosed || e == DatabaseClosed
  }

  function Times(events: seq<Event>, e: Event): nat {
    multiset(events)[e]
  }

  /** What has been obtained is closed as often as it was obtained. */
  predicate Balanced(events: seq<Event>) {
    && Times(events, DriverClosed) == Times(events, DriverObtained) <= 1
    && Times(events, DatabaseClosed) == Times(events, DatabaseOpened) <= 1
  }

  /** Nothing is closed between the start and the return of listening. */
  predicate NothingClosedWhileListening(events: seq<Event>) {
    forall j :: 0 <= j < |events| && IsClose(events[j]) && ListenStarted in events[..j] ==> ListenReturned in events[..j]
  }

  /** The resource is obtained before it is closed. */
  predicate ClosedAfterObtained(events: seq<Event>) {
    && (forall j :: 0 <= j < |events| && events[j] == DriverClosed ==> DriverObtained in events[..j])
    && (forall j :: 0 <= j < |events| && events[j] == DatabaseClosed ==> DatabaseOpened in events[..j])
  }

  class Process {
    const answers: Answers
    /** Whether the listening goroutine returns before the next step of the main one. */
    const fate: nat -> bool
    var events: seq<Event>
    var step: nat

    constructor (answers: Answers, fate: nat -> bool)
      ensures this.answers == answers && this.fate == fate && events == [] && step == 0
    {
      this.answers, this.fate := answers, fate;
      events, step := [], 0;
    }

    method Record(e: Event)
      modifies `events
      ensures events == old(events) + [e]
    {
      events := events + [e];
    }

    /** Let the listening goroutine run: it may return now. */
    method Yield(returned: bool) returns (now: bool)
      modifies this
      ensures returned ==> now && events == old(events)
      ensures !returned ==> events == old(events) + (if now then [ListenReturned] else [])
    {
      now := returned;
      if !returned && fate(step) {
        Record(ListenReturned);
        now := true;
      }
      step := step + 1;
    }

    /** Receive from the channel: wait until the listening goroutine has returned. */
    method Await(returned: bool)
      modifies `events
      ensures events == old(events) + (if returned then [] else [ListenReturned])
    {
      if !returned {
        Record(ListenReturned);
      }
    }
  }

  /** A registrar with its database handle, closed once however often Close is called. */
  class Registrar {
    const process: Process
    var done: bool
    var closeErr: Errors

    constructor (process: Process)
      ensures this.process == process && !done && closeErr == []
    {
      this.process := process;
      done, closeErr := false, [];
    }

    method Close() returns (errors: Errors)
      modifies this, process`events
      ensures done && errors == closeErr
      ensures old(done) ==> process.events == old(process.events) && closeErr == old(closeErr)
      ensures !old(done) ==> process.events == old(process.events) + [DriverClosed, DatabaseClosed]
      ensures !old(done) ==> errors == (if process.answers.driverCloses then [] else [DriverCloseFailed]) +
                                       (if process.answers.databaseCloses then [] else [DatabaseCloseFailed])
    {
      if !done {
        done := true;
        process.Record(DriverClosed);
        var driverErr := if process.answers.driverCloses then [] else [DriverCloseFailed];
        process.Record(DatabaseClosed);
        var dbErr := if process.answers.databaseCloses then [] else [DatabaseCloseFailed];
        closeErr := driverErr + dbErr;
      }
      errors := closeErr;
    }

    /** Closing again closes nothing and reports the same. */
    method CloseTwice() returns (first: Errors, second: Errors)
      requires !done
      modifies this, process`events
      ensures process.events == old(process.events) + [DriverClosed, DatabaseClosed]
      ensures first == second
    {
      first := Close();
      second := Close();
    }
  }

  /** Everything up to a registrar that owns its database. A handle that cannot be handed on is closed. */
  method NewProductionRegistrar(process: Process) returns (registrar: Registrar?, errors: Errors)
    modifies process`events
    ensures errors == [] <==> registrar != null
    ensures registrar != null ==>
      fresh(registrar) && registrar.process == process && !registrar.done && process.events == old(process.events) + [DatabaseOpened, DriverObtained]
    ensures registrar == null ==>
      process.events == old(process.events) || process.events == old(process.events) + [DatabaseOpened, DatabaseClosed]
  {
    registrar := null;
    if !process.answers.configured {
      return null, [DriverUnavailable];
    }
    if !process.answers.opens {
      return null, [SourceUnavailable];
    }
    process.Record(DatabaseOpened);
    var failure := if !process.answers.pings then [SourceUnavailable]
                   else if !process.answers.providerBuilt then [ProviderInvalid]
                   else if !process.answers.registrarBuilt then [RegistrarInvalid] else [];
    if failure != [] {
      process.Record(DatabaseClosed);
      return null, failure + (if process.answers.databaseCloses then [] else [DatabaseCloseFailed]);
    }
    process.Record(DriverObtained);
    registrar := new Registrar(process);
    errors := [];
  }

  method CloseRegistrar(registrar: Registrar?, runErr: Errors) returns (errors: Errors)
    modifies registrar, if registrar == null then {} else {registrar.process}
    ensures registrar == null ==> errors == runErr
    ensures registrar != null && !old(registrar.done) ==>
      registrar.process.events == old(registrar.process.events) + [DriverClosed, DatabaseClosed]
    ensures runErr <= errors
  {
    errors := runErr;
    if registrar != null {
      var closeErr := registrar.Close();
      errors := runErr + closeErr;
    }
  }

  const CLOSES := [DriverClosed, DatabaseClosed]

  /** What may happen between the start of listening and the closing of the registrar: listening returns
      once, and the server is asked to shut down, and then forced to, at most once each. */
  ghost predicate Serving(during: seq<Event>) {
    && (forall e :: e in during ==> e == ListenReturned || e == ShutdownRequested || e == ServerForceClosed)
    && Times(during, ListenReturned) == 1
    && Times(during, ShutdownRequested) <= 1
    && Times(during, ServerForceClosed) <= Times(during, ShutdownRequested)
  }

  /** What serving reports, in the order it is joined. */
  function ServeErrors(answers: Answers): Errors {
    var requested := answers.contextEndsFirst || answers.listenResult != ServerClosed;
    (if answers.listenResult == ServerClosed then [] else [answers.listenResult]) +
    (if requested then ShutdownErrors(answers) else [])
  }

  function ShutdownErrors(answers: Answers): Errors {
    if answers.shutsDown then [] else if answers.forceCloses then [ShutdownTimedOut] else [ShutdownTimedOut, ForceCloseFailed]
  }

  function CloseErrors(answers: Answers): Errors {
    (if answers.driverCloses then [] else [DriverCloseFailed]) + (if answers.databaseCloses then [] else [DatabaseCloseFailed])
  }

  /** How far serving has come, from the events since listening started. */
  ghost predicate Phase(during: seq<Event>, returned: bool, requested: bool, forced: bool) {
    && (forall e :: e in during ==> e == ListenReturned || e == ShutdownRequested || e == ServerForceClosed)
    && Times(during, ListenReturned) == (if returned then 1 else 0)
    && Times(during, ShutdownRequested) == (if requested then 1 else 0)
    && Times(during, ServerForceClosed) == (if forced then 1 else 0)
  }

  lemma PhaseNext(during: seq<Event>, returned: bool, requested: bool, forced: bool)
    requires Phase(during, returned, requested, forced)
    ensures !returned ==> Phase(during + [ListenReturned], true, requested, forced)
    ensures !requested ==> Phase(during + [ShutdownRequested], returned, true, forced)
    ensures !forced ==> Phase(during + [ServerForceClosed], returned, requested, true)
    ensures during + [] == during
  {
    assert forall x: Event :: multiset(during + [x]) == multiset(during) + multiset{x};
  }

  method Serve(process: Process, registrar: Registrar?) returns (errors: Errors, ghost during: seq<Event>)
    requires registrar != null ==> registrar.process == process && !registrar.done
    modifies process, registrar
    ensures Serving(during)
    ensures process.events == old(process.events) + [ListenStarted] + during + (if registrar == null then [] else CLOSES)
    ensures errors == ServeErrors(process.answers) + (if registrar == null then [] else CloseErrors(process.answers))
  {
    hide Phase, Serving;
    var answers := process.answers;
    process.Record(ListenStarted);
    NothingYet();
    var returned, listenReturned := false, false;
    returned, during := RunListener(process, returned, [], false);
    if !answers.contextEndsFirst {
      during := AwaitListener(process, returned, during, false, false);
      returned, listenReturned := true, true;
    }
    var serverErrs: Errors := [];
    ghost var requested, forced := false, false;
    if !listenReturned || answers.listenResult != ServerClosed {
      returned, serverErrs, during, forced := ShutServerDown(process, returned, during);
      requested := true;
    }
    if !listenReturned {
      during := AwaitListener(process, returned, during, requested, forced);
    }
    PhaseIsServing(during, requested, forced);
    var listenErr := if answers.listenResult == ServerClosed then [] else [answers.listenResult];
    var closeErr: Errors := [];
    if registrar != null {
      closeErr := registrar.Close();
    }
    errors := listenErr + serverErrs + closeErr;
  }

  /** Ask the server to shut down, and force it when it does not in time. */
  method ShutServerDown(process: Process, returned: bool, ghost during0: seq<Event>)
    returns (now: bool, errors: Errors, ghost during: seq<Event>, ghost forced: bool)
    requires Phase(during0, returned, false, false)
    modifies process
    ensures Phase(during, now, true, forced) && (returned ==> now)
    ensures during0 <= during && process.events == old(process.events) + during[|during0|..]
    ensures errors == ShutdownErrors(process.answers)
  {
    hide Phase;
    forced := false;
    now, during := RunListener(process, returned, during0, false);
    PhaseNext(during, now, false, false);
    process.Record(ShutdownRequested);
    during := during + [ShutdownRequested];
    var shutdownErr := if process.answers.shutsDown then [] else [ShutdownTimedOut];
    now, during := RunListener(process, now, during, true);
    var forceCloseErr: Errors := [];
    if shutdownErr != [] {
      PhaseNext(during, now, true, false);
      process.Record(ServerForceClosed);
      during, forced := during + [ServerForceClosed], true;
      forceCloseErr := if process.answers.forceCloses then [] else [ForceCloseFailed];
    }
    errors := shutdownErr + forceCloseErr;
  }

  lemma NothingYet()
    ensures Phase([], false, false, false)
  {
  }

  lemma PhaseIsServing(during: seq<Event>, requested: bool, forced: bool)
    requires Phase(during, true, requested, forced) && (forced ==> requested)
    ensures Serving(during)
  {
  }

  method RunListener(process: Process, returned: bool, ghost during0: seq<Event>, ghost requested: bool)
    returns (now: bool, ghost during: seq<Event>)
    requires Phase(during0, returned, requested, false)
    modifies process
    ensures Phase(during, now, requested, false) && (returned ==> now)
    ensures during0 <= during && process.events == old(process.events) + during[|during0|..]
  {
    hide Phase;
    PhaseNext(during0, returned, requested, false);
    now := process.Yield(returned);
    during := if now && !returned then during0 + [ListenReturned] else during0;
  }

  method AwaitListener(process: Process, returned: bool, ghost during0: seq<Event>, ghost requested: bool, ghost forced: bool)
    returns (ghost during: seq<Event>)
    requires Phase(during0, returned, requested, forced)
    modifies process
    ensures Phase(during, true, requested, forced)
    ensures during0 <= during && process.events == old(process.events) + during[|during0|..]
  {
    hide Phase;
    PhaseNext(during0, returned, requested, forced);
    process.Await(returned);
    during := if returned then during0 else during0 + [ListenReturned];
  }

  /** A run that leaves nothing behind: everything obtained was closed once and after it was obtained, nothing
      was closed while the server was listening, and listening has ended. */
  ghost predicate LeavesNothingBehind(events: seq<Event>) {
    && Balanced(events) && ClosedAfterObtained(events) && NothingClosedWhileListening(events)
    && Times(events, ListenStarted) == Times(events, ListenReturned) <= 1
  }

  lemma UnservedRunLeavesNothing(events: seq<Event>)
    requires events == [] || events == [DatabaseOpened, DatabaseClosed] || events == [DatabaseOpened, DriverObtained] + CLOSES
    ensures LeavesNothingBehind(events)
  {
  }

  lemma ServedRunLeavesNothing(before: seq<Event>, during: seq<Event>, after: seq<Event>)
    requires (before == [] && after == []) || (before == [DatabaseOpened, DriverObtained] && after == CLOSES)
    requires Serving(during)
    ensures LeavesNothingBehind(before + [ListenStarted] + during + after)
  {
    hide Balanced, ClosedAfterObtained, NothingClosedWhileListening, Serving;
    ServedCounts(before, during, after);
    ServedOrder(before, during, after);
  }

  lemma ServedCounts(before: seq<Event>, during: seq<Event>, after: seq<Event>)
    requires (before == [] && after == []) || (before == [DatabaseOpened, DriverObtained] && after == CLOSES)
    requires Serving(during)
    ensures var events := before + [ListenStarted] + during + after;
      Balanced(events) && Times(events, ListenStarted) == Times(events, ListenReturned) == 1
  {
    var events := before + [ListenStarted] + during + after;
    forall e
      ensures Times(events, e) == Times(before, e) + Times([ListenStarted], e) + Times(during, e) + Times(after, e)
    {
    }
    ServingObtainsAndClosesNothing(during);
  }

  lemma ServingObtainsAndClosesNothing(during: seq<Event>)
    requires Serving(during)
    ensures Times(during, DatabaseOpened) == Times(during, DriverObtained) == Times(during, ListenStarted) == 0
    ensures Times(during, DatabaseClosed) == Times(during, DriverClosed) == 0
  {
    assert DatabaseOpened !in during && DriverObtained !in during && ListenStarted !in during;
    assert DatabaseClosed !in during && DriverClosed !in during;
  }

  lemma ServedOrder(before: seq<Event>, during: seq<Event>, after: seq<Event>)
    requires (before == [] && after == []) || (before == [DatabaseOpened, DriverObtained] && after == CLOSES)
    requires Serving(during)
    ensures var events := before + [ListenStarted] + during + after;
      ClosedAfterObtained(events) && NothingClosedWhileListening(events)
  {
    hide Balanced;
    var events := before + [ListenStarted] + during + after;
    var front, n := before + [ListenStarted] + during, |before| + 1 + |during|;
    NoCloseBefore(before, during);
    assert forall k :: 0 <= k < n ==> events[k] == front[k];
    assert ListenReturned in during by {
      assert Times(during, ListenReturned) > 0;
    }
    forall j | 0 <= j < |events| && IsClose(events[j])
      ensures n <= j && before != [] && ListenReturned in events[..j] && DriverObtained in events[..j] && DatabaseOpened in events[..j]
    {
      assert events[..j] == front + after[..j - n];
      assert before[1] in front && before[0] in front && ListenReturned in front;
    }
  }

  lemma NoCloseBefore(before: seq<Event>, during: seq<Event>)
    requires before == [] || before == [DatabaseOpened, DriverObtained]
    requires Serving(during)
    ensures forall j :: 0 <= j < |before| + 1 + |during| ==> !IsClose((before + [ListenStarted] + during)[j])
  {
    hide Times;
    var front := before + [ListenStarted] + during;
    forall j | 0 <= j < |front|
      ensures !IsClose(front[j])
    {
      if j > |before| {
        assert front[j] == during[j - |before| - 1] && during[j - |before| - 1] in during;
      }
    }
  }

  /** runWithServerFactory. `production` says whether a registrar factory was given. */
  method Run(process: Process, contextGiven: bool, serverFactoryGiven: bool, production: bool) returns (errors: Errors)
    requires process.events == []
    requires process.answers.config.Some? ==> !(process.answers.config.value.sdkEnabled && process.answers.config.value.fixtureEnabled)
    modifies process
    ensures LeavesNothingBehind(process.events)
    ensures errors == [] ==> ListenStarted in process.events
  {
    var answers := process.answers;
    if !contextGiven {
      return [ContextRequired];
    }
    if !serverFactoryGiven {
      return [FactoryRequired];
    }
    if answers.config.None? {
      return [ConfigInvalid];
    }
    var registrar: Registrar? := null;
    if answers.config.value.sdkEnabled {
      if !production {
        return [DriverUnavailable];
      }
      registrar, errors := NewProductionRegistrar(process);
      if errors != [] {
        UnservedRunLeavesNothing(process.events);
        return;
      }
      if !answers.registers {
        errors := CloseRegistrar(registrar, [RegisterFailed]);
        UnservedRunLeavesNothing(process.events);
        return;
      }
      if answers.registered == 0 || answers.drivers == 0 {
        errors := CloseRegistrar(registrar, [DriverUnavailable]);
        UnservedRunLeavesNothing(process.events);
        return;
      }
    }
    var failure: Errors :=
      if answers.config.value.fixtureEnabled && !answers.fixtureLoads then [FixtureStateInvalid]
      else if !answers.handlerBuilt then [HandlerInvalid]
      else if !answers.serverBuilt then [ServerRequired] else [];
    if failure != [] {
      errors := CloseRegistrar(registrar, failure);
      UnservedRunLeavesNothing(process.events);
      return;
    }
    ghost var before := process.events;
    ghost var during;
    errors, during := Serve(process, registrar);
    ServedRunLeavesNothing(before, during, if registrar == null then [] else CLOSES);
  }
}
