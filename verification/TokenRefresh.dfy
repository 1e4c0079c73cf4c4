/**
 The access-token refresh protocol of `fetchAPI` and `tryRefreshToken` (frontend/src/lib/api.ts)
 over the auth store (frontend/src/store/auth.ts).

 JavaScript runs to completion between awaits, so every event below is the code between two
 awaits of one call, of one refresh, or of someone else writing the store; events of different
 calls interleave freely.  One rule of the event loop is kept: microtasks are drained before the
 next network reply is delivered, so no reply arrives between the end of a refresh and its
 `finally`.
 */
module TokenRefresh {
  import opened Wrappers

  /** A token is identified by its generation: it is the n-th token the store was given. */
  type Token = Option<nat>

  datatype Store = Store(token: Token, written: nat)

  /** `tryRefreshToken`, by the await it is at.  `floor` is the least generation the store can hold from then on. */
  datatype Flight =
    | AwaitReply
    | AwaitLogout
    | AwaitBody
    | AwaitCookie(blank: bool)
    | Settled(ok: bool, floor: nat)
    | Done(ok: bool, floor: nat)

  datatype Outcome = Returned | Failed | SessionExpired

  /** `fetchAPI`, by the await it is at. */
  datatype Stage =
    | Starting
    | AwaitFirst
    | AwaitRefresh
    | Refreshed
    | AwaitRetry
    | LoggingOut
    | LoggedOut
    | Finished(outcome: Outcome)

  datatype Request = Request(path: string, bearer: Token)

  /**
   One call of `fetchAPI` and its history: requests sent, refreshes awaited, outcomes seen, logouts
   completed.  After its logout, `floor` is the least generation the store can hold.
   */
  datatype Call = Call(path: string, skip: bool, stage: Stage,
                       sent: seq<Request>, awaited: seq<nat>, seen: seq<bool>, logouts: nat, floor: nat)

  datatype System = System(store: Store, refreshPromise: Option<nat>,
                           flights: map<nat, Flight>, next: nat, calls: map<nat, Call>)

  const INIT := System(Store(None, 0), None, map[], 0, map[])

  /** How a request is answered; `Unreadable` is a success whose body does not parse. */
  datatype Reply = Ok | Unreadable | Unauthorized | Other | NetworkError

  datatype Event =
    | Begin(call: nat, path: string, skip: bool)
    | SendFirst(call: nat)
    | FirstReply(call: nat, reply: Reply)
    | Wake(call: nat)
    | Resend(call: nat)
    | RetryReply(call: nat, reply: Reply)
    | LogoutDone(call: nat)
    | Throw(call: nat)
    | ImportFails(call: nat)
    | RefreshReply(flight: nat, reply: Reply)
    | RefreshBody(flight: nat, body: Option<bool>)
    | RefreshCookie(flight: nat)
    | RefreshLogout(flight: nat, imported: bool)
    | Finally(flight: nat)
    | StoreWritten
    | StoreCleared

  predicate At(s: System, c: nat, stage: Stage) {
    c in s.calls && s.calls[c].stage == stage
  }

  predicate Live(f: Flight) {
    !f.Done?
  }

  /** No refresh has returned without its `finally` having run. */
  predicate Quiet(s: System) {
    forall f :: f in s.flights ==> !s.flights[f].Settled?
  }

  predicate Enabled(s: System, e: Event) {
    match e
    case Begin(c, _, _) => c !in s.calls
    case SendFirst(c) => At(s, c, Starting)
    case FirstReply(c, _) => At(s, c, AwaitFirst) && Quiet(s)
    case Wake(c) => At(s, c, AwaitRefresh) && s.calls[c].awaited != [] &&
                    s.calls[c].awaited[0] in s.flights && s.flights[s.calls[c].awaited[0]].Done?
    case Resend(c) => At(s, c, Refreshed)
    case RetryReply(c, _) => At(s, c, AwaitRetry) && Quiet(s)
    case LogoutDone(c) => At(s, c, LoggingOut) && Quiet(s)
    case Throw(c) => At(s, c, LoggedOut)
    case ImportFails(c) => At(s, c, Starting) || At(s, c, Refreshed) || At(s, c, LoggingOut)
    case RefreshReply(f, _) => f in s.flights && s.flights[f] == AwaitReply
    case RefreshBody(f, _) => f in s.flights && s.flights[f] == AwaitBody
    case RefreshCookie(f) => f in s.flights && s.flights[f].AwaitCookie?
    case RefreshLogout(f, _) => f in s.flights && s.flights[f] == AwaitLogout
    case Finally(f) => f in s.flights && s.flights[f].Settled?
    case StoreWritten => true
    case StoreCleared => true
  }

  // ---------------------------------------------------------------- the steps

  function WithCall(s: System, c: nat, call: Call): System {
    s.(calls := s.calls[c := call])
  }

  function WithFlight(s: System, f: nat, flight: Flight): System {
    s.(flights := s.flights[f := flight])
  }

  function Write(store: Store): Store {
    Store(Some(store.written + 1), store.written + 1)
  }

  /** `fetch` with the token read just before it. */
  function Send(s: System, c: nat, stage: Stage): System
    requires c in s.calls
  {
    var call := s.calls[c];
    WithCall(s, c, call.(stage := stage, sent := call.sent + [Request(call.path, s.store.token)]))
  }

  function Finish(s: System, c: nat, outcome: Outcome): System
    requires c in s.calls
  {
    WithCall(s, c, s.calls[c].(stage := Finished(outcome)))
  }

  function ReplyOutcome(reply: Reply): Outcome {
    if reply == Ok then Returned else Failed
  }

  /** A 401: start a refresh unless one is in flight, and await the shared promise. */
  function JoinRefresh(s: System, c: nat): System
    requires c in s.calls
  {
    var s1 := if s.refreshPromise.Some? then s
              else s.(refreshPromise := Some(s.next), flights := s.flights[s.next := AwaitReply], next := s.next + 1);
    WithCall(s1, c, s.calls[c].(stage := AwaitRefresh, awaited := s.calls[c].awaited + [s1.refreshPromise.value]))
  }

  function Next(s: System, e: Event): System
    requires Enabled(s, e)
  {
    match e
    case Begin(c, path, skip) => WithCall(s, c, Call(path, skip, Starting, [], [], [], 0, 0))
    case SendFirst(c) => Send(s, c, AwaitFirst)
    case FirstReply(c, reply) =>
      if reply == Unauthorized && !s.calls[c].skip then JoinRefresh(s, c) else Finish(s, c, ReplyOutcome(reply))
    case Wake(c) =>
      var ok := s.flights[s.calls[c].awaited[0]].ok;
      WithCall(s, c, s.calls[c].(stage := if ok then Refreshed else LoggingOut, seen := s.calls[c].seen + [ok]))
    case Resend(c) => Send(s, c, AwaitRetry)
    case RetryReply(c, reply) =>
      if reply == Unauthorized then WithCall(s, c, s.calls[c].(stage := LoggingOut))
      else Finish(s, c, ReplyOutcome(reply))
    case LogoutDone(c) =>
      WithCall(s, c, s.calls[c].(stage := LoggedOut, logouts := s.calls[c].logouts + 1, floor := s.store.written + 1))
        .(store := s.store.(token := None))
    case Throw(c) => Finish(s, c, SessionExpired)
    case ImportFails(c) => Finish(s, c, Failed)
    case RefreshReply(f, reply) =>
      WithFlight(s, f, if reply == Ok || reply == Unreadable then AwaitBody
                       else if reply == NetworkError then Settled(false, 0) else AwaitLogout)
    case RefreshBody(f, body) =>
      WithFlight(s, f, if body.Some? then AwaitCookie(body.value) else Settled(false, 0))
    case RefreshCookie(f) =>
      var store := if s.flights[f].blank then s.store.(token := None) else Write(s.store);
      WithFlight(s, f, Settled(true, s.store.written + 1)).(store := store)
    case RefreshLogout(f, imported) =>
      WithFlight(s, f, Settled(false, if imported then s.store.written + 1 else 0))
        .(store := if imported then s.store.(token := None) else s.store)
    case Finally(f) =>
      WithFlight(s, f, Done(s.flights[f].ok, s.flights[f].floor)).(refreshPromise := None)
    case StoreWritten => s.(store := Write(s.store))
    case StoreCleared => s.(store := s.store.(token := None))
  }

  // ---------------------------------------------------------------- the code between the awaits

  /** The module variable, the store, and what is suspended at an await. */
  class Client {
    var store: Store
    var refreshPromise: Option<nat>
    var flights: map<nat, Flight>
    var next: nat
    var calls: map<nat, Call>

    constructor ()
      ensures View() == INIT
    {
      store, refreshPromise, flights, next, calls := Store(None, 0), None, map[], 0, map[];
    }

    function View(): System
      reads this
    {
      System(store, refreshPromise, flights, next, calls)
    }

    method FetchApi(c: nat, path: string, skip: bool)
      requires Enabled(View(), Begin(c, path, skip))
      modifies `calls
      ensures View() == Next(old(View()), Begin(c, path, skip))
    {
      calls := calls[c := Call(path, skip, Starting, [], [], [], 0, 0)];
    }

    /** The token is read from the store after the import, just before `fetch`. */
    method SendRequest(c: nat)
      requires Enabled(View(), SendFirst(c))
      modifies `calls
      ensures View() == Next(old(View()), SendFirst(c))
    {
      var call, token := calls[c], store.token;
      calls := calls[c := call.(stage := AwaitFirst, sent := call.sent + [Request(call.path, token)])];
    }

    method TryRefreshToken() returns (flight: nat)
      modifies `flights, `next
      ensures flight == old(next) && next == flight + 1 && flights == old(flights)[flight := AwaitReply]
    {
      flight := next;
      flights, next := flights[flight := AwaitReply], next + 1;
    }

    method HandleReply(c: nat, reply: Reply)
      requires Enabled(View(), FirstReply(c, reply))
      modifies `calls, `refreshPromise, `flights, `next
      ensures View() == Next(old(View()), FirstReply(c, reply))
    {
      var call := calls[c];
      if reply == Unauthorized && !call.skip {
        if refreshPromise.None? {
          var flight := TryRefreshToken();
          refreshPromise := Some(flight);
        }
        calls := calls[c := call.(stage := AwaitRefresh, awaited := call.awaited + [refreshPromise.value])];
      } else {
        calls := calls[c := call.(stage := Finished(if reply == Ok then Returned else Failed))];
      }
    }

    method ResumeAfterRefresh(c: nat)
      requires Enabled(View(), Wake(c))
      modifies `calls
      ensures View() == Next(old(View()), Wake(c))
    {
      var call := calls[c];
      var refreshed := flights[call.awaited[0]].ok;
      call := call.(seen := call.seen + [refreshed]);
      if refreshed {
        calls := calls[c := call.(stage := Refreshed)];
      } else {
        calls := calls[c := call.(stage := LoggingOut)];
      }
    }

    method SendRetry(c: nat)
      requires Enabled(View(), Resend(c))
      modifies `calls
      ensures View() == Next(old(View()), Resend(c))
    {
      var call, newToken := calls[c], store.token;
      calls := calls[c := call.(stage := AwaitRetry, sent := call.sent + [Request(call.path, newToken)])];
    }

    method HandleRetryReply(c: nat, reply: Reply)
      requires Enabled(View(), RetryReply(c, reply))
      modifies `calls
      ensures View() == Next(old(View()), RetryReply(c, reply))
    {
      if reply == Unauthorized {
        calls := calls[c := calls[c].(stage := LoggingOut)];
      } else {
        calls := calls[c := calls[c].(stage := Finished(if reply == Ok then Returned else Failed))];
      }
    }

    /** `logout` awaited by `fetchAPI`: the store is cleared once the cookie's request is over. */
    method FinishLogout(c: nat)
      requires Enabled(View(), LogoutDone(c))
      modifies `calls, `store
      ensures View() == Next(old(View()), LogoutDone(c))
    {
      var call := calls[c];
      store := store.(token := None);
      calls := calls[c := call.(stage := LoggedOut, logouts := call.logouts + 1, floor := store.written + 1)];
    }

    method ThrowSessionExpired(c: nat)
      requires Enabled(View(), Throw(c))
      modifies `calls
      ensures View() == Next(old(View()), Throw(c))
    {
      calls := calls[c := calls[c].(stage := Finished(SessionExpired))];
    }

    method RejectImport(c: nat)
      requires Enabled(View(), ImportFails(c))
      modifies `calls
      ensures View() == Next(old(View()), ImportFails(c))
    {
      calls := calls[c := calls[c].(stage := Finished(Failed))];
    }

    method HandleRefreshReply(f: nat, reply: Reply)
      requires Enabled(View(), RefreshReply(f, reply))
      modifies `flights
      ensures View() == Next(old(View()), RefreshReply(f, reply))
    {
      match reply {
        case Ok => flights := flights[f := AwaitBody];
        case Unreadable => flights := flights[f := AwaitBody];
        case NetworkError => flights := flights[f := Settled(false, 0)];
        case _ => flights := flights[f := AwaitLogout];
      }
    }

    /** The body is absent when it does not parse or the import fails; it says whether its token is empty. */
    method HandleRefreshBody(f: nat, body: Option<bool>)
      requires Enabled(View(), RefreshBody(f, body))
      modifies `flights
      ensures View() == Next(old(View()), RefreshBody(f, body))
    {
      if body.None? {
        flights := flights[f := Settled(false, 0)];
      } else {
        flights := flights[f := AwaitCookie(body.value)];
      }
    }

    /** `setTokens` awaited by `tryRefreshToken`. */
    method SetTokens(f: nat)
      requires Enabled(View(), RefreshCookie(f))
      modifies `flights, `store
      ensures View() == Next(old(View()), RefreshCookie(f))
    {
      var floor := store.written + 1;
      if flights[f].blank {
        store := store.(token := None);
      } else {
        store := Store(Some(floor), floor);
      }
      flights := flights[f := Settled(true, floor)];
    }

    /** `logout` awaited by `tryRefreshToken`, unless the import fails first. */
    method FinishRefreshLogout(f: nat, imported: bool)
      requires Enabled(View(), RefreshLogout(f, imported))
      modifies `flights, `store
      ensures View() == Next(old(View()), RefreshLogout(f, imported))
    {
      if imported {
        store := store.(token := None);
      }
      flights := flights[f := Settled(false, if imported then store.written + 1 else 0)];
    }

    /** The `finally` of the shared promise. */
    method ClearRefreshPromise(f: nat)
      requires Enabled(View(), Finally(f))
      modifies `flights, `refreshPromise
      ensures View() == Next(old(View()), Finally(f))
    {
      refreshPromise := None;
      flights := flights[f := Done(flights[f].ok, flights[f].floor)];
    }
  }

  // ---------------------------------------------------------------- runs

  predicate IsRun(evs: seq<Event>) {
    evs == [] || (IsRun(evs[..|evs| - 1]) && Enabled(After(evs[..|evs| - 1]), evs[|evs| - 1]))
  }

  function After(evs: seq<Event>): System {
    if evs == [] then INIT
    else
      var s, e := After(evs[..|evs| - 1]), evs[|evs| - 1];
      if Enabled(s, e) then Next(s, e) else s
  }

  // ---------------------------------------------------------------- invariants

  predicate Older(t: Token, generation: nat) {
    t.Some? ==> t.value < generation
  }

  /** The second token, if there is one, was given to the store after the first. */
  predicate Fresh(first: Token, second: Token) {
    second.Some? && first.Some? ==> first.value < second.value
  }

  predicate SentWell(call: Call) {
    && |call.sent| <= 2
    && (forall i :: 0 <= i < |call.sent| ==> call.sent[i].path == call.path)
    && (|call.sent| == 2 ==> call.seen == [true] && Fresh(call.sent[0].bearer, call.sent[1].bearer))
  }

  predicate AwaitedWell(call: Call) {
    && |call.seen| <= |call.awaited| <= 1
    && (call.skip ==> call.awaited == [])
  }

  /** Every token the call sent is below the floor its logout left. */
  predicate EndedWell(call: Call) {
    call.logouts > 0 ==> forall i :: 0 <= i < |call.sent| ==> Older(call.sent[i].bearer, call.floor)
  }

  /** What the stage says about the history. */
  predicate StageWell(call: Call) {
    match call.stage
    case Starting => call.sent == [] && call.awaited == [] && call.logouts == 0
    case AwaitFirst => |call.sent| == 1 && call.awaited == [] && call.logouts == 0
    case AwaitRefresh => |call.sent| == 1 && |call.awaited| == 1 && call.seen == [] && call.logouts == 0
    case Refreshed => |call.sent| == 1 && call.seen == [true] && call.logouts == 0
    case AwaitRetry => |call.sent| == 2 && call.logouts == 0
    case LoggingOut => |call.awaited| == 1 && |call.seen| == 1 && call.logouts == 0
    case LoggedOut => |call.awaited| == 1 && |call.seen| == 1 && call.logouts == 1
    case Finished(o) => call.logouts == if o == SessionExpired then 1 else 0
  }

  predicate CallWell(call: Call) {
    SentWell(call) && AwaitedWell(call) && StageWell(call) && EndedWell(call) && (call.skip ==> call.logouts == 0)
  }

  /** The shared promise is exactly the one live refresh. */
  predicate SingleFlight(s: System) {
    && (forall f :: f in s.flights ==> (Live(s.flights[f]) <==> s.refreshPromise == Some(f)))
    && (s.refreshPromise.Some? ==> s.refreshPromise.value in s.flights)
    && (forall f :: f in s.flights ==> f < s.next)
  }

  predicate Over(f: Flight) {
    f.Settled? || f.Done?
  }

  predicate Succeeded(f: Flight) {
    Over(f) && f.ok
  }

  /** What the store holds, now or ever again, is not older than `floor`. */
  predicate HoldsFrom(store: Store, floor: nat) {
    floor <= store.written + 1 && (store.token.Some? ==> floor <= store.token.value)
  }

  predicate StoreWell(s: System) {
    && Older(s.store.token, s.store.written + 1)
    && (forall f :: f in s.flights && Over(s.flights[f]) ==> HoldsFrom(s.store, s.flights[f].floor))
  }

  /** A call and the refresh it awaited: same outcome, and its first token is older than what the refresh stored. */
  predicate Linked(s: System, call: Call) {
    && HoldsFrom(s.store, call.floor)
    && (forall i :: 0 <= i < |call.sent| ==> Older(call.sent[i].bearer, s.store.written + 1))
    && (call.awaited != [] ==>
          && call.sent != [] && call.awaited[0] in s.flights
          && (call.seen != [] ==> s.flights[call.awaited[0]].Done? && s.flights[call.awaited[0]].ok == call.seen[0])
          && (Succeeded(s.flights[call.awaited[0]]) ==> Older(call.sent[0].bearer, s.flights[call.awaited[0]].floor)))
  }

  predicate Inv(s: System) {
    && SingleFlight(s)
    && StoreWell(s)
    && (forall c :: c in s.calls ==> CallWell(s.calls[c]))
    && (forall c :: c in s.calls ==> Linked(s, s.calls[c]))
  }

  lemma StepKeepsSingleFlight(s: System, e: Event)
    requires SingleFlight(s) && Enabled(s, e)
    ensures SingleFlight(Next(s, e))
  {
  }

  lemma StepKeepsStoreWell(s: System, e: Event)
    requires StoreWell(s) && Enabled(s, e)
    ensures StoreWell(Next(s, e))
  {
  }

  /** The call an event belongs to. */
  function Subject(e: Event): Option<nat> {
    if e.Begin? || e.SendFirst? || e.FirstReply? || e.Wake? || e.Resend? || e.RetryReply? ||
       e.LogoutDone? || e.Throw? || e.ImportFails?
    then Some(e.call) else None
  }

  /** The refresh an event belongs to. */
  function FlightOf(e: Event): Option<nat> {
    if e.RefreshReply? || e.RefreshBody? || e.RefreshCookie? || e.RefreshLogout? || e.Finally?
    then Some(e.flight) else None
  }

  lemma OthersUnchanged(s: System, e: Event, c: nat)
    requires Enabled(s, e) && Subject(e) != Some(c)
    ensures c in Next(s, e).calls <==> c in s.calls
    ensures c in s.calls ==> Next(s, e).calls[c] == s.calls[c]
  {
  }

  lemma SendKeepsCall(s: System, c: nat, stage: Stage)
    requires c in s.calls && CallWell(s.calls[c]) && Linked(s, s.calls[c]) && StoreWell(s)
    requires (s.calls[c].stage == Starting && stage == AwaitFirst) || (s.calls[c].stage == Refreshed && stage == AwaitRetry)
    ensures CallWell(Send(s, c, stage).calls[c])
  {
    if s.calls[c].stage == Refreshed {
      var f := s.flights[s.calls[c].awaited[0]];
      assert Succeeded(f);
      assert Older(s.calls[c].sent[0].bearer, f.floor);
    }
  }

  lemma FirstReplyKeepsCall(s: System, c: nat, reply: Reply)
    requires Enabled(s, FirstReply(c, reply)) && CallWell(s.calls[c])
    ensures CallWell(Next(s, FirstReply(c, reply)).calls[c])
  {
  }

  lemma WakeKeepsCall(s: System, c: nat)
    requires Enabled(s, Wake(c)) && CallWell(s.calls[c])
    ensures CallWell(Next(s, Wake(c)).calls[c])
  {
  }

  lemma LogoutKeepsCall(s: System, c: nat)
    requires Enabled(s, LogoutDone(c)) && CallWell(s.calls[c]) && Linked(s, s.calls[c])
    ensures CallWell(Next(s, LogoutDone(c)).calls[c])
  {
  }

  lemma EndingKeepsCall(s: System, e: Event)
    requires Enabled(s, e) && (e.RetryReply? || e.Throw? || e.ImportFails?) && CallWell(s.calls[e.call])
    ensures CallWell(Next(s, e).calls[e.call])
  {
  }

  lemma OwnStepKeepsCall(s: System, e: Event)
    requires Enabled(s, e) && Subject(e).Some?
    requires !e.SendFirst? && !e.Resend?
    requires e.call in s.calls ==> CallWell(s.calls[e.call]) && Linked(s, s.calls[e.call])
    ensures CallWell(Next(s, e).calls[e.call])
  {
    if e.Begin? {
      assert Next(s, e).calls[e.call].stage == Starting;
    } else {
      hide Next, CallWell, Linked;
      match e
      case FirstReply(c, reply) => FirstReplyKeepsCall(s, c, reply);
      case Wake(c) => WakeKeepsCall(s, c);
      case LogoutDone(c) => LogoutKeepsCall(s, c);
      case _ => EndingKeepsCall(s, e);
    }
  }

  lemma StepKeepsCalls(s: System, e: Event, c: nat)
    requires Inv(s) && Enabled(s, e) && c in Next(s, e).calls
    ensures CallWell(Next(s, e).calls[c])
  {
    if Subject(e) != Some(c) {
      OthersUnchanged(s, e, c);
    } else if e.SendFirst? {
      SendKeepsCall(s, c, AwaitFirst);
    } else if e.Resend? {
      SendKeepsCall(s, c, AwaitRetry);
    } else {
      OwnStepKeepsCall(s, e);
    }
  }

  /** Facts about one call survive whatever the rest of the system does. */
  lemma OtherStepKeepsLink(s: System, e: Event, call: Call)
    requires SingleFlight(s) && Linked(s, call) && Enabled(s, e) && Subject(e).None?
    ensures Linked(Next(s, e), call)
  {
  }

  lemma CallStepKeepsLink(s: System, e: Event, call: Call)
    requires SingleFlight(s) && Linked(s, call) && Enabled(s, e) && Subject(e).Some?
    ensures Linked(Next(s, e), call)
  {
  }

  lemma SendKeepsLink(s: System, c: nat, stage: Stage)
    requires c in s.calls && Linked(s, s.calls[c]) && StoreWell(s) && StageWell(s.calls[c])
    requires (s.calls[c].stage == Starting && stage == AwaitFirst) || (s.calls[c].stage == Refreshed && stage == AwaitRetry)
    ensures Linked(Send(s, c, stage), Send(s, c, stage).calls[c])
  {
  }

  lemma JoinKeepsLink(s: System, c: nat)
    requires c in s.calls && Linked(s, s.calls[c]) && SingleFlight(s) && Quiet(s) && At(s, c, AwaitFirst) && CallWell(s.calls[c])
    ensures Linked(JoinRefresh(s, c), JoinRefresh(s, c).calls[c])
  {
  }

  lemma StepKeepsLinks(s: System, e: Event, c: nat)
    requires Inv(s) && Enabled(s, e) && c in Next(s, e).calls
    ensures Linked(Next(s, e), Next(s, e).calls[c])
  {
    if Subject(e) != Some(c) {
      OthersUnchanged(s, e, c);
      if Subject(e).None? {
        OtherStepKeepsLink(s, e, s.calls[c]);
      } else {
        CallStepKeepsLink(s, e, s.calls[c]);
      }
    } else if e.SendFirst? {
      SendKeepsLink(s, c, AwaitFirst);
    } else if e.Resend? {
      SendKeepsLink(s, c, AwaitRetry);
    } else if e.FirstReply? && e.reply == Unauthorized && !s.calls[c].skip {
      JoinKeepsLink(s, c);
    } else if !e.Begin? {
      CallStepKeepsLink(s, e, s.calls[c]);
    }
  }

  lemma {:induction false} InvAlways(evs: seq<Event>)
    requires IsRun(evs)
    ensures Inv(After(evs))
  {
    if evs != [] {
      var front, e := evs[..|evs| - 1], evs[|evs| - 1];
      InvAlways(front);
      StepKeepsSingleFlight(After(front), e);
      StepKeepsStoreWell(After(front), e);
      forall c | c in After(evs).calls
        ensures CallWell(After(evs).calls[c]) && Linked(After(evs), After(evs).calls[c])
      {
        StepKeepsCalls(After(front), e, c);
        StepKeepsLinks(After(front), e, c);
      }
    }
  }

  // ---------------------------------------------------------------- what every run keeps

  /**
   `refreshPromise` holds a refresh exactly while that refresh is in flight, so there is never a
   second one, and a refresh's `finally` clears its own promise only.
   */
  lemma OneRefreshAtATime(evs: seq<Event>)
    requires IsRun(evs)
    ensures var s := After(evs);
            && (forall f :: f in s.flights && Live(s.flights[f]) <==> s.refreshPromise == Some(f))
            && (forall f: nat :: Enabled(s, Finally(f)) ==> s.refreshPromise == Some(f))
  {
    InvAlways(evs);
  }

  lemma CallFacts(evs: seq<Event>, c: nat)
    requires IsRun(evs) && c in After(evs).calls
    ensures CallWell(After(evs).calls[c]) && Linked(After(evs), After(evs).calls[c])
  {
    InvAlways(evs);
  }

  lemma SeenAgree(s: System, c: Call, d: Call)
    requires CallWell(c) && Linked(s, c) && CallWell(d) && Linked(s, d)
    requires c.seen != [] && d.seen != [] && c.awaited == d.awaited
    ensures c.seen == d.seen
  {
  }

  /** Calls that awaited the same refresh resumed with the same outcome. */
  lemma JoinersAgree(evs: seq<Event>, c: nat, d: nat)
    requires IsRun(evs) && c in After(evs).calls && d in After(evs).calls
    requires After(evs).calls[c].seen != [] && After(evs).calls[d].seen != []
    requires After(evs).calls[c].awaited == After(evs).calls[d].awaited
    ensures After(evs).calls[c].seen == After(evs).calls[d].seen
  {
    CallFacts(evs, c);
    CallFacts(evs, d);
    SeenAgree(After(evs), After(evs).calls[c], After(evs).calls[d]);
  }

  /** The whole contract of one call, in every interleaving. */
  lemma CallContract(evs: seq<Event>, c: nat)
    requires IsRun(evs) && c in After(evs).calls
    ensures var call := After(evs).calls[c];
            && |call.sent| <= 2 && |call.awaited| <= 1
            && (forall i :: 0 <= i < |call.sent| ==> call.sent[i].path == call.path)
            && (|call.sent| == 2 ==> call.seen == [true] && Fresh(call.sent[0].bearer, call.sent[1].bearer))
            && (call.stage == Finished(SessionExpired) <==> call.stage.Finished? && call.logouts == 1)
            && (call.logouts <= 1)
            && (call.skip ==> |call.sent| <= 1 && call.awaited == [] && call.logouts == 0)
  {
    CallFacts(evs, c);
  }

  /**
   A call that threw session_expired really ended the session: a token found in the store at any
   later time was given to it after that logout, so it is none of those the call had sent.
   */
  lemma SessionIsOver(evs: seq<Event>, c: nat, i: nat)
    requires IsRun(evs) && c in After(evs).calls && After(evs).calls[c].stage == Finished(SessionExpired)
    requires i < |After(evs).calls[c].sent| && After(evs).store.token.Some?
    ensures HoldsFrom(After(evs).store, After(evs).calls[c].floor)
    ensures Older(After(evs).calls[c].sent[i].bearer, After(evs).store.token.value)
  {
    CallFacts(evs, c);
  }

  lemma StepGrows(s: System, e: Event, f: nat)
    requires SingleFlight(s) && Enabled(s, e) && f in s.flights
    ensures s.store.written <= Next(s, e).store.written && f in Next(s, e).flights
    ensures Over(s.flights[f]) ==> Over(Next(s, e).flights[f]) && Next(s, e).flights[f].floor == s.flights[f].floor
                                   && Next(s, e).flights[f].ok == s.flights[f].ok
    ensures var after := Next(s, e).flights[f];
            !Over(s.flights[f]) && Over(after) && (after.ok || after.floor > 0) ==> after.floor == s.store.written + 1
  {
  }

  lemma {:induction false} FloorAboveEarlier(evs: seq<Event>, f: nat, k: nat)
    requires IsRun(evs) && k <= |evs| && f in After(evs[..k]).flights && !Over(After(evs[..k]).flights[f])
    ensures f in After(evs).flights && After(evs[..k]).store.written <= After(evs).store.written
    ensures var flight := After(evs).flights[f];
            Over(flight) && (flight.ok || flight.floor > 0) ==> After(evs[..k]).store.written < flight.floor
  {
    hide SingleFlight, Enabled, Next, Inv;
    if k == |evs| {
      assert evs[..k] == evs;
    } else {
      var front := evs[..|evs| - 1];
      assert front[..k] == evs[..k];
      FloorAboveEarlier(front, f, k);
      OneFlight(front);
      StepGrows(After(front), evs[|evs| - 1], f);
    }
  }

  lemma OneFlight(evs: seq<Event>)
    requires IsRun(evs)
    ensures SingleFlight(After(evs)) && StoreWell(After(evs))
  {
    InvAlways(evs);
  }

  /**
   Once a refresh has succeeded, or has logged the user out, the store never again holds a token it
   held while that refresh was in flight.
   */
  lemma OldTokensNeverReturn(evs: seq<Event>, f: nat, k: nat)
    requires IsRun(evs) && k <= |evs| && f in After(evs[..k]).flights && !Over(After(evs[..k]).flights[f])
    requires f in After(evs).flights && Over(After(evs).flights[f])
    requires After(evs).flights[f].ok || After(evs).flights[f].floor > 0
    ensures Fresh(After(evs[..k]).store.token, After(evs).store.token)
  {
    FloorAboveEarlier(evs, f, k);
    OneFlight(evs);
    PrefixRun(evs, k);
    OneFlight(evs[..k]);
  }

  lemma {:induction false} PrefixRun(evs: seq<Event>, k: nat)
    requires IsRun(evs) && k <= |evs|
    ensures IsRun(evs[..k])
  {
    if k == |evs| {
      assert evs[..k] == evs;
    } else {
      var front := evs[..|evs| - 1];
      assert front[..k] == evs[..k];
      PrefixRun(front, k);
    }
  }

  // ---------------------------------------------------------------- what happened, told by the events

  function Past(evs: seq<Event>): set<Event> {
    set e | e in evs
  }

  lemma PastSnoc(evs: seq<Event>, e: Event)
    ensures Past(evs + [e]) == Past(evs) + {e}
  {
  }

  /** Events of calls and refreshes happen only to calls and refreshes there are. */
  predicate Known(past: set<Event>, s: System) {
    && (forall e :: e in past && Subject(e).Some? ==> Subject(e).value in s.calls)
    && (forall e :: e in past && FlightOf(e).Some? ==> FlightOf(e).value in s.flights)
  }

  lemma {:induction false} OnlyKnown(evs: seq<Event>)
    requires IsRun(evs)
    ensures Known(Past(evs), After(evs))
  {
    if evs != [] {
      PastSnoc(evs[..|evs| - 1], evs[|evs| - 1]);
      assert evs == evs[..|evs| - 1] + [evs[|evs| - 1]];
      OnlyKnown(evs[..|evs| - 1]);
      KnownStep(After(evs[..|evs| - 1]), evs[|evs| - 1]);
    }
  }

  lemma KnownStep(s: System, e: Event)
    requires Enabled(s, e)
    ensures forall c :: c in s.calls ==> c in Next(s, e).calls
    ensures forall f :: f in s.flights ==> f in Next(s, e).flights
    ensures Subject(e).Some? ==> Subject(e).value in Next(s, e).calls
    ensures FlightOf(e).Some? ==> FlightOf(e).value in Next(s, e).flights
  {
  }

  /** The first request failed for good, other than by a 401 that may be retried. */
  predicate FirstFailed(past: set<Event>, c: nat, skip: bool) {
    FirstReply(c, Unreadable) in past || FirstReply(c, Other) in past || FirstReply(c, NetworkError) in past ||
    (skip && FirstReply(c, Unauthorized) in past)
  }

  predicate RetryFailed(past: set<Event>, c: nat) {
    RetryReply(c, Unreadable) in past || RetryReply(c, Other) in past || RetryReply(c, NetworkError) in past
  }

  /** What the events say of a call. */
  predicate Told(past: set<Event>, c: nat, call: Call) {
    && Begin(c, call.path, call.skip) in past
    && |call.sent| == (if SendFirst(c) in past then 1 else 0) + (if Resend(c) in past then 1 else 0)
    && (|call.awaited| == 1 <==> FirstReply(c, Unauthorized) in past && !call.skip)
    && (|call.seen| == 1 <==> Wake(c) in past)
    && (Resend(c) in past ==> call.seen == [true])
    && (call.logouts == 1 <==> LogoutDone(c) in past)
    && (call.stage == Finished(Returned) <==> FirstReply(c, Ok) in past || RetryReply(c, Ok) in past)
    && (call.stage == Finished(SessionExpired) <==> Throw(c) in past)
    && (call.stage == Finished(Failed) <==> FirstFailed(past, c, call.skip) || RetryFailed(past, c) || ImportFails(c) in past)
    && (call.seen == [false] || RetryReply(c, Unauthorized) in past ==>
          call.stage == LoggingOut || call.stage == LoggedOut || call.stage == Finished(SessionExpired) || ImportFails(c) in past)
    && (call.stage == LoggingOut || call.stage == LoggedOut || call.stage == Finished(SessionExpired) ==>
          call.seen == [false] || RetryReply(c, Unauthorized) in past)
    && (call.stage == AwaitRetry ==> Resend(c) in past)
    && (call.stage == Refreshed ==> Resend(c) !in past)
  }

  lemma ToldElsewhere(s: System, past: set<Event>, e: Event, c: nat)
    requires Enabled(s, e) && Subject(e) != Some(c) && c in s.calls && Told(past, c, s.calls[c])
    ensures c in Next(s, e).calls && Told(past + {e}, c, Next(s, e).calls[c])
  {
    OthersUnchanged(s, e, c);
    hide Next, Enabled;
  }

  lemma ToldBegin(s: System, past: set<Event>, e: Event)
    requires e.Begin? && Enabled(s, e) && Known(past, s)
    ensures Told(past + {e}, e.call, Next(s, e).calls[e.call])
  {
    var c := e.call;
    assert forall x :: x in past ==> Subject(x) != Some(c);
  }

  lemma ToldSend(s: System, past: set<Event>, e: Event)
    requires (e.SendFirst? || e.Resend?) && Enabled(s, e) && CallWell(s.calls[e.call]) && Told(past, e.call, s.calls[e.call])
    ensures Told(past + {e}, e.call, Next(s, e).calls[e.call])
  {
  }

  lemma ToldFirstReply(s: System, past: set<Event>, e: Event)
    requires e.FirstReply? && Enabled(s, e) && CallWell(s.calls[e.call]) && Told(past, e.call, s.calls[e.call])
    ensures Told(past + {e}, e.call, Next(s, e).calls[e.call])
  {
  }

  lemma ToldWake(s: System, past: set<Event>, e: Event)
    requires e.Wake? && Enabled(s, e) && CallWell(s.calls[e.call]) && Told(past, e.call, s.calls[e.call])
    ensures Told(past + {e}, e.call, Next(s, e).calls[e.call])
  {
    var ok := s.flights[s.calls[e.call].awaited[0]].ok;
    assert RetryReply(e.call, Unauthorized) !in past && s.calls[e.call].seen == [];
    assert Next(s, e).calls[e.call].seen == [ok] && (ok ==> [ok] != [false]) by {
      assert [ok][0] == ok;
    }
  }

  lemma ToldRetryReply(s: System, past: set<Event>, e: Event)
    requires e.RetryReply? && Enabled(s, e) && CallWell(s.calls[e.call]) && Told(past, e.call, s.calls[e.call])
    ensures Told(past + {e}, e.call, Next(s, e).calls[e.call])
  {
  }

  lemma ToldEnd(s: System, past: set<Event>, e: Event)
    requires (e.LogoutDone? || e.Throw? || e.ImportFails?) && Enabled(s, e)
    requires CallWell(s.calls[e.call]) && Told(past, e.call, s.calls[e.call])
    ensures Told(past + {e}, e.call, Next(s, e).calls[e.call])
  {
  }

  lemma {:induction false} ToldAlways(evs: seq<Event>, c: nat)
    requires IsRun(evs) && c in After(evs).calls
    ensures Told(Past(evs), c, After(evs).calls[c])
  {
    hide Told, CallWell, Enabled, Next, Known, Linked;
    if evs != [] {
      var front, e := evs[..|evs| - 1], evs[|evs| - 1];
      PastSnoc(front, e);
      assert evs == front + [e];
      if Subject(e) != Some(c) {
        OthersUnchanged(After(front), e, c);
        ToldAlways(front, c);
        ToldElsewhere(After(front), Past(front), e, c);
      } else if e.Begin? {
        OnlyKnown(front);
        ToldBegin(After(front), Past(front), e);
      } else {
        CallIsThere(After(front), e);
        ToldAlways(front, c);
        CallFacts(front, c);
        ToldOwn(After(front), Past(front), e);
      }
    }
  }

  lemma CallIsThere(s: System, e: Event)
    requires Enabled(s, e) && Subject(e).Some? && !e.Begin?
    ensures e.call in s.calls
  {
  }

  lemma ToldOwn(s: System, past: set<Event>, e: Event)
    requires Enabled(s, e) && Subject(e).Some? && !e.Begin? && e.call in s.calls
    requires CallWell(s.calls[e.call]) && Told(past, e.call, s.calls[e.call])
    ensures e.call in Next(s, e).calls && Told(past + {e}, e.call, Next(s, e).calls[e.call])
  {
    hide Told, CallWell;
    KnownStep(s, e);
    if e.SendFirst? || e.Resend? {
      ToldSend(s, past, e);
    } else if e.FirstReply? {
      ToldFirstReply(s, past, e);
    } else if e.Wake? {
      ToldWake(s, past, e);
    } else if e.RetryReply? {
      ToldRetryReply(s, past, e);
    } else {
      ToldEnd(s, past, e);
    }
  }

  /**
   What a call does, told by the events of the run alone: a refresh is awaited if and only if the first
   reply was a 401 that was not to be skipped; a second request is sent if and only if the retry was
   reached, which takes a refresh that succeeded; the call returns if and only if one of its requests
   was answered well, throws session_expired if and only if it logged out, and fails in all other ways.
   */
  lemma CallStory(evs: seq<Event>, c: nat)
    requires IsRun(evs) && c in After(evs).calls
    ensures var call := After(evs).calls[c];
            && Begin(c, call.path, call.skip) in evs
            && (|call.awaited| == 1 <==> FirstReply(c, Unauthorized) in evs && !call.skip)
            && (|call.sent| >= 1 <==> SendFirst(c) in evs)
            && (|call.sent| == 2 <==> Resend(c) in evs)
            && (Resend(c) in evs ==> call.seen == [true])
            && (call.stage == Finished(Returned) <==> FirstReply(c, Ok) in evs || RetryReply(c, Ok) in evs)
            && (call.stage == Finished(SessionExpired) <==> Throw(c) in evs)
            && (Throw(c) in evs ==> LogoutDone(c) in evs)
            && (LogoutDone(c) in evs ==> call.seen == [false] || RetryReply(c, Unauthorized) in evs)
            && (call.stage.Finished? && (call.seen == [false] || RetryReply(c, Unauthorized) in evs) ==>
                  call.stage == Finished(SessionExpired) || ImportFails(c) in evs)
            && (call.stage == Finished(Failed) <==>
                  || FirstReply(c, Unreadable) in evs || FirstReply(c, Other) in evs || FirstReply(c, NetworkError) in evs
                  || (call.skip && FirstReply(c, Unauthorized) in evs)
                  || RetryReply(c, Unreadable) in evs || RetryReply(c, Other) in evs || RetryReply(c, NetworkError) in evs
                  || ImportFails(c) in evs)
  {
    ToldAlways(evs, c);
    CallFacts(evs, c);
    ResendAfterSend(evs, c);
    LoggedOutFirst(evs, c);
  }

  /** A retry follows a first request. */
  lemma ResendAfterSend(evs: seq<Event>, c: nat)
    requires IsRun(evs) && c in After(evs).calls
    ensures Resend(c) in evs ==> SendFirst(c) in evs
  {
    hide Enabled, Next;
    ToldAlways(evs, c);
    CallFacts(evs, c);
    var call := After(evs).calls[c];
    assert call.seen == [true] ==> call.sent != [];
    if Resend(c) in evs && SendFirst(c) !in evs {
      RetryIsSecond(evs, c);
    }
  }

  lemma {:induction false} RetryIsSecond(evs: seq<Event>, c: nat)
    requires IsRun(evs) && Resend(c) in evs
    ensures SendFirst(c) in evs
  {
    hide Next, Linked;
    var front, e := evs[..|evs| - 1], evs[|evs| - 1];
    assert evs == front + [e];
    if Resend(c) in front {
      RetryIsSecond(front, c);
    } else {
      ToldAlways(front, c);
      CallFacts(front, c);
    }
  }

  lemma {:induction false} LoggedOutFirst(evs: seq<Event>, c: nat)
    requires IsRun(evs) && c in After(evs).calls
    ensures LogoutDone(c) in evs ==> After(evs).calls[c].seen == [false] || RetryReply(c, Unauthorized) in evs
  {
    hide Next, Enabled, Linked;
    ToldAlways(evs, c);
    CallFacts(evs, c);
    if LogoutDone(c) in evs {
      assert After(evs).calls[c].logouts == 1;
    }
  }

  predicate Replied(past: set<Event>, f: nat, refused: bool) {
    if refused then RefreshReply(f, Unauthorized) in past || RefreshReply(f, Other) in past
    else RefreshReply(f, Ok) in past || RefreshReply(f, Unreadable) in past
  }

  predicate LoggedOutBy(past: set<Event>, f: nat) {
    RefreshLogout(f, true) in past || RefreshLogout(f, false) in past
  }

  predicate Read(past: set<Event>, f: nat) {
    RefreshBody(f, Some(true)) in past || RefreshBody(f, Some(false)) in past
  }

  /** What the events say of a refresh. */
  predicate FlightTold(past: set<Event>, f: nat, flight: Flight) {
    && (flight.AwaitReply? <==> !Replied(past, f, true) && !Replied(past, f, false) && RefreshReply(f, NetworkError) !in past)
    && (flight.AwaitLogout? || LoggedOutBy(past, f) <==> Replied(past, f, true))
    && (flight.AwaitLogout? ==> !LoggedOutBy(past, f))
    && (flight.AwaitBody? || RefreshBody(f, None) in past || Read(past, f) <==> Replied(past, f, false))
    && (flight.AwaitBody? ==> RefreshBody(f, None) !in past && !Read(past, f))
    && (flight.AwaitCookie? ==> RefreshBody(f, Some(flight.blank)) in past && RefreshBody(f, Some(!flight.blank)) !in past)
    && (flight.AwaitCookie? || RefreshCookie(f) in past <==> Read(past, f))
    && (flight.AwaitCookie? ==> RefreshCookie(f) !in past)
    && (Succeeded(flight) <==> RefreshCookie(f) in past)
    && (Over(flight) && !flight.ok <==> RefreshReply(f, NetworkError) in past || RefreshBody(f, None) in past || LoggedOutBy(past, f))
    && (flight.Done? <==> Finally(f) in past)
  }

  lemma FlightUnchanged(s: System, e: Event, f: nat)
    requires Enabled(s, e) && FlightOf(e) != Some(f) && f in s.flights && SingleFlight(s)
    ensures f in Next(s, e).flights && Next(s, e).flights[f] == s.flights[f]
  {
  }

  lemma FlightElsewhere(past: set<Event>, e: Event, f: nat, flight: Flight)
    requires FlightOf(e) != Some(f) && FlightTold(past, f, flight)
    ensures FlightTold(past + {e}, f, flight)
  {
  }

  lemma FlightReplied(s: System, past: set<Event>, e: Event)
    requires e.RefreshReply? && Enabled(s, e) && FlightTold(past, e.flight, s.flights[e.flight])
    ensures FlightTold(past + {e}, e.flight, Next(s, e).flights[e.flight])
  {
  }

  lemma FlightRead(s: System, past: set<Event>, e: Event)
    requires e.RefreshBody? && Enabled(s, e) && FlightTold(past, e.flight, s.flights[e.flight])
    ensures FlightTold(past + {e}, e.flight, Next(s, e).flights[e.flight])
  {
  }

  lemma FlightEnds(s: System, past: set<Event>, e: Event)
    requires e.RefreshCookie? || e.RefreshLogout? || e.Finally?
    requires Enabled(s, e) && FlightTold(past, e.flight, s.flights[e.flight])
    ensures FlightTold(past + {e}, e.flight, Next(s, e).flights[e.flight])
  {
  }

  lemma FlightOwn(s: System, past: set<Event>, e: Event)
    requires Enabled(s, e) && FlightOf(e).Some? && e.flight in s.flights && FlightTold(past, e.flight, s.flights[e.flight])
    ensures e.flight in Next(s, e).flights && FlightTold(past + {e}, e.flight, Next(s, e).flights[e.flight])
  {
    hide FlightTold;
    KnownStep(s, e);
    hide Next, Enabled;
    if e.RefreshReply? {
      FlightReplied(s, past, e);
    } else if e.RefreshBody? {
      FlightRead(s, past, e);
    } else {
      FlightEnds(s, past, e);
    }
  }

  lemma FlightBegins(s: System, past: set<Event>, e: Event, f: nat)
    requires Enabled(s, e) && f !in s.flights && f in Next(s, e).flights && Known(past, s)
    ensures FlightTold(past + {e}, f, Next(s, e).flights[f])
  {
    assert e.FirstReply? && Next(s, e).flights[f] == AwaitReply;
    assert forall x :: x in past ==> FlightOf(x) != Some(f);
  }

  lemma {:induction false} FlightToldAlways(evs: seq<Event>, f: nat)
    requires IsRun(evs) && f in After(evs).flights
    ensures FlightTold(Past(evs), f, After(evs).flights[f])
  {
    hide FlightTold, Enabled, Next, Known, SingleFlight;
    if evs != [] {
      var front, e := evs[..|evs| - 1], evs[|evs| - 1];
      PastSnoc(front, e);
      assert evs == front + [e];
      OneFlight(front);
      if f !in After(front).flights {
        OnlyKnown(front);
        FlightBegins(After(front), Past(front), e, f);
      } else {
        FlightToldAlways(front, f);
        if FlightOf(e) == Some(f) {
          FlightOwn(After(front), Past(front), e);
        } else {
          FlightUnchanged(After(front), e, f);
          FlightElsewhere(Past(front), e, f, After(front).flights[f]);
        }
      }
    }
  }

  /**
   What a refresh does, told by the events of the run alone: a refusal leads to a logout, an answer to its
   body, a body to the cookie request; it succeeds if and only if it got past that one, fails in all other
   ways, and is done once its `finally` has run.
   */
  lemma FlightStory(evs: seq<Event>, f: nat)
    requires IsRun(evs) && f in After(evs).flights
    ensures var flight := After(evs).flights[f];
            && (flight.AwaitLogout? || RefreshLogout(f, true) in evs || RefreshLogout(f, false) in evs <==>
                RefreshReply(f, Unauthorized) in evs || RefreshReply(f, Other) in evs)
            && (flight.AwaitBody? || RefreshBody(f, None) in evs ||
                RefreshBody(f, Some(true)) in evs || RefreshBody(f, Some(false)) in evs <==>
                RefreshReply(f, Ok) in evs || RefreshReply(f, Unreadable) in evs)
            && (flight.AwaitCookie? || RefreshCookie(f) in evs <==>
                RefreshBody(f, Some(true)) in evs || RefreshBody(f, Some(false)) in evs)
            && (Over(flight) && flight.ok <==> RefreshCookie(f) in evs)
            && (Over(flight) && !flight.ok <==>
                || RefreshReply(f, NetworkError) in evs || RefreshBody(f, None) in evs
                || RefreshLogout(f, true) in evs || RefreshLogout(f, false) in evs)
            && (flight.Done? <==> Finally(f) in evs)
  {
    FlightToldAlways(evs, f);
  }

  // ---------------------------------------------------------------- which token a request carries

  /** How many tokens the store was given. */
  function Given(evs: seq<Event>): nat {
    if evs == [] then 0
    else
      var front, e := evs[..|evs| - 1], evs[|evs| - 1];
      Given(front) + (if e.StoreWritten? || (e.RefreshCookie? && RefreshBody(e.flight, Some(false)) in front) then 1 else 0)
  }

  /** The token in the store, told by the events alone: the last one given, unless the store was cleared since. */
  function Held(evs: seq<Event>): Token {
    if evs == [] then None
    else
      var front, e := evs[..|evs| - 1], evs[|evs| - 1];
      match e
      case StoreWritten => Some(Given(evs))
      case StoreCleared => None
      case LogoutDone(_) => None
      case RefreshLogout(_, imported) => if imported then None else Held(front)
      case RefreshCookie(f) => if RefreshBody(f, Some(false)) in front then Some(Given(evs)) else None
      case _ => Held(front)
  }

  lemma HeldStep(s: System, evs: seq<Event>, e: Event)
    requires Enabled(s, e) && s.store == Store(Held(evs), Given(evs))
    requires e.RefreshCookie? ==> FlightTold(Past(evs), e.flight, s.flights[e.flight])
    ensures Next(s, e).store == Store(Held(evs + [e]), Given(evs + [e]))
  {
    assert (evs + [e])[..|evs|] == evs;
  }

  lemma {:induction false} StoreHolds(evs: seq<Event>)
    requires IsRun(evs)
    ensures After(evs).store == Store(Held(evs), Given(evs))
  {
    hide FlightTold, Next, Held, Given;
    if evs == [] {
      NothingHeld();
    } else {
      var front, e := evs[..|evs| - 1], evs[|evs| - 1];
      assert evs == front + [e];
      StoreHolds(front);
      if e.RefreshCookie? {
        FlightToldAlways(front, e.flight);
      }
      HeldStep(After(front), front, e);
    }
  }

  lemma NothingHeld()
    ensures Held([]) == None && Given([]) == 0
  {
  }

  lemma SentGrows(s: System, e: Event, c: nat)
    requires Enabled(s, e) && c in s.calls
    ensures c in Next(s, e).calls && s.calls[c].sent <= Next(s, e).calls[c].sent
    ensures Next(s, e).calls[c].sent == s.calls[c].sent +
              (if e == SendFirst(c) || e == Resend(c) then [Request(s.calls[c].path, s.store.token)] else [])
    ensures Next(s, e).calls[c].path == s.calls[c].path
  {
  }

  /** Each request carries the token that was in the store when it was sent, whenever there was one. */
  lemma {:induction false} BearersAreHeld(evs: seq<Event>, c: nat, k: nat)
    requires IsRun(evs) && k < |evs| && (evs[k] == SendFirst(c) || evs[k] == Resend(c))
    ensures c in After(evs).calls
    ensures var sent, i := After(evs).calls[c].sent, if evs[k] == SendFirst(c) then 0 else 1;
            i < |sent| && sent[i] == Request(After(evs).calls[c].path, Held(evs[..k]))
  {
    hide Next, Enabled, Held, Linked;
    var front, e := evs[..|evs| - 1], evs[|evs| - 1];
    if k < |front| {
      BearersAreHeld(front, c, k);
      assert front[..k] == evs[..k] && front[k] == evs[k];
      SentGrows(After(front), e, c);
    } else {
      assert evs[..k] == front;
      SenderIsReady(After(front), e, c);
      StoreHolds(front);
      CallFacts(front, c);
      SentGrows(After(front), e, c);
    }
  }

  lemma SenderIsReady(s: System, e: Event, c: nat)
    requires Enabled(s, e) && (e == SendFirst(c) || e == Resend(c))
    ensures c in s.calls && s.calls[c].stage == if e == SendFirst(c) then Starting else Refreshed
  {
  }

  // ---------------------------------------------------------------- no call is left hanging

  predicate Unfinished(s: System, c: nat) {
    c in s.calls && !s.calls[c].stage.Finished?
  }

  /** The next step of a live refresh, whatever the network does. */
  function FlightStep(s: System, f: nat): Event
    requires f in s.flights && Live(s.flights[f])
  {
    match s.flights[f]
    case AwaitReply => RefreshReply(f, NetworkError)
    case AwaitLogout => RefreshLogout(f, true)
    case AwaitBody => RefreshBody(f, None)
    case AwaitCookie(_) => RefreshCookie(f)
    case _ => Finally(f)
  }

  /** The next step of an unfinished call, or of the refresh it depends on. */
  function CallStep(s: System, c: nat): Event
    requires Inv(s) && Unfinished(s, c)
  {
    var call := s.calls[c];
    assert CallWell(call) && Linked(s, call);
    if call.stage == Starting then SendFirst(c)
    else if call.stage == Refreshed then Resend(c)
    else if call.stage == LoggedOut then Throw(c)
    else if call.stage == AwaitRefresh then
      (if Live(s.flights[call.awaited[0]]) then FlightStep(s, call.awaited[0]) else Wake(c))
    else if s.refreshPromise.Some? && s.flights[s.refreshPromise.value].Settled? then Finally(s.refreshPromise.value)
    else if call.stage == AwaitFirst then FirstReply(c, NetworkError)
    else if call.stage == AwaitRetry then RetryReply(c, NetworkError)
    else LogoutDone(c)
  }

  lemma QuietUnlessSettling(s: System)
    requires SingleFlight(s)
    ensures Quiet(s) <==> !(s.refreshPromise.Some? && s.flights[s.refreshPromise.value].Settled?)
  {
  }

  lemma LiveFlightCanStep(s: System, f: nat)
    requires f in s.flights && Live(s.flights[f])
    ensures Enabled(s, FlightStep(s, f))
  {
  }

  lemma CallStepEnabled(s: System, c: nat)
    requires Inv(s) && Unfinished(s, c)
    ensures Enabled(s, CallStep(s, c))
  {
    var call := s.calls[c];
    assert CallWell(call) && Linked(s, call);
    QuietUnlessSettling(s);
    if call.stage == AwaitRefresh && Live(s.flights[call.awaited[0]]) {
      LiveFlightCanStep(s, call.awaited[0]);
    }
  }

  /** In every run an unfinished call, or the refresh it waits for, can take a step. */
  lemma NoCallIsStuck(evs: seq<Event>, c: nat)
    requires IsRun(evs) && Unfinished(After(evs), c)
    ensures Inv(After(evs)) && Enabled(After(evs), CallStep(After(evs), c))
  {
    InvAlways(evs);
    CallStepEnabled(After(evs), c);
  }

  // ---------------------------------------------------------------- and none runs for ever

  function Rank(s: System, c: nat): nat {
    if c !in s.calls then 0
    else match s.calls[c].stage
      case Starting => 1
      case AwaitFirst => 2
      case AwaitRefresh => 3
      case Refreshed => 4
      case AwaitRetry => 5
      case LoggingOut => 6
      case LoggedOut => 7
      case Finished(_) => 8
  }

  function FlightRank(s: System, f: nat): nat {
    if f !in s.flights then 0
    else match s.flights[f]
      case AwaitReply => 1
      case AwaitLogout => 2
      case AwaitBody => 2
      case AwaitCookie(_) => 3
      case Settled(_, _) => 4
      case Done(_, _) => 5
  }

  function StepsOfCall(evs: seq<Event>, c: nat): nat {
    if evs == [] then 0
    else StepsOfCall(evs[..|evs| - 1], c) + (if Subject(evs[|evs| - 1]) == Some(c) then 1 else 0)
  }

  function StepsOfFlight(evs: seq<Event>, f: nat): nat {
    if evs == [] then 0
    else StepsOfFlight(evs[..|evs| - 1], f) + (if FlightOf(evs[|evs| - 1]) == Some(f) then 1 else 0)
  }

  lemma StepRaisesRank(s: System, e: Event, c: nat)
    requires Enabled(s, e)
    ensures Rank(Next(s, e), c) >= Rank(s, c) + (if Subject(e) == Some(c) then 1 else 0)
  {
  }

  lemma StepRaisesFlightRank(s: System, e: Event, f: nat)
    requires Enabled(s, e) && SingleFlight(s)
    ensures FlightRank(Next(s, e), f) >= FlightRank(s, f) + (if FlightOf(e) == Some(f) then 1 else 0)
    ensures FlightOf(e) == Some(f) ==> FlightRank(s, f) >= 1
  {
  }

  /** A call takes at most eight steps of its own, however the system interleaves. */
  lemma {:induction false} CallWorkIsBounded(evs: seq<Event>, c: nat)
    requires IsRun(evs)
    ensures StepsOfCall(evs, c) <= Rank(After(evs), c) <= 8
  {
    if evs != [] {
      var front, e := evs[..|evs| - 1], evs[|evs| - 1];
      CallWorkIsBounded(front, c);
      StepRaisesRank(After(front), e, c);
    }
  }

  /** A refresh takes at most four. */
  lemma {:induction false} FlightWorkIsBounded(evs: seq<Event>, f: nat)
    requires IsRun(evs)
    ensures StepsOfFlight(evs, f) <= (if FlightRank(After(evs), f) == 0 then 0 else FlightRank(After(evs), f) - 1) <= 4
  {
    if evs != [] {
      var front, e := evs[..|evs| - 1], evs[|evs| - 1];
      FlightWorkIsBounded(front, f);
      InvAlways(front);
      StepRaisesFlightRank(After(front), e, f);
    }
  }
}
