/**
 The slot-availability hook (frontend/src/hooks/use-slot-availability.ts): the list is cleared
 while rendering when the request key changes, and an effect, flushed some time after that render,
 retires the previous request and starts the next.  Replies arrive in any order.
 */
module SlotAvailability {
  import opened Wrappers

  /** The slug, the day and the duration; absent while there is no slug or no date. */
  datatype Key = Key(slug: string, day: string, duration: int)

  /** A new Date object for the same day is a new dependency with the same key. */
  datatype Inputs = Inputs(key: Option<Key>, dateObject: nat)

  datatype Request = Request(key: Key, active: bool, replied: bool)

  /** `source` remembers which request the shown slots came from. */
  datatype State = State(inputs: Inputs, flushed: Inputs, slots: seq<string>, source: Option<Key>,
                         loading: bool, requests: map<nat, Request>, current: Option<nat>, next: nat)

  datatype Event =
    | Render(inputs: Inputs)
    | Flush
    | Reply(request: nat, slots: seq<string>)
    | Fail(request: nat)

  function Start(inputs: Inputs): State {
    State(inputs, Inputs(None, inputs.dateObject), [], None, false, map[], None, 0)
  }

  predicate Pending(s: State) {
    s.inputs != s.flushed
  }

  /** React flushes the effects of one render before it starts the next. */
  predicate Enabled(s: State, e: Event) {
    match e
    case Render(_) => !Pending(s)
    case Flush => Pending(s)
    case Reply(r, _) => r in s.requests && !s.requests[r].replied
    case Fail(r) => r in s.requests && !s.requests[r].replied
  }

  function Rendered(s: State, inputs: Inputs): State {
    if inputs.key == s.inputs.key then s.(inputs := inputs)
    else s.(inputs := inputs, slots := [], source := None, loading := inputs.key.Some?)
  }

  function Retired(s: State): map<nat, Request> {
    if s.current.Some? && s.current.value in s.requests
    then s.requests[s.current.value := s.requests[s.current.value].(active := false)] else s.requests
  }

  function Flushed(s: State): State {
    var requests := Retired(s);
    match s.inputs.key
    case None => s.(flushed := s.inputs, requests := requests, current := None)
    case Some(key) =>
      s.(flushed := s.inputs, requests := requests[s.next := Request(key, true, false)],
         current := Some(s.next), next := s.next + 1)
  }

  function Settled(s: State, r: nat, slots: seq<string>): State
    requires r in s.requests
  {
    var request := s.requests[r];
    var done := s.(requests := s.requests[r := request.(replied := true)]);
    if request.active then done.(slots := slots, source := Some(request.key), loading := false) else done
  }

  function Next(s: State, e: Event): State
    requires Enabled(s, e)
  {
    match e
    case Render(inputs) => Rendered(s, inputs)
    case Flush => Flushed(s)
    case Reply(r, slots) => Settled(s, r, slots)
    case Fail(r) => Settled(s, r, [])
  }

  // ---------------------------------------------------------------- the hook

  class SlotHook {
    var inputs: Inputs
    var availableSlots: seq<string>
    var slotsLoading: bool
    var prevFetchKey: Option<Key>
    var effectInputs: Inputs
    var requests: map<nat, Request>
    var current: Option<nat>
    var next: nat
    ghost var source: Option<Key>

    predicate Valid()
      reads this
    {
      prevFetchKey == inputs.key
    }

    ghost function View(): State
      reads this
    {
      State(inputs, effectInputs, availableSlots, source, slotsLoading, requests, current, next)
    }

    constructor (inputs: Inputs)
      ensures Valid() && View() == Start(inputs)
    {
      this.inputs, prevFetchKey, effectInputs := inputs, inputs.key, Inputs(None, inputs.dateObject);
      availableSlots, slotsLoading, source := [], false, None;
      requests, current, next := map[], None, 0;
    }

    method RenderWith(inputs: Inputs)
      requires Valid() && Enabled(View(), Render(inputs))
      modifies this
      ensures Valid() && View() == Next(old(View()), Render(inputs))
    {
      this.inputs := inputs;
      var fetchKey := inputs.key;
      if fetchKey != prevFetchKey {
        prevFetchKey := fetchKey;
        availableSlots, source := [], None;
        slotsLoading := fetchKey.Some?;
      }
    }

    /** The cleanup of the previous effect, then the effect itself. */
    method FlushEffects()
      requires Valid() && Enabled(View(), Flush)
      modifies this
      ensures Valid() && View() == Next(old(View()), Flush)
    {
      if current.Some? && current.value in requests {
        requests := requests[current.value := requests[current.value].(active := false)];
      }
      effectInputs, current := inputs, None;
      if inputs.key.Some? {
        requests := requests[next := Request(inputs.key.value, true, false)];
        current, next := Some(next), next + 1;
      }
    }

    /** `then` or `catch`, and `finally`; a failure brings no slots. */
    method HandleReply(r: nat, slots: seq<string>)
      requires Valid() && Enabled(View(), Reply(r, slots))
      modifies this
      ensures Valid() && View() == Next(old(View()), Reply(r, slots))
      ensures slots == [] ==> View() == Next(old(View()), Fail(r))
    {
      var request := requests[r];
      requests := requests[r := request.(replied := true)];
      if request.active {
        availableSlots, source := slots, Some(request.key);
        slotsLoading := false;
      }
    }
  }

  // ---------------------------------------------------------------- runs

  predicate IsRun(start: Inputs, evs: seq<Event>) {
    evs == [] || (IsRun(start, evs[..|evs| - 1]) && Enabled(After(start, evs[..|evs| - 1]), evs[|evs| - 1]))
  }

  function After(start: Inputs, evs: seq<Event>): State {
    if evs == [] then Start(start)
    else
      var s, e := After(start, evs[..|evs| - 1]), evs[|evs| - 1];
      if Enabled(s, e) then Next(s, e) else s
  }

  /** Slots of another slug, day or duration are on the page. */
  predicate Stale(s: State) {
    s.slots != [] && s.source != s.inputs.key
  }

  /** A live request's slots land between a render that changed the key and the flush of its effects. */
  predicate LandsLate(s: State, e: Event) {
    && e.Reply? && e.slots != [] && Pending(s)
    && e.request in s.requests && s.requests[e.request].active && Some(s.requests[e.request].key) != s.inputs.key
  }

  /** The last thing that touched the list was a late landing. */
  predicate Tainted(start: Inputs, evs: seq<Event>) {
    if evs == [] then false
    else
      var front, e := evs[..|evs| - 1], evs[|evs| - 1];
      var s := After(start, front);
      match e
      case Render(inputs) => inputs.key == s.inputs.key && Tainted(start, front)
      case Flush => Tainted(start, front)
      case Reply(r, _) => if r in s.requests && s.requests[r].active then LandsLate(s, e) else Tainted(start, front)
      case Fail(r) => !(r in s.requests && s.requests[r].active) && Tainted(start, front)
  }

  /** The one active request is the one the last flush started, and it asks for what was flushed. */
  predicate Inv(s: State) {
    && (forall r :: r in s.requests ==> r < s.next)
    && (forall r :: r in s.requests && s.requests[r].active ==>
          s.current == Some(r) && s.flushed.key == Some(s.requests[r].key))
    && (s.current.Some? ==> s.current.value in s.requests && s.requests[s.current.value].active)
    && (s.flushed.key.Some? <==> s.current.Some?)
    && (s.loading ==> s.inputs.key.Some? && (s.flushed.key == s.inputs.key ==> !s.requests[s.current.value].replied))
  }

  lemma StepKeepsInv(s: State, e: Event)
    requires Inv(s) && Enabled(s, e)
    ensures Inv(Next(s, e))
  {
  }

  lemma {:induction false} InvAlways(start: Inputs, evs: seq<Event>)
    requires IsRun(start, evs)
    ensures Inv(After(start, evs))
  {
    if evs != [] {
      InvAlways(start, evs[..|evs| - 1]);
      StepKeepsInv(After(start, evs[..|evs| - 1]), evs[|evs| - 1]);
    }
  }

  /**
   In every run the page shows slots of another key exactly when the last change of the list was a
   reply landing between a render and its effects; otherwise they are empty or for the current key.
   */
  lemma {:induction false} StaleExactlyWhenTainted(start: Inputs, evs: seq<Event>)
    requires IsRun(start, evs)
    ensures Stale(After(start, evs)) <==> Tainted(start, evs)
  {
    if evs != [] {
      var front, e := evs[..|evs| - 1], evs[|evs| - 1];
      StaleExactlyWhenTainted(start, front);
      InvAlways(start, front);
      StaleStep(After(start, front), e);
    }
  }

  lemma StaleStep(s: State, e: Event)
    requires Inv(s) && Enabled(s, e)
    ensures Stale(Next(s, e)) <==>
            match e
            case Render(inputs) => inputs.key == s.inputs.key && Stale(s)
            case Flush => Stale(s)
            case Reply(r, _) => if s.requests[r].active then LandsLate(s, e) else Stale(s)
            case Fail(r) => !s.requests[r].active && Stale(s)
  {
  }

  /** If no reply ever lands in that gap, the slots shown are always empty or for the current key. */
  lemma {:induction false} SlotsAreCurrent(start: Inputs, evs: seq<Event>)
    requires IsRun(start, evs)
    requires forall k :: 0 <= k < |evs| ==> !LandsLate(After(start, evs[..k]), evs[k])
    ensures !Stale(After(start, evs))
  {
    NeverTainted(start, evs);
    StaleExactlyWhenTainted(start, evs);
  }

  lemma {:induction false} NeverTainted(start: Inputs, evs: seq<Event>)
    requires forall k :: 0 <= k < |evs| ==> !LandsLate(After(start, evs[..k]), evs[k])
    ensures !Tainted(start, evs)
  {
    if evs != [] {
      var n := |evs| - 1;
      forall k | 0 <= k < n
        ensures !LandsLate(After(start, evs[..n][..k]), evs[..n][k])
      {
        assert evs[..n][..k] == evs[..k];
      }
      NeverTainted(start, evs[..n]);
      assert !LandsLate(After(start, evs[..n]), evs[n]);
    }
  }

  /** Once its effects have run, a page that says it is loading has an active, unanswered request for its key. */
  lemma LoadingIsHonest(start: Inputs, evs: seq<Event>)
    requires IsRun(start, evs)
    ensures var s := After(start, evs);
            !Pending(s) && s.loading ==>
              s.current.Some? && s.current.value in s.requests &&
              var r := s.requests[s.current.value];
              r.active && !r.replied && Some(r.key) == s.inputs.key
  {
    InvAlways(start, evs);
  }

  /** A render changed the key to a present one, and no active request has been answered since. */
  predicate Armed(start: Inputs, evs: seq<Event>) {
    if evs == [] then false
    else
      var front, e := evs[..|evs| - 1], evs[|evs| - 1];
      var s := After(start, front);
      match e
      case Render(inputs) => if inputs.key != s.inputs.key then inputs.key.Some? else Armed(start, front)
      case Flush => Armed(start, front)
      case Reply(r, _) => !(r in s.requests && s.requests[r].active) && Armed(start, front)
      case Fail(r) => !(r in s.requests && s.requests[r].active) && Armed(start, front)
  }

  /** In every run the page says it is loading exactly while it is armed. */
  lemma {:induction false} LoadingExactlyWhenArmed(start: Inputs, evs: seq<Event>)
    requires IsRun(start, evs)
    ensures After(start, evs).loading <==> Armed(start, evs)
  {
    if evs != [] {
      LoadingExactlyWhenArmed(start, evs[..|evs| - 1]);
    }
  }

  const MONDAY := Key("sandal", "2025-06-02", 120)
  const TUESDAY := Key("sandal", "2025-06-03", 120)

  /** The gap is real: Monday's reply arrives after Tuesday is rendered and before its effects run. */
  const LATE := [Flush, Render(Inputs(Some(TUESDAY), 1)), Reply(0, ["10:00"]), Flush]

  lemma LateReplyShows()
    ensures var start := Inputs(Some(MONDAY), 0);
            IsRun(start, LATE) && Stale(After(start, LATE)) && !Pending(After(start, LATE))
  {
    var start := Inputs(Some(MONDAY), 0);
    assert "2025-06-02"[9] != "2025-06-03"[9];
    assert LATE[..4] == LATE && LATE[..4][..3] == LATE[..3] && LATE[..3][..2] == LATE[..2];
    assert LATE[..2][..1] == LATE[..1] && LATE[..1][..0] == [];
    assert After(start, LATE[..1]) == Flushed(Start(start));
    assert After(start, LATE[..2]) == Rendered(Flushed(Start(start)), Inputs(Some(TUESDAY), 1));
    assert After(start, LATE[..3]) == Settled(After(start, LATE[..2]), 0, ["10:00"]);
    assert IsRun(start, LATE[..1]) && IsRun(start, LATE[..2]) && IsRun(start, LATE[..3]);
  }

  /** Monday is answered, then chosen again as another Date object. */
  const REFETCHED := [Flush, Reply(0, ["10:00"]), Render(Inputs(Some(MONDAY), 1)), Flush]

  /** So a request for the same key goes out without the page saying that it is loading. */
  lemma RefetchIsSilent()
    ensures var start := Inputs(Some(MONDAY), 0);
            var s := After(start, REFETCHED);
            IsRun(start, REFETCHED) && !s.loading && s.current == Some(1) && 1 in s.requests
            && s.requests[1] == Request(MONDAY, true, false) && !Pending(s)
  {
    var start := Inputs(Some(MONDAY), 0);
    var run := REFETCHED;
    assert run[..4] == run && run[..4][..3] == run[..3] && run[..3][..2] == run[..2];
    assert run[..2][..1] == run[..1] && run[..1][..0] == [];
    assert After(start, run[..1]) == Flushed(Start(start));
    assert After(start, run[..2]) == Settled(Flushed(Start(start)), 0, ["10:00"]);
    assert After(start, run[..3]) == Rendered(After(start, run[..2]), Inputs(Some(MONDAY), 1));
    assert IsRun(start, run[..1]) && IsRun(start, run[..2]) && IsRun(start, run[..3]);
  }

  // ---------------------------------------------------------------- which slots are shown

  /** The key of the last render. */
  function KeyNow(start: Inputs, evs: seq<Event>): Option<Key> {
    if evs == [] then start.key
    else match evs[|evs| - 1]
      case Render(inputs) => inputs.key
      case _ => KeyNow(start, evs[..|evs| - 1])
  }

  /** How many requests were sent: one for each flush with a key. */
  function Sent(start: Inputs, evs: seq<Event>): nat {
    if evs == [] then 0
    else
      var front := evs[..|evs| - 1];
      Sent(start, front) + (if evs[|evs| - 1].Flush? && KeyNow(start, front).Some? then 1 else 0)
  }

  /** The request of the last flush, if it had a key. */
  function Newest(start: Inputs, evs: seq<Event>): Option<nat> {
    if evs == [] then None
    else
      var front := evs[..|evs| - 1];
      if evs[|evs| - 1].Flush? then (if KeyNow(start, front).Some? then Some(Sent(start, front)) else None)
      else Newest(start, front)
  }

  /** The slots shown, told by the events alone: those the newest request was answered with, until another key is rendered. */
  function ShownBy(start: Inputs, evs: seq<Event>): seq<string> {
    if evs == [] then []
    else
      var front := evs[..|evs| - 1];
      match evs[|evs| - 1]
      case Render(inputs) => if inputs.key != KeyNow(start, front) then [] else ShownBy(start, front)
      case Flush => ShownBy(start, front)
      case Reply(r, slots) => if Newest(start, front) == Some(r) then slots else ShownBy(start, front)
      case Fail(r) => if Newest(start, front) == Some(r) then [] else ShownBy(start, front)
  }

  predicate Tells(start: Inputs, evs: seq<Event>, s: State) {
    && s.inputs.key == KeyNow(start, evs) && s.next == Sent(start, evs) && s.current == Newest(start, evs)
    && s.slots == ShownBy(start, evs)
  }

  lemma TellsStep(start: Inputs, evs: seq<Event>, s: State, e: Event)
    requires Inv(s) && Enabled(s, e) && Tells(start, evs, s)
    ensures Tells(start, evs + [e], Next(s, e))
  {
    assert (evs + [e])[..|evs|] == evs;
  }

  /** In every run the page shows exactly the slots the newest request was answered with for the key it shows. */
  lemma {:induction false} SlotsAreTheAnswer(start: Inputs, evs: seq<Event>)
    requires IsRun(start, evs)
    ensures After(start, evs).slots == ShownBy(start, evs)
    ensures Tells(start, evs, After(start, evs))
  {
    hide Tells, Next, Inv;
    if evs == [] {
      StartTells(start);
    } else {
      var front := evs[..|evs| - 1];
      SlotsAreTheAnswer(start, front);
      InvAlways(start, front);
      TellsStep(start, front, After(start, front), evs[|evs| - 1]);
      assert evs == front + [evs[|evs| - 1]];
    }
    TellsSlots(start, evs, After(start, evs));
  }

  lemma StartTells(start: Inputs)
    ensures Tells(start, [], Start(start))
  {
  }

  lemma TellsSlots(start: Inputs, evs: seq<Event>, s: State)
    requires Tells(start, evs, s)
    ensures s.slots == ShownBy(start, evs)
  {
  }
}
