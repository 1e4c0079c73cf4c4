/**
 The masters catalogue's data fetch (frontend/src/components/banya/masters-catalog-section.tsx):
 every fetch takes the next generation, and a fetch that resumes after an await touches the page
 only if its generation is still the current one.
 */
module MastersCatalog {

  datatype Data = Data(masters: seq<string>, total: nat)

  /** How an awaited fetch resumes. */
  datatype Outcome = Received(data: Data) | Failed | Aborted

  /** `shown` remembers which generation the displayed data came from; 0 is the server's initial data. */
  datatype State = State(generation: nat, loading: bool, data: Data, shown: nat, outstanding: set<nat>, started: bool)

  const NOTHING := Data([], 0)

  /**
   Before the mount effects: without initial data the page says it is loading.
   */
  function Start(initial: Data, hasInitial: bool): State {
    State(0, !hasInitial, if hasInitial then initial else NOTHING, 0, {}, false)
  }

  datatype Event = Mount(skip: bool) | Fetch | Resume(generation: nat, outcome: Outcome)

  function Fetching(s: State): State {
    s.(generation := s.generation + 1, loading := true, outstanding := s.outstanding + {s.generation + 1}, started := true)
  }

  /** The code after the await, including its `finally`. */
  function Resumed(s: State, generation: nat, outcome: Outcome): State {
    var t := s.(outstanding := s.outstanding - {generation});
    if generation != s.generation then t
    else match outcome
      case Received(data) => t.(data := data, shown := generation, loading := false)
      case Failed => t.(data := NOTHING, shown := generation, loading := false)
      case Aborted => t.(loading := false)
  }

  /** The first fetch is skipped only when the server already provided this very view. */
  predicate Enabled(s: State, e: Event, hasInitial: bool) {
    match e
    case Mount(skip) => !s.started && (skip ==> hasInitial)
    case Fetch => s.started
    case Resume(g, _) => g in s.outstanding
  }

  function Next(s: State, e: Event): State {
    match e
    case Mount(skip) => if skip then s.(started := true) else Fetching(s)
    case Fetch => Fetching(s)
    case Resume(g, outcome) => Resumed(s, g, outcome)
  }

  function After(initial: Data, hasInitial: bool, evs: seq<Event>): State {
    if evs == [] then Start(initial, hasInitial) else Next(After(initial, hasInitial, evs[..|evs| - 1]), evs[|evs| - 1])
  }

  predicate IsRun(initial: Data, hasInitial: bool, evs: seq<Event>) {
    evs == [] || (IsRun(initial, hasInitial, evs[..|evs| - 1]) &&
                  Enabled(After(initial, hasInitial, evs[..|evs| - 1]), evs[|evs| - 1], hasInitial))
  }

  // ---------------------------------------------------------------- the component

  class Catalog {
    var fetchGen: nat
    var loading: bool
    var data: Data
    ghost var shown: nat
    ghost var outstanding: set<nat>
    ghost var started: bool

    constructor (initial: Data, hasInitial: bool)
      ensures View() == Start(initial, hasInitial)
    {
      fetchGen, loading, data := 0, !hasInitial, if hasInitial then initial else NOTHING;
      shown, outstanding, started := 0, {}, false;
    }

    ghost function View(): State
      reads this
    {
      State(fetchGen, loading, data, shown, outstanding, started)
    }

    /** `fetchData` up to its await. */
    method BeginFetch() returns (gen: nat)
      modifies this
      ensures gen == fetchGen && View() == Fetching(old(View()))
    {
      fetchGen := fetchGen + 1;
      gen := fetchGen;
      loading := true;
      outstanding, started := outstanding + {gen}, true;
    }

    /** `fetchData` from its await on; `gen` is the generation it began with. */
    method ResumeFetch(gen: nat, outcome: Outcome)
      modifies this
      ensures View() == Resumed(old(View()), gen, outcome)
    {
      outstanding := outstanding - {gen};
      match outcome {
        case Received(received) =>
          if gen == fetchGen {
            data, shown := received, gen;
          }
        case Failed =>
          if gen == fetchGen {
            data, shown := NOTHING, gen;
          }
        case Aborted =>
      }
      if gen == fetchGen {
        loading := false;
      }
    }
  }

  // ---------------------------------------------------------------- what every run keeps

  predicate Inv(s: State, hasInitial: bool) {
    && s.shown <= s.generation
    && (forall g :: g in s.outstanding ==> 1 <= g <= s.generation)
    && (s.started ==> (s.loading <==> s.generation in s.outstanding))
    && (!s.started ==> s.outstanding == {} && (s.loading <==> !hasInitial))
    && s.shown !in s.outstanding
  }

  lemma {:induction false} InvAlways(initial: Data, hasInitial: bool, evs: seq<Event>)
    requires IsRun(initial, hasInitial, evs)
    ensures Inv(After(initial, hasInitial, evs), hasInitial)
  {
    if evs != [] {
      InvAlways(initial, hasInitial, evs[..|evs| - 1]);
    }
  }

  /** Once mounted, the page says it is loading exactly while the current generation's fetch is outstanding. */
  lemma LoadingIsExact(initial: Data, hasInitial: bool, evs: seq<Event>)
    requires IsRun(initial, hasInitial, evs)
    ensures var s := After(initial, hasInitial, evs);
            s.started ==> (s.loading <==> s.generation in s.outstanding)
  {
    InvAlways(initial, hasInitial, evs);
  }

  /** What the fetches of one generation delivered, last. */
  function Delivered(evs: seq<Event>, g: nat, default: Data): Data {
    if evs == [] then default
    else
      var e := evs[|evs| - 1];
      if e.Resume? && e.generation == g && !e.outcome.Aborted? then (if e.outcome.Received? then e.outcome.data else Data([], 0))
      else Delivered(evs[..|evs| - 1], g, default)
  }

  /**
   However the replies are reordered, the displayed generation never goes back along a run, and the
   data on the page is what that generation's own fetch delivered.
   */
  lemma {:induction false} NeverOlder(initial: Data, hasInitial: bool, evs: seq<Event>, k: nat)
    requires IsRun(initial, hasInitial, evs) && k <= |evs|
    ensures After(initial, hasInitial, evs[..k]).shown <= After(initial, hasInitial, evs).shown
    ensures var s := After(initial, hasInitial, evs);
            s.data == Delivered(evs, s.shown, if hasInitial then initial else Data([], 0))
  {
    if evs == [] {
      assert evs[..k] == evs;
    } else {
      var front, e := evs[..|evs| - 1], evs[|evs| - 1];
      InvAlways(initial, hasInitial, front);
      NeverOlder(initial, hasInitial, front, if k < |evs| then k else |front|);
      if k < |evs| {
        assert front[..k] == evs[..k];
      } else {
        assert evs[..k] == evs;
      }
    }
  }

  /** Some fetch of this generation resumed with data or a failure. */
  predicate HasDelivered(evs: seq<Event>, g: nat) {
    evs != [] &&
    (HasDelivered(evs[..|evs| - 1], g) ||
     (evs[|evs| - 1].Resume? && evs[|evs| - 1].generation == g && !evs[|evs| - 1].outcome.Aborted?))
  }

  lemma {:induction false} DeliveredWasStarted(initial: Data, hasInitial: bool, evs: seq<Event>, g: nat)
    requires IsRun(initial, hasInitial, evs) && HasDelivered(evs, g)
    ensures 1 <= g <= After(initial, hasInitial, evs).generation
  {
    var front := evs[..|evs| - 1];
    InvAlways(initial, hasInitial, front);
    if HasDelivered(front, g) {
      DeliveredWasStarted(initial, hasInitial, front, g);
    }
  }

  /** The newest generation's answer is never lost: the page shows it exactly when its fetch has delivered. */
  lemma {:induction false} NewestIsShown(initial: Data, hasInitial: bool, evs: seq<Event>)
    requires IsRun(initial, hasInitial, evs)
    ensures var s := After(initial, hasInitial, evs);
            s.generation > 0 ==> (s.shown == s.generation <==> HasDelivered(evs, s.generation))
  {
    if evs != [] {
      var front := evs[..|evs| - 1];
      var g := After(initial, hasInitial, evs).generation;
      InvAlways(initial, hasInitial, front);
      NewestIsShown(initial, hasInitial, front);
      if HasDelivered(front, g) {
        DeliveredWasStarted(initial, hasInitial, front, g);
      }
    }
  }
}
