/**
 The booking form (frontend/src/hooks/use-venue-booking-form.ts together with
 use-slot-availability.ts): effects that write each other's inputs.

 `Render` is one render with its effects, each effect running when its dependencies changed since
 it last ran and reading the values of that render.  A user action, or a reply of the availability
 request, changes the form and is followed by renders until nothing changes.
 */
module BookingForm {
  import opened BookingSlotTime
  import opened Wrappers

  datatype Service = Service(id: string, durationMin: Option<int>, durationMinutes: Option<int>)

  /** Dependencies are compared by object identity, so objects carry one. */
  datatype Venue = Venue(ref: nat, id: string, services: seq<Service>)
  datatype Selection = Selection(ref: nat, ids: seq<string>)

  /** Two Date objects can name the same day.  `past` is whether that day is over. */
  datatype Date = Date(ref: nat, day: string, past: bool)

  datatype Key = Key(slug: string, day: string, duration: int)

  /** What the effect that sets the end time depends on, and what the one that corrects it does. */
  datatype AutoDeps = AutoDeps(time: string, selected: Selection, venue: Option<Venue>)
  datatype FixDeps = FixDeps(auto: AutoDeps, timeTo: string)
  datatype FetchDeps = FetchDeps(slug: string, date: Option<Date>, duration: int)
  datatype VenueDeps = VenueDeps(slug: string, id: Option<string>)

  datatype Form = Form(
    slug: string, venue: Option<Venue>, date: Option<Date>, time: string, timeTo: string, selected: Selection,
    slots: set<string>, loading: bool, shownKey: Option<Key>, request: Option<Key>,
    ranVenue: VenueDeps, ranSlug: string, ranFetch: FetchDeps, ranAuto: AutoDeps, ranFix: FixDeps)

  // ---------------------------------------------------------------- durations

  function Find(services: seq<Service>, id: string): Option<Service> {
    if services == [] then None else if services[0].id == id then Some(services[0]) else Find(services[1..], id)
  }

  function ServiceDuration(s: Service): int {
    match s.durationMin
    case Some(d) => d
    case None => match s.durationMinutes case Some(d) => d case None => 0
  }

  function Longest(ids: seq<string>, services: seq<Service>): int {
    if ids == [] then 30
    else
      var rest := Longest(ids[..|ids| - 1], services);
      match Find(services, ids[|ids| - 1])
      case None => rest
      case Some(s) =>
        var d := if ServiceDuration(s) > 0 then ServiceDuration(s) else 120;
        if d > rest then d else rest
  }

  function MaxSlotMinutes(ids: seq<string>, services: seq<Service>): int {
    if ids == [] then 120
    else if Longest(ids, services) > 720 then 720 else Longest(ids, services)
  }

  method MaxSlotMinutesForSelectedServices(ids: seq<string>, services: seq<Service>) returns (minutes: int)
    ensures minutes == MaxSlotMinutes(ids, services)
  {
    if |ids| == 0 {
      return 120;
    }
    var m := 30;
    for i := 0 to |ids|
      invariant m == Longest(ids[..i], services)
    {
      assert ids[..i + 1][..i] == ids[..i];
      var s := Find(services, ids[i]);
      if s.None? {
        continue;
      }
      var d := ServiceDuration(s.value);
      d := if d > 0 then d else 120;
      m := if d > m then d else m;
    }
    assert ids[..|ids|] == ids;
    return if m > 720 then 720 else m;
  }

  lemma {:induction false} LongestAtLeast(ids: seq<string>, services: seq<Service>)
    ensures Longest(ids, services) >= 30
  {
    if ids != [] {
      LongestAtLeast(ids[..|ids| - 1], services);
    }
  }

  function Package(ids: seq<string>, services: seq<Service>, i: nat): Option<int>
    requires i < |ids|
  {
    match Find(services, ids[i])
    case None => None
    case Some(s) => Some(if ServiceDuration(s) > 0 then ServiceDuration(s) else 120)
  }

  /** Half an hour, or the longest of the selected packages the venue knows. */
  lemma {:induction false} LongestIsMaximum(ids: seq<string>, services: seq<Service>)
    ensures forall i :: 0 <= i < |ids| && Package(ids, services, i).Some? ==>
              Longest(ids, services) >= Package(ids, services, i).value
    ensures Longest(ids, services) == 30 ||
            exists i :: 0 <= i < |ids| && Package(ids, services, i) == Some(Longest(ids, services))
  {
    if ids != [] {
      var n := |ids| - 1;
      LongestIsMaximum(ids[..n], services);
      assert forall i :: 0 <= i < n ==> Package(ids[..n], services, i) == Package(ids, services, i);
      LongestAtLeast(ids[..n], services);
      if Longest(ids, services) != Longest(ids[..n], services) {
        assert Package(ids, services, n) == Some(Longest(ids, services));
      }
    }
  }

  lemma {:induction false} FindIsFirst(services: seq<Service>, id: string, j: nat)
    requires j < |services| && services[j].id == id && forall l :: 0 <= l < j ==> services[l].id != id
    ensures Find(services, id) == Some(services[j])
  {
    if j > 0 {
      assert services[1..][j - 1] == services[j];
      FindIsFirst(services[1..], id, j - 1);
    }
  }

  lemma {:induction false} FindNone(services: seq<Service>, id: string)
    requires forall l :: 0 <= l < |services| ==> services[l].id != id
    ensures Find(services, id) == None
  {
    if services != [] {
      FindNone(services[1..], id);
    }
  }

  /** The minutes of a selected package: those of the first service of that id, under either name, and two hours for none. */
  lemma PackageIs(ids: seq<string>, services: seq<Service>, i: nat, j: nat)
    requires i < |ids|
    ensures (forall l :: 0 <= l < |services| ==> services[l].id != ids[i]) ==> Package(ids, services, i) == None
    ensures j < |services| && services[j].id == ids[i] && (forall l :: 0 <= l < j ==> services[l].id != ids[i]) ==>
              var given := if services[j].durationMin.Some? then services[j].durationMin else services[j].durationMinutes;
              Package(ids, services, i) == Some(if given.Some? && given.value > 0 then given.value else 120)
  {
    if forall l :: 0 <= l < |services| ==> services[l].id != ids[i] {
      FindNone(services, ids[i]);
    } else if j < |services| && services[j].id == ids[i] && forall l :: 0 <= l < j ==> services[l].id != ids[i] {
      FindIsFirst(services, ids[i], j);
    }
  }

  /** No longer than twelve hours, as long as each selected package up to that, and no longer than needed. */
  ghost predicate Covers(minutes: int, ids: seq<string>, services: seq<Service>) {
    if ids == [] then minutes == 120
    else
      && 30 <= minutes <= 720
      && (forall i :: 0 <= i < |ids| && Package(ids, services, i).Some? ==>
            minutes >= Package(ids, services, i).value || minutes == 720)
      && (minutes == 30 || minutes == 720 || exists i :: 0 <= i < |ids| && Package(ids, services, i) == Some(minutes))
      && (minutes == 720 ==> exists i :: 0 <= i < |ids| && Package(ids, services, i).Some? && Package(ids, services, i).value >= 720)
  }

  /** Both visits' minutes are those of the longest selected package the venue knows, within half an hour and twelve hours. */
  lemma MinutesCover(ids: seq<string>, venue: Venue)
    ensures Covers(MaxSlotMinutes(ids, venue.services), ids, venue.services)
    ensures Covers(VisitMinutes(ids, venue), ids, venue.services)
  {
    hide Package;
    LongestIsMaximum(ids, venue.services);
    LongestAtLeast(ids, venue.services);
  }

  /** `Math.max(30, maxSlotMinutes…)`, two hours when nothing is selected. */
  function VisitMinutes(selected: seq<string>, venue: Venue): int {
    if selected == [] then 120
    else if MaxSlotMinutes(selected, venue.services) < 30 then 30 else MaxSlotMinutes(selected, venue.services)
  }

  function SlotDuration(time: string, timeTo: string, selected: seq<string>, venue: Option<Venue>): int {
    var chosen := if time != "" && timeTo != "" then SlotLength(time, timeTo) else None;
    if chosen.Some? && 30 <= chosen.value <= 720 then chosen.value
    else if selected != [] && venue.Some? then MaxSlotMinutes(selected, venue.value.services)
    else 120
  }

  /** The availability request sends the duration only when it is in range. */
  function DurationSent(durationMin: int): Option<int> {
    if 30 <= durationMin <= 720 then Some(durationMin) else None
  }

  /**
   The duration asked for: that of the chosen slot if it is between half an hour and twelve hours, else
   that of the packages, else two hours.
   */
  lemma DurationIs(time: string, timeTo: string, selected: seq<string>, venue: Option<Venue>)
    ensures var d, slot := SlotDuration(time, timeTo, selected, venue), SlotLength(time, timeTo);
            if time != "" && timeTo != "" && slot.Some? && 30 <= slot.value <= 720 then d == slot.value
            else if venue.Some? then Covers(d, selected, venue.value.services)
            else d == 120
  {
    hide SlotLength, Covers, MaxSlotMinutes;
    if venue.Some? {
      MinutesCover(selected, venue.value);
      NothingSelected(venue.value.services);
    }
  }

  lemma NothingSelected(services: seq<Service>)
    ensures Covers(120, [], services)
  {
  }

  /** Whatever is chosen and selected, the duration is in range, so the request always sends it. */
  lemma DurationIsSent(time: string, timeTo: string, selected: seq<string>, venue: Option<Venue>)
    ensures DurationSent(SlotDuration(time, timeTo, selected, venue)) == Some(SlotDuration(time, timeTo, selected, venue))
  {
    hide SlotLength;
    if venue.Some? {
      LongestAtLeast(selected, venue.value.services);
    }
  }

  /** Out of that range it is not sent at all. */
  lemma OnlyInRange(durationMin: int)
    ensures DurationSent(durationMin) == if 30 <= durationMin <= 720 then Some(durationMin) else None
    ensures DurationSent(29).None? && DurationSent(30) == Some(30) && DurationSent(720) == Some(720) && DurationSent(721).None?
  {
  }

  // ---------------------------------------------------------------- one render and its effects

  function Duration(f: Form): int {
    SlotDuration(f.time, f.timeTo, f.selected.ids, f.venue)
  }

  function KeyOf(f: Form): Option<Key> {
    if f.slug != "" && f.date.Some? then Some(Key(f.slug, f.date.value.day, Duration(f))) else None
  }

  function VenueId(f: Form): Option<string> {
    match f.venue case None => None case Some(v) => Some(v.id)
  }

  function AutoNow(f: Form): AutoDeps {
    AutoDeps(f.time, f.selected, f.venue)
  }

  function FixNow(f: Form): FixDeps {
    FixDeps(AutoNow(f), f.timeTo)
  }

  function FetchNow(f: Form): FetchDeps {
    FetchDeps(f.slug, f.date, Duration(f))
  }

  /** The reset while rendering: another key clears the slots and arms the loading flag. */
  function Reset(f: Form): Form {
    if KeyOf(f) == f.shownKey then f
    else f.(shownKey := KeyOf(f), slots := {}, loading := KeyOf(f).Some?)
  }

  function DefaultFor(f: Form): string
    requires f.venue.Some?
  {
    DefaultEnd(f.time, VisitMinutes(f.selected.ids, f.venue.value))
  }

  /** The end time does not belong to the start time. */
  predicate EndMisplaced(f: Form) {
    f.time != "" && f.timeTo != "" && f.venue.Some? && EndOptions(f.time) != [] && f.timeTo !in EndOptions(f.time)
  }

  /** What the two effects on the end time leave in it. */
  function EndAfter(f: Form): string {
    if f.ranFix != FixNow(f) && EndMisplaced(f) then DefaultFor(f)
    else if f.ranAuto == AutoNow(f) then f.timeTo
    else if f.time == "" then ""
    else if f.venue.Some? then DefaultFor(f)
    else f.timeTo
  }

  predicate SlotGone(f: Form) {
    f.time != "" && !f.loading && f.time !in f.slots
  }

  function Effects(f: Form): Form {
    f.(selected := if f.ranVenue != VenueDeps(f.slug, VenueId(f)) then Selection(f.selected.ref + 1, []) else f.selected,
       date := if f.ranSlug != f.slug && f.date.Some? && f.date.value.past then None else f.date,
       request := if f.ranFetch != FetchNow(f) then KeyOf(f) else f.request,
       timeTo := EndAfter(f),
       time := if SlotGone(f) then "" else f.time,
       ranVenue := VenueDeps(f.slug, VenueId(f)), ranSlug := f.slug, ranFetch := FetchNow(f),
       ranAuto := AutoNow(f), ranFix := FixNow(f))
  }

  function Render(f: Form): Form {
    Effects(Reset(f))
  }

  predicate Quiet(f: Form) {
    Render(f) == f
  }

  // ---------------------------------------------------------------- the cascade terminates

  predicate Navigated(f: Form) {
    f.ranVenue != VenueDeps(f.slug, VenueId(f)) || f.ranSlug != f.slug
  }

  /** One of the end-time effects has something to do. */
  predicate EndPending(f: Form) {
    f.ranAuto != AutoNow(f) || (f.ranFix != FixNow(f) && EndMisplaced(f))
  }

  predicate FetchPending(f: Form) {
    f.ranFetch != FetchNow(f) || f.shownKey != KeyOf(f) || f.ranFix != FixNow(f)
  }

  /**
   The measure: a change of venue still to be handled, a time still set, an end time still to be
   set or corrected, an availability request still to be made, in that order of weight.
   */
  function Work(f: Form): nat {
    (if Navigated(f) then 8 else 0) + (if f.time != "" then 4 else 0) +
    (if EndPending(f) then 2 else 0) + (if FetchPending(f) then 1 else 0)
  }

  lemma DefaultBelongs(f: Form)
    requires f.venue.Some? && EndOptions(f.time) != []
    ensures DefaultFor(f) in EndOptions(f.time)
  {
    hide *;
    DefaultOffered(f.time, VisitMinutes(f.selected.ids, f.venue.value));
    DefaultForIs(f);
  }

  lemma DefaultForIs(f: Form)
    requires f.venue.Some?
    ensures DefaultFor(f) == DefaultEnd(f.time, VisitMinutes(f.selected.ids, f.venue.value))
  {
  }

  lemma DefaultOffered(start: string, preferred: int)
    requires EndOptions(start) != []
    ensures DefaultEnd(start, preferred) in EndOptions(start)
  {
    OptionsLength(start);
  }

  lemma ResetKeeps(f: Form)
    ensures var g := Reset(f);
            && Navigated(g) == Navigated(f) && EndPending(g) == EndPending(f) && EndAfter(g) == EndAfter(f)
            && FetchNow(g) == FetchNow(f) && AutoNow(g) == AutoNow(f) && FixNow(g) == FixNow(f)
            && KeyOf(g) == KeyOf(f) && g.shownKey == KeyOf(f)
            && (f.shownKey == KeyOf(f) ==> g == f)
  {
    hide SlotDuration, DefaultEnd, EndOptions;
  }

  lemma EndAfterBelongs(f: Form)
    ensures var h := f.(timeTo := EndAfter(f), ranFix := FixNow(f), ranAuto := AutoNow(f));
            !EndPending(h)
    ensures !EndPending(f) ==> EndAfter(f) == f.timeTo
  {
    hide SlotDuration, DefaultEnd, EndOptions;
    if f.venue.Some? && EndOptions(f.time) != [] {
      DefaultBelongs(f);
    }
  }

  /** Every render that changes the form lowers the measure. */
  lemma RenderWorks(f: Form)
    requires !Quiet(f)
    ensures Work(Render(f)) < Work(f)
  {
    hide SlotDuration, DefaultEnd, EndOptions, DefaultFor, EndMisplaced, EndAfter;
    var g := Reset(f);
    var h := Effects(g);
    ResetKeeps(f);
    EndAfterBelongs(g);
    if Navigated(f) {
      assert !Navigated(h);
    } else if SlotGone(g) {
      assert !Navigated(h) && f.time != "" && h.time == "";
    } else {
      var e := g.(timeTo := EndAfter(g), ranFix := FixNow(g), ranAuto := AutoNow(g));
      SameEnd(e, h);
      assert !Navigated(h) && !EndPending(h);
      if !EndPending(f) {
        assert h.timeTo == f.timeTo && Duration(h) == Duration(f);
        assert !FetchPending(h);
        assert FetchPending(f) || h == f;
      }
    }
  }

  lemma SameEnd(e: Form, h: Form)
    requires FixNow(e) == FixNow(h) && e.ranFix == h.ranFix && e.ranAuto == h.ranAuto
    ensures EndPending(e) == EndPending(h)
  {
  }

  /** The renders that follow a change, until the form is quiet. */
  function Settled(f: Form): Form
    decreases Work(f)
  {
    if Quiet(f) then f
    else
      RenderWorks(f);
      Settled(Render(f))
  }

  function Renders(f: Form): nat
    decreases Work(f)
  {
    if Quiet(f) then 0
    else
      RenderWorks(f);
      1 + Renders(Render(f))
  }

  /** From any form whatever, the cascade ends, within the measure. */
  lemma {:induction false} CascadeEnds(f: Form)
    ensures Quiet(Settled(f)) && Renders(f) <= Work(f) <= 15
    decreases Work(f)
  {
    hide Quiet, Work, Render;
    if !Quiet(f) {
      RenderWorks(f);
      CascadeEnds(Render(f));
    }
    WorkBound(f);
  }

  lemma WorkBound(f: Form)
    ensures Work(f) <= 15
  {
  }

  // ---------------------------------------------------------------- what every render keeps

  function KeyFrom(d: FetchDeps): Option<Key> {
    if d.slug != "" && d.date.Some? then Some(Key(d.slug, d.date.value.day, d.duration)) else None
  }

  /** The end-time correction never found, and left, an end time that does not belong. */
  predicate Honest(f: Form) {
    f.ranFix == FixNow(f) ==> !EndMisplaced(f)
  }

  /** The shown key, the last request and the loading flag belong together. */
  predicate Wired(f: Form) {
    && f.shownKey == KeyFrom(f.ranFetch)
    && (f.request.Some? ==> f.request == f.shownKey)
    && (f.loading ==> f.request.Some?)
  }

  lemma RenderKeeps(f: Form)
    requires Honest(f) && Wired(f)
    ensures Honest(Render(f)) && Wired(Render(f))
  {
    hide SlotDuration, DefaultEnd, EndOptions;
    ResetKeeps(f);
    var g := Reset(f);
    if g.venue.Some? && EndOptions(g.time) != [] {
      DefaultBelongs(g);
    }
  }

  lemma RenderKeepsNoTime(f: Form)
    ensures f.time == "" ==> Render(f).time == ""
  {
    hide SlotDuration, DefaultEnd, EndOptions;
  }

  lemma {:induction false} SettledKeeps(f: Form)
    requires Honest(f) && Wired(f)
    ensures Honest(Settled(f)) && Wired(Settled(f)) && (f.time == "" ==> Settled(f).time == "")
    decreases Work(f)
  {
    hide Quiet, Work, Render, Honest, Wired;
    if !Quiet(f) {
      RenderWorks(f);
      RenderKeeps(f);
      RenderKeepsNoTime(f);
      SettledKeeps(Render(f));
    }
  }

  // ---------------------------------------------------------------- actions and replies

  datatype Action =
    | Arrive(slug: string, venue: Option<Venue>)
    | PickDate(date: Option<Date>)
    | PickTime(time: string)
    | PickEnd(timeTo: string)
    | Select(selected: Selection)

  function Act(f: Form, a: Action): Form {
    match a
    case Arrive(slug, venue) => f.(slug := slug, venue := venue)
    case PickDate(date) => f.(date := date)
    case PickTime(time) => f.(time := time)
    case PickEnd(timeTo) => f.(timeTo := timeTo)
    case Select(selected) => f.(selected := selected)
  }

  /** The active request is answered; a failure answers with no slots. */
  function Answered(f: Form, slots: set<string>): Form {
    f.(slots := slots, loading := false, request := None)
  }

  datatype Event = Do(action: Action) | Reply(slots: set<string>)

  function Start(slug: string): Form {
    var none := Selection(0, []);
    var auto := AutoDeps("", none, None);
    Form(slug, None, None, "", "", none, {}, false, None, None,
         VenueDeps(slug, None), slug, FetchDeps(slug, None, 120), auto, FixDeps(auto, ""))
  }

  function After(slug: string, evs: seq<Event>): Form {
    if evs == [] then Start(slug)
    else
      var f, e := After(slug, evs[..|evs| - 1]), evs[|evs| - 1];
      match e
      case Do(a) => Settled(Act(f, a))
      case Reply(slots) => if f.request.Some? then Settled(Answered(f, slots)) else f
  }

  lemma QuietFacts(f: Form)
    requires Quiet(f)
    ensures f.ranFix == FixNow(f) && f.ranAuto == AutoNow(f) && f.ranFetch == FetchNow(f) && f.shownKey == KeyOf(f)
    ensures !Navigated(f) && !SlotGone(f)
  {
    hide SlotDuration, DefaultEnd, EndOptions;
    ResetKeeps(f);
  }

  lemma ActKeeps(f: Form, a: Action)
    requires Quiet(f) && Honest(f) && Wired(f)
    ensures Honest(Act(f, a)) && Wired(Act(f, a))
  {
    hide SlotDuration, DefaultEnd, EndOptions, Render;
    QuietFacts(f);
  }

  lemma AnsweredKeeps(f: Form, slots: set<string>)
    requires Quiet(f) && Honest(f) && Wired(f)
    ensures Honest(Answered(f, slots)) && Wired(Answered(f, slots))
  {
    hide SlotDuration, DefaultEnd, EndOptions, Render;
    QuietFacts(f);
  }

  lemma StartWell(slug: string)
    ensures Quiet(Start(slug)) && Honest(Start(slug)) && Wired(Start(slug))
  {
    assert Duration(Start(slug)) == 120 by {
      hide SlotLength;
    }
    hide SlotDuration, DefaultEnd, EndOptions;
  }

  /** What every settled form keeps, over any run of actions and replies. */
  lemma {:induction false} FormAlways(slug: string, evs: seq<Event>)
    ensures Quiet(After(slug, evs)) && Honest(After(slug, evs)) && Wired(After(slug, evs))
  {
    hide Quiet, Honest, Wired, Act, Answered, Start, Settled;
    if evs == [] {
      StartWell(slug);
    } else {
      var f, e := After(slug, evs[..|evs| - 1]), evs[|evs| - 1];
      FormAlways(slug, evs[..|evs| - 1]);
      match e
      case Do(a) =>
        ActKeeps(f, a);
        SettledKeeps(Act(f, a));
        CascadeEnds(Act(f, a));
      case Reply(slots) =>
        AnsweredKeeps(f, slots);
        SettledKeeps(Answered(f, slots));
        CascadeEnds(Answered(f, slots));
    }
  }

  /**
   After every action and every reply, once the cascade is over: an end time that is set belongs to
   the start time and makes the slot valid; a start time that is set is still on offer unless slots are
   loading; and loading means a request for the current slug, day and duration is outstanding.
   */
  lemma SettledForm(slug: string, evs: seq<Event>)
    ensures var f := After(slug, evs);
            && (f.time != "" && f.timeTo != "" && f.venue.Some? && EndOptions(f.time) != [] ==>
                  f.timeTo in EndOptions(f.time) && SlotValid(f.time, f.timeTo))
            && (f.time != "" ==> f.loading || f.time in f.slots)
            && (f.loading ==> f.request.Some? && f.request == KeyOf(f))
  {
    hide SlotDuration, DefaultEnd, EndOptions, Render, SlotValid, Quiet, After;
    var f := After(slug, evs);
    FormAlways(slug, evs);
    QuietFacts(f);
    if f.time != "" && f.timeTo != "" && f.venue.Some? && EndOptions(f.time) != [] {
      OptionsAreValid(f.time, f.timeTo);
    }
  }

  lemma AnswerIsQuiet(f: Form, slots: set<string>)
    requires Quiet(f) && (f.time == "" || f.time in slots)
    ensures Quiet(Answered(f, slots))
  {
    hide SlotDuration, DefaultEnd, EndOptions;
    QuietFacts(f);
    EndAfterBelongs(f);
  }

  lemma AnswerClears(f: Form, slots: set<string>)
    requires Quiet(f) && f.time != "" && f.time !in slots
    ensures !Quiet(Answered(f, slots)) && Render(Answered(f, slots)).time == ""
  {
    hide SlotDuration, DefaultEnd, EndOptions;
    QuietFacts(f);
  }

  /**
   The traffic after one action is bounded: a reply that keeps the start time is the last, and a
   reply that drops it is followed by at most one more.
   */
  lemma AtMostTwoReplies(slug: string, evs: seq<Event>, first: set<string>, second: set<string>)
    ensures var f := After(slug, evs);
            var g := After(slug, evs + [Reply(first)]);
            var h := After(slug, evs + [Reply(first), Reply(second)]);
            && (f.time == "" || f.time in first ==> g.request.None? && g.time == f.time && g.timeTo == f.timeTo)
            && h.request.None?
  {
    hide Quiet, Render, Settled, Answered;
    var f := After(slug, evs);
    var g := After(slug, evs + [Reply(first)]);
    AfterReply(slug, evs, first);
    AfterReply(slug, evs + [Reply(first)], second);
    assert evs + [Reply(first)] + [Reply(second)] == evs + [Reply(first), Reply(second)];
    FormAlways(slug, evs);
    FormAlways(slug, evs + [Reply(first)]);
    OneReply(f, first);
    if g.request.Some? {
      OneReply(g, second);
    }
  }

  lemma AfterReply(slug: string, evs: seq<Event>, slots: set<string>)
    ensures var f := After(slug, evs);
            After(slug, evs + [Reply(slots)]) == if f.request.Some? then Settled(Answered(f, slots)) else f
  {
    hide Settled, Answered;
    assert (evs + [Reply(slots)])[..|evs|] == evs;
  }

  lemma OneReply(f: Form, slots: set<string>)
    requires Quiet(f)
    ensures var g := Settled(Answered(f, slots));
            && (f.time == "" || f.time in slots ==>
                  g == Answered(f, slots) && g.request.None? && g.time == f.time && g.timeTo == f.timeTo)
            && (f.time != "" && f.time !in slots ==> g.time == "")
  {
    hide Quiet, Render;
    if f.time == "" || f.time in slots {
      AnswerIsQuiet(f, slots);
    } else {
      AnswerClears(f, slots);
      RenderWorks(Answered(f, slots));
      NoTimeStays(Render(Answered(f, slots)));
    }
  }

  lemma {:induction false} NoTimeStays(f: Form)
    requires f.time == ""
    ensures Settled(f).time == ""
    decreases Work(f)
  {
    hide Quiet, Work, Render;
    if !Quiet(f) {
      RenderWorks(f);
      RenderKeepsNoTime(f);
      NoTimeStays(Render(f));
    }
  }

  // ---------------------------------------------------------------- what an action leads to

  /** Away from a change of venue, renders leave the selection and the date alone. */
  lemma {:induction false} StayingKeeps(f: Form)
    requires !Navigated(f)
    ensures Settled(f).selected == f.selected && Settled(f).date == f.date && Settled(f).venue == f.venue
    decreases Work(f)
  {
    hide Quiet, Work, SlotDuration, DefaultEnd, EndOptions;
    if !Quiet(f) {
      RenderWorks(f);
      StayingKeeps(Render(f));
    }
  }

  lemma RenderArrives(f: Form)
    ensures !Navigated(Render(f))
    ensures Render(f).selected.ids == if f.ranVenue != VenueDeps(f.slug, VenueId(f)) then [] else f.selected.ids
    ensures Render(f).date == if f.ranSlug != f.slug && f.date.Some? && f.date.value.past then None else f.date
  {
    hide SlotDuration, DefaultEnd, EndOptions;
  }

  lemma AfterAction(slug: string, evs: seq<Event>, a: Action)
    ensures After(slug, evs + [Do(a)]) == Settled(Act(After(slug, evs), a))
  {
    hide Settled, Act;
    assert (evs + [Do(a)])[..|evs|] == evs;
  }

  lemma SettledArrives(f: Form)
    requires Navigated(f)
    ensures Settled(f).selected == Render(f).selected && Settled(f).date == Render(f).date
  {
    hide Work, SlotDuration, DefaultEnd, EndOptions;
    RenderArrives(f);
    StayingKeeps(Render(f));
  }

  /** Another venue empties the selection, and another address drops a date that is over and no other. */
  lemma ArrivalResets(slug: string, evs: seq<Event>, to: string, venue: Option<Venue>)
    ensures var f := After(slug, evs);
            var g := After(slug, evs + [Do(Arrive(to, venue))]);
            && (to != f.slug || VenueId(f.(venue := venue)) != VenueId(f) ==> g.selected.ids == [])
            && (to == f.slug && VenueId(f.(venue := venue)) == VenueId(f) ==> g.selected == f.selected)
            && g.date == if to != f.slug && f.date.Some? && f.date.value.past then None else f.date
  {
    hide Settled, Render, Quiet;
    var f := After(slug, evs);
    var h := Act(f, Arrive(to, venue));
    FormAlways(slug, evs);
    QuietFacts(f);
    AfterAction(slug, evs, Arrive(to, venue));
    if Navigated(h) {
      SettledArrives(h);
      RenderArrives(h);
    } else {
      StayingKeeps(h);
    }
  }

  /** A start time on offer at a known venue, whose end time is the default or about to become it. */
  predicate Choosing(f: Form) {
    && f.venue.Some? && f.time != "" && !Navigated(f)
    && (f.loading || f.time in f.slots)
    && (f.shownKey.Some? ==> KeyOf(f).Some?)
    && (f.ranAuto != AutoNow(f) || f.timeTo == DefaultFor(f))
  }

  lemma RenderChooses(f: Form)
    requires Choosing(f)
    ensures Choosing(Render(f)) && Render(f).time == f.time && AutoNow(Render(f)) == AutoNow(f)
  {
    hide SlotDuration, DefaultEnd, EndOptions;
  }

  lemma {:induction false} ChoosingSettles(f: Form)
    requires Choosing(f)
    ensures Choosing(Settled(f)) && AutoNow(Settled(f)) == AutoNow(f)
    decreases Work(f)
  {
    hide Quiet, Work, Render, Choosing, AutoNow;
    if !Quiet(f) {
      RenderWorks(f);
      RenderChooses(f);
      ChoosingSettles(Render(f));
    }
  }

  /**
   Choosing a start time that is on offer, or other packages for it, leaves the start time alone and
   sets the end time to the default for the packages, which the correcting effect never overrides.
   */
  lemma EndFollowsChoice(slug: string, evs: seq<Event>, a: Action)
    requires a.PickTime? || a.Select?
    requires var f := After(slug, evs);
             var h := Act(f, a);
             h.venue.Some? && h.time != "" && AutoNow(h) != AutoNow(f) && (h.loading || h.time in h.slots)
    ensures var h, g := Act(After(slug, evs), a), After(slug, evs + [Do(a)]);
            && g.time == h.time && g.selected == h.selected
            && g.timeTo == DefaultEnd(h.time, VisitMinutes(h.selected.ids, h.venue.value))
  {
    var f := After(slug, evs);
    var h := Act(f, a);
    FormAlways(slug, evs);
    ChoiceStarts(f, a);
    AfterAction(slug, evs, a);
    ChoosingSettles(h);
    CascadeEnds(h);
    ChosenEnd(Settled(h));
  }

  lemma ChoiceStarts(f: Form, a: Action)
    requires Quiet(f) && (a.PickTime? || a.Select?)
    requires var h := Act(f, a);
             h.venue.Some? && h.time != "" && AutoNow(h) != AutoNow(f) && (h.loading || h.time in h.slots)
    ensures Choosing(Act(f, a))
  {
    hide SlotDuration, DefaultEnd, EndOptions;
    QuietFacts(f);
  }

  lemma ChosenEnd(g: Form)
    requires Quiet(g) && Choosing(g)
    ensures g.timeTo == DefaultEnd(g.time, VisitMinutes(g.selected.ids, g.venue.value))
  {
    hide SlotDuration, DefaultEnd, EndOptions;
    QuietFacts(g);
  }

  /**
   In minutes: the end is then as long as every selected package if any offered end is, or twelve hours,
   no offered end that is as long is earlier, and otherwise it is the last offered.
   */
  lemma EndFitsPackages(slug: string, evs: seq<Event>, a: Action, i: nat)
    requires a.PickTime? || a.Select?
    requires var f := After(slug, evs);
             var h := Act(f, a);
             h.venue.Some? && h.time != "" && AutoNow(h) != AutoNow(f) && (h.loading || h.time in h.slots)
    requires i < |EndOptions(Act(After(slug, evs), a).time)|
    ensures var h, g := Act(After(slug, evs), a), After(slug, evs + [Do(a)]);
            var opts := EndOptions(h.time);
            var length, other := SlotLength(g.time, g.timeTo), SlotLength(g.time, opts[i]);
            && g.time == h.time && g.timeTo in opts && length.Some? && other.Some?
            && exists need :: Covers(need, h.selected.ids, h.venue.value.services)
                 && (other.value >= need ==> need <= length.value <= other.value)
                 && (length.value < need ==> g.timeTo == opts[|opts| - 1])
  {
    hide After, Act, EndOptions, DefaultEnd, SlotLength, VisitMinutes, Covers;
    var h := Act(After(slug, evs), a);
    var need := VisitMinutes(h.selected.ids, h.venue.value);
    EndFollowsChoice(slug, evs, a);
    MinutesCover(h.selected.ids, h.venue.value);
    CoverBounds(need, h.selected.ids, h.venue.value.services);
    DefaultIsShortestLongEnough(h.time, need, i);
  }

  lemma CoverBounds(minutes: int, ids: seq<string>, services: seq<Service>)
    requires Covers(minutes, ids, services)
    ensures 30 <= minutes <= 720
  {
  }

  // ---------------------------------------------------------------- what an action sets stays set

  lemma RenderStays(f: Form)
    ensures Render(f).slug == f.slug && Render(f).venue == f.venue
  {
    hide SlotDuration, DefaultEnd, EndOptions;
  }

  lemma {:induction false} PlaceStays(f: Form)
    ensures Settled(f).slug == f.slug && Settled(f).venue == f.venue
    decreases Work(f)
  {
    hide Quiet, Work, Render;
    if !Quiet(f) {
      RenderWorks(f);
      RenderStays(f);
      PlaceStays(Render(f));
    }
  }

  /** The venue, the date and the packages an action sets are there when the cascade is over, and no other action changes them. */
  lemma ActionsTakeHold(slug: string, evs: seq<Event>, a: Action)
    ensures var f, g := After(slug, evs), After(slug, evs + [Do(a)]);
            && g.slug == (if a.Arrive? then a.slug else f.slug) && g.venue == (if a.Arrive? then a.venue else f.venue)
            && (!a.Arrive? ==> g.date == (if a.PickDate? then a.date else f.date))
            && (!a.Arrive? ==> g.selected == (if a.Select? then a.selected else f.selected))
  {
    hide Settled, Render, Quiet;
    var f := After(slug, evs);
    FormAlways(slug, evs);
    QuietFacts(f);
    AfterAction(slug, evs, a);
    PlaceStays(Act(f, a));
    if !a.Arrive? {
      StayingKeeps(Act(f, a));
    }
  }

  /** A start time on offer at a known venue, and an end time that is settled for it. */
  predicate Keeping(f: Form, end: string) {
    && f.venue.Some? && f.time != "" && !Navigated(f)
    && (f.loading || f.time in f.slots)
    && (f.shownKey.Some? ==> KeyOf(f).Some?)
    && f.ranAuto == AutoNow(f) && f.timeTo == end
    && (end == "" || EndOptions(f.time) == [] || end in EndOptions(f.time))
  }

  lemma RenderKeeping(f: Form, end: string)
    requires Keeping(f, end)
    ensures Keeping(Render(f), end) && Render(f).time == f.time
  {
    hide SlotDuration, DefaultEnd, EndOptions;
  }

  lemma {:induction false} SettledKeeping(f: Form, end: string)
    requires Keeping(f, end)
    ensures Keeping(Settled(f), end) && Settled(f).time == f.time
    decreases Work(f)
  {
    hide Quiet, Work, Render, Keeping;
    if !Quiet(f) {
      RenderWorks(f);
      RenderKeeping(f, end);
      SettledKeeping(Render(f), end);
    }
  }

  /** An end time that belongs to the start time is kept when it is picked. */
  lemma PickedEndStays(slug: string, evs: seq<Event>, end: string)
    requires var f := After(slug, evs);
             f.venue.Some? && f.time != "" &&
             (end == "" || EndOptions(f.time) == [] || end in EndOptions(f.time))
    ensures var f, g := After(slug, evs), After(slug, evs + [Do(PickEnd(end))]);
            g.time == f.time && g.timeTo == end
  {
    var f := After(slug, evs);
    FormAlways(slug, evs);
    SettledForm(slug, evs);
    AfterAction(slug, evs, PickEnd(end));
    PickStarts(f, end);
    SettledKeeping(Act(f, PickEnd(end)), end);
  }

  lemma PickStarts(f: Form, end: string)
    requires Quiet(f) && f.venue.Some? && f.time != "" && (f.loading || f.time in f.slots)
    requires end == "" || EndOptions(f.time) == [] || end in EndOptions(f.time)
    ensures Keeping(Act(f, PickEnd(end)), end)
  {
    hide SlotDuration, DefaultEnd, EndOptions;
    QuietFacts(f);
  }

  /** No start time, and an end time that is gone or about to go. */
  predicate Ending(f: Form) {
    f.time == "" && (f.ranAuto != AutoNow(f) || f.timeTo == "")
  }

  lemma RenderEnding(f: Form)
    requires Ending(f)
    ensures Ending(Render(f))
  {
    hide SlotDuration, DefaultEnd, EndOptions;
  }

  lemma {:induction false} SettledEnding(f: Form)
    requires Ending(f)
    ensures Settled(f).time == "" && Settled(f).timeTo == ""
    decreases Work(f)
  {
    hide Work, Render, SlotDuration, DefaultEnd, EndOptions;
    if !Quiet(f) {
      RenderWorks(f);
      RenderEnding(f);
      SettledEnding(Render(f));
    } else {
      QuietFacts(f);
    }
  }

  /** When the start time goes, by the user's choice or because it is no longer on offer, the end time goes too. */
  lemma EndGoesWithStart(slug: string, evs: seq<Event>, slots: set<string>)
    requires After(slug, evs).time != ""
    ensures var g := After(slug, evs + [Do(PickTime(""))]);
            g.time == "" && g.timeTo == ""
    ensures var f, h := After(slug, evs), After(slug, evs + [Reply(slots)]);
            f.request.Some? && f.time !in slots ==> h.time == "" && h.timeTo == ""
  {
    var f := After(slug, evs);
    FormAlways(slug, evs);
    AfterAction(slug, evs, PickTime(""));
    AfterReply(slug, evs, slots);
    StartGoes(f, slots);
    SettledEnding(Act(f, PickTime("")));
    if f.time !in slots {
      AnswerClears(f, slots);
      RenderWorks(Answered(f, slots));
      SettledEnding(Render(Answered(f, slots)));
    }
  }

  lemma StartGoes(f: Form, slots: set<string>)
    requires Quiet(f) && f.time != ""
    ensures Ending(Act(f, PickTime("")))
    ensures f.time !in slots ==> Ending(Render(Answered(f, slots)))
  {
    hide SlotDuration, DefaultEnd, EndOptions;
    QuietFacts(f);
  }

  // ---------------------------------------------------------------- the request that follows

  /** The request is the one for what was last asked, and no slots of another key are left, unless nothing was asked since. */
  predicate AskedSince(f: Form, was: FetchDeps) {
    && (f.ranFetch == was || f.request == KeyFrom(f.ranFetch))
    && (f.shownKey == KeyFrom(was) || f.slots == {})
  }

  lemma RenderAsks(f: Form, was: FetchDeps)
    requires AskedSince(f, was)
    ensures AskedSince(Render(f), was)
  {
    hide SlotDuration, DefaultEnd, EndOptions, EndAfter;
    ResetKeeps(f);
  }

  lemma {:induction false} SettledAsks(f: Form, was: FetchDeps)
    requires AskedSince(f, was)
    ensures AskedSince(Settled(f), was)
    decreases Work(f)
  {
    hide Quiet, Work, Render, AskedSince;
    if !Quiet(f) {
      RenderWorks(f);
      RenderAsks(f, was);
      SettledAsks(Render(f), was);
    }
  }

  /** Whenever an action leads to another slug, day or duration, no slots are shown and a request for just that is outstanding at the end. */
  lemma NewKeyIsAsked(slug: string, evs: seq<Event>, a: Action)
    ensures var f, g := After(slug, evs), After(slug, evs + [Do(a)]);
            KeyOf(g) != KeyOf(f) ==> g.request == KeyOf(g) && g.slots == {}
  {
    hide Settled, Render, Quiet, KeyOf;
    var f := After(slug, evs);
    FormAlways(slug, evs);
    QuietFacts(f);
    AfterAction(slug, evs, a);
    SettledAsks(Act(f, a), f.ranFetch);
    FormAlways(slug, evs + [Do(a)]);
    QuietFacts(Settled(Act(f, a)));
    KeysFrom(f);
    KeysFrom(Settled(Act(f, a)));
  }

  lemma KeysFrom(f: Form)
    ensures KeyOf(f) == KeyFrom(FetchNow(f))
  {
    hide SlotDuration;
  }

  /** What the key is: the slug, the day and the duration, once there is a slug and a date. */
  lemma KeyIs(f: Form)
    ensures KeyOf(f) == if f.slug == "" || f.date.None? then None
                        else Some(Key(f.slug, f.date.value.day, SlotDuration(f.time, f.timeTo, f.selected.ids, f.venue)))
  {
    hide SlotDuration;
  }

  // ---------------------------------------------------------------- the hook

  class BookingHook {
    var slug: string
    var venue: Option<Venue>
    var date: Option<Date>
    var time: string
    var timeTo: string
    var selected: Selection
    var slots: set<string>
    var loading: bool
    var shownKey: Option<Key>
    var request: Option<Key>
    var ranVenue: VenueDeps
    var ranSlug: string
    var ranFetch: FetchDeps
    var ranAuto: AutoDeps
    var ranFix: FixDeps

    constructor (slug: string)
      ensures View() == Start(slug)
    {
      var none := Selection(0, []);
      var auto := AutoDeps("", none, None);
      this.slug, venue, date, time, timeTo, selected := slug, None, None, "", "", none;
      slots, loading, shownKey, request := {}, false, None, None;
      ranVenue, ranSlug, ranFetch := VenueDeps(slug, None), slug, FetchDeps(slug, None, 120);
      ranAuto, ranFix := auto, FixDeps(auto, "");
    }

    function View(): Form
      reads this
    {
      Form(slug, venue, date, time, timeTo, selected, slots, loading, shownKey, request,
           ranVenue, ranSlug, ranFetch, ranAuto, ranFix)
    }

    /** `addMin` of the two effects on the end time, and the end time it leads to. */
    method DefaultTimeTo(start: string, ids: seq<string>, venue: Venue) returns (end: string)
      ensures end == DefaultEnd(start, VisitMinutes(ids, venue))
    {
      var addMin := 120;
      if |ids| > 0 {
        addMin := MaxSlotMinutesForSelectedServices(ids, venue.services);
        addMin := if addMin < 30 then 30 else addMin;
      }
      end := DefaultEndTimeForDuration(start, addMin);
    }

    /** The effects on the end time, in the order of the source, both reading the values of `seen`. */
    method RunEndEffects(seen: Form)
      requires seen.timeTo == timeTo
      modifies `timeTo
      ensures timeTo == EndAfter(seen)
    {
      hide SlotDuration, DefaultEnd, EndOptions;
      if seen.ranAuto != AutoNow(seen) {
        if seen.time == "" {
          timeTo := "";
        } else if seen.venue.Some? {
          timeTo := DefaultTimeTo(seen.time, seen.selected.ids, seen.venue.value);
        }
      }
      if seen.ranFix != FixNow(seen) && seen.time != "" && seen.timeTo != "" && seen.venue.Some? {
        var opts := EndTimeOptionsThirtyMinutes(seen.time);
        if |opts| != 0 && seen.timeTo !in opts {
          timeTo := DefaultTimeTo(seen.time, seen.selected.ids, seen.venue.value);
        }
      }
    }

    /** The reset while rendering. */
    method ResetForKey()
      modifies `shownKey, `slots, `loading
      ensures View() == Reset(old(View()))
    {
      hide KeyOf;
      var key := KeyOf(View());
      if key != shownKey {
        shownKey, slots, loading := key, {}, key.Some?;
      }
    }

    /** Another venue drops the selection, and another address a date that is over. */
    method RunArrivalEffects(seen: Form)
      requires seen == View()
      modifies `selected, `date
      ensures selected == Effects(seen).selected && date == Effects(seen).date
    {
      hide KeyOf, EndAfter, AutoNow, FixNow, FetchNow, VenueId;
      if ranVenue != VenueDeps(slug, VenueId(seen)) {
        selected := Selection(selected.ref + 1, []);
      }
      if ranSlug != slug && date.Some? && date.value.past {
        date := None;
      }
    }

    /** The availability request, and the start time that is no longer on offer. */
    method RunSlotEffects(seen: Form)
      requires seen.slug == slug && seen.request == request && seen.ranFetch == ranFetch
      requires seen.time == time && seen.loading == loading && seen.slots == slots
      modifies `request, `time
      ensures request == Effects(seen).request && time == Effects(seen).time
    {
      hide KeyOf, EndAfter, AutoNow, FixNow, FetchNow, VenueId;
      if ranFetch != FetchNow(seen) {
        request := KeyOf(seen);
      }
      if time != "" && !loading && time !in slots {
        time := "";
      }
    }

    /** React keeps the dependencies each effect ran with. */
    method RememberDeps(seen: Form)
      requires seen.slug == slug && seen.venue == venue
      modifies `ranVenue, `ranSlug, `ranFetch, `ranAuto, `ranFix
      ensures ranVenue == Effects(seen).ranVenue && ranSlug == Effects(seen).ranSlug && ranFetch == Effects(seen).ranFetch
      ensures ranAuto == Effects(seen).ranAuto && ranFix == Effects(seen).ranFix
    {
      hide KeyOf, EndAfter, AutoNow, FixNow, FetchNow;
      ranVenue, ranSlug, ranFetch := VenueDeps(slug, VenueId(seen)), slug, FetchNow(seen);
      ranAuto, ranFix := AutoNow(seen), FixNow(seen);
    }

    /** The effects of the render that ended in `seen`, each reading the values of that render. */
    method RunEffects(seen: Form)
      requires seen == View()
      modifies this
      ensures View() == Effects(seen)
    {
      hide KeyOf, EndAfter, AutoNow, FixNow, FetchNow, VenueId;
      ghost var done := Effects(seen);
      RunArrivalEffects(seen);
      RunEndEffects(seen);
      RunSlotEffects(seen);
      assert selected == done.selected && date == done.date && timeTo == done.timeTo;
      assert request == done.request && time == done.time;
      hide Effects;
      RememberDeps(seen);
      assert View() == done;
    }

    method RunRender()
      modifies this
      ensures View() == Render(old(View()))
    {
      hide Reset, Effects;
      ResetForKey();
      RunEffects(View());
    }

    /** Renders follow one another until nothing changes. */
    method Settle()
      modifies this
      ensures View() == Settled(old(View())) && Quiet(View())
    {
      hide Quiet, Render, Work;
      ghost var start := View();
      CascadeEnds(start);
      var before, going := View(), true;
      while going
        invariant before == View() && Settled(before) == Settled(start)
        invariant !going ==> Quiet(before)
        decreases going, Work(before)
      {
        RunRender();
        going := View() != before;
        QuietIff(before);
        if going {
          RenderWorks(before);
        }
        before := View();
      }
    }

    method Perform(a: Action)
      modifies this
      ensures View() == Settled(Act(old(View()), a))
    {
      hide Settled, Quiet;
      ghost var changed := Act(View(), a);
      match a {
        case Arrive(to, at) => slug, venue := to, at;
        case PickDate(d) => date := d;
        case PickTime(t) => time := t;
        case PickEnd(t) => timeTo := t;
        case Select(s) => selected := s;
      }
      assert View() == changed;
      Settle();
    }

    method Receive(answer: set<string>)
      requires request.Some?
      modifies this
      ensures View() == Settled(Answered(old(View()), answer))
    {
      hide Settled, Quiet;
      slots, loading, request := answer, false, None;
      Settle();
    }
  }

  lemma QuietIff(f: Form)
    ensures Quiet(f) <==> Render(f) == f
  {
    hide Render;
  }
}
