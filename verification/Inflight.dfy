/** The in-flight gauge of one DragonTTS worker, and the shutdown that waits for
    it (dragontts/app/main.py and drain.py). Requests interleave at their awaits;
    what runs between two awaits is one step. */
module Inflight {

  /** What an application hands to `send`. */
  datatype Message = ResponseStart | Body(more: bool) | Disconnect | OtherMessage

  predicate IsTerminal(message: Message) {
    message.Disconnect? || (message.Body? && !message.more)
  }

  /** One tracked request: the messages being sent for it, its `done` flag,
      whether its application has returned or raised, whether a terminal message
      has gone out whole, and how often it has been counted out. */
  datatype Request = Request(
    tts: bool, sending: multiset<Message>, done: bool, exited: bool, terminalSent: bool, finishes: nat)

  datatype State = State(inflight: int, live: int, requests: map<nat, Request>)

  /** A request arrives; its application calls `send`; that await ends, or fails;
      the application returns or raises, whatever is still being sent. */
  datatype Event =
    | Begins(id: nat, tts: bool)
    | Sends(id: nat, message: Message)
    | Sent(id: nat, message: Message)
    | SendFails(id: nat, message: Message)
    | Exits(id: nat)

  predicate Enabled(s: State, event: Event) {
    match event
    case Begins(id, _) => id !in s.requests
    case Sends(id, _) => id in s.requests
    case Sent(id, message) => id in s.requests && message in s.requests[id].sending
    case SendFails(id, message) => id in s.requests && message in s.requests[id].sending
    case Exits(id) => id in s.requests && !s.requests[id].exited
  }

  /** `decr_inflight` never goes below zero. */
  function Decremented(gauge: int): int {
    if gauge > 0 then gauge - 1 else gauge
  }

  /** `finish`: the flag, the gauge and the live metric. */
  function Finished(s: State, id: nat): State
    requires id in s.requests
  {
    var request := s.requests[id];
    State(Decremented(s.inflight), if request.tts then s.live - 1 else s.live,
          s.requests[id := request.(done := true, finishes := request.finishes + 1)])
  }

  function Sending(s: State, id: nat, sending: multiset<Message>): State
    requires id in s.requests
  {
    s.(requests := s.requests[id := s.requests[id].(sending := sending)])
  }

  function Next(s: State, event: Event): State
    requires Enabled(s, event)
  {
    match event
    case Begins(id, tts) =>
      State(s.inflight + 1, if tts then s.live + 1 else s.live,
            s.requests[id := Request(tts, multiset{}, false, false, false, 0)])
    case Sends(id, message) => Sending(s, id, s.requests[id].sending + multiset{message})
    case SendFails(id, message) => Sending(s, id, s.requests[id].sending - multiset{message})
    case Sent(id, message) =>
      var sent := Sending(s, id, s.requests[id].sending - multiset{message});
      if !IsTerminal(message) then sent
      else
        var gone := sent.(requests := sent.requests[id := sent.requests[id].(terminalSent := true)]);
        if s.requests[id].done then gone else Finished(gone, id)
    case Exits(id) =>
      var left := s.(requests := s.requests[id := s.requests[id].(exited := true)]);
      if s.requests[id].done then left else Finished(left, id)
  }

  // ---- The middleware ----

  /** One worker's module state and the closures of its requests. */
  class Worker {
    var inflight: int
    var live: int
    var requests: map<nat, Request>

    ghost function Now(): State
      reads this
    {
      State(inflight, live, requests)
    }

    constructor ()
      ensures Now() == State(0, 0, map[])
    {
      inflight, live, requests := 0, 0, map[];
    }

    method Begin(id: nat, tts: bool)
      requires Enabled(Now(), Begins(id, tts))
      modifies this
      ensures Now() == Next(old(Now()), Begins(id, tts))
    {
      inflight := inflight + 1;
      if tts {
        live := live + 1;
      }
      requests := requests[id := Request(tts, multiset{}, false, false, false, 0)];
    }

    method Finish(id: nat)
      requires id in requests
      modifies this
      ensures Now() == Finished(old(Now()), id)
    {
      requests := requests[id := requests[id].(done := true, finishes := requests[id].finishes + 1)];
      if inflight > 0 {
        inflight := inflight - 1;
      }
      if requests[id].tts {
        live := live - 1;
      }
    }

    /** `send_wrapper`, from the end of its await. */
    method AfterSend(id: nat, message: Message)
      requires Enabled(Now(), Sent(id, message))
      modifies this
      ensures Now() == Next(old(Now()), Sent(id, message))
    {
      requests := requests[id := requests[id].(sending := requests[id].sending - multiset{message})];
      if message.Disconnect? || (message.Body? && !message.more) {
        requests := requests[id := requests[id].(terminalSent := true)];
        if requests[id].done {
          return;
        }
        Finish(id);
      }
    }

    /** The `finally` clause. */
    method AfterApp(id: nat)
      requires Enabled(Now(), Exits(id))
      modifies this
      ensures Now() == Next(old(Now()), Exits(id))
    {
      requests := requests[id := requests[id].(exited := true)];
      if !requests[id].done {
        Finish(id);
      }
    }
  }

  // ---- The gauge is honest ----

  function Unfinished(s: State): set<nat> {
    set id | id in s.requests && !s.requests[id].done
  }

  function UnfinishedTts(s: State): set<nat> {
    set id | id in s.requests && !s.requests[id].done && s.requests[id].tts
  }

  /** Counted out once, and only when its response has gone out whole or its
      application is gone. */
  predicate IsHonest(request: Request) {
    && request.finishes == (if request.done then 1 else 0)
    && (request.done <==> request.terminalSent || request.exited)
  }

  ghost predicate Inv(s: State) {
    && s.inflight == |Unfinished(s)| && s.live == |UnfinishedTts(s)|
    && forall id | id in s.requests :: IsHonest(s.requests[id])
  }

  lemma SameRequestsSameGauge(s: State, id: nat, request: Request)
    requires Inv(s) && id in s.requests && IsHonest(request)
    requires request.done == s.requests[id].done && request.tts == s.requests[id].tts
    ensures Inv(s.(requests := s.requests[id := request]))
  {
    var after := s.(requests := s.requests[id := request]);
    assert Unfinished(after) == Unfinished(s);
    assert UnfinishedTts(after) == UnfinishedTts(s);
  }

  /** The gauge falls exactly with the request it counts; its floor never bites. */
  lemma FinishingIsHonest(s: State, id: nat, before: Request)
    requires id in s.requests && !s.requests[id].done && s.requests[id].finishes == 0
    requires s.requests[id].terminalSent || s.requests[id].exited
    requires Inv(s.(requests := s.requests[id := before]))
    requires !before.done && before.tts == s.requests[id].tts
    ensures Inv(Finished(s, id)) && s.inflight > 0 && Finished(s, id).inflight == s.inflight - 1
  {
    var was, after := s.(requests := s.requests[id := before]), Finished(s, id);
    assert id in Unfinished(was);
    assert Unfinished(after) == Unfinished(was) - {id};
    if before.tts {
      assert id in UnfinishedTts(was);
    }
    assert UnfinishedTts(after) == UnfinishedTts(was) - {id};
    forall other | other in after.requests ensures IsHonest(after.requests[other]) {
      assert other != id ==> IsHonest(was.requests[other]);
    }
  }

  lemma BeginningIsHonest(s: State, id: nat, tts: bool)
    requires Inv(s) && id !in s.requests
    ensures Inv(Next(s, Begins(id, tts)))
  {
    var after := Next(s, Begins(id, tts));
    assert Unfinished(after) == Unfinished(s) + {id};
    if tts {
      assert UnfinishedTts(after) == UnfinishedTts(s) + {id};
    } else {
      assert UnfinishedTts(after) == UnfinishedTts(s);
    }
    assert IsHonest(after.requests[id]);
  }

  lemma StepKeepsInv(s: State, event: Event)
    requires Inv(s) && Enabled(s, event)
    ensures Inv(Next(s, event))
  {
    match event
    case Begins(id, tts) => BeginningIsHonest(s, id, tts);
    case Sends(id, message) =>
      SameRequestsSameGauge(s, id, s.requests[id].(sending := s.requests[id].sending + multiset{message}));
    case SendFails(id, message) =>
      SameRequestsSameGauge(s, id, s.requests[id].(sending := s.requests[id].sending - multiset{message}));
    case Sent(id, message) => SentKeepsInv(s, id, message);
    case Exits(id) => ExitKeepsInv(s, id);
  }

  lemma SentKeepsInv(s: State, id: nat, message: Message)
    requires Inv(s) && Enabled(s, Sent(id, message))
    ensures Inv(Next(s, Sent(id, message)))
  {
    var request := s.requests[id].(sending := s.requests[id].sending - multiset{message});
    if !IsTerminal(message) {
      SameRequestsSameGauge(s, id, request);
    } else if request.done {
      SameRequestsSameGauge(s, id, request.(terminalSent := true));
      assert Next(s, Sent(id, message)) == s.(requests := s.requests[id := request.(terminalSent := true)]);
    } else {
      var gone := s.(requests := s.requests[id := request.(terminalSent := true)]);
      assert gone.requests[id := s.requests[id]] == s.requests;
      FinishingIsHonest(gone, id, s.requests[id]);
      assert Next(s, Sent(id, message)) == Finished(gone, id);
    }
  }

  lemma ExitKeepsInv(s: State, id: nat)
    requires Inv(s) && Enabled(s, Exits(id))
    ensures Inv(Next(s, Exits(id)))
  {
    var request := s.requests[id].(exited := true);
    if request.done {
      SameRequestsSameGauge(s, id, request);
    } else {
      var left := s.(requests := s.requests[id := request]);
      assert left.requests[id := s.requests[id]] == s.requests;
      FinishingIsHonest(left, id, s.requests[id]);
    }
  }

  // ---- Runs ----

  ghost predicate CanRun(s: State, events: seq<Event>)
    decreases |events|
  {
    events == [] || (Enabled(s, events[0]) && CanRun(Next(s, events[0]), events[1..]))
  }

  ghost function After(s: State, events: seq<Event>): State
    requires CanRun(s, events)
    decreases |events|
  {
    if events == [] then s else After(Next(s, events[0]), events[1..])
  }

  lemma {:induction false} RunsKeepInv(s: State, events: seq<Event>)
    requires Inv(s) && CanRun(s, events)
    ensures Inv(After(s, events))
    decreases |events|
  {
    if events != [] {
      StepKeepsInv(s, events[0]);
      RunsKeepInv(Next(s, events[0]), events[1..]);
    }
  }

  /** For any interleaving from a fresh worker: the gauge is the number of
      requests begun and not finished, each has been counted out exactly once if
      it is finished and never otherwise, and a gauge of zero means every
      response has gone out whole or its application is gone. */
  lemma TheGaugeIsHonest(events: seq<Event>)
    requires CanRun(State(0, 0, map[]), events)
    ensures var s := After(State(0, 0, map[]), events);
            && s.inflight == |Unfinished(s)| && s.live == |UnfinishedTts(s)|
            && (forall id | id in s.requests :: IsHonest(s.requests[id]))
            && (s.inflight == 0 <==>
                  forall id | id in s.requests :: s.requests[id].terminalSent || s.requests[id].exited)
  {
    var fresh0 := State(0, 0, map[]);
    assert Unfinished(fresh0) == {} && UnfinishedTts(fresh0) == {};
    RunsKeepInv(fresh0, events);
    ZeroMeansFinished(After(fresh0, events));
  }

  lemma ZeroMeansFinished(s: State)
    requires Inv(s)
    ensures s.inflight == 0 <==> forall id | id in s.requests :: s.requests[id].terminalSent || s.requests[id].exited
  {
    if s.inflight == 0 {
      forall id | id in s.requests ensures s.requests[id].terminalSent || s.requests[id].exited {
        assert id !in Unfinished(s) && IsHonest(s.requests[id]);
      }
    } else {
      var id :| id in Unfinished(s);
      assert IsHonest(s.requests[id]);
    }
  }

  // ---- The same, told by the events alone ----

  predicate Begun(events: seq<Event>, id: nat) {
    exists tts :: Begins(id, tts) in events
  }

  predicate BegunAsTts(events: seq<Event>, id: nat) {
    Begins(id, true) in events
  }

  /** The last chunk of its body went out, or the client was gone, or its
      application returned or raised. */
  predicate Over(events: seq<Event>, id: nat) {
    Sent(id, Body(false)) in events || Sent(id, Disconnect) in events || Exits(id) in events
  }

  lemma OneEventTells(s: State, event: Event, id: nat)
    requires Enabled(s, event)
    ensures var after := Next(s, event);
            && (id in after.requests <==> id in s.requests || event in {Begins(id, true), Begins(id, false)})
            && (id in s.requests ==> after.requests[id].tts == s.requests[id].tts)
            && (id in after.requests && id !in s.requests ==> after.requests[id].tts == (event == Begins(id, true)))
            && (id in after.requests ==>
                  (after.requests[id].done <==>
                     || (id in s.requests && s.requests[id].done)
                     || event in {Sent(id, Body(false)), Sent(id, Disconnect), Exits(id)}))
  {
  }

  /** What a request has come to, told by the events since. */
  ghost predicate IsToldOf(s: State, events: seq<Event>, after: State, id: nat) {
    && (id in after.requests <==> id in s.requests || Begun(events, id))
    && (id in s.requests ==> id in after.requests && after.requests[id].tts == s.requests[id].tts)
    && (id in after.requests && id !in s.requests ==> (after.requests[id].tts <==> BegunAsTts(events, id)))
    && (id in after.requests ==>
          (after.requests[id].done <==> (id in s.requests && s.requests[id].done) || Over(events, id)))
  }

  lemma {:induction false} EventsTell(s: State, events: seq<Event>, id: nat)
    requires CanRun(s, events)
    ensures IsToldOf(s, events, After(s, events), id)
    decreases |events|
  {
    if events != [] {
      var next := Next(s, events[0]);
      OneEventTells(s, events[0], id);
      EventsTell(next, events[1..], id);
      LaterEvents(s, events, next, id);
      FirstThenRest(events[0], events[1..], id);
      assert events == [events[0]] + events[1..];
    }
  }

  lemma FirstThenRest(first: Event, rest: seq<Event>, id: nat)
    ensures Begun([first] + rest, id) <==> first in {Begins(id, true), Begins(id, false)} || Begun(rest, id)
    ensures BegunAsTts([first] + rest, id) <==> first == Begins(id, true) || BegunAsTts(rest, id)
    ensures Over([first] + rest, id) <==>
            first in {Sent(id, Body(false)), Sent(id, Disconnect), Exits(id)} || Over(rest, id)
  {
    if first == Begins(id, true) || first == Begins(id, false) {
      assert first in [first] + rest;
    }
  }

  /** A request begins once. */
  lemma {:induction false} LaterEvents(s: State, events: seq<Event>, next: State, id: nat)
    requires CanRun(s, events) && events != [] && next == Next(s, events[0])
    ensures id in next.requests ==> !Begun(events[1..], id)
  {
    if id in next.requests {
      BegunOnce(next, events[1..], id);
    }
  }

  lemma {:induction false} BegunOnce(s: State, events: seq<Event>, id: nat)
    requires CanRun(s, events) && id in s.requests
    ensures !Begun(events, id)
    decreases |events|
  {
    if events != [] {
      BegunOnce(Next(s, events[0]), events[1..], id);
      FirstThenRest(events[0], events[1..], id);
      assert events == [events[0]] + events[1..];
    }
  }

  /** After any run of events from a fresh worker, a request has been counted out,
      once, exactly when its last chunk has gone out, its client has gone, or its
      application is done. So the gauge is the number of requests begun of which
      none of that is true, the metric the number of those for speech, and the
      gauge is zero exactly when there is none. */
  lemma TheGaugeCountsTheOutstanding(events: seq<Event>) returns (outstanding: set<nat>, speaking: set<nat>)
    requires CanRun(State(0, 0, map[]), events)
    ensures var s := After(State(0, 0, map[]), events);
            && (forall id | id in s.requests :: s.requests[id].finishes == if Over(events, id) then 1 else 0)
            && s.inflight == |outstanding| && s.live == |speaking|
            && (s.inflight == 0 <==> forall id: nat | Begun(events, id) :: Over(events, id))
    ensures forall id: nat :: id in outstanding <==> Begun(events, id) && !Over(events, id)
    ensures forall id: nat :: id in speaking <==> BegunAsTts(events, id) && !Over(events, id)
  {
    var none := State(0, 0, map[]);
    var s := After(none, events);
    TheGaugeIsHonest(events);
    outstanding, speaking := Unfinished(s), UnfinishedTts(s);
    forall id: nat
      ensures id in s.requests <==> Begun(events, id)
      ensures id in s.requests ==> (s.requests[id].done <==> Over(events, id))
      ensures id in s.requests ==> (s.requests[id].tts <==> BegunAsTts(events, id))
      ensures BegunAsTts(events, id) ==> Begun(events, id)
    {
      EventsTell(none, events, id);
    }
    forall id | id in s.requests ensures s.requests[id].finishes == if Over(events, id) then 1 else 0 {
      assert IsHonest(s.requests[id]);
    }
    if s.inflight == 0 {
      forall id: nat | Begun(events, id) ensures Over(events, id) {
        assert id !in outstanding;
      }
    } else {
      var id :| id in outstanding;
    }
  }

  // ---- The shutdown wait ----

  /** One turn of the polling loop: what the requests do while it sleeps, and the
      clock when it wakes. */
  datatype Nap = Nap(events: seq<Event>, now: int)

  datatype Outcome = Drained | BudgetSpent | StillWaiting | SwitchedOff

  ghost predicate CanNap(s: State, naps: seq<Nap>)
    decreases |naps|
  {
    naps == [] || (CanRun(s, naps[0].events) && CanNap(After(s, naps[0].events), naps[1..]))
  }

  /** The loop's own test, before each sleep. */
  predicate GoesOn(s: State, now: int, deadline: int) {
    s.inflight > 0 && now < deadline
  }

  /** The state `k` naps later. */
  ghost function StateAt(s: State, naps: seq<Nap>, k: nat): State
    requires CanNap(s, naps) && k <= |naps|
    decreases k
  {
    if k == 0 then s else StateAt(After(s, naps[0].events), naps[1..], k - 1)
  }

  function TimeAt(start: int, naps: seq<Nap>, k: nat): int
    requires k <= |naps|
  {
    if k == 0 then start else naps[k - 1].now
  }

  lemma {:induction false} NapsKeepInv(s: State, naps: seq<Nap>, k: nat)
    requires Inv(s) && CanNap(s, naps) && k <= |naps|
    ensures Inv(StateAt(s, naps, k))
    decreases k
  {
    if k > 0 {
      RunsKeepInv(s, naps[0].events);
      NapsKeepInv(After(s, naps[0].events), naps[1..], k - 1);
    }
  }

  lemma {:induction false} OneMoreNap(s: State, naps: seq<Nap>, k: nat)
    requires CanNap(s, naps) && k < |naps|
    ensures CanRun(StateAt(s, naps, k), naps[k].events)
    ensures StateAt(s, naps, k + 1) == After(StateAt(s, naps, k), naps[k].events)
    decreases k
  {
    if k > 0 {
      OneMoreNap(After(s, naps[0].events), naps[1..], k - 1);
    }
  }

  /** `wait_for_inflight_drain`: it sleeps while something is in flight and the
      budget lasts, and stops the first time either fails. If it stops before its
      deadline, every response has gone out whole or its application is gone. */
  method WaitForDrain(
    enabled: bool, ghost first: State, gauges: seq<int>, start: int, budget: int, naps: seq<Nap>)
    returns (outcome: Outcome, polls: nat)
    requires Inv(first) && CanNap(first, naps) && |gauges| == |naps| + 1
    requires forall k | 0 <= k <= |naps| :: gauges[k] == StateAt(first, naps, k).inflight
    ensures polls <= |naps|
    ensures forall k | 0 <= k < polls :: GoesOn(StateAt(first, naps, k), TimeAt(start, naps, k), start + budget)
    ensures outcome.SwitchedOff? <==> !enabled
    ensures var last, now := StateAt(first, naps, polls), TimeAt(start, naps, polls);
            enabled ==>
            && (outcome.StillWaiting? <==> GoesOn(last, now, start + budget))
            && (outcome.StillWaiting? ==> polls == |naps|)
            && (outcome.Drained? <==> last.inflight == 0)
            && (!outcome.StillWaiting? && now < start + budget ==>
                  forall id | id in last.requests :: last.requests[id].terminalSent || last.requests[id].exited)
  {
    polls := 0;
    if !enabled {
      return SwitchedOff, 0;
    }
    var now := start;
    while gauges[polls] > 0 && now < start + budget
      invariant polls <= |naps| && now == TimeAt(start, naps, polls)
      invariant forall k | 0 <= k < polls :: GoesOn(StateAt(first, naps, k), TimeAt(start, naps, k), start + budget)
      decreases |naps| - polls
    {
      if polls == |naps| {
        return StillWaiting, polls;
      }
      now := naps[polls].now;
      polls := polls + 1;
    }
    NapsKeepInv(first, naps, polls);
    ZeroMeansFinished(StateAt(first, naps, polls));
    outcome := if gauges[polls] > 0 then BudgetSpent else Drained;
  }

  // ---- What an early end means ----

  /** The events of the first `k` naps. */
  function EventsOf(naps: seq<Nap>, k: nat): seq<Event>
    requires k <= |naps|
  {
    if k == 0 then [] else EventsOf(naps, k - 1) + naps[k - 1].events
  }

  lemma {:induction false} RunsJoin(s: State, events: seq<Event>, more: seq<Event>)
    requires CanRun(s, events) && CanRun(After(s, events), more)
    ensures CanRun(s, events + more) && After(s, events + more) == After(After(s, events), more)
    decreases |events|
  {
    if events == [] {
      assert events + more == more;
    } else {
      assert (events + more)[1..] == events[1..] + more;
      RunsJoin(Next(s, events[0]), events[1..], more);
    }
  }

  lemma {:induction false} NapsAreEvents(s: State, naps: seq<Nap>, k: nat)
    requires CanNap(s, naps) && k <= |naps|
    ensures CanRun(s, EventsOf(naps, k)) && After(s, EventsOf(naps, k)) == StateAt(s, naps, k)
  {
    if k > 0 {
      NapsAreEvents(s, naps, k - 1);
      OneMoreNap(s, naps, k - 1);
      RunsJoin(s, EventsOf(naps, k - 1), naps[k - 1].events);
    }
  }

  /** So a wait that finds the gauge at zero, `k` naps after whatever came before,
      finds every request ever begun over: its last chunk out, its client gone, or
      its application done; and one that does not, does not. */
  lemma DrainedMeansOver(before: seq<Event>, naps: seq<Nap>, k: nat)
    requires CanRun(State(0, 0, map[]), before) && CanNap(After(State(0, 0, map[]), before), naps) && k <= |naps|
    ensures var all := before + EventsOf(naps, k);
            StateAt(After(State(0, 0, map[]), before), naps, k).inflight == 0 <==>
            forall id: nat | Begun(all, id) :: Over(all, id)
  {
    var none := State(0, 0, map[]);
    NapsAreEvents(After(none, before), naps, k);
    RunsJoin(none, before, EventsOf(naps, k));
    var outstanding, speaking := TheGaugeCountsTheOutstanding(before + EventsOf(naps, k));
  }
}
