/**
 * `DaemonControlHandle::shutdown` racing with the IPC server loop over a bounded, lossy broadcast
 * channel. Every lock, cancel, publish, check and receive is one step; any interleaving is a run.
 */
module Shutdown {
  import opened Prelude

  const CAPACITY: nat := 128

  /** A status event that says Stopping, or anything else that is published. */
  datatype Event = SaysStopping | SaysOther

  /** Where one call of `shutdown` stands. `changed` is what it found out under the lock. */
  datatype Caller = Locking | Cancelling(changed: bool) | Publishing(changed: bool) | Returned(changed: bool)

  /** The server: first check, subscription, then the loop of check and select. */
  datatype Server = FirstCheck | Subscribing | Checking(cursor: nat) | Parked(cursor: nat) | Serving(cursor: nat)
      | Exited {
    predicate InLoop() { Checking? || Parked? || Serving? }
  }

  datatype State = State(stopping: bool, cancelled: bool, log: seq<Event>, callers: seq<Caller>, server: Server)

  function Initial(): State { State(false, false, [], [], FirstCheck) }

  datatype Action =
    | NewCall                     // somebody calls shutdown: a signal, a request, the runtime's end
    | Advance(caller: nat)        // that call takes its next step
    | PublishOther(event: Event)  // any other status or monitoring event
    | ServerStep                  // the server's next step outside select
    | Accept                      // select: a connection
    | Receive                     // select: the event channel

  // --- the channel ---------------------------------------------------------------------------------------

  /** The oldest event the channel still holds. */
  function Oldest(log: seq<Event>): nat { if |log| > CAPACITY then |log| - CAPACITY else 0 }

  datatype Received = Got(event: Event) | Lagged

  predicate CanReceive(log: seq<Event>, cursor: nat) { cursor < |log| }

  function ReceiveAt(log: seq<Event>, cursor: nat): Received
    requires CanReceive(log, cursor)
  {
    if cursor < Oldest(log) then Lagged else Got(log[cursor])
  }

  // --- steps ------------------------------------------------------------------------------------------------

  function AdvanceCaller(s: State, i: nat): State
    requires i < |s.callers|
  {
    match s.callers[i]
    case Locking => s.(stopping := true, callers := s.callers[i := Cancelling(!s.stopping)])
    case Cancelling(changed) => s.(cancelled := true, callers :=
         s.callers[i := if changed then Publishing(true) else Returned(false)])
    case Publishing(changed) =>
      s.(log := s.log + [if s.stopping then SaysStopping else SaysOther], callers := s.callers[i := Returned(changed)])
    case Returned(_) => s
  }

  /** The step an action takes, if it is possible. */
  function Next(s: State, a: Action): Option<State> {
    match a
    case NewCall => Some(s.(callers := s.callers + [Locking]))
    case Advance(i) => if i < |s.callers| && !s.callers[i].Returned? then Some(AdvanceCaller(s, i)) else None
    case PublishOther(event) => if event == SaysStopping && !s.stopping then None else Some(s.(log := s.log + [event]))
    case ServerStep =>
      (match s.server
       case FirstCheck => Some(s.(server := if s.stopping then Exited else Subscribing))
       case Subscribing => Some(s.(server := Checking(|s.log|)))
       case Checking(cursor) => Some(s.(server := if s.stopping then Exited else Parked(cursor)))
       case Serving(cursor) => Some(s.(server := Checking(cursor)))
       case Parked(_) => None
       case Exited => None)
    case Accept => if s.server.Parked? then Some(s.(server := Serving(s.server.cursor))) else None
    case Receive =>
      if s.server.Parked? && CanReceive(s.log, s.server.cursor) then
        match ReceiveAt(s.log, s.server.cursor)
        case Got(SaysStopping) => Some(s.(server := Exited))
        case Got(SaysOther) => Some(s.(server := Checking(s.server.cursor + 1)))
        case Lagged => Some(s.(server := Checking(Oldest(s.log))))
      else None
  }

  function Run(actions: seq<Action>): Option<State> {
    if actions == [] then Some(Initial())
    else
      var before := Run(actions[..|actions| - 1]);
      if before.None? then None else Next(before.value, actions[|actions| - 1])
  }

  // --- the invariant -----------------------------------------------------------------------------------------

  /** The one call that changed the state and has not published it yet. */
  predicate OnItsWay(c: Caller) { c == Cancelling(true) || c == Publishing(true) }

  predicate Changed(c: Caller) { !c.Locking? && c.changed }

  ghost predicate SomeOnItsWay(s: State) { exists i :: 0 <= i < |s.callers| && OnItsWay(s.callers[i]) }

  /** A Stopping event the server has not consumed: still in the channel, or lost to a lag it will notice. */
  ghost predicate StoppingUnread(s: State)
    requires s.server.InLoop()
  {
    exists k :: s.server.cursor <= k < |s.log| && s.log[k] == SaysStopping
  }

  ghost predicate Inv(s: State) {
    && (s.server.InLoop() ==> s.server.cursor <= |s.log|)
    && (s.stopping <==> exists i :: 0 <= i < |s.callers| && Changed(s.callers[i]))
    && (forall i, j :: 0 <= i < j < |s.callers| ==> !(Changed(s.callers[i]) && Changed(s.callers[j])))
    && (forall i :: 0 <= i < |s.callers| && (s.callers[i].Returned? || s.callers[i].Publishing?) ==> s.cancelled)
    && (forall i :: 0 <= i < |s.callers| && !s.callers[i].Locking? ==> s.stopping)
    && (forall i :: 0 <= i < |s.callers| && s.callers[i].Publishing? ==> s.callers[i].changed)
    && (s.server.Parked? && s.stopping ==> SomeOnItsWay(s) || StoppingUnread(s))
  }

  lemma LogGrows(s: State, event: Event)
    requires s.server.InLoop() && StoppingUnread(s)
    ensures StoppingUnread(s.(log := s.log + [event]))
  {
    var k :| s.server.cursor <= k < |s.log| && s.log[k] == SaysStopping;
    assert (s.log + [event])[k] == SaysStopping;
  }

  lemma LockingKeepsInv(s: State, i: nat)
    requires Inv(s) && i < |s.callers| && s.callers[i].Locking?
    ensures Inv(AdvanceCaller(s, i))
  {
    var next := AdvanceCaller(s, i);
    assert next.callers[i] == Cancelling(!s.stopping);
    forall j | 0 <= j < |s.callers| && j != i ensures next.callers[j] == s.callers[j] {
    }
    if s.stopping {
      var j :| 0 <= j < |s.callers| && Changed(s.callers[j]);
      assert Changed(next.callers[j]);
    } else {
      assert Changed(next.callers[i]) && OnItsWay(next.callers[i]);
    }
    if SomeOnItsWay(s) {
      var j :| 0 <= j < |s.callers| && OnItsWay(s.callers[j]);
      assert OnItsWay(next.callers[j]);
    }
    assert next.server.InLoop() ==> (StoppingUnread(next) <==> StoppingUnread(s));
  }

  lemma CancellingKeepsInv(s: State, i: nat)
    requires Inv(s) && i < |s.callers| && s.callers[i].Cancelling?
    ensures Inv(AdvanceCaller(s, i))
  {
    var next := AdvanceCaller(s, i);
    assert Changed(next.callers[i]) <==> Changed(s.callers[i]);
    assert OnItsWay(next.callers[i]) <==> OnItsWay(s.callers[i]);
    forall j | 0 <= j < |s.callers| && j != i ensures next.callers[j] == s.callers[j] {
    }
    SameChanged(s, next);
    if SomeOnItsWay(s) {
      var j :| 0 <= j < |s.callers| && OnItsWay(s.callers[j]);
      assert OnItsWay(next.callers[j]);
    }
    assert next.server.InLoop() ==> (StoppingUnread(next) <==> StoppingUnread(s));
  }

  lemma SameChanged(s: State, next: State)
    requires |next.callers| == |s.callers| && forall j :: 0 <= j < |s.callers| ==>
             (Changed(next.callers[j]) <==> Changed(s.callers[j]))
    ensures (exists i :: 0 <= i < |s.callers| && Changed(s.callers[i])) <==>
            exists i :: 0 <= i < |next.callers| && Changed(next.callers[i])
  {
  }

  lemma PublishingKeepsInv(s: State, i: nat)
    requires Inv(s) && i < |s.callers| && s.callers[i].Publishing?
    ensures Inv(AdvanceCaller(s, i))
    ensures s.server.Parked? ==> StoppingUnread(AdvanceCaller(s, i))
  {
    var next := AdvanceCaller(s, i);
    assert next.log[|s.log|] == SaysStopping;
    forall j | 0 <= j < |s.callers| ensures Changed(next.callers[j]) <==> Changed(s.callers[j]) {
    }
    SameChanged(s, next);
    if s.server.Parked? {
      assert s.server.cursor <= |s.log| < |next.log|;
    }
  }

  lemma NewCallKeepsInv(s: State)
    requires Inv(s)
    ensures Inv(s.(callers := s.callers + [Locking]))
  {
    var next := s.(callers := s.callers + [Locking]);
    forall j | 0 <= j < |s.callers| ensures next.callers[j] == s.callers[j] {
    }
    if s.stopping {
      var i :| 0 <= i < |s.callers| && Changed(s.callers[i]);
      assert Changed(next.callers[i]);
    }
    if SomeOnItsWay(s) {
      var i :| 0 <= i < |s.callers| && OnItsWay(s.callers[i]);
      assert OnItsWay(next.callers[i]);
    }
    assert next.server.InLoop() ==> (StoppingUnread(next) <==> StoppingUnread(s));
  }

  lemma OtherKeepsInv(s: State, event: Event)
    requires Inv(s)
    ensures Inv(s.(log := s.log + [event]))
  {
    var next := s.(log := s.log + [event]);
    if SomeOnItsWay(s) {
      var i :| 0 <= i < |s.callers| && OnItsWay(s.callers[i]);
      assert OnItsWay(next.callers[i]);
    }
    if s.server.Parked? && s.stopping && !SomeOnItsWay(s) {
      LogGrows(s, event);
    }
  }

  lemma ServerKeepsInv(s: State, server: Server)
    requires Inv(s)
    requires server.InLoop() ==> server.cursor <= |s.log|
    requires server.Parked? ==> !s.stopping
    ensures Inv(s.(server := server))
  {
  }

  lemma StepKeepsInv(s: State, a: Action)
    requires Inv(s) && Next(s, a).Some?
    ensures Inv(Next(s, a).value)
  {
    hide Inv;
    match a {
      case NewCall => NewCallKeepsInv(s);
      case Advance(i) =>
        match s.callers[i] {
          case Locking => LockingKeepsInv(s, i);
          case Cancelling(_) => CancellingKeepsInv(s, i);
          case Publishing(_) => PublishingKeepsInv(s, i);
          case Returned(_) =>
        }
      case PublishOther(event) => OtherKeepsInv(s, event);
      case ServerStep => CursorInside(s); ServerKeepsInv(s, Next(s, a).value.server);
      case Accept => CursorInside(s); ServerKeepsInv(s, Next(s, a).value.server);
      case Receive => ServerKeepsInv(s, Next(s, a).value.server);
    }
  }

  lemma CursorInside(s: State)
    requires Inv(s)
    ensures s.server.InLoop() ==> s.server.cursor <= |s.log|
  {
  }

  lemma {:induction false} InvHolds(actions: seq<Action>)
    requires Run(actions).Some?
    ensures Inv(Run(actions).value)
  {
    hide Inv, Next;
    if actions == [] {
      InitialInv();
    } else {
      InvHolds(actions[..|actions| - 1]);
      StepKeepsInv(Run(actions[..|actions| - 1]).value, actions[|actions| - 1]);
    }
  }

  lemma InitialInv()
    ensures Inv(Initial())
  {
  }

  // --- no lost shutdown -----------------------------------------------------------------------------------------

  predicate WakeUpEnabled(s: State) { s.server.Parked? && CanReceive(s.log, s.server.cursor) }

  /** The call that changed the state to Stopping has returned. */
  ghost predicate ChangerReturned(s: State) { exists i :: 0 <= i < |s.callers| && s.callers[i] == Returned(true) }

  lemma OnlyOneChanges(s: State)
    requires Inv(s) && ChangerReturned(s)
    ensures s.stopping && !SomeOnItsWay(s)
  {
  }

  /**
   * In every interleaving: once the call that changed the state has returned, a parked server has an
   * enabled wake-up, and taking it leads out of the loop at once or at the very next check.
   */
  lemma NoLostShutdown(actions: seq<Action>)
    requires Run(actions).Some? && ChangerReturned(Run(actions).value) && Run(actions).value.server.Parked?
    ensures var s := Run(actions).value;
            && WakeUpEnabled(s)
            && Next(s, Receive).Some?
            && var woken := Next(s, Receive).value;
               woken.server == Exited || (Next(woken, ServerStep).Some?
                   && Next(woken, ServerStep).value.server == Exited)
  {
    InvHolds(actions);
    var s := Run(actions).value;
    OnlyOneChanges(s);
    assert StoppingUnread(s);
  }

  /**
   * Which call's return can be relied on: in every reachable state with a parked server and the state
   * at Stopping, the wake-up is missing only while the call that changed the state is between its
   * lock and its publish and nothing else is unread.
   */
  lemma WaitsOnlyForThePublisher(actions: seq<Action>)
    requires Run(actions).Some? && Run(actions).value.server.Parked? && Run(actions).value.stopping
    ensures var s := Run(actions).value; WakeUpEnabled(s) || (SomeOnItsWay(s) && !ChangerReturned(s))
  {
    InvHolds(actions);
    var s := Run(actions).value;
    if ChangerReturned(s) {
      NoLostShutdown(actions);
    }
  }

  /** That call needs at most two more steps of its own to enable the wake-up. */
  lemma PublisherEnablesWakeUp(actions: seq<Action>, i: nat)
    requires Run(actions).Some? && Run(actions).value.server.Parked?
    requires i < |Run(actions).value.callers| && OnItsWay(Run(actions).value.callers[i])
    ensures var s := Run(actions).value;
            var published := if s.callers[i].Cancelling? then AdvanceCaller(AdvanceCaller(s, i), i)
              else AdvanceCaller(s, i);
            published.callers[i] == Returned(true) && WakeUpEnabled(published)
  {
    InvHolds(actions);
    var s := Run(actions).value;
    if s.callers[i].Cancelling? {
      CancellingKeepsInv(s, i);
      PublishingKeepsInv(AdvanceCaller(s, i), i);
    } else {
      PublishingKeepsInv(s, i);
    }
  }

  /** Whoever returns from `shutdown`: the state is Stopping and the scheduler has been cancelled. */
  lemma ReturnMeansCancelled(actions: seq<Action>, i: nat)
    requires Run(actions).Some? && i < |Run(actions).value.callers| && Run(actions).value.callers[i].Returned?
    ensures Run(actions).value.stopping && Run(actions).value.cancelled
  {
    InvHolds(actions);
  }

  /** A second call overtakes the first one between its lock and its publish. */
  const OVERTAKING: seq<Action> :=
    [ServerStep, ServerStep, ServerStep, NewCall, Advance(0), NewCall, Advance(1), Advance(1)]

  /** So "some call has returned" is not enough: here one has, and the parked server has nothing to wake it. */
  lemma AnyReturnIsNotEnough()
    ensures var s := Run(OVERTAKING);
            && s.Some? && s.value.server.Parked?
            && s.value.callers == [Cancelling(true), Returned(false)]
            && !WakeUpEnabled(s.value)
  {
    hide Run;
    var a := OVERTAKING;
    ParkedFirst(a);
    var s4 := ParkedAtZero([Locking]);
    var s5 := s4.(stopping := true, callers := [Cancelling(true)]);
    var s6 := s5.(callers := [Cancelling(true), Locking]);
    var s7 := s6.(callers := [Cancelling(true), Cancelling(false)]);
    var s8 := s7.(cancelled := true, callers := [Cancelling(true), Returned(false)]);
    assert s4.callers[0 := Cancelling(true)] == s5.callers && s5.callers + [Locking] == s6.callers;
    assert s6.callers[1 := Cancelling(false)] == s7.callers && s7.callers[1 := Returned(false)] == s8.callers;
    OneStep(a, 4, s4, s5);
    OneStep(a, 5, s5, s6);
    OneStep(a, 6, s6, s7);
    OneStep(a, 7, s7, s8);
    assert a[..8] == a;
  }

  /** The server is parked and call `i` has returned, having changed the state or not. */
  predicate ReturnedWhileParked(actions: seq<Action>, i: nat, changed: bool) {
    var s := Run(actions);
    s.Some? && s.value.server.Parked? && i < |s.value.callers| && s.value.callers[i] == Returned(changed)
  }

  /**
   * Over all interleavings: the return of a call guarantees a parked server its wake-up exactly when
   * that call is the one that changed the state.
   */
  lemma ReturnIsEnoughIff(changed: bool)
    ensures (forall actions, i: nat :: ReturnedWhileParked(actions, i, changed) ==>
            WakeUpEnabled(Run(actions).value)) <==> changed
  {
    hide Run, WakeUpEnabled;
    if changed {
      forall actions, i: nat | ReturnedWhileParked(actions, i, true) ensures WakeUpEnabled(Run(actions).value) {
        NoLostShutdown(actions);
      }
    } else {
      AnyReturnIsNotEnough();
      assert ReturnedWhileParked(OVERTAKING, 1, false);
    }
  }

  function ParkedAtZero(callers: seq<Caller>): State { State(false, false, [], callers, Parked(0)) }

  lemma ParkedFirst(a: seq<Action>)
    requires |a| >= 4 && a[..4] == [ServerStep, ServerStep, ServerStep, NewCall]
    ensures Run(a[..4]) == Some(ParkedAtZero([Locking]))
  {
    hide Run, Next;
    NothingRun();
    assert a[..0] == [];
    assert a[0] == a[..4][0] && a[1] == a[..4][1] && a[2] == a[..4][2] && a[3] == a[..4][3];
    var s1 := Initial().(server := Subscribing);
    var s2 := s1.(server := Checking(0));
    FirstSteps();
    OneStep(a, 0, Initial(), s1);
    OneStep(a, 1, s1, s2);
    OneStep(a, 2, s2, ParkedAtZero([]));
    OneStep(a, 3, ParkedAtZero([]), ParkedAtZero([Locking]));
  }

  lemma NothingRun()
    ensures Run([]) == Some(Initial())
  {
  }

  lemma FirstSteps()
    ensures var s1 := Initial().(server := Subscribing);
            var s2 := s1.(server := Checking(0));
            && Next(Initial(), ServerStep) == Some(s1) && Next(s1, ServerStep) == Some(s2)
            && Next(s2, ServerStep) == Some(ParkedAtZero([]))
            && Next(ParkedAtZero([]), NewCall) == Some(ParkedAtZero([Locking]))
  {
    assert [] + [Locking] == [Locking];
  }

  lemma OneStep(a: seq<Action>, i: nat, s: State, next: State)
    requires i < |a| && Run(a[..i]) == Some(s) && Next(s, a[i]) == Some(next)
    ensures Run(a[..i + 1]) == Some(next)
  {
    hide Next;
    assert a[..i + 1][..i] == a[..i];
  }
}
