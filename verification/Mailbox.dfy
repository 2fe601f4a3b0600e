/** The one-slot mailbox between the Docker event thread (`src/lib/dockerlink.c`) and the update
    thread (`src/orchestrator/update.c`): only the producer takes the mutex. Every read or write of a
    shared variable is a step of its own, in any interleaving, under sequential consistency. */
module Mailbox {
  import opened Options

  /** A container event; what it says does not matter here. */
  type Event = nat

  /** Where the producer stands within a round of its loop. */
  datatype Point =
    | Begin    // about to switch on `pstate`
    | Reading  // in case 1, possibly fallen through from case 0
    | Locked   // in case 2, mutex taken
    | Full     // in case 2, slot seen occupied
    | Stored   // in case 3, slot written
    | Unlocked // in case 3, mutex released
    | Test     // about to test for the stop request
    | Exited

  /** Where the consumer stands: outside, at the loop condition, or between the accesses to the slot. */
  datatype Pull = Away | Looking | Taking | Clearing | Handling

  /** What has ended the producer's input, if anything. */
  datatype Ending = NotYet | NoClock | NoPipe | EndOfInput | ReadError

  datatype State = State(
    pstate: nat, at: Point, hand: Option<Event>,    // producer
    pull: Pull, last: Option<Event>,                // consumer
    slot: Option<Event>, mutex: bool, stop: bool,   // shared
    produced: seq<Event>, consumed: seq<Event>, ending: Ending)     // history

  predicate Init(s: State) {
    && ((s.pstate == 0 && s.ending == NotYet) || (s.pstate == 4 && s.ending == NoClock))
    && s.at == Begin && s.hand == None && s.pull == Away && s.slot == None && !s.mutex
    && s.produced == [] && s.consumed == []
  }

  // ---------------------------------------------------------------------------------------
  // Steps
  // ---------------------------------------------------------------------------------------

  /** Case 0: the pipe opens, and case 1 follows without a stop test, or the thread ends. */
  predicate Open(s: State, s': State) {
    s.at == Begin && s.pstate == 0
    && (s' == s.(pstate := 1, at := Reading) || s' == s.(at := Exited, ending := NoPipe))
  }

  /** Case 1. */
  predicate Enter(s: State, s': State) {
    s.at == Begin && s.pstate == 1 && s' == s.(at := Reading)
  }

  predicate EndOfFile(s: State, s': State) {
    s.at == Reading && s' == s.(pstate := 4, at := Test, ending := EndOfInput)
  }

  predicate NewEvent(s: State, s': State, e: Event) {
    s.at == Reading && s' == s.(hand := Some(e), pstate := 2, at := Test, produced := s.produced + [e])
  }

  predicate NoEvent(s: State, s': State) {
    s.at == Reading && s' == s.(hand := None, at := Test)
  }

  predicate ReadFails(s: State, s': State) {
    s.at == Reading && s' == s.(at := Exited, ending := ReadError)
  }

  /** Case 2: lock, look, and unlock if the slot is occupied. */
  predicate Lock(s: State, s': State) {
    s.at == Begin && s.pstate == 2 && !s.mutex && s' == s.(mutex := true, at := Locked)
  }

  predicate Look(s: State, s': State) {
    s.at == Locked && s' == if s.slot == None then s.(pstate := 3, at := Test) else s.(at := Full)
  }

  predicate GiveUp(s: State, s': State) {
    s.at == Full && s' == s.(mutex := false, at := Test)
  }

  /** Case 3: store, unlock, forget. */
  predicate Store(s: State, s': State) {
    s.at == Begin && s.pstate == 3 && s' == s.(slot := s.hand, at := Stored)
  }

  predicate Unlock(s: State, s': State) {
    s.at == Stored && s' == s.(mutex := false, at := Unlocked)
  }

  predicate Forget(s: State, s': State) {
    s.at == Unlocked && s' == s.(hand := None, pstate := 1, at := Test)
  }

  /** Case 4. */
  predicate Exit(s: State, s': State) {
    s.at == Begin && s.pstate == 4 && s' == s.(at := Exited)
  }

  /** A stop request is honoured unless the slot is about to be written. */
  predicate StopTest(s: State, s': State) {
    s.at == Test && s' == s.(pstate := if 3 > s.pstate && s.stop then 4 else s.pstate, at := Begin)
  }

  predicate Producer(s: State, s': State) {
    Open(s, s') || Enter(s, s') || EndOfFile(s, s') || (s'.hand.Some? && NewEvent(s, s', s'.hand.value))
      || NoEvent(s, s')
    || ReadFails(s, s') || Lock(s, s') || Look(s, s') || GiveUp(s, s') || Store(s, s') || Unlock(s, s') || Forget(s, s')
    || Exit(s, s') || StopTest(s, s')
  }

  /** The consumer looks at the slot before and in its loop, reads it, clears it, and handles the event. */
  predicate Consumer(s: State, s': State) {
    || (s.pull == Away && s' == s.(pull := if s.slot == None then Away else Looking))
    || (s.pull == Looking && s' == s.(pull := if s.slot == None then Away else Taking))
    || (s.pull == Taking && s' == s.(last := s.slot, pull := Clearing))
    || (s.pull == Clearing && s' == s.(slot := None, pull := Handling, consumed := s.consumed + s.last.ToSeq()))
    || (s.pull == Handling && s' == s.(pull := Looking))
  }

  predicate StopRequest(s: State, s': State) { s' == s.(stop := true) }

  predicate Next(s: State, s': State) {
    Producer(s, s') || Consumer(s, s') || StopRequest(s, s')
  }

  // ---------------------------------------------------------------------------------------
  // Safety
  // ---------------------------------------------------------------------------------------

  /** The event the producer holds and has not put into the slot. */
  function InHand(s: State): seq<Event> {
    if s.at == Stored || s.at == Unlocked then [] else s.hand.ToSeq()
  }

  /** The mutex is held from the lock to the unlock; between rounds exactly in state 3. */
  predicate HoldsMutex(s: State) {
    s.at == Locked || s.at == Full || s.at == Stored || ((s.at == Begin || s.at == Test) && s.pstate == 3)
  }

  /** Nothing is lost, duplicated or reordered. */
  predicate Conserved(s: State) {
    s.consumed + s.slot.ToSeq() + InHand(s) == s.produced
  }

  /** The positions, the hand and the slot fit together. */
  predicate Control(s: State) {
    && s.pstate <= 4
    && (s.at == Reading ==> s.pstate == 1)
    && (s.at == Locked || s.at == Full ==> s.pstate == 2)
    && (s.at == Stored || s.at == Unlocked ==> s.pstate == 3)
    && (s.at == Test ==> s.pstate != 0)
    // the hand is full from the arrival of an event until it is in the slot; only a stop drops it
    && ((s.at == Begin || s.at == Test) && s.pstate <= 1 ==> s.hand == None)
    && (s.at == Reading ==> s.hand == None)
    && ((s.at == Begin || s.at == Test) && 2 <= s.pstate <= 3 ==> s.hand.Some?)
    && (s.at == Locked || s.at == Full ==> s.hand.Some?)
    && (s.pstate == 4 && s.hand.Some? ==> s.stop)
    && (s.at == Exited && s.hand.Some? ==> s.stop)
    // the thread ends when its input has ended or on a stop request
    && (s.pstate == 4 || s.at == Exited ==> s.ending != NotYet || s.stop)
    && (s.ending != NotYet ==> s.pstate == 4 || s.at == Exited)
    // only the producer fills the slot, only the consumer empties it
    && ((s.at == Begin || s.at == Test) && s.pstate == 3 ==> s.slot == None)
    && (s.pull == Taking ==> s.slot.Some?)
    && (s.pull == Clearing ==> s.slot.Some? && s.last == s.slot)
  }

  predicate Inv(s: State) {
    Conserved(s) && (s.mutex <==> HoldsMutex(s)) && Control(s)
  }

  lemma InitInv(s: State)
    requires Init(s)
    ensures Inv(s)
  {
  }

  lemma ProducerControl(s: State, s': State)
    requires Control(s) && (s.mutex <==> HoldsMutex(s)) && Producer(s, s')
    ensures Control(s') && (s'.mutex <==> HoldsMutex(s'))
  {
  }

  lemma ConsumerControl(s: State, s': State)
    requires Control(s) && (s.mutex <==> HoldsMutex(s)) && (Consumer(s, s') || StopRequest(s, s'))
    ensures Control(s') && (s'.mutex <==> HoldsMutex(s'))
  {
  }

  /** A producer step adds to the hand, moves the hand into the empty slot, or touches neither. */
  lemma ProducerConserves(s: State, s': State)
    requires Inv(s) && Producer(s, s')
    ensures Conserved(s') && s'.consumed == s.consumed && s.produced <= s'.produced
  {
    hide HoldsMutex;
    if s'.hand.Some? && NewEvent(s, s', s'.hand.value) {
      assert s.consumed + s.slot.ToSeq() + [] + [s'.hand.value] == s.consumed + s.slot.ToSeq() + [s'.hand.value];
    } else if Store(s, s') {
      assert s.consumed + [] + s.hand.ToSeq() == s.consumed + s.hand.ToSeq() + [];
    } else {
      assert s'.hand == s.hand || s.at == Reading || s.at == Unlocked;
      assert InHand(s') == InHand(s) && s'.slot == s.slot && s'.produced == s.produced && s'.consumed == s.consumed;
    }
  }

  /** A consumer step moves the slot to the consumed events, or touches neither. */
  lemma ConsumerConserves(s: State, s': State)
    requires Inv(s) && Consumer(s, s')
    ensures Conserved(s') && s'.produced == s.produced && s.consumed <= s'.consumed
  {
    if s.pull == Clearing {
      assert s.consumed + s.slot.ToSeq() + InHand(s) == (s.consumed + s.slot.ToSeq()) + [] + InHand(s);
    }
  }

  lemma NextInv(s: State, s': State)
    requires Inv(s) && Next(s, s')
    ensures Inv(s') && s.produced <= s'.produced && s.consumed <= s'.consumed
  {
    hide Control, HoldsMutex, Producer, Consumer;
    if Producer(s, s') {
      ProducerControl(s, s');
      ProducerConserves(s, s');
    } else {
      ConsumerControl(s, s');
      if Consumer(s, s') {
        ConsumerConserves(s, s');
      }
    }
  }

  // ---------------------------------------------------------------------------------------
  // Whole runs
  // ---------------------------------------------------------------------------------------

  /** Any interleaving, of any length. */
  ghost predicate IsRun(run: seq<State>) {
    run != [] && Init(run[0]) && forall i :: 0 <= i < |run| - 1 ==> Next(run[i], run[i+1])
  }

  lemma {:induction false} RunInv(run: seq<State>, j: nat)
    requires IsRun(run) && j < |run|
    ensures Inv(run[j])
  {
    hide Inv, Init, Next;
    if j == 0 {
      InitInv(run[0]);
    } else {
      RunInv(run, j - 1);
      NextInv(run[j-1], run[j]);
    }
  }

  lemma {:induction false} RunGrows(run: seq<State>, i: nat, j: nat)
    requires IsRun(run) && i <= j < |run|
    ensures run[i].produced <= run[j].produced && run[i].consumed <= run[j].consumed
    decreases j
  {
    hide Inv, Init, Next;
    if i < j {
      RunGrows(run, i, j - 1);
      RunInv(run, j - 1);
      NextInv(run[j-1], run[j]);
    }
  }

  /** In every run, what has been consumed, the slot and the event in hand are the produced events in
      their order; the history only grows. */
  lemma NoLossNoDuplication(run: seq<State>, i: nat, j: nat)
    requires IsRun(run) && i <= j < |run|
    ensures run[j].consumed + run[j].slot.ToSeq() + InHand(run[j]) == run[j].produced
    ensures run[i].produced <= run[j].produced && run[i].consumed <= run[j].consumed
  {
    RunInv(run, j);
    RunGrows(run, i, j);
  }

  /** Once the producer is gone, all it produced is consumed or in the slot, except at most the one
      event it held, and that only after a stop request. */
  lemma DroppedOnlyByStop(run: seq<State>, j: nat)
    requires IsRun(run) && j < |run| && run[j].at == Exited
    ensures !run[j].stop ==> run[j].consumed + run[j].slot.ToSeq() == run[j].produced
    ensures |run[j].produced| - 1 <= |run[j].consumed + run[j].slot.ToSeq()| <= |run[j].produced|
    ensures run[j].consumed + run[j].slot.ToSeq() <= run[j].produced
  {
    RunInv(run, j);
  }

  /** The producer only ends, or is about to, after a stop request, a failed start, a pipe that did not open or
      failed, or the end of file; without a stop request it ends exactly then. */
  lemma EndsOnlyWithReason(run: seq<State>, j: nat)
    requires IsRun(run) && j < |run| && !run[j].stop
    ensures run[j].pstate == 4 || run[j].at == Exited
      <==> run[j].ending in {NoClock, NoPipe, EndOfInput, ReadError}
  {
    RunInv(run, j);
  }

  /** Between rounds the mutex is held exactly in state 3, and never after the exit. */
  lemma MutexExactlyInState3(run: seq<State>, j: nat)
    requires IsRun(run) && j < |run|
    ensures run[j].at == Begin ==> (run[j].mutex <==> run[j].pstate == 3)
    ensures run[j].at == Exited ==> !run[j].mutex
  {
    RunInv(run, j);
  }

  /** The consumer never finds its event gone: it reads what it has seen, and clears what it has read. */
  lemma ConsumerOwnsWhatItSees(run: seq<State>, j: nat)
    requires IsRun(run) && j < |run|
    ensures run[j].pull == Taking ==> run[j].slot.Some?
    ensures run[j].pull == Clearing ==> run[j].last.Some? && run[j].slot == run[j].last
    ensures run[j].at == Begin && run[j].pstate == 3 ==> run[j].slot == None && run[j].hand.Some?
  {
    RunInv(run, j);
  }

  // ---------------------------------------------------------------------------------------
  // Progress
  // ---------------------------------------------------------------------------------------

  /** The producer is never blocked: as long as it has not ended, it has a step. */
  lemma ProducerNeverBlocks(s: State) returns (s': State)
    requires Inv(s) && s.at != Exited
    ensures Producer(s, s')
  {
    match s.at {
      case Begin =>
        s' := match s.pstate
          case 0 => s.(at := Exited, ending := NoPipe)
          case 1 => s.(at := Reading)
          case 2 => s.(mutex := true, at := Locked)
          case 3 => s.(slot := s.hand, at := Stored)
          case _ => s.(at := Exited);
      case Reading => s' := s.(at := Exited, ending := ReadError);
      case Locked => s' := if s.slot == None then s.(pstate := 3, at := Test) else s.(at := Full);
      case Full => s' := s.(mutex := false, at := Test);
      case Stored => s' := s.(mutex := false, at := Unlocked);
      case Unlocked => s' := s.(hand := None, pstate := 1, at := Test);
      case Test => s' := s.(pstate := if 3 > s.pstate && s.stop then 4 else s.pstate, at := Begin);
    }
  }

  /** The steps the producer has left at most, once a stop is requested. */
  function StepsToExit(s: State): nat {
    match s.at
    case Exited => 0
    case Begin => if s.pstate == 4 then 1 else if s.pstate == 3 then 5 else if s.pstate == 2 then 8 else 4
    case Test => if s.pstate == 3 then 6 else 2
    case Unlocked => 3
    case Stored => 4
    case Full => 3
    case Locked => 7
    case Reading => 3
  }

  /** A requested stop is reached: every step of the producer brings its end closer, and no other
      step takes it further away. */
  lemma StopIsReached(s: State, s': State)
    requires Inv(s) && s.stop && Next(s, s')
    ensures s'.stop && StepsToExit(s') <= StepsToExit(s) <= 8
    ensures Producer(s, s') ==> StepsToExit(s') < StepsToExit(s)
  {
  }
}
