/** Step-mode bookkeeping of StepModeController: whether an engine notification counts as a
    step, and the numbered history of those steps. */
module StepMode {

  const ARRIVAL: string := "arrival"
  const BUFFER_WRITE: string := "buffer_write"
  const BUFFER_REJECT: string := "buffer_reject"
  const DEVICE_START: string := "device_start"
  const DEVICE_FINISH: string := "device_finish"
  const BUFFER_SELECT: string := "buffer_select"
  const PACKET_CHANGE: string := "packet_change"

  /** The keys of `event_types`: every kind of event the engine announces. */
  const EVENT_TYPES: set<string> :=
    {ARRIVAL, BUFFER_WRITE, BUFFER_REJECT, DEVICE_START, DEVICE_FINISH, BUFFER_SELECT, PACKET_CHANGE}

  /** One entry of `event_history`; the display payload is not kept, only its time. */
  datatype HistoryEntry = HistoryEntry(step: nat, eventType: string, time: real)

  class StepModeController {
    var isStepMode: bool
    var breakpoints: set<string>
    var currentStep: nat
    var eventHistory: seq<HistoryEntry>

    /** The history holds exactly one entry per step taken, numbered from 1. */
    ghost predicate Valid()
      reads this
    {
      |eventHistory| == currentStep
      && forall i :: 0 <= i < |eventHistory| ==> eventHistory[i].step == i + 1
    }

    constructor ()
      ensures Valid()
      ensures !isStepMode && breakpoints == {} && currentStep == 0 && eventHistory == []
    {
      isStepMode := false;
      breakpoints := {};
      currentStep := 0;
      eventHistory := [];
    }

    /** Switches step mode on; an empty (or absent) list of events selects every event kind. */
    method EnableStepMode(breakpointEvents: seq<string>)
      requires Valid()
      modifies this`isStepMode, this`breakpoints
      ensures Valid()
      ensures isStepMode
      ensures |breakpointEvents| > 0 ==> breakpoints == set e | e in breakpointEvents
      ensures |breakpointEvents| == 0 ==> breakpoints == EVENT_TYPES
    {
      isStepMode := true;
      if |breakpointEvents| > 0 {
        breakpoints := set e | e in breakpointEvents;
      } else {
        breakpoints := EVENT_TYPES;
      }
    }

    method DisableStepMode()
      requires Valid()
      modifies this`isStepMode
      ensures Valid()
      ensures !isStepMode
    {
      isStepMode := false;
    }

    /** Decides whether an event is a step; a step is counted and appended to the history. */
    method CheckBreakpoint(eventType: string, time: real) returns (shouldBreak: bool)
      requires Valid()
      modifies this`currentStep, this`eventHistory
      ensures Valid()
      ensures shouldBreak <==> isStepMode && eventType in breakpoints
      ensures shouldBreak ==>
                currentStep == old(currentStep) + 1
                && eventHistory == old(eventHistory) + [HistoryEntry(currentStep, eventType, time)]
      ensures !shouldBreak ==> currentStep == old(currentStep) && eventHistory == old(eventHistory)
    {
      if !isStepMode {
        return false;
      }
      shouldBreak := eventType in breakpoints;
      if shouldBreak {
        currentStep := currentStep + 1;
        eventHistory := eventHistory + [HistoryEntry(currentStep, eventType, time)];
      }
    }

    /** The bookkeeping of wait_for_step: `prompted` tells whether the event display and the
        control prompt would follow; when it is false nothing else happens. */
    method WaitForStep(eventType: string, time: real) returns (prompted: bool)
      requires Valid()
      modifies this`currentStep, this`eventHistory
      ensures Valid()
      ensures prompted <==> isStepMode && eventType in breakpoints
      ensures prompted ==>
                currentStep == old(currentStep) + 1
                && eventHistory == old(eventHistory) + [HistoryEntry(currentStep, eventType, time)]
      ensures !prompted ==> currentStep == old(currentStep) && eventHistory == old(eventHistory)
    {
      prompted := CheckBreakpoint(eventType, time);
      if !prompted {
        return;
      }
    }

    method GetEventHistory() returns (history: seq<HistoryEntry>)
      requires Valid()
      ensures |history| == currentStep
      ensures history == eventHistory
    {
      history := eventHistory;
    }
  }

  /** A disabled controller lets every event pass without counting it, whatever the
      breakpoints are. */
  method DisabledControllerNeverBreaks(events: seq<string>) returns (c: StepModeController)
    ensures fresh(c) && c.Valid() && !c.isStepMode && c.currentStep == 0 && c.eventHistory == []
  {
    c := new StepModeController();
    c.EnableStepMode(events);
    c.DisableStepMode();
    var i := 0;
    while i < |events|
      invariant 0 <= i <= |events|
      invariant c.Valid() && !c.isStepMode && c.currentStep == 0 && c.eventHistory == []
    {
      var stop := c.CheckBreakpoint(events[i], 0.0);
      assert !stop;
      i := i + 1;
    }
  }
}
