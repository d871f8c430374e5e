/**
 * The input-handler configuration armed for a round: the button-down
 * recognizer (`configureRecognizer`) and the two named events
 * (`DIRECT_MODE_EVENTS`) that end the input handler.
 */
module Recognizers {

  /** Identifier of one physical button. */
  type DeviceId = string

  datatype GadgetAction = Down | Up
  datatype Anchor = Start | End | Anywhere

  /** One element of a recognizer pattern: an action from any of the listed gadgets. */
  datatype PatternEntry = PatternEntry(gadgetIds: seq<DeviceId>, action: GadgetAction)

  /** A "match" recognizer. */
  datatype Recognizer = MatchRecognizer(fuzzy: bool, anchor: Anchor, pattern: seq<PatternEntry>)

  datatype Reports = Matches | History

  /** A named event: the recognizers it meets, what it reports and whether it ends the handler. */
  datatype EventDefinition = EventDefinition(meets: seq<string>, reports: Reports, shouldEndInputHandler: bool)

  /** One raw input reported by a button. */
  datatype InputEvent = InputEvent(gadgetId: DeviceId, color: string, action: GadgetAction)

  const BUTTON_DOWN_RECOGNIZER: string := "button_down_recognizer"
  /** The input handler's built-in recognizer for its deadline. */
  const TIMED_OUT: string := "timed out"
  const BUTTON_DOWN_EVENT: string := "button_down_event"
  const TIMEOUT_EVENT: string := "timeout"

  /** The recognizer set armed for a round, keyed by recognizer name. */
  function ConfigureRecognizer(gadgetId: DeviceId): (recognizers: map<string, Recognizer>)
    ensures recognizers.Keys == {BUTTON_DOWN_RECOGNIZER}
  {
    map[BUTTON_DOWN_RECOGNIZER := MatchRecognizer(false, End, [PatternEntry([gadgetId], Down)])]
  }

  predicate EntryMatches(entry: PatternEntry, e: InputEvent)
  {
    e.gadgetId in entry.gadgetIds && e.action == entry.action
  }

  /**
   * When a non-fuzzy, end-anchored pattern fires on an input history: its
   * entries match the most recent inputs exactly, in order.
   */
  predicate FiresOn(r: Recognizer, history: seq<InputEvent>)
    requires !r.fuzzy && r.anchor == End
  {
    |r.pattern| <= |history| &&
    forall i :: 0 <= i < |r.pattern| ==> EntryMatches(r.pattern[i], history[|history| - |r.pattern| + i])
  }

  /**
   * The round's recognizer is non-fuzzy and end-anchored, and fires exactly
   * when the latest input is a press of `gadgetId`: no other button, and no
   * release, can trigger it.
   */
  lemma RecognizerNamesOnlyItsGadget(gadgetId: DeviceId, history: seq<InputEvent>)
    ensures var r := ConfigureRecognizer(gadgetId)[BUTTON_DOWN_RECOGNIZER];
      && !r.fuzzy && r.anchor == End
      && (FiresOn(r, history) <==>
           |history| > 0 && history[|history| - 1].gadgetId == gadgetId && history[|history| - 1].action == Down)
  {
    var r := ConfigureRecognizer(gadgetId)[BUTTON_DOWN_RECOGNIZER];
    if |history| > 0 {
      assert FiresOn(r, history) <==> EntryMatches(r.pattern[0], history[|history| - 1]);
    }
  }

  /** `DIRECT_MODE_EVENTS`: a press reported with its matches, and the deadline reported with the history. */
  const DIRECT_MODE_EVENTS: map<string, EventDefinition> := map[
    BUTTON_DOWN_EVENT := EventDefinition([BUTTON_DOWN_RECOGNIZER], Matches, true),
    TIMEOUT_EVENT := EventDefinition([TIMED_OUT], History, true)
  ]

  /** The event names the play-mode dispatcher acts on. */
  predicate IsKnownEvent(name: string)
  {
    name == BUTTON_DOWN_EVENT || name == TIMEOUT_EVENT
  }

  /**
   * The dispatcher knows exactly the events the round defines; each of them
   * ends the input handler, and each meets either the round's recognizer or
   * the built-in deadline.
   */
  lemma DirectModeEventsAgree(gadgetId: DeviceId)
    ensures forall name :: IsKnownEvent(name) <==> name in DIRECT_MODE_EVENTS
    ensures forall name, m :: name in DIRECT_MODE_EVENTS && m in DIRECT_MODE_EVENTS[name].meets ==>
              m in ConfigureRecognizer(gadgetId) || m == TIMED_OUT
    ensures forall name :: name in DIRECT_MODE_EVENTS ==> DIRECT_MODE_EVENTS[name].shouldEndInputHandler
  {
  }
}
