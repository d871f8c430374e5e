/**
 * The play-mode round as values: the session attributes, the directives a
 * request appends to the response, and one transition function per
 * handler of the PLAY_MODE handler table. `HandleRequest` is that table:
 * its handlers run only while the session's state is PLAY_MODE.
 */
module PlayMode {
  import opened Wrappers
  import opened Lights
  import opened Settings
  import opened Recognizers

  type RequestId = string

  const INPUT_HANDLER_TIMEOUT_MS: nat := 20000
  const ROLL_STEP_MS: nat := 1000
  const REFERENCE_SOLID_MS: nat := 20000
  const PRESS_FLASH_MS: nat := 10
  const FADE_OUT_MS: nat := 2000
  const WINNING_ANIMATION: Animation := PulseAnimation(3, "light blue", "dark green")
  const LOSING_ANIMATION: Animation := PulseAnimation(3, "orange", "red")

  /** One batch entry of a game-engine request. */
  datatype GameEvent = GameEvent(name: string, inputEvents: seq<InputEvent>)

  /** The directives the handlers add to the response. */
  datatype Directive =
    | StartInputHandler(timeoutMs: nat, recognizers: map<string, Recognizer>, events: map<string, EventDefinition>)
    | SetIdleAnimation(targetGadgets: seq<DeviceId>, animation: Animation)
    | SetButtonDownAnimation(targetGadgets: seq<DeviceId>, animation: Animation)
    | SetButtonUpAnimation(targetGadgets: seq<DeviceId>, animation: Animation)

  /** The session attributes the play mode reads and writes, and the handler state. */
  datatype Attributes = Attributes(
    colorChoice: Option<string>,
    referenceColorShade: Option<Shade>,
    deviceIDs: seq<DeviceId>,
    currentInputHandlerID: Option<RequestId>,
    expectingEndSkillConfirmation: bool,
    state: string)

  /** Which prompt the response speaks. */
  datatype Prompt = ColorAccepted(color: string) | TimeIsUp | ColorsMatch | ColorsDoNotMatch

  /** How a request ends. */
  datatype Reply =
    | GlobalHelp                                          // forwarded to the global help handler
    | ResponseReady(prompt: Option<Prompt>, openMicrophone: bool)
    | NoResponse                                          // the handler returns without emitting
    | HandlerFailed                                       // the handler throws before changing anything
    | NotInPlayMode                                       // the request goes to another mode's table

  datatype Request =
    | ColorIntentRequest(color: Option<string>, requestId: RequestId, roll: nat)
    | GameEngineRequest(originatingRequestId: Option<RequestId>, events: Option<seq<GameEvent>>)

  /** What one handler invocation produces. */
  datatype Step = Step(attrs: Attributes, directives: seq<Directive>, reply: Reply)

  /** The reply names one of the three round outcomes. */
  predicate IsOutcome(reply: Reply)
  {
    reply.ResponseReady? && reply.prompt.Some? && !reply.prompt.value.ColorAccepted?
  }

  /**
   * `pickRandomIndex`: `roll` stands for `floor(random * length)`; a missing
   * or empty list yields 0.
   */
  function PickRandomIndex<T>(arr: Option<seq<T>>, roll: nat): (index: nat)
    requires arr.Some? && |arr.value| > 0 ==> roll < |arr.value|
    ensures arr.Some? && |arr.value| > 0 ==> index < |arr.value|
    ensures arr.None? || |arr.value| == 0 ==> index == 0
  {
    if arr.Some? && |arr.value| > 0 then roll else 0
  }

  /** Every index of a non-empty list is the pick for exactly one roll. */
  lemma EveryIndexCanBePicked<T>(arr: seq<T>, roll: nat)
    requires roll < |arr|
    ensures PickRandomIndex(Some(arr), roll) == roll
  {
  }

  /** `ids.slice(-2)`: the last two device ids, or all of them when there are fewer. */
  function LastTwo(ids: seq<DeviceId>): (r: seq<DeviceId>)
    ensures |r| == if |ids| < 2 then |ids| else 2
    ensures ids == ids[..|ids| - |r|] + r
  {
    if |ids| < 2 then ids else ids[|ids| - 2..]
  }

  /** The roll is one of the picked family's indices. */
  predicate RollFits(color: Option<string>, roll: nat)
  {
    color.Some? && color.value in COLOR_SHADES ==> roll < |COLOR_SHADES[color.value]|
  }

  predicate RequestFits(req: Request)
  {
    req.ColorIntentRequest? ==> RollFits(req.color, req.roll)
  }

  /** `colorIntent`. */
  function ColorIntentStep(a: Attributes, color: Option<string>, requestId: RequestId, roll: nat): (r: Step)
    requires a.state == PLAY_MODE && |a.deviceIDs| >= 2
    requires RollFits(color, roll)
    ensures r.attrs.deviceIDs == a.deviceIDs && r.attrs.state == PLAY_MODE
    ensures r.attrs.expectingEndSkillConfirmation == a.expectingEndSkillConfirmation
    ensures r.reply != GlobalHelp ==> r.attrs.currentInputHandlerID == Some(requestId) && !IsOutcome(r.reply)
  {
    if color.None? || color.value !in COLOR_SHADES then
      Step(a, [], GlobalHelp)
    else
      var c := color.value;
      var shades := COLOR_SHADES[c];
      FourShadesEach();
      var shade := shades[PickRandomIndex(Some(shades), roll)];
      var ids := LastTwo(a.deviceIDs);
      Step(
        a.(colorChoice := Some(c), referenceColorShade := Some(shade), currentInputHandlerID := Some(requestId)),
        RoundStartDirectives(ids, shades, shade),
        ResponseReady(Some(ColorAccepted(c)), false))
  }

  /** The directives a palette colour emits, given the reference shade and the device pair. */
  function RoundStartDirectives(ids: seq<DeviceId>, shades: seq<Shade>, shade: Shade): seq<Directive>
    requires |ids| == 2 && |shades| > 0
  {
    [ StartInputHandler(INPUT_HANDLER_TIMEOUT_MS, ConfigureRecognizer(ids[1]), DIRECT_MODE_EVENTS),
      SetIdleAnimation([ids[0]], SolidAnimation(1, shade, REFERENCE_SOLID_MS)),
      SetIdleAnimation([ids[1]], Rolling(RollingPlan(shades, ROLL_STEP_MS))),
      SetButtonDownAnimation(ids, SolidAnimation(1, shade, PRESS_FLASH_MS)),
      SetButtonUpAnimation(ids, SolidAnimation(1, shade, PRESS_FLASH_MS)) ]
  }

  /** `ColorIntentStep` for a palette colour, with the rolled shade written out. */
  lemma ColorIntentStepOfFamily(a: Attributes, c: string, requestId: RequestId, roll: nat)
    requires a.state == PLAY_MODE && |a.deviceIDs| >= 2
    requires c in COLOR_SHADES && roll < |COLOR_SHADES[c]|
    ensures |COLOR_SHADES[c]| > 0
    ensures ColorIntentStep(a, Some(c), requestId, roll) ==
      Step(a.(colorChoice := Some(c), referenceColorShade := Some(COLOR_SHADES[c][roll]), currentInputHandlerID := Some(requestId)),
           RoundStartDirectives(LastTwo(a.deviceIDs), COLOR_SHADES[c], COLOR_SHADES[c][roll]),
           ResponseReady(Some(ColorAccepted(c)), false))
  {
  }

  /** The directives that reset both buttons once a round is over. */
  function EndOfRoundDirectives(ids: seq<DeviceId>, idle: Animation): seq<Directive>
  {
    [ SetIdleAnimation(ids, idle),
      SetButtonDownAnimation(ids, DEFAULT_BUTTON_DOWN),
      SetButtonUpAnimation(ids, DEFAULT_BUTTON_UP) ]
  }

  /** `InputHandlerEvent.timeout`. */
  function TimeoutStep(a: Attributes): (r: Step)
    requires a.state == PLAY_MODE
    ensures r.attrs.state == EXIT_MODE && r.attrs.expectingEndSkillConfirmation && IsOutcome(r.reply)
    ensures r.attrs.currentInputHandlerID == a.currentInputHandlerID && r.attrs.deviceIDs == a.deviceIDs
  {
    Step(
      a.(expectingEndSkillConfirmation := true, state := EXIT_MODE),
      EndOfRoundDirectives(LastTwo(a.deviceIDs), FadeOutAnimation(1, a.colorChoice, FADE_OUT_MS)),
      ResponseReady(Some(TimeIsUp), true))
  }

  /** `InputHandlerEvent.button_down_event`; a missing `buttonInfo` throws. */
  function ButtonDownStep(a: Attributes, buttonInfo: Option<InputEvent>): (r: Step)
    requires a.state == PLAY_MODE
    ensures buttonInfo.Some? ==> r.attrs.state == EXIT_MODE && r.attrs.expectingEndSkillConfirmation && IsOutcome(r.reply)
    ensures buttonInfo.None? ==> r == Step(a, [], HandlerFailed)
    ensures r.attrs.currentInputHandlerID == a.currentInputHandlerID && r.attrs.deviceIDs == a.deviceIDs
  {
    if buttonInfo.None? then
      Step(a, [], HandlerFailed)
    else
      var playerWon := a.referenceColorShade == Some(buttonInfo.value.color);
      Step(
        a.(expectingEndSkillConfirmation := true, state := EXIT_MODE),
        EndOfRoundDirectives(LastTwo(a.deviceIDs), if playerWon then WINNING_ANIMATION else LOSING_ANIMATION),
        ResponseReady(Some(if playerWon then ColorsMatch else ColorsDoNotMatch), true))
  }

  /** The first input event of a batch entry, which the dispatcher passes on as `buttonInfo`. */
  function ButtonInfo(e: GameEvent): Option<InputEvent>
  {
    if |e.inputEvents| > 0 then Some(e.inputEvents[0]) else None
  }

  /** The index of the first entry at or after `from` whose name the dispatcher knows. */
  function FirstKnownEvent(events: seq<GameEvent>, from: nat): (k: Option<nat>)
    requires from <= |events|
    ensures k.Some? ==> from <= k.value < |events| && IsKnownEvent(events[k.value].name)
    ensures k.Some? ==> forall j :: from <= j < k.value ==> !IsKnownEvent(events[j].name)
    ensures k.None? ==> forall j :: from <= j < |events| ==> !IsKnownEvent(events[j].name)
    decreases |events| - from
  {
    if from == |events| then None
    else if IsKnownEvent(events[from].name) then Some(from)
    else FirstKnownEvent(events, from + 1)
  }

  /** Routes one known entry to its handler. */
  function RouteEvent(a: Attributes, e: GameEvent): Step
    requires a.state == PLAY_MODE && IsKnownEvent(e.name)
  {
    if e.name == BUTTON_DOWN_EVENT then ButtonDownStep(a, ButtonInfo(e)) else TimeoutStep(a)
  }

  /** `GameEngine.InputHandlerEvent`. */
  function InputHandlerEventStep(a: Attributes, originatingRequestId: Option<RequestId>, events: Option<seq<GameEvent>>): (r: Step)
    requires a.state == PLAY_MODE
    ensures r.attrs.currentInputHandlerID == a.currentInputHandlerID && r.attrs.deviceIDs == a.deviceIDs
    ensures r.attrs != a || r.directives != [] ==> a.currentInputHandlerID == originatingRequestId
  {
    if a.currentInputHandlerID != originatingRequestId then
      Step(a, [], ResponseReady(None, false))
    else
      var batch := events.GetOr([]);
      var k := FirstKnownEvent(batch, 0);
      if k.None? then Step(a, [], NoResponse) else RouteEvent(a, batch[k.value])
  }

  /** The PLAY_MODE handler table: it receives requests only while the state is PLAY_MODE. */
  function HandleRequest(a: Attributes, req: Request): (r: Step)
    requires |a.deviceIDs| >= 2 && RequestFits(req)
    ensures r.attrs.deviceIDs == a.deviceIDs
    ensures a.state != PLAY_MODE ==> r == Step(a, [], NotInPlayMode)
  {
    if a.state != PLAY_MODE then Step(a, [], NotInPlayMode)
    else match req
      case ColorIntentRequest(color, requestId, roll) => ColorIntentStep(a, color, requestId, roll)
      case GameEngineRequest(origin, events) => InputHandlerEventStep(a, origin, events)
  }

  /**
   * What holds of the attributes between requests: two devices are in play,
   * and once a listener has been armed the chosen colour is a palette family
   * and the reference shade is one of its shades.
   */
  predicate RoundInvariant(a: Attributes)
  {
    && |a.deviceIDs| >= 2
    && (a.currentInputHandlerID.Some? ==>
          && a.colorChoice.Some? && a.colorChoice.value in COLOR_SHADES
          && a.referenceColorShade.Some? && a.referenceColorShade.value in COLOR_SHADES[a.colorChoice.value])
  }

  // ---------------------------------------------------------------------
  // colorIntent
  // ---------------------------------------------------------------------

  /**
   * A missing colour, or one that is not a palette family, and only those,
   * go to the help flow; then nothing changes and nothing is emitted.
   */
  lemma UnknownColorFallsBackToHelp(a: Attributes, color: Option<string>, requestId: RequestId, roll: nat)
    requires a.state == PLAY_MODE && |a.deviceIDs| >= 2 && RollFits(color, roll)
    ensures var step := ColorIntentStep(a, color, requestId, roll);
      && (step.reply == GlobalHelp <==> color.None? || color.value !in COLOR_SHADES)
      && (step.reply == GlobalHelp ==> step.attrs == a && step.directives == [])
  {
  }

  /**
   * A palette colour starts a round: it is recorded, the reference shade is
   * the rolled shade of that family, the listener id becomes the request id,
   * and the first directive arms a 20-second input handler whose recognizer
   * fires only for a press of the last device id (the player button); the
   * device list, the end-confirmation flag and the state are unchanged.
   */
  lemma KnownColorArmsRound(a: Attributes, c: string, requestId: RequestId, roll: nat, history: seq<InputEvent>)
    requires a.state == PLAY_MODE && |a.deviceIDs| >= 2
    requires c in COLOR_SHADES && roll < |COLOR_SHADES[c]|
    ensures var step := ColorIntentStep(a, Some(c), requestId, roll);
      && step.attrs.colorChoice == Some(c)
      && step.attrs.referenceColorShade == Some(COLOR_SHADES[c][roll])
      && step.attrs.referenceColorShade.value in COLOR_SHADES[c]
      && step.attrs.currentInputHandlerID == Some(requestId)
      && step.attrs.deviceIDs == a.deviceIDs
      && step.attrs.expectingEndSkillConfirmation == a.expectingEndSkillConfirmation
      && step.attrs.state == PLAY_MODE
      && |step.directives| == 5
      && step.directives[0].StartInputHandler?
      && step.directives[0].timeoutMs == 20000
      && step.directives[0].events == DIRECT_MODE_EVENTS
      && step.directives[0].recognizers.Keys == {BUTTON_DOWN_RECOGNIZER}
      && (FiresOn(step.directives[0].recognizers[BUTTON_DOWN_RECOGNIZER], history) <==>
            |history| > 0 && history[|history| - 1].gadgetId == a.deviceIDs[|a.deviceIDs| - 1]
            && history[|history| - 1].action == Down)
      && step.reply == ResponseReady(Some(ColorAccepted(c)), false)
  {
    var ids := LastTwo(a.deviceIDs);
    assert ids[1] == a.deviceIDs[|a.deviceIDs| - 1];
    RecognizerNamesOnlyItsGadget(ids[1], history);
  }

  /**
   * The animations of a new round: the reference button (the second to
   * last device id) shows the reference shade for 20 seconds; the player
   * button shows the chosen family's rolling animation at one second per
   * step, six steps repeated four times; pressing or releasing either
   * button flashes the reference shade for 10 ms.
   */
  lemma KnownColorLightsButtons(a: Attributes, c: string, requestId: RequestId, roll: nat)
    requires a.state == PLAY_MODE && |a.deviceIDs| >= 2
    requires c in COLOR_SHADES && roll < |COLOR_SHADES[c]|
    ensures var step := ColorIntentStep(a, Some(c), requestId, roll);
      var n := |a.deviceIDs|;
      var ids := a.deviceIDs[n - 2..];
      && step.directives[1] == SetIdleAnimation([a.deviceIDs[n - 2]], SolidAnimation(1, COLOR_SHADES[c][roll], 20000))
      && step.directives[2] == SetIdleAnimation([a.deviceIDs[n - 1]], Rolling(RollingPlan(COLOR_SHADES[c], 1000)))
      && step.directives[3] == SetButtonDownAnimation(ids, SolidAnimation(1, COLOR_SHADES[c][roll], 10))
      && step.directives[4] == SetButtonUpAnimation(ids, SolidAnimation(1, COLOR_SHADES[c][roll], 10))
      && |RollingPlan(COLOR_SHADES[c], 1000).sequence| == 6
      && RollingPlan(COLOR_SHADES[c], 1000).repeat == 4
  {
    PaletteRollingPlan(c);
  }

  // ---------------------------------------------------------------------
  // The outcome handlers
  // ---------------------------------------------------------------------

  /**
   * The player wins exactly when the reported colour equals the reference
   * shade; either way the round ends: the end-confirmation flag is set, the
   * state becomes EXIT_MODE, every other attribute, the listener id
   * included, is kept, and both buttons play the winning or losing pulse
   * and get the default press and release animations back.
   */
  lemma WinIffShadeMatches(a: Attributes, e: InputEvent)
    requires a.state == PLAY_MODE
    ensures var step := ButtonDownStep(a, Some(e));
      && (step.reply == ResponseReady(Some(ColorsMatch), true) <==> a.referenceColorShade == Some(e.color))
      && (step.reply == ResponseReady(Some(ColorsDoNotMatch), true) <==> a.referenceColorShade != Some(e.color))
      && step.attrs == a.(expectingEndSkillConfirmation := true, state := EXIT_MODE)
      && step.directives == EndOfRoundDirectives(LastTwo(a.deviceIDs),
           if a.referenceColorShade == Some(e.color) then WINNING_ANIMATION else LOSING_ANIMATION)
  {
  }

  /** Which button reported the press, and the action, are not consulted: only the colour is. */
  lemma PressJudgedOnColorAlone(a: Attributes, e1: InputEvent, e2: InputEvent)
    requires a.state == PLAY_MODE && e1.color == e2.color
    ensures ButtonDownStep(a, Some(e1)) == ButtonDownStep(a, Some(e2))
  {
  }

  /** The deadline ends the round the same way, speaking the time-up prompt. */
  lemma TimeoutEndsRound(a: Attributes)
    requires a.state == PLAY_MODE
    ensures var step := TimeoutStep(a);
      && step.attrs == a.(expectingEndSkillConfirmation := true, state := EXIT_MODE)
      && step.reply == ResponseReady(Some(TimeIsUp), true)
      && step.directives == EndOfRoundDirectives(LastTwo(a.deviceIDs), FadeOutAnimation(1, a.colorChoice, 2000))
  {
  }

  /**
   * After a palette colour is chosen, a press reporting shade `j` of that
   * family wins exactly when `j` is the rolled index, and a press reporting
   * a shade of another family always loses.
   */
  lemma PressAfterColorWinsOnlyOnReferenceShade(a: Attributes, c: string, requestId: RequestId, roll: nat, e: InputEvent)
    requires a.state == PLAY_MODE && |a.deviceIDs| >= 2
    requires c in COLOR_SHADES && roll < |COLOR_SHADES[c]|
    ensures var a1 := ColorIntentStep(a, Some(c), requestId, roll).attrs;
      && (forall j :: 0 <= j < |COLOR_SHADES[c]| && e.color == COLOR_SHADES[c][j] ==>
            (ButtonDownStep(a1, Some(e)).reply == ResponseReady(Some(ColorsMatch), true) <==> j == roll))
      && (forall d :: d in COLOR_SHADES && d != c && e.color in COLOR_SHADES[d] ==>
            ButtonDownStep(a1, Some(e)).reply == ResponseReady(Some(ColorsDoNotMatch), true))
  {
    ShadesDistinct();
    FamiliesDisjoint();
    var a1 := ColorIntentStep(a, Some(c), requestId, roll).attrs;
    assert a1.referenceColorShade == Some(COLOR_SHADES[c][roll]);
    forall j | 0 <= j < |COLOR_SHADES[c]| && e.color == COLOR_SHADES[c][j]
      ensures ButtonDownStep(a1, Some(e)).reply == ResponseReady(Some(ColorsMatch), true) <==> j == roll
    {
      if j < roll {
        assert COLOR_SHADES[c][j] != COLOR_SHADES[c][roll];
      } else if roll < j {
        assert COLOR_SHADES[c][roll] != COLOR_SHADES[c][j];
      }
    }
  }

  // ---------------------------------------------------------------------
  // The game-engine dispatcher
  // ---------------------------------------------------------------------

  /** A batch from any listener but the current one changes nothing and emits nothing. */
  lemma StaleBatchChangesNothing(a: Attributes, origin: Option<RequestId>, events: Option<seq<GameEvent>>)
    requires a.state == PLAY_MODE
    requires a.currentInputHandlerID != origin
    ensures InputHandlerEventStep(a, origin, events) == Step(a, [], ResponseReady(None, false))
  {
  }

  /** A missing event list is treated as an empty one. */
  lemma MissingEventsAreEmpty(a: Attributes, origin: Option<RequestId>)
    requires a.state == PLAY_MODE
    ensures InputHandlerEventStep(a, origin, None) == InputHandlerEventStep(a, origin, Some([]))
  {
  }

  /**
   * A current batch is routed on its first entry named `button_down_event`
   * or `timeout`, entries with other names before it being skipped; a batch
   * with no such entry changes nothing and emits nothing.
   */
  lemma CurrentBatchRoutesFirstKnownEvent(a: Attributes, origin: Option<RequestId>, events: seq<GameEvent>)
    requires a.state == PLAY_MODE
    requires a.currentInputHandlerID == origin
    ensures var step := InputHandlerEventStep(a, origin, Some(events));
      && ((forall j :: 0 <= j < |events| ==> !IsKnownEvent(events[j].name)) ==> step == Step(a, [], NoResponse))
      && (forall k :: 0 <= k < |events| && IsKnownEvent(events[k].name) &&
                      (forall j :: 0 <= j < k ==> !IsKnownEvent(events[j].name)) ==>
            step == (if events[k].name == BUTTON_DOWN_EVENT then ButtonDownStep(a, ButtonInfo(events[k]))
                     else TimeoutStep(a)))
  {
  }

  /** Entries after the first known one are ignored: whatever follows it, the outcome is the same. */
  lemma {:induction false} LaterEventsIgnored(a: Attributes, origin: Option<RequestId>, events: seq<GameEvent>, k: nat, rest: seq<GameEvent>)
    requires a.state == PLAY_MODE
    requires k < |events| && IsKnownEvent(events[k].name)
    ensures InputHandlerEventStep(a, origin, Some(events[..k + 1] + rest)) ==
            InputHandlerEventStep(a, origin, Some(events[..k + 1]))
  {
    var longer := events[..k + 1] + rest;
    var shorter := events[..k + 1];
    var kl := FirstKnownEvent(longer, 0);
    var ks := FirstKnownEvent(shorter, 0);
    assert longer[k] == shorter[k] == events[k];
    assert kl.Some? && ks.Some?;
    assert kl.value <= k && ks.value <= k;
    assert forall j :: 0 <= j <= k ==> longer[j] == shorter[j];
    assert kl == ks;
  }

  // ---------------------------------------------------------------------
  // The round as a whole
  // ---------------------------------------------------------------------

  /** Every play-mode request keeps the round invariant and never changes the device list. */
  lemma HandleRequestKeepsRoundInvariant(a: Attributes, req: Request)
    requires RoundInvariant(a) && RequestFits(req)
    ensures HandleRequest(a, req).attrs.deviceIDs == a.deviceIDs
    ensures RoundInvariant(HandleRequest(a, req).attrs)
  {
    if a.state == PLAY_MODE && req.ColorIntentRequest? && req.color.Some? && req.color.value in COLOR_SHADES {
      KnownColorArmsRound(a, req.color.value, req.requestId, req.roll, []);
    }
  }

  /**
   * A batch that ends in the deadline fades the buttons out in `ColorChoice`.
   * When it comes from an armed listener that is a palette family; an
   * id-less batch before the first colour request (an unset handler id
   * equals a missing originating id) fades out with no colour.
   */
  lemma TimeoutFadesChosenColor(a: Attributes, origin: Option<RequestId>, events: Option<seq<GameEvent>>)
    requires RoundInvariant(a) && a.state == PLAY_MODE
    requires InputHandlerEventStep(a, origin, events).reply == ResponseReady(Some(TimeIsUp), true)
    ensures a.currentInputHandlerID == origin
    ensures InputHandlerEventStep(a, origin, events).directives[0] ==
            SetIdleAnimation(LastTwo(a.deviceIDs), FadeOutAnimation(1, a.colorChoice, 2000))
    ensures origin.Some? ==> a.colorChoice.Some? && a.colorChoice.value in COLOR_SHADES
  {
  }

  /**
   * Before the first colour request the handler id is unset, and a batch
   * without an originating id matches it: the batch is not dropped, and a
   * deadline entry in it ends the round with a colourless fade-out.
   */
  lemma UnarmedSessionRoutesBatchWithoutId(a: Attributes, events: seq<GameEvent>)
    requires a.state == PLAY_MODE && a.currentInputHandlerID.None? && a.colorChoice.None?
    requires |events| > 0 && events[0].name == TIMEOUT_EVENT
    ensures var step := InputHandlerEventStep(a, None, Some(events));
      && step == TimeoutStep(a)
      && step.attrs.state == EXIT_MODE
      && step.directives[0] == SetIdleAnimation(LastTwo(a.deviceIDs), FadeOutAnimation(1, None, 2000))
  {
    assert TIMEOUT_EVENT != BUTTON_DOWN_EVENT by {
      assert TIMEOUT_EVENT[0] != BUTTON_DOWN_EVENT[0];
    }
    assert IsKnownEvent(events[0].name);
    assert FirstKnownEvent(events, 0) == Some(0);
    assert RouteEvent(a, events[0]) == TimeoutStep(a);
  }

  /**
   * Once a request produces an outcome the round is over: the state is
   * EXIT_MODE, and no later request of any kind reaches a play-mode handler.
   */
  lemma OutcomeClosesRound(a: Attributes, req1: Request, req2: Request)
    requires |a.deviceIDs| >= 2 && RequestFits(req1) && RequestFits(req2)
    requires IsOutcome(HandleRequest(a, req1).reply)
    ensures HandleRequest(a, req1).attrs.deviceIDs == a.deviceIDs
    ensures var a1 := HandleRequest(a, req1).attrs;
      && a1.state == EXIT_MODE
      && a1.expectingEndSkillConfirmation
      && HandleRequest(a1, req2) == Step(a1, [], NotInPlayMode)
  {
  }

  /**
   * Delivering the same outcome batch twice gives no second outcome, and
   * it is the phase that stops it: the listener id is kept, so the second
   * delivery is not stale, and the same batch in play mode would be judged
   * again.
   */
  lemma DuplicateBatchBlockedByPhase(a: Attributes, origin: Option<RequestId>, events: Option<seq<GameEvent>>)
    requires |a.deviceIDs| >= 2
    requires IsOutcome(HandleRequest(a, GameEngineRequest(origin, events)).reply)
    ensures HandleRequest(a, GameEngineRequest(origin, events)).attrs.deviceIDs == a.deviceIDs
    ensures var a1 := HandleRequest(a, GameEngineRequest(origin, events)).attrs;
      && a1.currentInputHandlerID == origin
      && a1.state == EXIT_MODE
      && HandleRequest(a1, GameEngineRequest(origin, events)) == Step(a1, [], NotInPlayMode)
      && IsOutcome(InputHandlerEventStep(a1.(state := PLAY_MODE), origin, events).reply)
  {
  }

  /** Starting a new round makes every batch from an earlier listener stale. */
  lemma NewRoundMakesEarlierBatchesStale(a: Attributes, c: string, requestId: RequestId, roll: nat,
                                         origin: Option<RequestId>, events: Option<seq<GameEvent>>)
    requires a.state == PLAY_MODE && |a.deviceIDs| >= 2
    requires c in COLOR_SHADES && roll < |COLOR_SHADES[c]|
    requires origin != Some(requestId)
    ensures var a1 := ColorIntentStep(a, Some(c), requestId, roll).attrs;
      a1.state == PLAY_MODE && InputHandlerEventStep(a1, origin, events) == Step(a1, [], ResponseReady(None, false))
  {
  }

  /** Every palette family rolls through six steps, repeated four times at one second per step. */
  lemma PaletteRollingPlan(c: string)
    requires c in COLOR_SHADES
    ensures |RollingPlan(COLOR_SHADES[c], ROLL_STEP_MS).sequence| == 6
    ensures RollingPlan(COLOR_SHADES[c], ROLL_STEP_MS).repeat == 4
  {
    FourShadesEach();
    RollingPlanShape(COLOR_SHADES[c], ROLL_STEP_MS);
  }
}
