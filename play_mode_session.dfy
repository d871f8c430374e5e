/**
 * The play-mode handlers as methods of a session object. They update its
 * attributes and handler state in place and append directives to the
 * response. Each method is tied to its transition in
 * `PlayMode`, where the properties of the round are proved.
 */
module PlayModeSession {
  import opened Wrappers
  import opened Lights
  import opened Settings
  import opened Recognizers
  import opened PlayMode

  class Session {
    var colorChoice: Option<string>
    var referenceColorShade: Option<Shade>
    var deviceIDs: seq<DeviceId>
    var currentInputHandlerID: Option<RequestId>
    var expectingEndSkillConfirmation: bool
    var state: string
    /** The directives emitted so far, in order. */
    var response: seq<Directive>

    function Attrs(): Attributes
      reads this
    {
      Attributes(colorChoice, referenceColorShade, deviceIDs, currentInputHandlerID,
                 expectingEndSkillConfirmation, state)
    }

    ghost predicate Valid()
      reads this
    {
      RoundInvariant(Attrs())
    }

    /** A session entering play mode after roll call registered `ids`. */
    constructor (ids: seq<DeviceId>)
      requires |ids| >= 2
      ensures Valid()
      ensures Attrs() == Attributes(None, None, ids, None, false, PLAY_MODE) && response == []
    {
      colorChoice := None;
      referenceColorShade := None;
      deviceIDs := ids;
      currentInputHandlerID := None;
      expectingEndSkillConfirmation := false;
      state := PLAY_MODE;
      response := [];
    }

    method ColorIntent(color: Option<string>, requestId: RequestId, roll: nat) returns (reply: Reply)
      requires Valid() && state == PLAY_MODE && RollFits(color, roll)
      modifies this
      ensures Valid()
      ensures var step := ColorIntentStep(old(Attrs()), color, requestId, roll);
        Attrs() == step.attrs && response == old(response) + step.directives && reply == step.reply
    {
      if color.None? || color.value !in COLOR_SHADES {
        UnknownColorFallsBackToHelp(Attrs(), color, requestId, roll);
        reply := GlobalHelp;
        return;
      }
      var c := color.value;
      ColorIntentStepOfFamily(Attrs(), c, requestId, roll);
      var colorShades := COLOR_SHADES[c];
      var randomShadeIndex := PickRandomIndex(Some(colorShades), roll);
      StartRound(c, colorShades, colorShades[randomShadeIndex], requestId);
      reply := ResponseReady(Some(ColorAccepted(c)), false);
    }

    /**
     * The known-colour branch of `ColorIntent`: records the colour and the
     * reference shade, arms the input handler and lights the two buttons.
     */
    method StartRound(c: string, colorShades: seq<Shade>, shade: Shade, requestId: RequestId)
      requires |deviceIDs| >= 2 && |colorShades| > 0
      modifies this
      ensures Attrs() == old(Attrs()).(colorChoice := Some(c), referenceColorShade := Some(shade),
                                       currentInputHandlerID := Some(requestId))
      ensures response == old(response) + RoundStartDirectives(LastTwo(old(deviceIDs)), colorShades, shade)
    {
      colorChoice := Some(c);
      referenceColorShade := Some(shade);
      var ids := LastTwo(deviceIDs);
      response := response + [StartInputHandler(INPUT_HANDLER_TIMEOUT_MS, ConfigureRecognizer(ids[1]), DIRECT_MODE_EVENTS)];
      currentInputHandlerID := Some(requestId);
      response := response + [SetIdleAnimation([ids[0]], SolidAnimation(1, shade, REFERENCE_SOLID_MS))];
      var rolling := MakeRollingAnimation(colorShades, ROLL_STEP_MS);
      response := response + [SetIdleAnimation([ids[1]], Rolling(rolling))];
      response := response + [SetButtonDownAnimation(ids, SolidAnimation(1, shade, PRESS_FLASH_MS))];
      response := response + [SetButtonUpAnimation(ids, SolidAnimation(1, shade, PRESS_FLASH_MS))];
    }

    method Timeout() returns (reply: Reply)
      requires Valid() && state == PLAY_MODE
      modifies this
      ensures Valid()
      ensures var step := TimeoutStep(old(Attrs()));
        Attrs() == step.attrs && response == old(response) + step.directives && reply == step.reply
    {
      var uColor := colorChoice;
      var ids := LastTwo(deviceIDs);
      response := response + [SetIdleAnimation(ids, FadeOutAnimation(1, uColor, FADE_OUT_MS))];
      response := response + [SetButtonDownAnimation(ids, DEFAULT_BUTTON_DOWN)];
      response := response + [SetButtonUpAnimation(ids, DEFAULT_BUTTON_UP)];
      expectingEndSkillConfirmation := true;
      state := EXIT_MODE;
      reply := ResponseReady(Some(TimeIsUp), true);
    }

    method ButtonDownEvent(buttonInfo: Option<InputEvent>) returns (reply: Reply)
      requires Valid() && state == PLAY_MODE
      modifies this
      ensures Valid()
      ensures var step := ButtonDownStep(old(Attrs()), buttonInfo);
        Attrs() == step.attrs && response == old(response) + step.directives && reply == step.reply
    {
      if buttonInfo.None? {
        reply := HandlerFailed;
        return;
      }
      var buttonColor := buttonInfo.value.color;
      var playerWon := referenceColorShade == Some(buttonColor);
      var ids := LastTwo(deviceIDs);
      var idleAnimation := if playerWon then WINNING_ANIMATION else LOSING_ANIMATION;
      response := response + [SetIdleAnimation(ids, idleAnimation)];
      response := response + [SetButtonDownAnimation(ids, DEFAULT_BUTTON_DOWN)];
      response := response + [SetButtonUpAnimation(ids, DEFAULT_BUTTON_UP)];
      expectingEndSkillConfirmation := true;
      state := EXIT_MODE;
      reply := ResponseReady(Some(if playerWon then ColorsMatch else ColorsDoNotMatch), true);
    }

    /** Drops a stale batch, then scans the entries in order and routes the first known one. */
    method InputHandlerEvent(originatingRequestId: Option<RequestId>, events: Option<seq<GameEvent>>) returns (reply: Reply)
      requires Valid() && state == PLAY_MODE
      modifies this
      ensures Valid()
      ensures var step := InputHandlerEventStep(old(Attrs()), originatingRequestId, events);
        Attrs() == step.attrs && response == old(response) + step.directives && reply == step.reply
    {
      if currentInputHandlerID != originatingRequestId {
        reply := ResponseReady(None, false);
        return;
      }
      var gameEngineEvents := events.GetOr([]);
      var i := 0;
      while i < |gameEngineEvents|
        invariant 0 <= i <= |gameEngineEvents|
        invariant forall j :: 0 <= j < i ==> !IsKnownEvent(gameEngineEvents[j].name)
        invariant Attrs() == old(Attrs()) && response == old(response)
      {
        var ev := gameEngineEvents[i];
        if ev.name == BUTTON_DOWN_EVENT {
          ghost var k := FirstKnownEvent(gameEngineEvents, 0);
          assert k == Some(i);
          reply := ButtonDownEvent(ButtonInfo(ev));
          return;
        } else if ev.name == TIMEOUT_EVENT {
          ghost var k := FirstKnownEvent(gameEngineEvents, 0);
          assert k == Some(i);
          reply := Timeout();
          return;
        }
        i := i + 1;
      }
      reply := NoResponse;
    }

    /** The PLAY_MODE handler table: requests reach these handlers only in play mode. */
    method Handle(req: Request) returns (reply: Reply)
      requires Valid() && RequestFits(req)
      modifies this
      ensures Valid()
      ensures var step := HandleRequest(old(Attrs()), req);
        Attrs() == step.attrs && response == old(response) + step.directives && reply == step.reply
    {
      if state != PLAY_MODE {
        reply := NotInPlayMode;
        return;
      }
      match req
      case ColorIntentRequest(color, requestId, roll) =>
        reply := ColorIntent(color, requestId, roll);
      case GameEngineRequest(origin, events) =>
        reply := InputHandlerEvent(origin, events);
    }
  }

  /**
   * A round played on a session: a palette colour, a winning press and the
   * same batch delivered again. The second delivery is kept out by the
   * phase and leaves the session and the response as they were.
   */
  method PlayRoundWithDuplicateBatch(ids: seq<DeviceId>, c: string, requestId: RequestId, roll: nat)
    returns (first: Reply, second: Reply)
    requires |ids| >= 2 && c in COLOR_SHADES && roll < |COLOR_SHADES[c]|
    ensures first == ResponseReady(Some(ColorsMatch), true)
    ensures second == NotInPlayMode
  {
    var s := new Session(ids);
    var armed := s.Handle(ColorIntentRequest(Some(c), requestId, roll));
    var press := InputEvent(ids[|ids| - 1], COLOR_SHADES[c][roll], Down);
    var batch := GameEngineRequest(Some(requestId), Some([GameEvent("button_down_event", [press])]));
    first := s.Handle(batch);
    var before := s.response;
    second := s.Handle(batch);
    assert s.response == before;
  }
}
