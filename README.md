# Echo Buttons colour-matching game: the play-mode round

This project models, in Dafny, the play mode of a two-button Echo Buttons
skill. The player names a colour family. The skill picks one shade of that
family at random and shows it on the reference button, and rolls through the
family's shades on the player button. Along with the lights, the skill arms
a 20-second input handler that listens for a press of the player button. The
player presses when the player button's colour matches the reference button.
A press wins when the colour the button reports
is exactly the reference shade. Otherwise it loses. If no press comes, the
deadline ends the round. Either outcome moves the session to exit mode,
where the skill asks whether to play again.

Modules:

- `Wrappers` (`wrappers.dfy`): `Option`, which stands for JavaScript's `undefined`.
- `Lights` (`lights.dfy`): the animation values. It holds `MakeRollingAnimation`,
  the two-loop builder of the player button's rolling animation. The method is
  proved equal to `RollingPlan`, a forward-then-backward definition of the same
  animation, and the shape and repeat count are proved about `RollingPlan`.
- `Settings` (`settings.dfy`): the `SKILL_STATES` tags, the `COLOR_SHADES`
  palette and the default button animations, with the palette's properties.
- `Recognizers` (`recognizers.dfy`): `configureRecognizer` and `DIRECT_MODE_EVENTS`.
  It also gives a reading of what a non-fuzzy recognizer anchored at the end
  fires on (`FiresOn`); this is how the game platform is assumed to behave.
- `PlayMode` (`play_mode.dfy`): the round written as values. `Attributes` holds
  the session fields `ColorChoice`, `ReferenceColorShade`, `DeviceIDs`,
  `CurrentInputHandlerID` and `expectingEndSkillConfirmation`, plus
  `handler.state`. There is one transition function per handler
  (`ColorIntentStep`, `TimeoutStep`, `ButtonDownStep`, `InputHandlerEventStep`).
  `HandleRequest` stands for the handler table that is scoped to `PLAY_MODE`.
  The properties of the round are proved here as lemmas.
- `PlayModeSession` (`play_mode_session.dfy`): the handlers in the form the
  source has. A `Session` object's methods change its fields in place and
  append directives to its `response` log. Each method is proved to do exactly
  what the matching `PlayMode` transition does.

The phase guard lives in the handler table. Every handler requires the state
to be `PLAY_MODE`, and `HandleRequest` / `Session.Handle` pass a request on only
in that state. `CurrentInputHandlerID` is never cleared when a round ends. So a
second delivery of a winning batch is not stale. It produces no second outcome
only because the state is by then `EXIT_MODE` (`DuplicateBatchBlockedByPhase`).

Inputs that the source gets from its environment are parameters here:

- the random draw is a caller-supplied index `roll`;
- the request id, the colour slot value and the game-engine batch come with the request;
- the registered device ids are given to the `Session` constructor.

## Model

| member | source | states |
|---|---|---|
| `Lights.MakeRollingAnimation` | lambda/custom/gameplay.js:245-260 | the two push loops and the repeat count build exactly `RollingPlan(shades, duration)` (the record, without the source's one-element array around it): the shades forward, then those strictly between the ends backward, repeated `floor(20000 / cycle) + 1` times on light "1" |
| `Lights.RollingPlanShape` | lambda/custom/gameplay.js:246-252 | the sequence is `shades[0..n-1]` then `shades[n-2]` down to `shades[1]`; its length is `2n-2` for `n >= 2` and 1 for `n = 1`; every step lasts `duration` with `blend = false`; the target light is "1" |
| `Lights.RollingPlanOfThree` | lambda/custom/gameplay.js:246-252 | `[a, b, c]` rolls as `[a, b, c, b]` |
| `Lights.RollingCycleIsSymmetric` | lambda/custom/gameplay.js:246-252 | read as a cycle, the sequence shows the same shade `k` steps forward and `k` steps backward (no jump at the loop boundary) |
| `Lights.RepeatIsLeastCover` | lambda/custom/gameplay.js:253-254 | for a non-empty shade list and a positive step duration the cycle is positive, and the repeat count is the least `k` with `k * cycle > 20000` |
| `Settings.ColorFamilies` | lambda/custom/settings.js:42-49 | the palette defines exactly the families blue, green and red |
| `Settings.FourShadesEach` | lambda/custom/settings.js:44-48 | every family has exactly four shades |
| `Settings.ShadesDistinct` | lambda/custom/settings.js:44-48 | the shades of a family are pairwise distinct |
| `Settings.FamiliesDisjoint` | lambda/custom/settings.js:44-48 | no shade belongs to two families |
| `Settings.SkillStatesDistinct` | lambda/custom/settings.js:26-34 | the tags `''`, `'_PLAY_MODE'` and `'_EXIT_MODE'` are pairwise distinct |
| `Recognizers.ConfigureRecognizer` | lambda/custom/gameplay.js:31-43 | the recognizer set has exactly one recognizer, `button_down_recognizer` |
| `Recognizers.RecognizerNamesOnlyItsGadget` | lambda/custom/gameplay.js:31-43 | the recognizer is non-fuzzy and anchored at the end, and it fires exactly when the latest input is a press of the given gadget |
| `Recognizers.DirectModeEventsAgree` | lambda/custom/gameplay.js:49-60 | the events defined for the round are exactly the two names the dispatcher acts on; both end the input handler; each meets the round's recognizer or the built-in `timed out` |
| `PlayMode.PickRandomIndex` | lambda/custom/gameplay.js:262-266 | the index is within `[0, length)` for a non-empty list and 0 for an empty or missing one |
| `PlayMode.EveryIndexCanBePicked` | lambda/custom/gameplay.js:262-266 | every index of a non-empty list is the pick of the roll that names it |
| `PlayMode.LastTwo` | lambda/custom/gameplay.js:96-97 | `slice(-2)`: a suffix of the device list of length `min(2, n)` |
| `PlayMode.FirstKnownEvent` | lambda/custom/gameplay.js:212-228 | the result is the first index at or after the start whose name is `button_down_event` or `timeout`; no result means there is no such entry |
| `PlayMode.ColorIntentStep` | lambda/custom/gameplay.js:81-140 | `colorIntent`: help for a missing or unknown colour; otherwise records the colour, the rolled shade and the request id as listener id, and emits the five directives (arm the handler, two idle animations, press and release flashes); devices, flag and state are never changed, and it never produces an outcome |
| `PlayMode.TimeoutStep` | lambda/custom/gameplay.js:141-168 | `InputHandlerEvent.timeout`: ends the round with the time-up outcome, state `EXIT_MODE` and the flag set, keeping the listener id and the devices |
| `PlayMode.ButtonDownStep` | lambda/custom/gameplay.js:169-201 | `InputHandlerEvent.button_down_event`: a press ends the round with an outcome, state `EXIT_MODE` and the flag set; a missing `buttonInfo` fails with nothing changed; the listener id and the devices are kept |
| `PlayMode.InputHandlerEventStep` | lambda/custom/gameplay.js:202-229 | `GameEngine.InputHandlerEvent`: never changes the listener id or the devices, and changes or emits something only for a batch whose (possibly missing) `originatingRequestId` equals the stored (possibly unset) handler id |
| `PlayMode.HandleRequest` | lambda/custom/gameplay.js:79 | the PLAY_MODE handler table: outside `PLAY_MODE` a request changes nothing; the device list is never changed |
| `PlayMode.UnknownColorFallsBackToHelp` | lambda/custom/gameplay.js:87-88 | the help flow is taken exactly for a missing colour or one that is not in the palette; then nothing changes and nothing is emitted |
| `PlayMode.KnownColorArmsRound` | lambda/custom/gameplay.js:89-107 | a palette colour sets `ColorChoice`; the reference shade is the rolled shade of that family; the listener id becomes the request id; the first directive arms a 20000 ms handler with `DIRECT_MODE_EVENTS`, whose recognizer fires only for a press of the last device id; devices, flag and state are kept |
| `PlayMode.KnownColorLightsButtons` | lambda/custom/gameplay.js:110-130 | the reference button (second to last id) shows the reference shade for 20000 ms; the player button (last id) shows `RollingPlan` of the chosen family at 1000 ms per step, which is 6 steps repeated 4 times; press and release on both buttons flash the reference shade for 10 ms |
| `PlayMode.WinIffShadeMatches` | lambda/custom/gameplay.js:169-201 | the player wins iff `ReferenceColorShade` equals the reported colour; both buttons (the last two device ids) play the winning or losing pulse and get the default press and release animations back; the flag is set, the state becomes `EXIT_MODE`, and every other attribute, the listener id included, is kept |
| `PlayMode.PressJudgedOnColorAlone` | lambda/custom/gameplay.js:171-175 | two presses reporting the same colour are judged the same, whichever gadget reported them |
| `PlayMode.TimeoutEndsRound` | lambda/custom/gameplay.js:141-168 | the deadline sets the flag and the state `EXIT_MODE` and keeps everything else; it fades the buttons out in `ColorChoice` and resets their press and release animations |
| `PlayMode.PressAfterColorWinsOnlyOnReferenceShade` | lambda/custom/gameplay.js:90-93 | after a colour is chosen, a press reporting shade `j` of that family wins iff `j` is the rolled index; a shade of another family always loses |
| `PlayMode.StaleBatchChangesNothing` | lambda/custom/gameplay.js:204-209 | a batch whose `originatingRequestId` is not the stored handler id changes no attribute and emits no directive |
| `PlayMode.MissingEventsAreEmpty` | lambda/custom/gameplay.js:211 | a missing `events` list is handled as an empty one |
| `PlayMode.CurrentBatchRoutesFirstKnownEvent` | lambda/custom/gameplay.js:211-228 | a current batch is routed on its first known entry (press or deadline), skipping other names; a batch with no known entry changes nothing and emits nothing |
| `PlayMode.LaterEventsIgnored` | lambda/custom/gameplay.js:212-228 | entries after the first known one do not affect the result |
| `PlayMode.HandleRequestKeepsRoundInvariant` | lambda/custom/gameplay.js:79-229 | every play-mode request keeps the device list unchanged; once a listener is armed, the chosen colour is a palette family and the reference shade is one of its shades |
| `PlayMode.TimeoutFadesChosenColor` | lambda/custom/gameplay.js:145-158 | a batch that ends in the deadline matches the handler id and fades both buttons out in `ColorChoice`; when the batch carries an id, that colour is a palette family |
| `PlayMode.UnarmedSessionRoutesBatchWithoutId` | lambda/custom/gameplay.js:204-226 | before any colour request, a batch with no `originatingRequestId` matches the unset handler id under `!=`, so it is not dropped; a deadline entry in it ends the round with a fade-out that has no colour |
| `PlayMode.OutcomeClosesRound` | lambda/custom/gameplay.js:164-165 | once a request produces an outcome, the state is `EXIT_MODE` and no later request reaches a play-mode handler |
| `PlayMode.DuplicateBatchBlockedByPhase` | lambda/custom/gameplay.js:198-209 | a second delivery of an outcome batch is not stale, because the handler id is kept; it gives no second outcome only because the state is `EXIT_MODE`; in play mode the same batch would be judged again |
| `PlayMode.NewRoundMakesEarlierBatchesStale` | lambda/custom/gameplay.js:107 | after a new colour request, a batch from any other request id is stale |
| `PlayMode.PaletteRollingPlan` | lambda/custom/gameplay.js:118 | every palette family rolls through 6 steps, repeated 4 times, at 1000 ms per step |
| `PlayModeSession.Session.constructor` | lambda/custom/gameplay.js:79 | a session enters play mode with the registered device ids and nothing chosen |
| `PlayModeSession.Session.ColorIntent` | lambda/custom/gameplay.js:81-140 | updates the fields and appends the directives exactly as `ColorIntentStep` does, and keeps the round invariant |
| `PlayModeSession.Session.StartRound` | lambda/custom/gameplay.js:90-130 | the known-colour branch in place: sets the colour, the reference shade and the listener id, leaves every other field alone, and appends the five round-start directives in source order |
| `PlayModeSession.Session.Timeout` | lambda/custom/gameplay.js:141-168 | updates the fields and appends the directives exactly as `TimeoutStep` does |
| `PlayModeSession.Session.ButtonDownEvent` | lambda/custom/gameplay.js:169-201 | updates the fields and appends the directives exactly as `ButtonDownStep` does |
| `PlayModeSession.Session.InputHandlerEvent` | lambda/custom/gameplay.js:202-229 | its index loop with early return does exactly what `InputHandlerEventStep` does |
| `PlayModeSession.Session.Handle` | lambda/custom/gameplay.js:79 | a request reaches the play-mode handlers only in `PLAY_MODE`; otherwise nothing changes |
| `PlayModeSession.PlayRoundWithDuplicateBatch` | lambda/custom/gameplay.js:81-229 | on one session, a colour request followed by a press of the reference shade wins, and a second delivery of the same batch does not reach the play-mode handlers |

## Left out

- The Alexa SDK plumbing is not modelled: `Alexa.CreateStateHandler`, `this.emit`, `_addDirective` and `GlobalResponseReady`. Handlers are method calls. A handler's emit becomes its `Reply`. Directives are appended to `Session.response`, a log kept across requests rather than one response per request.
- The `GadgetDirectives` and `BasicAnimations` builders are not modelled. Their results are tagged values carrying the arguments the source passes. The source passes the exit-time `setButtonDownAnimation` / `setButtonUpAnimation` / `setIdleAnimation` calls a second argument (gameplay.js:160-161, 190-195); the model keeps only the target devices and the animation.
- `Math.random` is replaced by the caller-supplied index `roll`. The model does not state that the draw is uniform. `pickRandomSleep` is left out: nothing calls it.
- Speech, reprompt text and audio URLs are reduced to the choice of `Prompt`.
- `console.log` calls are left out.
- The Stop, Cancel, Help and Unhandled handlers (gameplay.js:230-242) are left out. They only forward to global handlers, which are not part of this model. So are the other modes' handler tables: a request outside play mode ends as `NotInPlayMode`.
- Roll call is not part of this model. The device ids are an input with at least two entries, as the session's invariant.
- A missing `originatingRequestId` and an unset `CurrentInputHandlerID` are both `None`, so they compare equal, as `undefined != undefined` is false in the source.
- The palette lookup is modelled as membership of the map's own keys. In JavaScript, names inherited from `Object.prototype` (such as `constructor`) would also pass the `=== undefined` test. These are not modelled.
- A `button_down_event` entry with no input events makes the handler throw when it reads `buttonInfo.gadgetId`. This is modelled as `HandlerFailed` with nothing changed; how the SDK then recovers is not modelled.
- `Lights.MakeRollingAnimation`: requires a non-empty shade list and a positive step duration. Otherwise the source divides by zero and JavaScript yields an infinite repeat count. Every call made with a palette family passes four shades and 1000 ms. An inherited name (see the palette-lookup line above), such as `toString` or `__proto__`, would reach the call with an empty sequence; that case is not modelled.
- `Recognizers.RecognizerNamesOnlyItsGadget`: what a recognizer fires on is decided by the game platform. `FiresOn` is the model's reading of a non-fuzzy, end-anchored pattern, not something the source defines.
- The round has no separate resolved phase: the outcome is the reply, and the state becomes `EXIT_MODE`.
- An empty shade list is not an error: `pickRandomIndex` returns 0.
- A request after the round ends is kept out by the scope of the handler table, not by a check inside the handlers.
- The device pair is the last two registered ids (`slice(-2)`).
- `Lights.MakeRollingAnimation`: the source returns the animation record wrapped in a one-element array (gameplay.js:255-259); the model returns the record itself, and `Rolling(...)` stands for the wrapped value.
