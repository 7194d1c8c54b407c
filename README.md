# Portfolio UI state machines, modelled in Dafny

This project models the small event-driven state machines of a single-page
portfolio site written in React: the Konami-code easter egg, the keyboard
shortcut dispatcher with its help modal, the achievement unlocker, the boot
progress bar, the scripted chat widget, the contact form's simulated submission,
and three preference switches (sound effects, colour theme, reduced motion).

Each source file becomes one module, in one `.dfy` file:

| file | module | source |
|---|---|---|
| common.dfy | `Common` | `Option`, standing for JavaScript's `null` / `undefined` |
| konami.dfy | `Konami` | client/src/hooks/use-konami.tsx |
| shortcuts.dfy | `Shortcuts` | client/src/hooks/use-keyboard-shortcuts.tsx |
| achievements.dfy | `Achievements` | client/src/hooks/use-achievements.tsx |
| boot.dfy | `Boot` | client/src/components/BootSequence.tsx |
| chat.dfy | `Chat` | client/src/components/AIChatWidget.tsx |
| contact.dfy | `Contact` | client/src/components/Contact.tsx |
| audio.dfy | `Audio` | client/src/hooks/use-audio.tsx |
| theme.dfy | `Theme` | client/src/hooks/use-theme.tsx |
| accessibility.dfy | `Accessibility` | client/src/components/AccessibilityControls.tsx |

Most modules follow the same pattern:

- A datatype holds the hook's or component's state as a value (`Progress`,
  `Bar`, `Widget`, `Form`, `View`).
- Pure functions give the effect of each event on that value (`Trigger`,
  `AfterTick`, `Submitted`, `Replied`, `SendFinished`, `Toggled`, ...).
- Lemmas state what the source promises about one event or about a whole run of
  events: `n` boot ticks, any interleaving of chat submits and replies, a list of
  triggered achievement ids, `n` clicks.
- A class holds the same state as mutable fields. It has one method per event:
  a key press, a click, a change event, or a timer or interval callback firing.
  Each method's `ensures` ties the new state to the pure function of the old one.
  In Boot, `CompletionFires` and `Unmount` are the exceptions: no transition
  function covers them, and they state the fields they change (`completed`;
  `intervalActive` and `mounted`) directly.

Four modules differ:

- Konami has no state datatype. The key handler's effect on the index is the
  function `NextIndex`, and its fold over a key history is `Run`.
  `KonamiListener.OnKey` states the flag's update directly, as
  `old(unlocked) || Completes(old(index), k)`, and its `Valid()` ties index and
  flag to `Run` and `UnlockedBy` of a ghost history.
- Shortcuts has no state datatype. The handler's decisions are the predicates
  `IsEditable`, `IsHelpKey` and `Matches` and the function `ModalAfter`.
  `ShortcutController.HandleKeyDown` is stated in terms of them.
- Audio has neither a state datatype nor pure event functions, apart from the
  storage encoding `EnabledFromSaved`/`BoolString`. The methods of `AudioSystem`
  state the new field values directly.
- Theme has no state datatype either: its state is the `Theme` value plus the
  storage entry `saved`. The pure functions are `FromSaved` (the mount effect's
  choice) and `Flipped` (a toggle). `ThemeHook.Initialize` and
  `ThemeHook.ToggleTheme` state `theme` and `saved` in terms of them.

Timers and intervals therefore become explicit methods (`Tick`, `ReplyFires`,
`SendTimerFires`, `NotificationTimeout`, `CompletionFires`). A counter of
callbacks that are scheduled but have not fired yet is a field. A timer
method requires that counter to be positive, because a callback cannot fire
before it is scheduled. `Math.random()` is an index argument whose range is a
precondition. A `localStorage` entry is a `saved: Option<string>` field;
`None` is `null`, an absent entry. The system dark-mode preference is a
parameter of the theme's mount effect.

Some behaviours of the code are worth knowing:

- The Konami matcher resets to 0 on any wrong key, even on an `ArrowUp` that
  could start the code again. So pressing `ArrowUp` three times and then the
  rest of the code does not unlock the easter egg (`ExtraLeadingUpDoesNotUnlock`).
  After any history, the last `Run(keys)` keys are exactly the first `Run(keys)`
  keys of the code (`RunMatchesSuffix`). The index need not be the longest such
  match: after three `ArrowUp` keys it is 0, although the last two keys start
  the code. Every unlock is preceded by the whole code
  (`UnlockedMeansCodeTyped`).
- The `?` help key is tested before the registered shortcuts. A registered `?`
  shortcut without Alt or Ctrl can therefore never fire (`HelpKeyShadowsShortcut`).
- The boot effect depends on `onComplete`. A render with a new callback clears
  the interval and sets a new one, keeping the progress. If that happens after
  the interval was cleared at 100, the next tick schedules the completion
  callback a second time (`RerunAfterClear`). Without such a re-run it is
  scheduled exactly once (`TicksInv`).
- The chat lets a second message be sent before the first reply arrives. The
  transcript then holds two user messages followed by two replies. Under any
  interleaving, the assistant's messages and the pending replies add up to one
  more than the user's messages (`Balanced`, `PlayFromInitial`).

## Model

| member | source | states |
|---|---|---|
| Konami.NextIndex | client/src/hooks/use-konami.tsx:11-23 | after any key event the progress index stays below the code length 10 |
| Konami.Completes | client/src/hooks/use-konami.tsx:15-19 | the completing key is the one that reaches the code's length, and completing resets the index to 0 |
| Konami.NextIndexCases | client/src/hooks/use-konami.tsx:11-23 | below the last position a key advances the index by one iff it equals the expected key exactly (case-sensitive); any other key resets it to 0; a key completes the code iff the index is 9 and the key is `a` |
| Konami.Run | client/src/hooks/use-konami.tsx:4-31 | the index after any key history from the initial 0 is below 10 |
| Konami.UnlockedBy | client/src/hooks/use-konami.tsx:15-19 | whether some key of the history completed the code; `UnlockedMeansCodeTyped` proves that this needs the whole code typed contiguously |
| Konami.RunMatchesSuffix | client/src/hooks/use-konami.tsx:11-23 | the last `Run(keys)` keys of the history are exactly the first `Run(keys)` keys of the code |
| Konami.CompletionNeedsWholeCode | client/src/hooks/use-konami.tsx:11-19 | a key completes the code only if it and the nine keys before it are exactly the ten-key code |
| Konami.UnlockedMeansCodeTyped | client/src/hooks/use-konami.tsx:15-19 | if any key of a history unlocked the easter egg, the full code occurs contiguously in that history |
| Konami.CodePrefixAdvances | client/src/hooks/use-konami.tsx:11-13 | from index 0 the first `j` keys of the code bring the index to `j` |
| Konami.CodeUnlocksFromZero | client/src/hooks/use-konami.tsx:7-19 | typing the full code while the index is 0 unlocks and leaves the index at 0 |
| Konami.ExtraLeadingUpDoesNotUnlock | client/src/hooks/use-konami.tsx:20-23 | an extra leading ArrowUp resets the index at the third key, so ArrowUp followed by the code ends at 0 and never unlocks |
| Konami.NoUpStaysAtZero | client/src/hooks/use-konami.tsx:20-23 | from index 0, keys containing no ArrowUp keep the index at 0 and never unlock |
| Konami.KonamiListener.constructor | client/src/hooks/use-konami.tsx:4-5 | starts at index 0, locked, with an empty history |
| Konami.KonamiListener.OnKey | client/src/hooks/use-konami.tsx:10-24 | the new index is `NextIndex` of the old; the flag becomes true on completion and is never cleared by a key; the index always equals `Run` of the history, and the flag implies the history unlocked |
| Konami.KonamiListener.Dismiss | client/src/hooks/use-konami.tsx:49 | clears the flag and keeps the index |
| Shortcuts.Lower | client/src/hooks/use-keyboard-shortcuts.tsx:39 | lower-casing keeps the length and lower-cases each character |
| Shortcuts.IsEditable | client/src/hooks/use-keyboard-shortcuts.tsx:21-27 | an input, a textarea or a contentEditable element keeps its keys; `HandleKeyDown` then changes nothing |
| Shortcuts.IsHelpKey | client/src/hooks/use-keyboard-shortcuts.tsx:30 | `?` with neither Alt nor Ctrl, Shift not looked at; `HelpKeyShadowsShortcut` shows it is tested before the shortcuts |
| Shortcuts.Matches | client/src/hooks/use-keyboard-shortcuts.tsx:38-42 | matching keys have the same length; `MatchIgnoresCase` and `ModifiersMustAgree` state what the test decides |
| Shortcuts.ModalAfter | client/src/hooks/use-keyboard-shortcuts.tsx:21-34 | the modal's visibility changes exactly on the help key typed outside an editable element |
| Shortcuts.LowerIdempotent | client/src/hooks/use-keyboard-shortcuts.tsx:39 | lower-casing twice equals lower-casing once |
| Shortcuts.MatchIgnoresCase | client/src/hooks/use-keyboard-shortcuts.tsx:39 | whether an event matches a shortcut does not depend on the case of the event's key or of the shortcut's key |
| Shortcuts.ModifiersMustAgree | client/src/hooks/use-keyboard-shortcuts.tsx:40-42 | a matching event holds Alt, Ctrl and Shift exactly when the shortcut sets them true, so an omitted flag counts as false |
| Shortcuts.ModalToggleTwiceRestores | client/src/hooks/use-keyboard-shortcuts.tsx:30-34 | the help key flips the modal, and any event applied twice leaves the modal as it was |
| Shortcuts.HelpKeyShadowsShortcut | client/src/hooks/use-keyboard-shortcuts.tsx:29-43 | every event a registered `?` shortcut without Alt or Ctrl matches is a help key, so the handler returns before the loop and that shortcut never fires |
| Shortcuts.FindShortcut | client/src/hooks/use-keyboard-shortcuts.tsx:37-47 | returns the index of a matching shortcut with no match before it, or none when no shortcut matches |
| Shortcuts.ShortcutController.constructor | client/src/hooks/use-keyboard-shortcuts.tsx:13-17 | registers the shortcuts with the modal hidden |
| Shortcuts.ShortcutController.Register | client/src/hooks/use-keyboard-shortcuts.tsx:16-17 | replaces the registered shortcuts |
| Shortcuts.ShortcutController.HandleKeyDown | client/src/hooks/use-keyboard-shortcuts.tsx:19-49 | editable targets change nothing and fire nothing; the help key toggles the modal and fires nothing; otherwise the modal is kept and at most one shortcut fires, the first match in list order, with `preventDefault` exactly when one fires |
| Shortcuts.ShortcutController.SetShowModal | client/src/hooks/use-keyboard-shortcuts.tsx:68 | the close button sets the modal to the given visibility (hidden) |
| Achievements.TableIdsAgree | client/src/hooks/use-achievements.tsx:8-29 | every table entry's id is its own key |
| Achievements.Trigger | client/src/hooks/use-achievements.tsx:35-46 | the unlocked set only grows, only the triggered id can join the map, and any change shows that id's table entry |
| Achievements.ClearNotification | client/src/hooks/use-achievements.tsx:48-50 | the timeout clears the notification and leaves the unlocked map unchanged |
| Achievements.TriggerEffect | client/src/hooks/use-achievements.tsx:35-46 | a trigger adds the id to the unlocked set iff it is a table id, keeps every other entry, is a no-op for unknown ids, and shows the table entry exactly when the id is newly unlocked |
| Achievements.TriggerIdempotent | client/src/hooks/use-achievements.tsx:37 | triggering the same id twice equals triggering it once |
| Achievements.ReplayUnlocksKnownIds | client/src/hooks/use-achievements.tsx:8-42 | after any sequence of triggers the unlocked ids are exactly the table ids among them, only table ids are keys, and any notification is a table entry |
| Achievements.ReplayMonotone | client/src/hooks/use-achievements.tsx:39-42 | the unlocked set only grows as more ids are triggered |
| Achievements.AchievementTracker.constructor | client/src/hooks/use-achievements.tsx:32-33 | starts with nothing unlocked and no notification |
| Achievements.AchievementTracker.TriggerAchievement | client/src/hooks/use-achievements.tsx:35-51 | the new state is `Trigger` of the old; a timeout is scheduled exactly when the state changed |
| Achievements.AchievementTracker.NotificationTimeout | client/src/hooks/use-achievements.tsx:48-50 | a scheduled timeout clears the notification only |
| Boot.TickKeepsInv | client/src/components/BootSequence.tsx:14-22 | a tick below 100 adds exactly 5; a tick at 100 keeps 100, clears the interval and schedules one more completion; ticks and re-runs keep progress a multiple of 5, at most 100, and at 100 whenever a completion is scheduled |
| Boot.AfterTick | client/src/components/BootSequence.tsx:13-22 | a tick never lowers progress up to 100, keeps a multiple of 5 within 100, and adds one scheduled completion exactly when it clears the interval |
| Boot.Rerun | client/src/components/BootSequence.tsx:12-26 | a re-run of the effect sets a new interval and keeps progress and scheduled completions |
| Boot.Ticks | client/src/components/BootSequence.tsx:9-23 | after any number of periods without a re-run, progress is a multiple of 5 and at most 100 |
| Boot.RerunAfterClear | client/src/components/BootSequence.tsx:16-26 | a re-run while the interval is set changes nothing; a re-run after the clear lets the next tick schedule the completion again, so 21 ticks, a re-run and one tick leave two completions scheduled |
| Boot.TicksClosedForm | client/src/components/BootSequence.tsx:9-23 | after `n` interval periods the progress is `5n` with the interval running for `n <= 20`, and 100 with the interval cleared and one completion scheduled for every `n` after that |
| Boot.TicksInv | client/src/components/BootSequence.tsx:13-23 | without a re-run of the effect, the invariant holds after any number of periods, completion is scheduled at most once, and it is scheduled iff at least 21 periods have passed |
| Boot.BootSequence.constructor | client/src/components/BootSequence.tsx:9-13 | mounts at progress 0 with the interval set |
| Boot.BootSequence.Tick | client/src/components/BootSequence.tsx:13-22 | the new state is `AfterTick` of the old and the invariant is kept |
| Boot.BootSequence.RerunEffect | client/src/components/BootSequence.tsx:25-26 | a render with a new `onComplete` gives the state `Rerun` of the old, keeping the invariant |
| Boot.BootSequence.CompletionFires | client/src/components/BootSequence.tsx:18 | the scheduled timeout calls `onComplete` once, never more often than it was scheduled |
| Boot.BootSequence.Unmount | client/src/components/BootSequence.tsx:25 | cleanup clears the interval and the component is no longer mounted, so no re-run follows |
| Chat.TrimStart | client/src/components/AIChatWidget.tsx:38 | the result is a suffix of the input, everything dropped is whitespace, and it does not start with whitespace |
| Chat.TrimEnd | client/src/components/AIChatWidget.tsx:38 | the result is a prefix of the input, everything dropped is whitespace, and it does not end with whitespace |
| Chat.Trim | client/src/components/AIChatWidget.tsx:38 | the trimmed input is no longer than the input and has no whitespace at either end |
| Chat.TrimEmptyIffBlank | client/src/components/AIChatWidget.tsx:38 | the trimmed input is empty iff every character is whitespace |
| Chat.Submitted | client/src/components/AIChatWidget.tsx:36-50 | the old transcript stays a prefix; messages plus pending replies grow by two on non-blank input and by none on blank input |
| Chat.Replied | client/src/components/AIChatWidget.tsx:52-69 | the old transcript stays a prefix and the input is kept; messages plus pending replies are unchanged |
| Chat.SubmitEffect | client/src/components/AIChatWidget.tsx:36-50 | blank input changes nothing; otherwise exactly one user message with the untrimmed text is appended, the input is cleared, the indicator is set and one reply is scheduled |
| Chat.ReplyEffect | client/src/components/AIChatWidget.tsx:52-69 | a reply appends exactly one assistant message whose text is one of the six replies, keeps the old transcript as a prefix, and clears the indicator |
| Chat.BalanceKept | client/src/components/AIChatWidget.tsx:16-69 | the initial widget is balanced (greeting first, assistant messages plus pending replies one more than user messages), and every edit, submit and reply keeps it balanced |
| Chat.SettledTranscript | client/src/components/AIChatWidget.tsx:36-69 | a balanced widget has `1 + 2n` messages and pending replies together for `n` user messages, so exactly `1 + 2n` messages once no reply is pending |
| Chat.PlayKeepsBalance | client/src/components/AIChatWidget.tsx:36-69 | any sequence of edits, submits and replies, with submits overtaking pending replies, keeps the widget balanced |
| Chat.PlayFromInitial | client/src/components/AIChatWidget.tsx:16-69 | from mount, after any interleaving of events, the greeting is first and messages plus pending replies equal `1 + 2n` for `n` user messages |
| Chat.Exchange | client/src/components/AIChatWidget.tsx:36-70 | typing, submitting and receiving the reply appends the user message then the reply, and leaves input empty, indicator off and pending replies as before |
| Chat.TranscriptLength | client/src/components/AIChatWidget.tsx:41-68 | `n` exchanges contribute `2n` messages |
| Chat.TranscriptAt | client/src/components/AIChatWidget.tsx:41-68 | message `2k` of the exchanges is the `k`-th user text and message `2k+1` its reply |
| Chat.ConverseTranscript | client/src/components/AIChatWidget.tsx:47-68 | after any exchanges the transcript is the old one followed by the exchanges' messages, in order |
| Chat.InitialConversation | client/src/components/AIChatWidget.tsx:16-22 | from the initial greeting, `n` exchanges in which each reply arrives before the next submit leave `1 + 2n` messages, the greeting first; `PlayFromInitial` covers overlapping exchanges |
| Chat.ChatWidget.constructor | client/src/components/AIChatWidget.tsx:16-24 | starts with the greeting alone, empty input, no indicator |
| Chat.ChatWidget.SetInput | client/src/components/AIChatWidget.tsx:143 | the input takes the field's value |
| Chat.ChatWidget.Submit | client/src/components/AIChatWidget.tsx:36-50 | the new state is `Submitted` of the old; the old transcript is a prefix of the new |
| Chat.ChatWidget.ReplyFires | client/src/components/AIChatWidget.tsx:52-70 | the new state is `Replied` of the old with the picked reply; the old transcript is a prefix of the new |
| Contact.WithField | client/src/components/Contact.tsx:62-67 | the named field gets the new value and every other field is unchanged |
| Contact.Changed | client/src/components/Contact.tsx:62-68 | a change event sets the named field and keeps both flags and both timers |
| Contact.Submitted | client/src/components/Contact.tsx:70-73 | submitting disables the button and keeps the fields and the success flag |
| Contact.SendFinished | client/src/components/Contact.tsx:75-85 | the first timer enables the button, shows success and empties every field |
| Contact.SuccessExpired | client/src/components/Contact.tsx:87-89 | the second timer hides success and keeps the fields and the submitting flag |
| Contact.FieldUpdatesCompose | client/src/components/Contact.tsx:62-67 | the last change to a field wins and changes to different fields commute |
| Contact.SubmitCycle | client/src/components/Contact.tsx:70-91 | the button is disabled while sending; the first phase enables it, shows success and empties the fields; the second clears success and keeps the fields |
| Contact.ContactForm.constructor | client/src/components/Contact.tsx:13-20 | starts with three empty fields, not submitting, no success |
| Contact.ContactForm.IsSubmitDisabled | client/src/components/Contact.tsx:200 | the submit button is disabled iff a submission is in progress |
| Contact.ContactForm.HandleInputChange | client/src/components/Contact.tsx:62-68 | only the named field changes |
| Contact.ContactForm.HandleSubmit | client/src/components/Contact.tsx:70-73 | sets submitting and schedules the first phase |
| Contact.ContactForm.SendTimerFires | client/src/components/Contact.tsx:75-85 | clears submitting, sets success, empties all three fields, schedules the second phase |
| Contact.ContactForm.ResetTimerFires | client/src/components/Contact.tsx:87-89 | clears success and leaves the fields unchanged |
| Audio.AllEffectsComplete | client/src/hooks/use-audio.tsx:4-29 | every sound effect is in the effect record |
| Audio.EnabledFromSaved | client/src/hooks/use-audio.tsx:60-61 | audio starts enabled only on the saved string `"true"`; `SavedRoundTrip` states its cases |
| Audio.BoolString | client/src/hooks/use-audio.tsx:104 | the saved string is `"true"` exactly when audio is switched on |
| Audio.SavedRoundTrip | client/src/hooks/use-audio.tsx:60-61 | the saved string of a state reads back as that state, only the exact string `"true"` enables, and a missing entry disables |
| Audio.AudioSystem.constructor | client/src/hooks/use-audio.tsx:47-50 | starts disabled, not loaded, with no elements |
| Audio.AudioSystem.Initialize | client/src/hooks/use-audio.tsx:53-79 | does nothing to the flags and elements when already loaded; otherwise ref and UI state both become `saved == "true"`, every effect whose construction does not throw gets a live element, and the rest keep what they had; ends loaded |
| Audio.AudioSystem.Cleanup | client/src/hooks/use-audio.tsx:82-90 | every element loses its source and the system is no longer loaded |
| Audio.AudioSystem.ToggleAudio | client/src/hooks/use-audio.tsx:94-116 | flips the flag keeping ref and UI state equal, saves its string form, and plays the toggle-on sound only when switching on while loaded |
| Audio.AudioSystem.PlaySound | client/src/hooks/use-audio.tsx:119-129 | plays the effect only when enabled and loaded and the effect has an element |
| Theme.InitialChoice | client/src/hooks/use-theme.tsx:6-16 | a saved theme name decides regardless of the preference; any other saved value acts like no entry; with no entry dark is chosen iff preferred |
| Theme.FromSaved | client/src/hooks/use-theme.tsx:6-16 | the theme the mount effect picks from the saved entry and the dark-mode preference; `InitialChoice` states its cases |
| Theme.Flipped | client/src/hooks/use-theme.tsx:18-22 | the toggled theme differs from the old one, and so does its saved name |
| Theme.ToggleAndRestore | client/src/hooks/use-theme.tsx:18-22 | toggling changes the theme and twice restores it; the saved name of a theme is read back as that theme |
| Theme.ThemeHook.constructor | client/src/hooks/use-theme.tsx:4 | starts dark |
| Theme.ThemeHook.Initialize | client/src/hooks/use-theme.tsx:6-16 | the mount effect sets the theme to `FromSaved` of the saved entry and the preference |
| Theme.ThemeHook.ToggleTheme | client/src/hooks/use-theme.tsx:18-22 | flips the theme and saves its name |
| Accessibility.ClassTracksFlag | client/src/components/AccessibilityControls.tsx:6-16 | when class and flag agree, any number of clicks keeps them agreeing, flips the flag once per click, and touches no other class |
| Accessibility.Toggled | client/src/components/AccessibilityControls.tsx:6-16 | a click flips the flag; afterwards the class is present exactly when the flag is on, whatever the body held before, and no other class changes |
| Accessibility.FirstClickSynchronises | client/src/components/AccessibilityControls.tsx:4-16 | from the initial off flag, even if the body already has the class, after one or more clicks the class is present iff the flag is on, and the flag is on iff the number of clicks is odd |
| Accessibility.ToggledTimesShift | client/src/components/AccessibilityControls.tsx:6-16 | a click followed by `n` clicks is `n + 1` clicks |
| Accessibility.AccessibilityControls.constructor | client/src/components/AccessibilityControls.tsx:4 | starts with reduced motion off over the given body classes |
| Accessibility.AccessibilityControls.ToggleReducedMotion | client/src/components/AccessibilityControls.tsx:6-16 | flips the flag, adding the class when turning on and removing it when turning off |

## Left out

- Rendering: the JSX markup, the modal and easter-egg overlays, CSS classes other than `reduced-motion`, the `scrollToBottom` effect and the `ShortcutsModal` list. None of it holds logic.
- GSAP and three.js animations, the `Audio` volumes (floating point) and everything Hero.tsx, Projects.tsx, Skills.tsx, About.tsx, MobileMenu.tsx, ProjectModal.tsx, ScrollAchievement.tsx and client/src/lib/ do. These are library-driven graphics or static data.
- Timer durations (200 ms, 500 ms, 1500 ms, 3000 ms) and `Date.now()` message timestamps. Timers are events that fire in any order once scheduled. The class methods may be called in any order, and the lemmas say which runs they cover: `Chat.InitialConversation` only covers exchanges whose reply arrives before the next submit, and `Chat.PlayFromInitial` covers any interleaving.
- Event listener registration and removal, and React's batching of state updates. Each event is handled to completion and sees the state left by the previous one. A second `triggerAchievement` within one render batch is not modelled. It would read the closure's stale `unlockedAchievements`.
- The audio elements themselves. An element is only "has its source" or "source cleared". `plays` records every `play()` call; whether the browser then rejects the returned promise, which the source only logs, is not modelled.
- Shortcuts.Lower: lower-cases only the ASCII letters A–Z; JavaScript's `toLowerCase` also maps other Unicode letters, which the model leaves unchanged.
- Shortcut actions are identified by their index in the list; calling the callback is not modelled.
- The contact form's browser-side validation (`required` fields, `type="email"`) and the browser's refusal to submit through a disabled button are not modelled as guards. `handleSubmit` itself has no guard.
- Keys inherited from JavaScript's object prototype (such as `toString`) pass the table test in `triggerAchievement`, but they also make the "already unlocked" test true, so they are no-ops there. The model treats them as unknown ids, which gives the same result.
- JavaScript strings are UTF-16 code-unit sequences; the model's strings are sequences of Unicode scalar values.
