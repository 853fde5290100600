# Inline-edit controller, modelled in Dafny

This project models the inline-edit component suite: one editable text with
a committed value, a draft (`inputValue`), an editing flag and a pre-edit
snapshot (`previousValueRef`). Four actions change that state: `edit`,
`cancel`, `submit`, and `setInputValue`, which clamps to `maxLength`. Around
the actions sit the rules that turn UI signals into action calls:

- the input's key, focus, double-click and change handlers;
- the read view's click, double-click and Enter/Space handlers, and its
  display, placeholder and zero-width-filler logic;
- the root's dismissal watcher, which turns an outside pointer-down, or a
  focus-out to an element outside the root, into `submit` or `cancel` as
  `submitMode` says;
- the hidden form field the root renders when `name` is set.

The model has these parts:

- `Base`: optional values, and strings as sequences of UTF-16 code units.
  Lengths, `slice` and `maxLength` therefore count what JavaScript counts.
- `UseEditable` is the hook.
  - `Options` is the options object as passed, and `Resolve` applies its
    defaults.
  - A `Session` value is the whole state. `After*` functions specify each
    action.
  - `Inv` holds in every state the controller can reach.
  - `Controller` is a class whose fields are the hook's state cells and its
    ref. Its methods update those fields in the source's order. Each method
    is proved to produce exactly `After*(old state)` and to keep `Inv`.
- The callbacks are modelled as a log, with one `Notification` per call, in
  call order. `onChange(d)` is `Changed(d)`, `onSubmit(d)` is `Submitted(d)`,
  and `onStateChange(st)` is `StateChanged(st)`.
- `EditableRoot`, `EditableInput` and `EditablePreview` model the three
  components. Each handler is a pure decision function returning the action
  it calls, if any. Each also has a method that calls that action on a
  `Controller`, proved to do exactly what the decision says.
- The DOM is reduced to the set of nodes the root element contains, so
  `root.contains(n)` becomes `n in region`. A root that is not mounted yet
  is `None`.
- `EditableWidget` assembles the parts as the test harness's `BasicEditable`
  does: root, read view, input and the three trigger buttons.
  - `Route` sends each UI event to the handler that receives it, and `Run`
    plays a sequence of events.
  - Its lemmas hold for every event sequence: the invariant is kept, the
    filler never leaks, read-view events only start editing, and some
    signals are inert.
  - Scenario lemmas replay the test suite's interactions for arbitrary
    strings.

Places where the code does something other than the natural reading, all
modelled as the code does them:

- `edit`, `cancel` and `submit` do not check `isEditing`.
  - A second `edit()` takes a new snapshot and drops the draft
    (`RepeatedEditDropsDraft`).
  - `cancel()` or `submit()` while idle still fires its callbacks.
  - Only the callers guard: the listeners, and the input's `!isEditing`
    checks.
- The read view's click handlers are not gated on editing. A click under
  `"focus"` while editing starts `edit()` again and drops the draft
  (`ClickWhileEditingResetsDraft`).
- The length clamp applies only in `setInputValue`. `edit()` copies the
  value into the draft unclamped, so "draft within `maxLength`" holds after
  typing but is not an invariant.
- A negative `maxLength` makes `slice(0, n)` count back from the end of the
  string. `ClampToMaxLength` models that as written.
- The value is controlled whenever the `value` option is not `undefined`;
  `null` counts as controlled. Submitting a controlled editable only reports
  the draft. The shown value changes only when the owner passes the new
  value back (`AfterValueProp`).
- The input and the read view call `edit("click")`, `edit("dblclick")` and
  `edit("trigger")`, but the hook's `edit` takes no parameter. The hook also
  returns no `activationSource`, so the select-all choice in the input's
  focus effect never sees one.
- The edit and submit triggers compute `disabled ?? ctx.disabled ??
  ctx.readOnly`, and the cancel trigger computes `disabled ?? ctx.disabled`.
  Because `ctx.disabled` is always a boolean, `readOnly` disables none of
  them.

## Model

| member | source | states |
|---|---|---|
| UseEditable.Resolve | src/editable/useEditable.ts:81-99 | an option left undefined takes its default: activation `"focus"`, submit `"blur"`, and `false` for the flags; a given option passes through unchanged |
| UseEditable.Value | src/editable/useEditable.ts:101-104 | the value is the owner's when controlled and the internal cell otherwise; a definition, whose consequences are stated by `AfterSubmit`, `AfterValueProp` and `EditableWidget.ControlledValueIsOwners` |
| UseEditable.IsEmpty | src/editable/useEditable.ts:115-118 | `isEmpty`: the draft while editing, the value otherwise, is `null` or `""`; a definition, whose facts are stated by `EditablePreview.ShowPlaceholder` and `EditKeepsEmptiness` |
| UseEditable.Init | src/editable/useEditable.ts:101-113 | under both modes, the first state has the cell at `defaultValue` (default `""`); the value is the owner's when controlled and the cell otherwise; editing equals `startWithEditMode`; draft is `value ?? ""`; the snapshot is the value; the log is empty; the invariant holds |
| UseEditable.ClampToMaxLength | src/editable/useEditable.ts:145-153 | the result is always a prefix of the input; it is the input unchanged when `maxLength` is unset or not exceeded; it is exactly the first N units when 0 <= N < length; it is at most N units long; a negative N gives length plus N, floored at 0 |
| UseEditable.AfterEdit | src/editable/useEditable.ts:120-126 | when disabled or read-only, nothing changes and nothing is reported; otherwise the snapshot becomes the value, the draft becomes `value ?? ""`, editing starts, value and mode stay, and exactly `"edit"` is appended |
| UseEditable.AfterCancel | src/editable/useEditable.ts:128-132 | editing stops; draft is `previous ?? ""`; value, mode, cell and snapshot unchanged; exactly `"cancel"` appended, never `onChange`/`onSubmit` |
| UseEditable.AfterSubmit | src/editable/useEditable.ts:134-143 | editing stops; uncontrolled: the value becomes the draft; controlled: cell and value untouched; appends `onChange(d)`, `onSubmit(d)`, `"submit"` in that order with the same draft `d` |
| UseEditable.AfterSetInputValue | src/editable/useEditable.ts:145-153 | the draft becomes the clamped text; all other state and the log stay as they were |
| UseEditable.AfterValueProp | src/editable/useEditable.ts:101-104 | once the owner passes `value`, the session is controlled and its value is the owner's; draft, cell, editing flag, snapshot and log are unchanged |
| UseEditable.WellFormedAppend | src/editable/useEditable.ts:125-142 | two logs made of whole action calls join into one |
| UseEditable.NotificationOrder | src/editable/useEditable.ts:140-142 | in any reachable log, `onChange(d)` is followed at once by `onSubmit(d)` and then `"submit"`, and `onSubmit(d)` comes right after `onChange(d)` |
| UseEditable.PerformPreservesInv | src/editable/useEditable.ts:120-153 | every action keeps the invariant: the cell is never null, the log holds only whole calls, and an uncontrolled edit under way has the committed value as its snapshot |
| UseEditable.ValuePropPreservesInv | src/editable/useEditable.ts:101-104 | the owner passing a new value keeps the invariant |
| UseEditable.CancelAfterEditRestores | src/editable/useEditable.ts:120-132 | edit, then type, then cancel: the value is unchanged, shown again in the draft, and only `"edit"` and `"cancel"` are reported |
| UseEditable.SubmitAfterEditCommits | src/editable/useEditable.ts:134-153 | edit, then type, then submit: uncontrolled commits the clamped text; controlled only reports it until the owner passes it back; exact log |
| UseEditable.CancelShowsCommittedValue | src/editable/useEditable.ts:122-129 | in an uncontrolled edit under way, cancel makes the draft the committed value |
| UseEditable.EditKeepsEmptiness | src/editable/useEditable.ts:115-124 | after `edit()`, `isEmpty` holds exactly when the value is `null` or `""` |
| UseEditable.RepeatedEditDropsDraft | src/editable/useEditable.ts:120-126 | a second `edit()` while editing resets the draft to the value, snapshots again and reports `"edit"` twice |
| UseEditable.ClampIdempotent | src/editable/useEditable.ts:145-153 | with an unset or non-negative `maxLength`, clamping twice equals clamping once |
| UseEditable.Controller.constructor | src/editable/useEditable.ts:80-113 | the object starts in `Init` of its options, with the resolved configuration, and is valid |
| UseEditable.Controller.Edit | src/editable/useEditable.ts:120-126 | updates the fields to exactly `AfterEdit` of the old state and keeps the invariant |
| UseEditable.Controller.Cancel | src/editable/useEditable.ts:128-132 | updates the fields to exactly `AfterCancel` of the old state and keeps the invariant |
| UseEditable.Controller.Submit | src/editable/useEditable.ts:134-143 | appends the three notifications one call at a time; the fields end at exactly `AfterSubmit` of the old state; keeps the invariant |
| UseEditable.Controller.SetInputValue | src/editable/useEditable.ts:145-153 | stores the clamped text, exactly `AfterSetInputValue`; keeps the invariant |
| UseEditable.Controller.SetValueProp | src/editable/useEditable.ts:101-104 | a new owner value gives exactly `AfterValueProp`; keeps the invariant |
| EditableRoot.DismissAction | src/editable/EditableRoot.tsx:83-89 | dismissal submits if and only if `submitMode` is `"blur"` or `"both"`, and cancels if and only if it is `"enter"` or `"none"` |
| EditableRoot.PointerDownAction | src/editable/EditableRoot.tsx:92-104 | a pointer-down dismisses if and only if editing, the root is mounted, and the root does not contain the target |
| EditableRoot.FocusOutAction | src/editable/EditableRoot.tsx:110-127 | a focus-out dismisses if and only if editing, the root is mounted, and the related target is non-null and outside the root |
| EditableRoot.HiddenField | src/editable/EditableRoot.tsx:152-165 | the form field exists if and only if `name` is non-empty; its value is `value ?? ""`, with the `required` and `disabled` flags |
| EditableRoot.DismissOutcome | src/editable/EditableRoot.tsx:83-89 | a dismissal ends editing; under blur/both it submits and reports the draft (committing it when uncontrolled); under enter/none it reverts the draft to the snapshot, leaves the value and reports only `"cancel"` |
| EditableRoot.SecondDismissalIsInert | src/editable/EditableRoot.tsx:93-125 | once a signal has dismissed, a further pointer-down or focus-out calls nothing |
| EditableRoot.HiddenFieldAfterDismissal | src/editable/EditableRoot.tsx:152-158 | after an uncontrolled submit-dismissal, the form field carries the submitted draft |
| EditableRoot.HandleDismiss | src/editable/EditableRoot.tsx:83-89 | calls `submit` or `cancel` on the controller, exactly as `DismissAction` chooses |
| EditableRoot.OnPointerDown | src/editable/EditableRoot.tsx:92-104 | the controller changes exactly as `PointerDownAction` decides |
| EditableRoot.OnFocusOut | src/editable/EditableRoot.tsx:110-127 | the controller changes exactly as `FocusOutAction` decides |
| EditableInput.EditPlaceholder | src/editable/EditableInput.tsx:17-18 | the input's placeholder is the string itself, or `.edit` of the two-part form, or absent |
| EditableInput.Hidden | src/editable/EditableInput.tsx:69 | the input is hidden if and only if not auto-resizing and not editing |
| EditableInput.KeyDownAction | src/editable/EditableInput.tsx:84-95 | Escape cancels under every submit mode; Enter submits if and only if the mode is enter/both, and calls nothing if and only if it is blur/none; other keys call nothing |
| EditableInput.FocusAction | src/editable/EditableInput.tsx:74-79 | focus calls `edit` if and only if the activation mode is `"focus"` and not editing |
| EditableInput.DoubleClickAction | src/editable/EditableInput.tsx:96-100 | double-click calls `edit` if and only if the activation mode is `"dblclick"` and not editing |
| EditableInput.EscapeCancels | src/editable/EditableInput.tsx:85-87 | Escape always ends editing, keeps the value, restores the snapshot into the draft, and reports only `"cancel"` |
| EditableInput.EnterIgnoredWithoutEnterMode | src/editable/EditableInput.tsx:88-93 | under blur and none, Enter leaves the whole state unchanged |
| EditableInput.ActivationWhileEditingKeepsDraft | src/editable/EditableInput.tsx:74-100 | focus or double-click while editing leaves the whole state unchanged |
| EditableInput.TypedTextIsClamped | src/editable/EditableInput.tsx:73 | typed text is stored cut to a non-negative `maxLength`, and is a prefix of what was typed |
| EditableInput.OnChange | src/editable/EditableInput.tsx:73 | the controller changes exactly as `setInputValue` of the text |
| EditableInput.OnFocus | src/editable/EditableInput.tsx:74-79 | the controller changes exactly as `FocusAction` decides |
| EditableInput.OnKeyDown | src/editable/EditableInput.tsx:84-95 | the controller changes exactly as `KeyDownAction` decides |
| EditableInput.OnDoubleClick | src/editable/EditableInput.tsx:96-100 | the controller changes exactly as `DoubleClickAction` decides |
| EditablePreview.PreviewPlaceholder | src/editable/EditablePreview.tsx:14-15 | the read view's placeholder is the string itself, or `.preview` of the two-part form, or absent |
| EditablePreview.DisplayValue | src/editable/EditablePreview.tsx:18 | the shown text is the draft when auto-resizing while editing, `value ?? ""` otherwise |
| EditablePreview.IsInteractive | src/editable/EditablePreview.tsx:52 | the read view is a tab stop with a button role when an activation mode is on and it is neither disabled nor read-only; a definition, related to the handlers by `ActivationMatchesInteractive` |
| EditablePreview.ShowPlaceholder | src/editable/EditablePreview.tsx:19 | in every state the rule agrees with `isEmpty`; when auto-resizing while editing it holds exactly when the draft is empty |
| EditablePreview.Hidden | src/editable/EditablePreview.tsx:67-68 | the read view is `display: none` if and only if editing without auto-resize; with auto-resize it never is |
| EditablePreview.ContentToRender | src/editable/EditablePreview.tsx:22-26 | in both modes: when the placeholder is shown, the content is the placeholder if it is non-empty; otherwise it is the display text if that is non-empty; an empty or absent choice becomes the filler with auto-resize and nothing without it; rendered content is never empty, and always present with auto-resize |
| EditablePreview.ClickAction | src/editable/EditablePreview.tsx:28-33 | click calls `edit` if and only if the mode is `"focus"` and the editable is neither disabled nor read-only |
| EditablePreview.DoubleClickAction | src/editable/EditablePreview.tsx:35-40 | double-click calls `edit` if and only if the mode is `"dblclick"` and the editable is neither disabled nor read-only |
| EditablePreview.KeyDownAction | src/editable/EditablePreview.tsx:42-50 | Enter or Space calls `edit` if and only if the mode is focus/dblclick and the editable is neither disabled nor read-only; other keys call nothing |
| EditablePreview.ActivationMatchesInteractive | src/editable/EditablePreview.tsx:52 | keyboard activation works if and only if the read view is interactive (a tab stop with a button role); click or double-click only then, and one of the two does whenever it is |
| EditablePreview.ClickWhileEditingResetsDraft | src/editable/EditablePreview.tsx:28-33 | a click under `"focus"` while editing calls `edit` again, resetting the draft to the value |
| EditablePreview.HandleClick | src/editable/EditablePreview.tsx:28-33 | the controller changes exactly as `ClickAction` decides |
| EditablePreview.HandleDoubleClick | src/editable/EditablePreview.tsx:35-40 | the controller changes exactly as `DoubleClickAction` decides |
| EditablePreview.HandleKeyDown | src/editable/EditablePreview.tsx:42-50 | the controller changes exactly as `KeyDownAction` decides |
| EditableWidget.Route | src/editable/Editable.test.tsx:16-28 | only typing sets the draft, and typing always does; the triggers call `edit`, `submit` and `cancel` unconditionally; owner renders call nothing; read-view events can only call `edit`; input focus or double-click only `edit` when idle; dismissal signals only the dismissal action while editing; input keys only `cancel` or `submit` |
| EditableWidget.Step | src/editable/Editable.test.tsx:16-28 | one event: an owner render sets the controlled value, any other event performs the action `Route` picks; a definition, whose properties are the `Run` lemmas below |
| EditableWidget.Dispatch | src/editable/Editable.test.tsx:16-28 | one UI event on the controller object, through its handler, gives exactly `Step`; keeps the invariant |
| EditableWidget.StepPreservesInv | src/editable/useEditable.ts:101-153 | any single UI event keeps the invariant |
| EditableWidget.RunPreservesInv | src/editable/useEditable.ts:120-153 | every sequence of UI events keeps the invariant |
| EditableWidget.RunAppend | src/editable/Editable.test.tsx:16-28 | playing two event sequences one after the other is playing their concatenation |
| EditableWidget.DisabledNeverEdits | src/editable/useEditable.ts:121 | a disabled or read-only editable that is idle is still idle after any activation attempts, and nothing is reported |
| EditableWidget.ControlledValueIsOwners | src/editable/useEditable.ts:101-143 | in controlled mode, until the owner passes a new value, no event sequence changes the value, the mode or the internal cell, `submit` included |
| EditableWidget.PreviewOnlyStartsEditing | src/editable/EditablePreview.tsx:28-50 | read-view events leave the value, mode and cell as they were; they only append `"edit"` entries |
| EditableWidget.FocusInsideNeverDismisses | src/editable/EditableRoot.tsx:115-122 | focus-outs to nodes inside the root, or to nothing, leave the whole state unchanged |
| EditableWidget.IdleSignalsAreInert | src/editable/EditableRoot.tsx:92-113 | when idle, pointer-downs and focus-outs anywhere leave the whole state unchanged |
| EditableWidget.PrefixFillerFree | src/editable/useEditable.ts:147-148 | a prefix of filler-free text is filler-free |
| EditableWidget.StepKeepsFillerOut | src/editable/EditablePreview.tsx:22-26 | a UI event that brings in no filler adds none to the state or the log |
| EditableWidget.RunKeepsFillerOut | src/editable/EditablePreview.tsx:22-26 | starting filler-free, with no typed or owner text that has the filler, the filler never reaches the state, `onChange` or `onSubmit` |
| EditableWidget.SubmitTriggerScenario | src/editable/Editable.test.tsx:164-186 | edit trigger, typing, submit trigger: the text is committed, with the exact log |
| EditableWidget.CancelTriggerScenario | src/editable/Editable.test.tsx:188-201 | edit trigger, typing, cancel trigger: the original value is back, with only `"edit"` and `"cancel"` reported |
| EditableWidget.MaxLengthScenario | src/editable/Editable.test.tsx:560-573 | with `maxLength` 5, ten typed units commit as the first five |
| EditableWidget.OutsidePointerDownScenario | src/editable/Editable.test.tsx:205-222 | after typing, an outside pointer-down submits under blur, and cancels under none with the value left unchanged |
| EditableWidget.EscapeScenario | src/editable/Editable.test.tsx:405-420 | under enter, Escape after typing keeps the value and reports `"cancel"` |
| EditableWidget.TabToTriggersScenario | src/editable/Editable.test.tsx:261-322 | tabbing through the edit, submit and cancel triggers keeps editing and reports nothing; then the submit trigger commits and the cancel trigger reverts |
| EditableWidget.TabOutScenario | src/editable/Editable.test.tsx:224-351 | tabbing past the three triggers to an outside button submits under blur, and cancels under none |
| EditableWidget.ControlledScenario | src/editable/Editable.test.tsx:513-539 | in controlled mode with no `defaultValue`, submit reports the new text while the value stays the owner's and the internal cell stays `""`; after the owner feeds it back, the new text is the value |
| EditableWidget.ClearedAutoResizeScenario | src/editable/EditablePreview.tsx:18-26 | clearing an auto-resizing input shows the filler, yet submit reports `""` |
| EditableWidget.PlaceholderForms | src/editable/Editable.test.tsx:67-85 | a single placeholder string is shared by input and read view; the two-part form gives each its own part |
| EditableWidget.OneViewAtATime | src/editable/EditableInput.tsx:69 | without auto-resize, exactly one of input and read view is shown; with it, neither is hidden |
| EditableWidget.DismissTwice | src/editable/EditableRoot.tsx:92-127 | on the controller object, a second outside pointer-down and a later focus-out after a submitting dismissal change nothing; the log has one submit |

## Left out

- React render timing, batching and stale closures are left out. State
  updates take effect at once, and the listeners exist exactly while
  editing. With the render-time closures of the source, `submit()` reads
  the draft of the last render; in a sequential model that is the current
  draft.
- Optional callbacks are left out. The log records every `onChange`,
  `onSubmit` and `onStateChange` call as if all three callbacks were
  provided; the `?.` calls skip only the call itself.
- DOM effects are left out: `focus`, `select`, `setSelectionRange` and
  `preventDefault`. So are the input's native `maxLength` attribute, all
  CSS and the auto-resize grid styles, the `data-*` attributes, and the
  render-prop object, which only hands state and actions to children.
- The activation source and the select-on-focus choice are left out. The
  hook's `edit` ignores its argument, so the select-all decision has no
  state to model. `selectOnFocus` only affects selection.
- `dir` is left out; it is passed through to the root element.
- `EditableContext` is left out. It is provider plumbing, so the controller
  is passed in directly.
- `EditableArea` is left out; its attributes copy state.
- The trigger buttons are modelled only as direct calls of `edit`, `submit`
  and `cancel` (`EditableWidget.Route`). Their hidden-unless-editing
  styling is left out, and so is their `disabled` attribute.
- Native event suppression is not modelled: the browser delivers no
  events to disabled or hidden elements. `EditableWidget.Route` delivers
  every event it is given, so it covers more inputs than a browser would
  produce.
- A fractional or `NaN` `maxLength` is not modelled: `Options.maxLength`
  is an integer.
- Switching back to uncontrolled is not modelled. In `AfterValueProp` the
  owner can only pass a value, so the session becomes or stays controlled. The hook also allows a later render
  with `value` `undefined`, which turns the editable back to uncontrolled;
  that switch is not modelled.
- The example application, its header and the build configuration are not
  part of this model.
- The test suite is not modelled as such. Its interactions appear as the
  scenario lemmas in `EditableWidget`.
