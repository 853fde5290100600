/** The assembled widget: a root holding the read view and the input, plus
    the edit, submit and cancel trigger buttons, all sharing one controller.
    Every browser signal becomes a `UiEvent`; each component's handler turns
    it into at most one action on the controller. `Run` plays a sequence of
    events, and the lemmas below hold for every such sequence. */
module EditableWidget {
  import opened Base
  import opened UseEditable
  import EditableRoot
  import EditableInput
  import EditablePreview

  datatype UiEvent =
    | InputKeyDown(key: string)
    | InputFocus
    | InputDoubleClick
    | InputChange(text: Text)
    | PreviewClick
    | PreviewDoubleClick
    | PreviewKeyDown(key: string)
    | EditTriggerClick
    | SubmitTriggerClick
    | CancelTriggerClick
    | DocumentPointerDown(target: EditableRoot.NodeId)
    | RootFocusOut(related: Option<EditableRoot.NodeId>)
    | OwnerValue(value: Option<Text>)   // the owner renders again with a new `value`

  /** The action a handler calls for a UI event; the trigger buttons call
      their command directly, with no mode or editing check. */
  function Route(c: Config, root: Option<EditableRoot.Region>, s: Session, e: UiEvent): (r: Option<Action>)
    ensures (r.Some? && r.value.DoSetInputValue?) <==> e.InputChange?
    ensures e.InputChange? ==> r == Some(DoSetInputValue(e.text))
    ensures e.EditTriggerClick? ==> r == Some(DoEdit)
    ensures e.SubmitTriggerClick? ==> r == Some(DoSubmit)
    ensures e.CancelTriggerClick? ==> r == Some(DoCancel)
    ensures e.OwnerValue? ==> r.None?
    ensures IsPreviewEvent(e) && r.Some? ==> r.value == DoEdit
    ensures (e.InputFocus? || e.InputDoubleClick?) && r.Some? ==> r.value == DoEdit && !s.isEditing
    ensures (e.DocumentPointerDown? || e.RootFocusOut?) && r.Some? ==>
              s.isEditing && r.value == EditableRoot.DismissAction(c)
    ensures e.InputKeyDown? && r.Some? ==> r.value == DoCancel || r.value == DoSubmit
  {
    match e
    case InputKeyDown(key) => EditableInput.KeyDownAction(c, key)
    case InputFocus => EditableInput.FocusAction(c, s)
    case InputDoubleClick => EditableInput.DoubleClickAction(c, s)
    case InputChange(t) => Some(DoSetInputValue(t))
    case PreviewClick => EditablePreview.ClickAction(c)
    case PreviewDoubleClick => EditablePreview.DoubleClickAction(c)
    case PreviewKeyDown(key) => EditablePreview.KeyDownAction(c, key)
    case EditTriggerClick => Some(DoEdit)
    case SubmitTriggerClick => Some(DoSubmit)
    case CancelTriggerClick => Some(DoCancel)
    case DocumentPointerDown(target) => EditableRoot.PointerDownAction(c, s, root, target)
    case RootFocusOut(related) => EditableRoot.FocusOutAction(c, s, root, related)
    case OwnerValue(_) => None
  }

  function Step(c: Config, root: Option<EditableRoot.Region>, s: Session, e: UiEvent): Session {
    if e.OwnerValue? then AfterValueProp(s, e.value) else PerformIfAny(c, s, Route(c, root, s, e))
  }

  function Run(c: Config, root: Option<EditableRoot.Region>, s: Session, es: seq<UiEvent>): Session
    decreases |es|
  {
    if es == [] then s else Run(c, root, Step(c, root, s, es[0]), es[1..])
  }

  /** One UI event on the controller object. */
  method Dispatch(ctl: Controller, root: Option<EditableRoot.Region>, e: UiEvent)
    requires ctl.Valid()
    modifies ctl
    ensures ctl.Valid()
    ensures ctl.Snapshot() == Step(ctl.config, root, old(ctl.Snapshot()), e)
  {
    match e
    case InputKeyDown(key) => EditableInput.OnKeyDown(ctl, key);
    case InputFocus => EditableInput.OnFocus(ctl);
    case InputDoubleClick => EditableInput.OnDoubleClick(ctl);
    case InputChange(t) => EditableInput.OnChange(ctl, t);
    case PreviewClick => EditablePreview.HandleClick(ctl);
    case PreviewDoubleClick => EditablePreview.HandleDoubleClick(ctl);
    case PreviewKeyDown(key) => EditablePreview.HandleKeyDown(ctl, key);
    case EditTriggerClick => ctl.Edit();
    case SubmitTriggerClick => ctl.Submit();
    case CancelTriggerClick => ctl.Cancel();
    case DocumentPointerDown(target) => EditableRoot.OnPointerDown(ctl, root, target);
    case RootFocusOut(related) => EditableRoot.OnFocusOut(ctl, root, related);
    case OwnerValue(v) => ctl.SetValueProp(v);
  }

  lemma StepPreservesInv(c: Config, root: Option<EditableRoot.Region>, s: Session, e: UiEvent)
    requires Inv(s)
    ensures Inv(Step(c, root, s, e))
  {
    if e.OwnerValue? {
      ValuePropPreservesInv(s, e.value);
    } else {
      var a := Route(c, root, s, e);
      if a.Some? {
        PerformPreservesInv(c, s, a.value);
      }
    }
  }

  /** Every state reached from a valid one is valid: in particular the log
      only ever holds whole calls, `onChange(d)`, `onSubmit(d)`, `"submit"`
      together and in that order. */
  lemma {:induction false} RunPreservesInv(c: Config, root: Option<EditableRoot.Region>, s: Session, es: seq<UiEvent>)
    requires Inv(s)
    ensures Inv(Run(c, root, s, es))
    decreases |es|
  {
    if es != [] {
      StepPreservesInv(c, root, s, es[0]);
      RunPreservesInv(c, root, Step(c, root, s, es[0]), es[1..]);
    }
  }

  /** Playing two event sequences one after the other. */
  lemma {:induction false} RunAppend(c: Config, root: Option<EditableRoot.Region>, s: Session,
                                     es: seq<UiEvent>, fs: seq<UiEvent>)
    ensures Run(c, root, s, es + fs) == Run(c, root, Run(c, root, s, es), fs)
    decreases |es|
  {
    if es == [] {
      assert es + fs == fs;
    } else {
      assert (es + fs)[0] == es[0];
      assert (es + fs)[1..] == es[1..] + fs;
      RunAppend(c, root, Step(c, root, s, es[0]), es[1..], fs);
    }
  }

  /** Events that a disabled or read-only editable can still receive from
      the model's point of view: everything but key presses in the input and
      the submit and cancel triggers. */
  predicate IsActivationAttempt(e: UiEvent) {
    !e.InputKeyDown? && !e.SubmitTriggerClick? && !e.CancelTriggerClick?
  }

  /** A disabled or read-only editable that is not editing never starts:
      focus, clicks, double-clicks, the edit trigger and dismissal signals
      leave it idle and report nothing. */
  lemma {:induction false} DisabledNeverEdits(c: Config, root: Option<EditableRoot.Region>, s: Session, es: seq<UiEvent>)
    requires c.disabled || c.readOnly
    requires !s.isEditing
    requires forall i :: 0 <= i < |es| ==> IsActivationAttempt(es[i])
    ensures var r := Run(c, root, s, es);
            !r.isEditing && r.log == s.log
    decreases |es|
  {
    if es != [] {
      var s1 := Step(c, root, s, es[0]);
      assert !s1.isEditing && s1.log == s.log;
      DisabledNeverEdits(c, root, s1, es[1..]);
    }
  }

  /** In controlled mode the value is the owner's whatever the user does:
      until the owner passes a new one, no event changes the value, the mode
      or the internal cell, `submit` included. */
  lemma {:induction false} ControlledValueIsOwners(c: Config, root: Option<EditableRoot.Region>, s: Session, es: seq<UiEvent>)
    requires s.mode.Controlled?
    requires forall i :: 0 <= i < |es| ==> !es[i].OwnerValue?
    ensures var r := Run(c, root, s, es);
            r.mode == s.mode && r.cell == s.cell && Value(r) == Value(s)
    decreases |es|
  {
    if es != [] {
      var s1 := Step(c, root, s, es[0]);
      assert s1.mode == s.mode && s1.cell == s.cell;
      ControlledValueIsOwners(c, root, s1, es[1..]);
    }
  }

  predicate IsPreviewEvent(e: UiEvent) {
    e.PreviewClick? || e.PreviewDoubleClick? || e.PreviewKeyDown?
  }

  /** Read-view events only ever start editing: the value, the mode and the
      cell stay as they are, and the log only gains `"edit"` entries (never
      `onChange` or `onSubmit`, so the layout filler cannot reach them). */
  lemma {:induction false} PreviewOnlyStartsEditing(c: Config, root: Option<EditableRoot.Region>, s: Session, es: seq<UiEvent>)
    requires forall i :: 0 <= i < |es| ==> IsPreviewEvent(es[i])
    ensures var r := Run(c, root, s, es);
            && r.mode == s.mode && r.cell == s.cell && Value(r) == Value(s)
            && |s.log| <= |r.log| && r.log[..|s.log|] == s.log
            && forall i :: |s.log| <= i < |r.log| ==> r.log[i] == StateChanged(EditState)
    decreases |es|
  {
    if es != [] {
      var s1 := Step(c, root, s, es[0]);
      assert s1.mode == s.mode && s1.cell == s.cell;
      assert s1.log == s.log || s1.log == s.log + [StateChanged(EditState)];
      PreviewOnlyStartsEditing(c, root, s1, es[1..]);
      var r := Run(c, root, s1, es[1..]);
      assert r == Run(c, root, s, es);
      assert r.log[..|s1.log|] == s1.log;
      assert r.log[..|s.log|] == s1.log[..|s.log|];
    }
  }

  /** Moving focus among nodes inside the root, such as the submit and cancel
      triggers, or to nowhere, never dismisses: nothing changes at all. */
  lemma {:induction false} FocusInsideNeverDismisses(c: Config, root: Option<EditableRoot.Region>, s: Session, es: seq<UiEvent>)
    requires root.Some?
    requires forall i :: 0 <= i < |es| ==>
               es[i].RootFocusOut? && (es[i].related.None? || es[i].related.value in root.value)
    ensures Run(c, root, s, es) == s
    decreases |es|
  {
    if es != [] {
      assert Step(c, root, s, es[0]) == s;
      FocusInsideNeverDismisses(c, root, s, es[1..]);
    }
  }

  /** Outside editing no dismissal listener is attached: pointer-downs and
      focus-outs, wherever they land, change nothing. */
  lemma {:induction false} IdleSignalsAreInert(c: Config, root: Option<EditableRoot.Region>, s: Session, es: seq<UiEvent>)
    requires !s.isEditing
    requires forall i :: 0 <= i < |es| ==> es[i].DocumentPointerDown? || es[i].RootFocusOut?
    ensures Run(c, root, s, es) == s
    decreases |es|
  {
    if es != [] {
      assert Step(c, root, s, es[0]) == s;
      IdleSignalsAreInert(c, root, s, es[1..]);
    }
  }

  predicate FillerFree(t: Text) {
    ZeroWidthSpace !in t
  }

  predicate OptionFillerFree(v: Option<Text>) {
    v.None? || FillerFree(v.value)
  }

  predicate NotificationFillerFree(n: Notification) {
    n.StateChanged? || FillerFree(n.value)
  }

  /** No text held in the session, reported ones included, has the filler. */
  predicate SessionFillerFree(s: Session) {
    && (s.mode.Controlled? ==> OptionFillerFree(s.mode.ext))
    && OptionFillerFree(s.cell)
    && FillerFree(s.draft)
    && OptionFillerFree(s.previous)
    && forall i :: 0 <= i < |s.log| ==> NotificationFillerFree(s.log[i])
  }

  /** The event brings in no text with the filler (typed text, owner value). */
  predicate EventFillerFree(e: UiEvent) {
    match e
    case InputChange(t) => FillerFree(t)
    case OwnerValue(v) => OptionFillerFree(v)
    case _ => true
  }

  lemma PrefixFillerFree(t: Text, d: Text)
    requires FillerFree(t) && |d| <= |t| && d == t[..|d|]
    ensures FillerFree(d)
  {
  }

  lemma StepKeepsFillerOut(c: Config, root: Option<EditableRoot.Region>, s: Session, e: UiEvent)
    requires SessionFillerFree(s) && EventFillerFree(e)
    ensures SessionFillerFree(Step(c, root, s, e))
  {
    var r := Step(c, root, s, e);
    if !e.OwnerValue? {
      var a := Route(c, root, s, e);
      if a.Some? && a.value.DoSetInputValue? {
        assert e.InputChange? && a.value.text == e.text;
        PrefixFillerFree(e.text, r.draft);
      }
      if a.Some? && a.value.DoSubmit? {
        assert r.log == s.log + [Changed(s.draft), Submitted(s.draft), StateChanged(SubmitState)];
        assert forall i :: |s.log| <= i < |r.log| ==> NotificationFillerFree(r.log[i]);
      }
    }
  }

  /** The zero-width filler shown by an empty auto-resized read view never
      reaches the state, `onChange` or `onSubmit`, as long as neither the
      starting state nor any typed or owner-supplied text contains it. */
  lemma {:induction false} RunKeepsFillerOut(c: Config, root: Option<EditableRoot.Region>, s: Session, es: seq<UiEvent>)
    requires SessionFillerFree(s)
    requires forall i :: 0 <= i < |es| ==> EventFillerFree(es[i])
    ensures SessionFillerFree(Run(c, root, s, es))
    decreases |es|
  {
    if es != [] {
      StepKeepsFillerOut(c, root, s, es[0]);
      RunKeepsFillerOut(c, root, Step(c, root, s, es[0]), es[1..]);
    }
  }

  /** The test harness's layout: the root holds the input, the read view and
      the three trigger buttons. */
  datatype Layout = Layout(region: EditableRoot.Region, input: EditableRoot.NodeId, preview: EditableRoot.NodeId,
                           editTrigger: EditableRoot.NodeId, submitTrigger: EditableRoot.NodeId,
                           cancelTrigger: EditableRoot.NodeId)

  predicate Mounted(l: Layout) {
    && l.input in l.region && l.preview in l.region && l.editTrigger in l.region
    && l.submitTrigger in l.region && l.cancelTrigger in l.region
  }

  /** Options with a default value, an activation mode and a submit mode. */
  function WithModes(orig: Text, am: ActivationMode, sm: SubmitMode): Options {
    NoOptions.(defaultValue := Some(orig), activationMode := Some(am), submitMode := Some(sm))
  }

  /** Edit trigger, type, submit trigger: the typed text is committed and
      reported once through `onChange`, `onSubmit` and `"submit"`. */
  lemma SubmitTriggerScenario(orig: Text, upd: Text, root: Option<EditableRoot.Region>)
    ensures var o := WithModes(orig, NoActivation, NoSubmit);
            var r := Run(Resolve(o), root, Init(o), [EditTriggerClick, InputChange(upd), SubmitTriggerClick]);
            && Value(r) == Some(upd) && !r.isEditing
            && r.log == [StateChanged(EditState), Changed(upd), Submitted(upd), StateChanged(SubmitState)]
  {
    var o := WithModes(orig, NoActivation, NoSubmit);
    var c, s0 := Resolve(o), Init(o);
    var s1 := Step(c, root, s0, EditTriggerClick);
    var s2 := Step(c, root, s1, InputChange(upd));
    var s3 := Step(c, root, s2, SubmitTriggerClick);
    assert Run(c, root, s2, [SubmitTriggerClick]) == s3;
    assert Run(c, root, s1, [InputChange(upd), SubmitTriggerClick]) == s3;
  }

  /** Edit trigger, type, cancel trigger: the original value is shown again
      and only `"edit"` and `"cancel"` are reported. */
  lemma CancelTriggerScenario(orig: Text, changed: Text, root: Option<EditableRoot.Region>)
    ensures var o := WithModes(orig, NoActivation, NoSubmit);
            var r := Run(Resolve(o), root, Init(o), [EditTriggerClick, InputChange(changed), CancelTriggerClick]);
            && Value(r) == Some(orig) && r.draft == orig && !r.isEditing
            && r.log == [StateChanged(EditState), StateChanged(CancelState)]
  {
    var o := WithModes(orig, NoActivation, NoSubmit);
    var c, s0 := Resolve(o), Init(o);
    var s1 := Step(c, root, s0, EditTriggerClick);
    var s2 := Step(c, root, s1, InputChange(changed));
    var s3 := Step(c, root, s2, CancelTriggerClick);
    assert Run(c, root, s2, [CancelTriggerClick]) == s3;
    assert Run(c, root, s1, [InputChange(changed), CancelTriggerClick]) == s3;
  }

  /** With `maxLength = 5`, ten typed characters commit as their first five. */
  lemma MaxLengthScenario(t: Text, root: Option<EditableRoot.Region>)
    requires |t| == 10
    ensures var o := WithModes([], NoActivation, NoSubmit).(maxLength := Some(5));
            var r := Run(Resolve(o), root, Init(o), [EditTriggerClick, InputChange(t), SubmitTriggerClick]);
            Value(r) == Some(t[..5])
  {
    var o := WithModes([], NoActivation, NoSubmit).(maxLength := Some(5));
    var c, s0 := Resolve(o), Init(o);
    var s1 := Step(c, root, s0, EditTriggerClick);
    var s2 := Step(c, root, s1, InputChange(t));
    var s3 := Step(c, root, s2, SubmitTriggerClick);
    assert s2.draft == t[..5];
    assert Run(c, root, s2, [SubmitTriggerClick]) == s3;
    assert Run(c, root, s1, [InputChange(t), SubmitTriggerClick]) == s3;
  }

  /** Focus the input, type, press outside the root: under `"blur"` the text
      is committed and reported; under `"none"` the edit is cancelled. */
  lemma OutsidePointerDownScenario(orig: Text, nv: Text, sm: SubmitMode, region: EditableRoot.Region,
                                    outside: EditableRoot.NodeId)
    requires outside !in region
    requires sm == Blur || sm == NoSubmit
    ensures var o := WithModes(orig, Focus, sm);
            var r := Run(Resolve(o), Some(region), Init(o),
                         [InputFocus, InputChange(nv), DocumentPointerDown(outside)]);
            && !r.isEditing
            && (sm == Blur ==>
                  Value(r) == Some(nv) &&
                  r.log == [StateChanged(EditState), Changed(nv), Submitted(nv), StateChanged(SubmitState)])
            && (sm == NoSubmit ==>
                  Value(r) == Some(orig) && r.draft == orig &&
                  r.log == [StateChanged(EditState), StateChanged(CancelState)])
  {
    var o := WithModes(orig, Focus, sm);
    var c, s0 := Resolve(o), Init(o);
    var root := Some(region);
    var s1 := Step(c, root, s0, InputFocus);
    var s2 := Step(c, root, s1, InputChange(nv));
    var s3 := Step(c, root, s2, DocumentPointerDown(outside));
    assert Run(c, root, s2, [DocumentPointerDown(outside)]) == s3;
    assert Run(c, root, s1, [InputChange(nv), DocumentPointerDown(outside)]) == s3;
  }

  /** Under `"enter"`, Escape after typing cancels: the value is unchanged
      and `"cancel"` is reported once. */
  lemma EscapeScenario(orig: Text, changed: Text, root: Option<EditableRoot.Region>)
    ensures var o := WithModes(orig, Focus, Enter);
            var r := Run(Resolve(o), root, Init(o), [InputFocus, InputChange(changed), InputKeyDown("Escape")]);
            && Value(r) == Some(orig) && !r.isEditing
            && r.log == [StateChanged(EditState), StateChanged(CancelState)]
  {
    var o := WithModes(orig, Focus, Enter);
    var c, s0 := Resolve(o), Init(o);
    var s1 := Step(c, root, s0, InputFocus);
    var s2 := Step(c, root, s1, InputChange(changed));
    var s3 := Step(c, root, s2, InputKeyDown("Escape"));
    assert Run(c, root, s2, [InputKeyDown("Escape")]) == s3;
    assert Run(c, root, s1, [InputChange(changed), InputKeyDown("Escape")]) == s3;
  }

  /** Under `"blur"`, tabbing from the input through the edit, submit and
      cancel triggers, in document order, keeps editing and reports nothing but `"edit"`;
      a click on the cancel trigger then reverts without any `onSubmit`. */
  lemma TabToTriggersScenario(orig: Text, pending: Text, l: Layout)
    requires Mounted(l)
    ensures var o := WithModes(orig, NoActivation, Blur);
            var c, root := Resolve(o), Some(l.region);
            var r := Run(c, root, Init(o), [EditTriggerClick, InputChange(pending), RootFocusOut(Some(l.editTrigger)),
                                            RootFocusOut(Some(l.submitTrigger)), RootFocusOut(Some(l.cancelTrigger))]);
            && r.isEditing && r.draft == pending
            && r.log == [StateChanged(EditState)]
            && (var r' := Step(c, root, r, CancelTriggerClick);
                Value(r') == Some(orig) && r'.log == [StateChanged(EditState), StateChanged(CancelState)])
            && (var r' := Step(c, root, r, SubmitTriggerClick);
                Value(r') == Some(pending) &&
                r'.log == [StateChanged(EditState), Changed(pending), Submitted(pending), StateChanged(SubmitState)])
  {
    var o := WithModes(orig, NoActivation, Blur);
    var c, root := Resolve(o), Some(l.region);
    var s0 := Init(o);
    var s1 := Step(c, root, s0, EditTriggerClick);
    var s2 := Step(c, root, s1, InputChange(pending));
    var tabs := [RootFocusOut(Some(l.editTrigger)), RootFocusOut(Some(l.submitTrigger)),
                 RootFocusOut(Some(l.cancelTrigger))];
    FocusInsideNeverDismisses(c, root, s2, tabs);
    assert Run(c, root, s1, [InputChange(pending)] + tabs) == s2;
    assert [EditTriggerClick, InputChange(pending), RootFocusOut(Some(l.editTrigger)),
            RootFocusOut(Some(l.submitTrigger)), RootFocusOut(Some(l.cancelTrigger))][1..]
           == [InputChange(pending)] + tabs;
  }

  /** Tabbing from the input past the three triggers to a button outside the
      root dismisses: under `"blur"` the text is committed and reported,
      under `"none"` the edit is cancelled and nothing is submitted. */
  lemma TabOutScenario(orig: Text, changed: Text, sm: SubmitMode, l: Layout, outside: EditableRoot.NodeId)
    requires Mounted(l) && outside !in l.region
    requires sm == Blur || sm == NoSubmit
    ensures var o := WithModes(orig, NoActivation, sm);
            var r := Run(Resolve(o), Some(l.region), Init(o),
                         [EditTriggerClick, InputChange(changed), RootFocusOut(Some(l.editTrigger)),
                          RootFocusOut(Some(l.submitTrigger)), RootFocusOut(Some(l.cancelTrigger)),
                          RootFocusOut(Some(outside))]);
            && !r.isEditing
            && (sm == Blur ==>
                  Value(r) == Some(changed) &&
                  r.log == [StateChanged(EditState), Changed(changed), Submitted(changed), StateChanged(SubmitState)])
            && (sm == NoSubmit ==>
                  Value(r) == Some(orig) && r.draft == orig &&
                  r.log == [StateChanged(EditState), StateChanged(CancelState)])
  {
    var o := WithModes(orig, NoActivation, sm);
    var c, root := Resolve(o), Some(l.region);
    var s0 := Init(o);
    var s1 := Step(c, root, s0, EditTriggerClick);
    var s2 := Step(c, root, s1, InputChange(changed));
    var tabs := [RootFocusOut(Some(l.editTrigger)), RootFocusOut(Some(l.submitTrigger)),
                 RootFocusOut(Some(l.cancelTrigger))];
    FocusInsideNeverDismisses(c, root, s2, tabs);
    RunAppend(c, root, s2, tabs, [RootFocusOut(Some(outside))]);
    var s5 := Step(c, root, s2, RootFocusOut(Some(outside)));
    assert Run(c, root, s2, [RootFocusOut(Some(outside))]) == s5;
    assert [EditTriggerClick, InputChange(changed), RootFocusOut(Some(l.editTrigger)),
            RootFocusOut(Some(l.submitTrigger)), RootFocusOut(Some(l.cancelTrigger)),
            RootFocusOut(Some(outside))][1..][1..]
           == tabs + [RootFocusOut(Some(outside))];
  }

  /** A controlled editable whose owner stores `onChange`'s value: submit
      reports the text while the value is still the owner's; once the owner
      feeds it back the new text is the value. */
  lemma ControlledScenario(orig: Text, nv: Text, root: Option<EditableRoot.Region>)
    ensures var o := NoOptions.(value := Controlled(Some(orig)), activationMode := Some(NoActivation), submitMode := Some(NoSubmit));
            var c := Resolve(o);
            var r := Run(c, root, Init(o), [EditTriggerClick, InputChange(nv), SubmitTriggerClick]);
            && Value(r) == Some(orig) && r.cell == Some([])
            && r.log == [StateChanged(EditState), Changed(nv), Submitted(nv), StateChanged(SubmitState)]
            && Value(Step(c, root, r, OwnerValue(Some(nv)))) == Some(nv)
  {
    var o := NoOptions.(value := Controlled(Some(orig)), activationMode := Some(NoActivation), submitMode := Some(NoSubmit));
    var c, s0 := Resolve(o), Init(o);
    var s1 := Step(c, root, s0, EditTriggerClick);
    var s2 := Step(c, root, s1, InputChange(nv));
    var s3 := Step(c, root, s2, SubmitTriggerClick);
    assert Run(c, root, s2, [SubmitTriggerClick]) == s3;
    assert Run(c, root, s1, [InputChange(nv), SubmitTriggerClick]) == s3;
  }

  /** Auto-resizing with no placeholder: clearing the input shows the filler
      in the read view, yet the submit reports the empty string. */
  lemma ClearedAutoResizeScenario(orig: Text, root: Option<EditableRoot.Region>)
    ensures var o := WithModes(orig, NoActivation, NoSubmit).(autoResize := Some(true));
            var c := Resolve(o);
            var r := Run(c, root, Init(o), [EditTriggerClick, InputChange([])]);
            && EditablePreview.ContentToRender(c, r) == Some(Filler)
            && Step(c, root, r, SubmitTriggerClick).log ==
               [StateChanged(EditState), Changed([]), Submitted([]), StateChanged(SubmitState)]
  {
    var o := WithModes(orig, NoActivation, NoSubmit).(autoResize := Some(true));
    var c, s0 := Resolve(o), Init(o);
    var s1 := Step(c, root, s0, EditTriggerClick);
    var s2 := Step(c, root, s1, InputChange([]));
    assert Run(c, root, s1, [InputChange([])]) == s2;
    assert s2.isEditing && s2.draft == [];
  }

  /** With one placeholder string, the input and the read view show the
      same text; with the two-part form each shows its own. */
  lemma PlaceholderForms(c: Config)
    ensures c.placeholder.Some? && c.placeholder.value.Single? ==>
              EditableInput.EditPlaceholder(c) == EditablePreview.PreviewPlaceholder(c)
    ensures c.placeholder.Some? && c.placeholder.value.Split? ==>
              EditableInput.EditPlaceholder(c) == Some(c.placeholder.value.edit) &&
              EditablePreview.PreviewPlaceholder(c) == Some(c.placeholder.value.preview)
  {
  }

  /** Without auto-resize exactly one of the input and the read view is on
      the page; with it both stay in the layout. */
  lemma OneViewAtATime(c: Config, s: Session)
    ensures !c.autoResize ==> (EditableInput.Hidden(c, s) <==> !EditablePreview.Hidden(c, s))
    ensures c.autoResize ==> !EditableInput.Hidden(c, s) && !EditablePreview.Hidden(c, s)
  {
  }

  /** The controller object run through a pointer-down outside twice: the
      first one dismisses, the second finds no listener and does nothing. */
  method DismissTwice(orig: Text, nv: Text, region: EditableRoot.Region, outside: EditableRoot.NodeId)
    returns (value: Option<Text>, log: seq<Notification>)
    requires outside !in region
    ensures value == Some(nv)
    ensures log == [StateChanged(EditState), Changed(nv), Submitted(nv), StateChanged(SubmitState)]
  {
    var ctl := new Controller(WithModes(orig, Focus, Blur));
    Dispatch(ctl, Some(region), InputFocus);
    Dispatch(ctl, Some(region), InputChange(nv));
    Dispatch(ctl, Some(region), DocumentPointerDown(outside));
    Dispatch(ctl, Some(region), DocumentPointerDown(outside));
    Dispatch(ctl, Some(region), RootFocusOut(Some(outside)));
    value := Value(ctl.Snapshot());
    log := ctl.log;
  }
}
