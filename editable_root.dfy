/** `EditableRoot`: the dismissal watcher and the hidden form field.

    While editing, a pointer-down anywhere in the document and a focus-out
    leaving the root are watched; either one, when it means "the user left
    the editable", dismisses by submitting or cancelling as `submitMode`
    says. Listeners exist only while editing, so outside editing both
    signals are inert. The DOM is reduced to the set of nodes the root
    element contains (itself included): `root.contains(n)` is `n in region`. */
module EditableRoot {
  import opened Base
  import opened UseEditable

  type NodeId = nat

  /** The nodes the root element contains, the root included. */
  type Region = set<NodeId>

  /** `handleDismiss`: submit under `"blur"` and `"both"`, cancel otherwise. */
  function DismissAction(c: Config): (a: Action)
    ensures a == DoSubmit <==> c.submitMode == Blur || c.submitMode == Both
    ensures a == DoCancel <==> c.submitMode == Enter || c.submitMode == NoSubmit
  {
    match c.submitMode
    case Blur | Both => DoSubmit
    case Enter | NoSubmit => DoCancel
  }

  /** The document's pointer-down listener. `root` is `rootRef.current`
      (`None` before the root element is mounted). */
  function PointerDownAction(c: Config, s: Session, root: Option<Region>, target: NodeId): (r: Option<Action>)
    ensures r.Some? <==> s.isEditing && root.Some? && target !in root.value
    ensures r.Some? ==> r.value == DismissAction(c)
  {
    if !s.isEditing then None
    else if root.None? then None
    else if target !in root.value then Some(DismissAction(c))
    else None
  }

  /** The root's focus-out listener; `related` is the event's `relatedTarget`,
      the element that receives focus, `None` when it is `null`. */
  function FocusOutAction(c: Config, s: Session, root: Option<Region>, related: Option<NodeId>): (r: Option<Action>)
    ensures r.Some? <==> s.isEditing && root.Some? && related.Some? && related.value !in root.value
    ensures r.Some? ==> r.value == DismissAction(c)
  {
    if !s.isEditing then None
    else if root.None? then None
    else if related.Some? && related.value !in root.value then Some(DismissAction(c))
    else None
  }

  /** The hidden `<input>` rendered for form submission. */
  datatype HiddenInput = HiddenInput(name: Text, value: Text, required: bool, disabled: bool)

  /** `{name && <input name={name} value={value ?? ""} required disabled …/>}` */
  function HiddenField(c: Config, s: Session): (r: Option<HiddenInput>)
    ensures r.Some? <==> c.name.Some? && c.name.value != []
    ensures r.Some? ==> r.value == HiddenInput(c.name.value, OrEmpty(Value(s)), c.required, c.disabled)
  {
    if c.name.Some? && c.name.value != [] then
      Some(HiddenInput(c.name.value, OrEmpty(Value(s)), c.required, c.disabled))
    else None
  }

  /** A dismissal submits the draft (committing it when uncontrolled) under
      `"blur"` and `"both"`, and reverts the draft to the snapshot, leaving
      the value alone and reporting no change, under `"enter"` and `"none"`. */
  lemma DismissOutcome(c: Config, s: Session)
    ensures var r := Perform(c, s, DismissAction(c));
            && !r.isEditing
            && ((c.submitMode == Blur || c.submitMode == Both) ==>
                  && (s.mode.Uncontrolled? ==> Value(r) == Some(s.draft))
                  && r.log == s.log + [Changed(s.draft), Submitted(s.draft), StateChanged(SubmitState)])
            && ((c.submitMode == Enter || c.submitMode == NoSubmit) ==>
                  && Value(r) == Value(s)
                  && r.draft == OrEmpty(s.previous)
                  && r.log == s.log + [StateChanged(CancelState)])
  {
  }

  /** Whatever dismissed the session, a further pointer-down or focus-out
      finds editing over and does nothing. */
  lemma SecondDismissalIsInert(c: Config, s: Session, root: Option<Region>, a: Option<Action>,
                               target: NodeId, related: Option<NodeId>)
    requires a == PointerDownAction(c, s, root, target) || a == FocusOutAction(c, s, root, related)
    requires a.Some?
    ensures var r := PerformIfAny(c, s, a);
            && PointerDownAction(c, r, root, target).None?
            && FocusOutAction(c, r, root, related).None?
  {
  }

  /** After a dismissal that submits an uncontrolled session, the form field
      carries the submitted draft. */
  lemma HiddenFieldAfterDismissal(c: Config, s: Session)
    requires c.name.Some? && c.name.value != []
    requires s.mode.Uncontrolled? && (c.submitMode == Blur || c.submitMode == Both)
    ensures HiddenField(c, Perform(c, s, DismissAction(c))) ==
            Some(HiddenInput(c.name.value, s.draft, c.required, c.disabled))
  {
  }

  /** `handleDismiss()` */
  method HandleDismiss(ctl: Controller)
    requires ctl.Valid()
    modifies ctl
    ensures ctl.Valid()
    ensures ctl.Snapshot() == Perform(ctl.config, old(ctl.Snapshot()), DismissAction(ctl.config))
  {
    if ctl.config.submitMode == Blur || ctl.config.submitMode == Both {
      ctl.Submit();
    } else {
      ctl.Cancel();
    }
  }

  /** A pointer-down on `target` reaching the document. */
  method OnPointerDown(ctl: Controller, root: Option<Region>, target: NodeId)
    requires ctl.Valid()
    modifies ctl
    ensures ctl.Valid()
    ensures ctl.Snapshot() == PerformIfAny(ctl.config, old(ctl.Snapshot()),
                                           PointerDownAction(ctl.config, old(ctl.Snapshot()), root, target))
  {
    if !ctl.isEditing {
      return;   // no listener is attached
    }
    if root.None? {
      return;
    }
    if target !in root.value {
      HandleDismiss(ctl);
    }
  }

  /** A focus-out bubbling to the root, focus moving to `related`. */
  method OnFocusOut(ctl: Controller, root: Option<Region>, related: Option<NodeId>)
    requires ctl.Valid()
    modifies ctl
    ensures ctl.Valid()
    ensures ctl.Snapshot() == PerformIfAny(ctl.config, old(ctl.Snapshot()),
                                           FocusOutAction(ctl.config, old(ctl.Snapshot()), root, related))
  {
    if !ctl.isEditing {
      return;   // no listener is attached
    }
    if root.None? {
      return;   // no listener is attached
    }
    if related.Some? && related.value !in root.value {
      HandleDismiss(ctl);
    }
  }
}
