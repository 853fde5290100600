/** `EditableInput`: the text input. Typing goes through `setInputValue`,
    focus and double-click may start editing, Escape cancels and Enter may
    submit. */
module EditableInput {
  import opened Base
  import opened UseEditable

  /** The input's `placeholder` attribute: the string itself, or the `edit`
      text of the two-part form. */
  function EditPlaceholder(c: Config): (r: Option<Text>)
    ensures c.placeholder.None? ==> r.None?
    ensures c.placeholder.Some? && c.placeholder.value.Single? ==> r == Some(c.placeholder.value.text)
    ensures c.placeholder.Some? && c.placeholder.value.Split? ==> r == Some(c.placeholder.value.edit)
  {
    match c.placeholder
    case None => None
    case Some(Single(t)) => Some(t)
    case Some(Split(edit, _)) => Some(edit)
  }

  /** The `hidden` attribute: set only when not auto-resizing and not editing. */
  function Hidden(c: Config, s: Session): (r: bool)
    ensures r ==> !s.isEditing
    ensures !c.autoResize ==> (r <==> !s.isEditing)
    ensures c.autoResize ==> !r
  {
    !c.autoResize && !s.isEditing
  }

  /** `onKeyDown`: Escape cancels in every submit mode; Enter submits only
      under `"enter"` and `"both"`; every other key calls nothing. Key names
      are Dafny strings: they are only compared with ASCII literals. */
  function KeyDownAction(c: Config, key: string): (r: Option<Action>)
    ensures key == "Escape" ==> r == Some(DoCancel)
    ensures key == "Enter" ==> (r == Some(DoSubmit) <==> c.submitMode == Enter || c.submitMode == Both)
    ensures key == "Enter" ==> (r.None? <==> c.submitMode == Blur || c.submitMode == NoSubmit)
    ensures key != "Escape" && key != "Enter" ==> r.None?
  {
    if key == "Escape" then Some(DoCancel)
    else if key == "Enter" then
      match c.submitMode
      case Enter | Both => Some(DoSubmit)
      case Blur | NoSubmit => None
    else None
  }

  /** `onFocus`: edit only under `"focus"` and only when not yet editing. */
  function FocusAction(c: Config, s: Session): (r: Option<Action>)
    ensures r.Some? <==> c.activationMode == Focus && !s.isEditing
    ensures r.Some? ==> r.value == DoEdit
  {
    if c.activationMode == Focus && !s.isEditing then Some(DoEdit) else None
  }

  /** `onDoubleClick`: edit only under `"dblclick"` and only when not yet editing. */
  function DoubleClickAction(c: Config, s: Session): (r: Option<Action>)
    ensures r.Some? <==> c.activationMode == DblClick && !s.isEditing
    ensures r.Some? ==> r.value == DoEdit
  {
    if c.activationMode == DblClick && !s.isEditing then Some(DoEdit) else None
  }

  /** Escape leaves editing without committing, whatever `submitMode` is. */
  lemma EscapeCancels(c: Config, s: Session)
    ensures var r := PerformIfAny(c, s, KeyDownAction(c, "Escape"));
            && !r.isEditing
            && Value(r) == Value(s)
            && r.draft == OrEmpty(s.previous)
            && r.log == s.log + [StateChanged(CancelState)]
  {
  }

  /** Under `"blur"` and `"none"`, Enter changes nothing at all. */
  lemma EnterIgnoredWithoutEnterMode(c: Config, s: Session)
    requires c.submitMode == Blur || c.submitMode == NoSubmit
    ensures PerformIfAny(c, s, KeyDownAction(c, "Enter")) == s
  {
  }

  /** Focusing or double-clicking the input while editing keeps the draft. */
  lemma ActivationWhileEditingKeepsDraft(c: Config, s: Session)
    requires s.isEditing
    ensures PerformIfAny(c, s, FocusAction(c, s)) == s
    ensures PerformIfAny(c, s, DoubleClickAction(c, s)) == s
  {
  }

  /** Typed text is stored cut to a non-negative `maxLength`, and is always
      a prefix of what was typed. */
  lemma TypedTextIsClamped(c: Config, s: Session, t: Text)
    requires c.maxLength.Some? && c.maxLength.value >= 0
    ensures var d := AfterSetInputValue(c, s, t).draft;
            && |d| <= c.maxLength.value
            && d == t[..|d|]
            && (|t| <= c.maxLength.value ==> d == t)
            && (|t| > c.maxLength.value ==> |d| == c.maxLength.value)
  {
  }

  /** `onChange`: the new text goes through `setInputValue`. */
  method OnChange(ctl: Controller, t: Text)
    requires ctl.Valid()
    modifies ctl
    ensures ctl.Valid()
    ensures ctl.Snapshot() == Perform(ctl.config, old(ctl.Snapshot()), DoSetInputValue(t))
  {
    ctl.SetInputValue(t);
  }

  method OnFocus(ctl: Controller)
    requires ctl.Valid()
    modifies ctl
    ensures ctl.Valid()
    ensures ctl.Snapshot() == PerformIfAny(ctl.config, old(ctl.Snapshot()),
                                           FocusAction(ctl.config, old(ctl.Snapshot())))
  {
    if ctl.config.activationMode == Focus && !ctl.isEditing {
      ctl.Edit();
    }
  }

  method OnKeyDown(ctl: Controller, key: string)
    requires ctl.Valid()
    modifies ctl
    ensures ctl.Valid()
    ensures ctl.Snapshot() == PerformIfAny(ctl.config, old(ctl.Snapshot()), KeyDownAction(ctl.config, key))
  {
    if key == "Escape" {
      ctl.Cancel();
    } else if key == "Enter" {
      if ctl.config.submitMode == Enter || ctl.config.submitMode == Both {
        ctl.Submit();
      }
    }
  }

  method OnDoubleClick(ctl: Controller)
    requires ctl.Valid()
    modifies ctl
    ensures ctl.Valid()
    ensures ctl.Snapshot() == PerformIfAny(ctl.config, old(ctl.Snapshot()),
                                           DoubleClickAction(ctl.config, old(ctl.Snapshot())))
  {
    if ctl.config.activationMode == DblClick && !ctl.isEditing {
      ctl.Edit();
    }
  }
}
