/** `EditablePreview`: the read view. It shows the value (or, when
    auto-resizing while editing, the draft) or a placeholder, fills an empty
    auto-resized view with a zero-width space, and can only ever start
    editing. */
module EditablePreview {
  import opened Base
  import opened UseEditable

  /** The read view's placeholder: the string itself, or the `preview` text
      of the two-part form. */
  function PreviewPlaceholder(c: Config): (r: Option<Text>)
    ensures c.placeholder.None? ==> r.None?
    ensures c.placeholder.Some? && c.placeholder.value.Single? ==> r == Some(c.placeholder.value.text)
    ensures c.placeholder.Some? && c.placeholder.value.Split? ==> r == Some(c.placeholder.value.preview)
  {
    match c.placeholder
    case None => None
    case Some(Single(t)) => Some(t)
    case Some(Split(_, preview)) => Some(preview)
  }

  /** `displayValue`: the live draft when auto-resizing while editing, the
      committed value (or `""`) otherwise. */
  function DisplayValue(c: Config, s: Session): (r: Text)
    ensures c.autoResize && s.isEditing ==> r == s.draft
    ensures !(c.autoResize && s.isEditing) ==> r == OrEmpty(Value(s))
  {
    if c.autoResize && s.isEditing then s.draft else OrEmpty(Value(s))
  }

  /** `showPlaceholder`. Its two branches agree with `isEmpty` in every
      state: while editing `isEmpty` also looks at the draft. */
  function ShowPlaceholder(c: Config, s: Session): (r: bool)
    ensures r == IsEmpty(s)
    ensures c.autoResize && s.isEditing ==> (r <==> s.draft == [])
  {
    if c.autoResize && s.isEditing then s.draft == [] else IsEmpty(s)
  }

  /** The preview is `display: none` while editing unless auto-resizing. */
  function Hidden(c: Config, s: Session): (r: bool)
    ensures r ==> s.isEditing
    ensures !c.autoResize ==> (r <==> s.isEditing)
    ensures c.autoResize ==> !r
  {
    !c.autoResize && s.isEditing
  }

  /** `contentToRender`: the placeholder when shown, the display text
      otherwise; an empty or absent choice becomes the zero-width filler
      when auto-resizing and nothing at all when not. */
  function ContentToRender(c: Config, s: Session): (r: Option<Text>)
    ensures r.Some? ==> r.value != []
    ensures c.autoResize ==> r.Some?
    ensures var p, fb := PreviewPlaceholder(c), if c.autoResize then Some(Filler) else None;
            ShowPlaceholder(c, s) ==> r == (if p.Some? && p.value != [] then p else fb)
    ensures var d, fb := DisplayValue(c, s), if c.autoResize then Some(Filler) else None;
            !ShowPlaceholder(c, s) ==> r == (if d != [] then Some(d) else fb)
    ensures c.autoResize && ShowPlaceholder(c, s) && (PreviewPlaceholder(c) == None || PreviewPlaceholder(c) == Some([])) ==>
              r == Some(Filler)
    ensures r.None? <==>
              !c.autoResize &&
              (if ShowPlaceholder(c, s) then PreviewPlaceholder(c) == None || PreviewPlaceholder(c) == Some([])
               else DisplayValue(c, s) == [])
    ensures c.autoResize && !ShowPlaceholder(c, s) && DisplayValue(c, s) == [] ==> r == Some(Filler)
  {
    var fallback := if c.autoResize then Some(Filler) else None;
    if ShowPlaceholder(c, s) then
      (var p := PreviewPlaceholder(c); if p.Some? && p.value != [] then p else fallback)
    else
      (var d := DisplayValue(c, s); if d != [] then Some(d) else fallback)
  }

  /** The read view is a tab stop with role `button` only when some
      activation mode is on and it is neither disabled nor read-only. */
  function IsInteractive(c: Config): bool {
    c.activationMode != NoActivation && !c.disabled && !c.readOnly
  }

  /** `handleClick` */
  function ClickAction(c: Config): (r: Option<Action>)
    ensures r.Some? <==> c.activationMode == Focus && !c.disabled && !c.readOnly
    ensures r.Some? ==> r.value == DoEdit
  {
    if c.activationMode == Focus && !c.disabled && !c.readOnly then Some(DoEdit) else None
  }

  /** `handleDoubleClick` */
  function DoubleClickAction(c: Config): (r: Option<Action>)
    ensures r.Some? <==> c.activationMode == DblClick && !c.disabled && !c.readOnly
    ensures r.Some? ==> r.value == DoEdit
  {
    if c.activationMode == DblClick && !c.disabled && !c.readOnly then Some(DoEdit) else None
  }

  /** `handleKeyDown`: Enter or Space starts editing under `"focus"` and
      `"dblclick"`. Key names are only compared with ASCII literals, so a
      Dafny string stands for them. */
  function KeyDownAction(c: Config, key: string): (r: Option<Action>)
    ensures r.Some? <==>
              (key == "Enter" || key == " ") && !c.disabled && !c.readOnly &&
              (c.activationMode == Focus || c.activationMode == DblClick)
    ensures r.Some? ==> r.value == DoEdit
  {
    if c.disabled || c.readOnly then None
    else if key == "Enter" || key == " " then
      (if c.activationMode == Focus || c.activationMode == DblClick then Some(DoEdit) else None)
    else None
  }

  /** Keyboard activation works exactly when the read view is interactive,
      and pointer activation only then. */
  lemma ActivationMatchesInteractive(c: Config, key: string)
    requires key == "Enter" || key == " "
    ensures KeyDownAction(c, key).Some? <==> IsInteractive(c)
    ensures ClickAction(c).Some? ==> IsInteractive(c)
    ensures DoubleClickAction(c).Some? ==> IsInteractive(c)
    ensures IsInteractive(c) ==> ClickAction(c).Some? || DoubleClickAction(c).Some?
  {
  }

  /** The read view's handlers are not gated on editing: a click under
      `"focus"` while editing re-runs `edit()` and drops the draft. */
  lemma ClickWhileEditingResetsDraft(c: Config, s: Session)
    requires c.activationMode == Focus && !c.disabled && !c.readOnly && s.isEditing
    ensures var r := PerformIfAny(c, s, ClickAction(c));
            && r.isEditing
            && r.draft == OrEmpty(Value(s))
            && r.log == s.log + [StateChanged(EditState)]
  {
  }

  method HandleClick(ctl: Controller)
    requires ctl.Valid()
    modifies ctl
    ensures ctl.Valid()
    ensures ctl.Snapshot() == PerformIfAny(ctl.config, old(ctl.Snapshot()), ClickAction(ctl.config))
  {
    if ctl.config.activationMode == Focus && !ctl.config.disabled && !ctl.config.readOnly {
      ctl.Edit();
    }
  }

  method HandleDoubleClick(ctl: Controller)
    requires ctl.Valid()
    modifies ctl
    ensures ctl.Valid()
    ensures ctl.Snapshot() == PerformIfAny(ctl.config, old(ctl.Snapshot()), DoubleClickAction(ctl.config))
  {
    if ctl.config.activationMode == DblClick && !ctl.config.disabled && !ctl.config.readOnly {
      ctl.Edit();
    }
  }

  method HandleKeyDown(ctl: Controller, key: string)
    requires ctl.Valid()
    modifies ctl
    ensures ctl.Valid()
    ensures ctl.Snapshot() == PerformIfAny(ctl.config, old(ctl.Snapshot()), KeyDownAction(ctl.config, key))
  {
    if ctl.config.disabled || ctl.config.readOnly {
      return;
    }
    if key == "Enter" || key == " " {
      if ctl.config.activationMode == Focus || ctl.config.activationMode == DblClick {
        ctl.Edit();
      }
    }
  }
}
