/** The inline-edit controller of `useEditable`: one text with a committed
    value, a draft, an editing flag and a pre-edit snapshot, changed by the
    four actions `edit`, `cancel`, `submit` and `setInputValue`.

    The callbacks `onChange`, `onSubmit` and `onStateChange` are modelled
    as an append-only log of notifications, one entry per call, in call
    order. React's state cells and the `previousValueRef` ref become the
    fields of `Controller`; a state update is visible immediately. */
module UseEditable {
  import opened Base

  /** How editing is activated: `"focus"`, `"dblclick"` or `"none"`. */
  datatype ActivationMode = Focus | DblClick | NoActivation

  /** When the draft is submitted: `"blur"`, `"enter"`, `"none"` or `"both"`. */
  datatype SubmitMode = Blur | Enter | NoSubmit | Both

  /** The argument of `onStateChange`: `"edit"`, `"submit"` or `"cancel"`. */
  datatype EditableState = EditState | SubmitState | CancelState

  /** A placeholder string, or separate ones for the input and the read view. */
  datatype Placeholder = Single(text: Text) | Split(edit: Text, preview: Text)

  /** The `value` option. `undefined` makes the hook uncontrolled; any other
      value, `null` included, makes it controlled by its owner. */
  datatype Mode = Controlled(ext: Option<Text>) | Uncontrolled

  /** The options object as passed; `None` is an option left `undefined`. */
  datatype Options = Options(
    value: Mode,
    defaultValue: Option<Text>,
    activationMode: Option<ActivationMode>,
    submitMode: Option<SubmitMode>,
    placeholder: Option<Placeholder>,
    disabled: Option<bool>,
    readOnly: Option<bool>,
    startWithEditMode: Option<bool>,
    maxLength: Option<int>,
    autoResize: Option<bool>,
    name: Option<Text>,
    required: Option<bool>)

  /** `useEditable()` called without an options object. */
  const NoOptions: Options :=
    Options(Uncontrolled, None, None, None, None, None, None, None, None, None, None, None)

  /** The configuration the hook works with once defaults are applied. */
  datatype Config = Config(
    activationMode: ActivationMode,
    submitMode: SubmitMode,
    placeholder: Option<Placeholder>,
    disabled: bool,
    readOnly: bool,
    maxLength: Option<int>,
    autoResize: bool,
    name: Option<Text>,
    required: bool)

  /** The destructuring of the options with its defaults. */
  function Resolve(o: Options): (c: Config)
    ensures o.activationMode.None? ==> c.activationMode == Focus
    ensures o.submitMode.None? ==> c.submitMode == Blur
    ensures o.disabled.None? ==> !c.disabled
    ensures o.readOnly.None? ==> !c.readOnly
    ensures o.autoResize.None? ==> !c.autoResize
    ensures o.required.None? ==> !c.required
    ensures o.activationMode.Some? ==> c.activationMode == o.activationMode.value
    ensures o.submitMode.Some? ==> c.submitMode == o.submitMode.value
    ensures o.disabled.Some? ==> c.disabled == o.disabled.value
    ensures o.readOnly.Some? ==> c.readOnly == o.readOnly.value
    ensures o.autoResize.Some? ==> c.autoResize == o.autoResize.value
    ensures o.required.Some? ==> c.required == o.required.value
    ensures c.placeholder == o.placeholder && c.maxLength == o.maxLength && c.name == o.name
  {
    Config(
      o.activationMode.GetOr(Focus),
      o.submitMode.GetOr(Blur),
      o.placeholder,
      o.disabled.GetOr(false),
      o.readOnly.GetOr(false),
      o.maxLength,
      o.autoResize.GetOr(false),
      o.name,
      o.required.GetOr(false))
  }

  /** One callback invocation: `onChange(v)`, `onSubmit(v)` or `onStateChange(st)`. */
  datatype Notification = Changed(value: Text) | Submitted(value: Text) | StateChanged(state: EditableState)

  /** The whole state of one controller, as a value. `cell` is the internal
      (uncontrolled) value, `draft` is `inputValue`, `previous` is
      `previousValueRef.current` and `log` the callbacks fired so far. */
  datatype Session = Session(
    mode: Mode,
    cell: Option<Text>,
    draft: Text,
    isEditing: bool,
    previous: Option<Text>,
    log: seq<Notification>)

  /** The committed value: the owner's in controlled mode, the cell otherwise. */
  function Value(s: Session): Option<Text> {
    match s.mode
    case Controlled(ext) => ext
    case Uncontrolled => s.cell
  }

  /** `isEmpty`: the text on show is `null` or `""`. */
  function IsEmpty(s: Session): bool {
    var shown := if s.isEditing then Some(s.draft) else Value(s);
    shown == None || shown == Some([])
  }

  /** The state right after the hook is first called. */
  function Init(o: Options): (s: Session)
    ensures Inv(s)
    ensures s.mode == o.value && s.cell == Some(o.defaultValue.GetOr([]))
    ensures o.value.Controlled? ==> Value(s) == o.value.ext
    ensures o.value.Uncontrolled? ==> Value(s) == Some(o.defaultValue.GetOr([]))
    ensures s.isEditing == o.startWithEditMode.GetOr(false)
    ensures s.draft == OrEmpty(Value(s)) && s.previous == Value(s)
    ensures s.log == []
  {
    var cell := Some(o.defaultValue.GetOr([]));
    var value := if o.value.Controlled? then o.value.ext else cell;
    Session(o.value, cell, OrEmpty(value), o.startWithEditMode.GetOr(false), value, [])
  }

  /** The length clamp of `setInputValue`. */
  function ClampToMaxLength(maxLength: Option<int>, t: Text): (r: Text)
    ensures |r| <= |t| && r == t[..|r|]
    ensures maxLength.None? ==> r == t
    ensures maxLength.Some? && |t| <= maxLength.value ==> r == t
    ensures maxLength.Some? && 0 <= maxLength.value < |t| ==> r == t[..maxLength.value]
    ensures maxLength.Some? && maxLength.value >= 0 ==> |r| <= maxLength.value
    ensures maxLength.Some? && maxLength.value < 0 ==>
              |r| == if |t| + maxLength.value < 0 then 0 else |t| + maxLength.value
  {
    if maxLength.Some? && |t| > maxLength.value then SliceTo(t, maxLength.value) else t
  }

  /** `edit()`: unless disabled or read-only, snapshot the value, reset the
      draft to it and start editing. Nothing checks whether editing is
      already under way, so a second `edit()` re-snapshots and drops the draft. */
  function AfterEdit(c: Config, s: Session): (r: Session)
    ensures c.disabled || c.readOnly ==> r == s
    ensures !c.disabled && !c.readOnly ==>
              && r.isEditing
              && r.previous == Value(s)
              && r.draft == OrEmpty(Value(s))
              && r.mode == s.mode && r.cell == s.cell
              && r.log == s.log + [StateChanged(EditState)]
  {
    if c.disabled || c.readOnly then s
    else
      var value := Value(s);
      s.(previous := value, draft := OrEmpty(value), isEditing := true,
         log := s.log + [StateChanged(EditState)])
  }

  /** `cancel()`: put the snapshot back into the draft and stop editing,
      whether or not editing was under way. */
  function AfterCancel(s: Session): (r: Session)
    ensures !r.isEditing
    ensures r.draft == OrEmpty(s.previous)
    ensures Value(r) == Value(s) && r.mode == s.mode && r.cell == s.cell && r.previous == s.previous
    ensures r.log == s.log + [StateChanged(CancelState)]
  {
    s.(draft := OrEmpty(s.previous), isEditing := false,
       log := s.log + [StateChanged(CancelState)])
  }

  /** `submit()`: commit the draft (only to the internal cell, and only when
      uncontrolled), stop editing and fire `onChange`, `onSubmit` and
      `onStateChange("submit")`, whether or not editing was under way. */
  function AfterSubmit(s: Session): (r: Session)
    ensures !r.isEditing
    ensures r.draft == s.draft && r.previous == s.previous && r.mode == s.mode
    ensures s.mode.Uncontrolled? ==> Value(r) == Some(s.draft)
    ensures s.mode.Controlled? ==> r.cell == s.cell && Value(r) == Value(s)
    ensures r.log == s.log + [Changed(s.draft), Submitted(s.draft), StateChanged(SubmitState)]
  {
    var newValue := s.draft;
    var cell := if !s.mode.Controlled? then Some(newValue) else s.cell;
    s.(cell := cell, isEditing := false,
       log := s.log + [Changed(newValue)] + [Submitted(newValue)] + [StateChanged(SubmitState)])
  }

  /** `setInputValue(t)`: store `t`, cut to `maxLength`, as the draft. */
  function AfterSetInputValue(c: Config, s: Session, t: Text): (r: Session)
    ensures r.draft == ClampToMaxLength(c.maxLength, t)
    ensures r.isEditing == s.isEditing && r.previous == s.previous
    ensures r.mode == s.mode && r.cell == s.cell && r.log == s.log
  {
    s.(draft := ClampToMaxLength(c.maxLength, t))
  }

  /** The owner renders the hook again with `value` set to `ext`. The draft
      is a state cell of its own and does not follow. */
  function AfterValueProp(s: Session, ext: Option<Text>): (r: Session)
    ensures Value(r) == ext && r.mode.Controlled?
    ensures r.cell == s.cell && r.draft == s.draft && r.isEditing == s.isEditing
    ensures r.previous == s.previous && r.log == s.log
  {
    s.(mode := Controlled(ext))
  }

  /** The action surface the components call. */
  datatype Action = DoEdit | DoCancel | DoSubmit | DoSetInputValue(text: Text)

  function Perform(c: Config, s: Session, a: Action): Session {
    match a
    case DoEdit => AfterEdit(c, s)
    case DoCancel => AfterCancel(s)
    case DoSubmit => AfterSubmit(s)
    case DoSetInputValue(t) => AfterSetInputValue(c, s, t)
  }

  /** A handler that calls one action or none. */
  function PerformIfAny(c: Config, s: Session, a: Option<Action>): Session {
    if a.Some? then Perform(c, s, a.value) else s
  }

  /** A log made only of whole calls: `"edit"`, `"cancel"`, or
      `onChange(d)`, `onSubmit(d)`, `"submit"` in that order with one `d`. */
  predicate WellFormedLog(log: seq<Notification>)
    decreases |log|
  {
    if log == [] then true
    else if log[0] == StateChanged(EditState) || log[0] == StateChanged(CancelState) then
      WellFormedLog(log[1..])
    else
      && |log| >= 3
      && log[0].Changed?
      && log[1] == Submitted(log[0].value)
      && log[2] == StateChanged(SubmitState)
      && WellFormedLog(log[3..])
  }

  /** What every reachable state satisfies: the internal cell is never
      `null`, the log is well formed, and while an uncontrolled session is
      editing the snapshot is still the committed value. */
  predicate Inv(s: Session) {
    && s.cell.Some?
    && WellFormedLog(s.log)
    && (s.isEditing && s.mode.Uncontrolled? ==> s.previous == s.cell)
  }

  lemma {:induction false} WellFormedAppend(a: seq<Notification>, b: seq<Notification>)
    requires WellFormedLog(a) && WellFormedLog(b)
    ensures WellFormedLog(a + b)
    decreases |a|
  {
    if a == [] {
      assert a + b == b;
    } else if a[0] == StateChanged(EditState) || a[0] == StateChanged(CancelState) {
      assert (a + b)[1..] == a[1..] + b;
      WellFormedAppend(a[1..], b);
    } else {
      assert (a + b)[3..] == a[3..] + b;
      WellFormedAppend(a[3..], b);
    }
  }

  /** In a well-formed log, `onChange(d)` is always followed by `onSubmit(d)`
      and then `"submit"`, and `onSubmit(d)` always follows `onChange(d)`. */
  lemma {:induction false} NotificationOrder(log: seq<Notification>, i: nat)
    requires WellFormedLog(log) && i < |log|
    ensures log[i].Changed? ==>
              i + 2 < |log| && log[i + 1] == Submitted(log[i].value) && log[i + 2] == StateChanged(SubmitState)
    ensures log[i].Submitted? ==>
              1 <= i && i + 1 < |log| && log[i - 1] == Changed(log[i].value) && log[i + 1] == StateChanged(SubmitState)
    decreases |log|
  {
    if log[0] == StateChanged(EditState) || log[0] == StateChanged(CancelState) {
      if i > 0 {
        NotificationOrder(log[1..], i - 1);
      }
    } else if i >= 3 {
      NotificationOrder(log[3..], i - 3);
    }
  }

  lemma PerformPreservesInv(c: Config, s: Session, a: Action)
    requires Inv(s)
    ensures Inv(Perform(c, s, a))
  {
    match a
    case DoEdit =>
      if !c.disabled && !c.readOnly {
        WellFormedAppend(s.log, [StateChanged(EditState)]);
      }
    case DoCancel =>
      WellFormedAppend(s.log, [StateChanged(CancelState)]);
    case DoSubmit =>
      var d := s.draft;
      assert WellFormedLog([Changed(d), Submitted(d), StateChanged(SubmitState)]) by {
        assert [Changed(d), Submitted(d), StateChanged(SubmitState)][3..] == [];
      }
      WellFormedAppend(s.log, [Changed(d), Submitted(d), StateChanged(SubmitState)]);
    case DoSetInputValue(_) =>
  }

  /** The owner feeding a value back keeps the invariant: the session is
      then controlled, and the snapshot condition only binds uncontrolled ones. */
  lemma ValuePropPreservesInv(s: Session, ext: Option<Text>)
    requires Inv(s)
    ensures Inv(AfterValueProp(s, ext))
  {
  }

  /** `edit(); setInputValue(t); cancel()` leaves the committed value as it
      was, shows it again in the draft, and fires only `"edit"`, `"cancel"`. */
  lemma CancelAfterEditRestores(c: Config, s: Session, t: Text)
    requires !c.disabled && !c.readOnly
    ensures var r := AfterCancel(AfterSetInputValue(c, AfterEdit(c, s), t));
            && Value(r) == Value(s)
            && r.draft == OrEmpty(Value(s))
            && !r.isEditing
            && r.log == s.log + [StateChanged(EditState), StateChanged(CancelState)]
  {
  }

  /** `edit(); setInputValue(t); submit()` commits the clamped text when
      uncontrolled; when controlled it only reports it, and the value stays
      the owner's until the owner feeds it back. */
  lemma SubmitAfterEditCommits(c: Config, s: Session, t: Text)
    requires !c.disabled && !c.readOnly
    ensures var d := ClampToMaxLength(c.maxLength, t);
            var r := AfterSubmit(AfterSetInputValue(c, AfterEdit(c, s), t));
            && !r.isEditing
            && (s.mode.Uncontrolled? ==> Value(r) == Some(d))
            && (s.mode.Controlled? ==> Value(r) == Value(s) && r.cell == s.cell)
            && r.log == s.log + [StateChanged(EditState), Changed(d), Submitted(d), StateChanged(SubmitState)]
            && Value(AfterValueProp(r, Some(d))) == Some(d)
  {
  }

  /** In an uncontrolled session, cancelling an edit under way shows the
      committed value again. */
  lemma CancelShowsCommittedValue(s: Session)
    requires Inv(s) && s.isEditing && s.mode.Uncontrolled?
    ensures AfterCancel(s).draft == OrEmpty(Value(AfterCancel(s)))
  {
  }

  /** Entering edit mode keeps `isEmpty`: `null` and `""` are both empty. */
  lemma EditKeepsEmptiness(c: Config, s: Session)
    requires !c.disabled && !c.readOnly
    ensures IsEmpty(AfterEdit(c, s)) <==> Value(s) == None || Value(s) == Some([])
  {
  }

  /** A second `edit()` while editing drops the typed draft. */
  lemma RepeatedEditDropsDraft(c: Config, s: Session, t: Text)
    requires !c.disabled && !c.readOnly
    ensures var r := AfterEdit(c, AfterSetInputValue(c, AfterEdit(c, s), t));
            && r.draft == OrEmpty(Value(s))
            && r.previous == Value(s)
            && r.log == s.log + [StateChanged(EditState), StateChanged(EditState)]
  {
  }

  /** With a non-negative `maxLength`, clamping twice is clamping once. */
  lemma ClampIdempotent(maxLength: Option<int>, t: Text)
    requires maxLength.None? || maxLength.value >= 0
    ensures ClampToMaxLength(maxLength, ClampToMaxLength(maxLength, t)) == ClampToMaxLength(maxLength, t)
  {
  }

  /** The controller object: the hook's state cells and its snapshot ref. */
  class Controller {
    const config: Config
    var mode: Mode
    var cell: Option<Text>
    var draft: Text
    var isEditing: bool
    var previous: Option<Text>
    var log: seq<Notification>

    function Snapshot(): Session
      reads this
    {
      Session(mode, cell, draft, isEditing, previous, log)
    }

    ghost predicate Valid()
      reads this
    {
      Inv(Snapshot())
    }

    constructor (o: Options)
      ensures config == Resolve(o)
      ensures Snapshot() == Init(o) && Valid()
    {
      config := Resolve(o);
      var initialCell := Some(o.defaultValue.GetOr([]));
      var value := if o.value.Controlled? then o.value.ext else initialCell;
      mode := o.value;
      cell := initialCell;
      isEditing := o.startWithEditMode.GetOr(false);
      draft := OrEmpty(value);
      previous := value;
      log := [];
    }

    method Edit()
      requires Valid()
      modifies this
      ensures Valid()
      ensures Snapshot() == AfterEdit(config, old(Snapshot()))
    {
      ghost var before := Snapshot();
      PerformPreservesInv(config, before, DoEdit);
      if config.disabled || config.readOnly {
        return;
      }
      var value := Value(Snapshot());
      previous := value;
      draft := OrEmpty(value);
      isEditing := true;
      log := log + [StateChanged(EditState)];
    }

    method Cancel()
      requires Valid()
      modifies this
      ensures Valid()
      ensures Snapshot() == AfterCancel(old(Snapshot()))
    {
      ghost var before := Snapshot();
      PerformPreservesInv(config, before, DoCancel);
      draft := OrEmpty(previous);
      isEditing := false;
      log := log + [StateChanged(CancelState)];
    }

    method Submit()
      requires Valid()
      modifies this
      ensures Valid()
      ensures Snapshot() == AfterSubmit(old(Snapshot()))
    {
      ghost var before := Snapshot();
      PerformPreservesInv(config, before, DoSubmit);
      var newValue := draft;
      if !mode.Controlled? {
        cell := Some(newValue);
      }
      isEditing := false;
      log := log + [Changed(newValue)];
      log := log + [Submitted(newValue)];
      log := log + [StateChanged(SubmitState)];
    }

    method SetInputValue(t: Text)
      requires Valid()
      modifies this
      ensures Valid()
      ensures Snapshot() == AfterSetInputValue(config, old(Snapshot()), t)
    {
      var newValue := t;
      if config.maxLength.Some? && |newValue| > config.maxLength.value {
        newValue := SliceTo(newValue, config.maxLength.value);
      }
      draft := newValue;
    }

    /** The owner renders again with `value` set to `ext`. */
    method SetValueProp(ext: Option<Text>)
      requires Valid()
      modifies this
      ensures Valid()
      ensures Snapshot() == AfterValueProp(old(Snapshot()), ext)
    {
      mode := Controlled(ext);
    }
  }
}
