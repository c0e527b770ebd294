// Presentation facts shared by the copies: the eight common visual-state
// names, the error-hint state group, and the error tooltip template part.

module VisualStates {
  import opened Options

  /** The pointer/focus/enabled axis of the common visual states. */
  datatype Family = Normal | PointerOver | Focused | Disabled

  /** One of the eight common visual states: a family, in its OK or its Error variant. */
  datatype VisualState = VisualState(family: Family, error: bool) {
    /** The state name passed to `VisualStateManager.GoToState`. */
    function Name(): string {
      match family
      case Normal => if error then "NormalError" else "ValidatingNormal"
      case PointerOver => if error then "PointerOverError" else "ValidatingPointerOver"
      case Focused => if error then "FocusedError" else "ValidatingFocused"
      case Disabled => if error then "DisabledError" else "ValidatingDisabled"
    }
  }

  /** The visual state with the given name, if it is one of the eight. */
  function FromName(name: string): Option<VisualState> {
    if name == "ValidatingNormal" then Some(VisualState(Normal, false))
    else if name == "NormalError" then Some(VisualState(Normal, true))
    else if name == "ValidatingPointerOver" then Some(VisualState(PointerOver, false))
    else if name == "PointerOverError" then Some(VisualState(PointerOver, true))
    else if name == "ValidatingFocused" then Some(VisualState(Focused, false))
    else if name == "FocusedError" then Some(VisualState(Focused, true))
    else if name == "ValidatingDisabled" then Some(VisualState(Disabled, false))
    else if name == "DisabledError" then Some(VisualState(Disabled, true))
    else None
  }

  /** The eight names are distinct and name their states: reading a name back gives the state. */
  lemma NameRoundTrip(s: VisualState)
    ensures FromName(s.Name()) == Some(s)
  {
  }

  lemma FromNameSound(name: string)
    ensures FromName(name).Some? ==> FromName(name).value.Name() == name
  {
  }

  /** The state every handler picks for a family: `_isValid || !IsDirty ? "Validating…" : "…Error"`. */
  function Select(family: Family, isValid: bool, isDirty: bool): (s: VisualState)
    ensures s.family == family
    ensures s.error <==> isDirty && !isValid
  {
    VisualState(family, !(isValid || !isDirty))
  }

  /** The family `LostFocus` picks: pointer-over if moused over and enabled, else normal if enabled, else disabled. */
  function LostFocusFamily(isMousedOver: bool, isEnabled: bool): (f: Family)
    ensures f == Disabled <==> !isEnabled
    ensures f == PointerOver <==> isMousedOver && isEnabled
  {
    if isMousedOver && isEnabled then PointerOver
    else if isEnabled then Normal
    else Disabled
  }

  /** The error-hint state group. */
  datatype HintState = ErrorHintVisible | ErrorHintCollapsed

  /** `ErrorHintVisible` when the list has errors, `ErrorHintCollapsed` otherwise. */
  function HintFor(errors: seq<string>): (h: HintState)
    ensures h == ErrorHintVisible <==> errors != []
  {
    if |errors| > 0 then ErrorHintVisible else ErrorHintCollapsed
  }
}

module Parts {
  import opened Options

  /** The error tooltip part: `IsOpen`, `Visibility == Visible`, and its `Content`. */
  datatype ToolTip = ToolTip(isOpen: bool, visible: bool, content: string)

  /** Visibility tracks `IsOpen`. */
  predicate Consistent(t: ToolTip) {
    t.visible == t.isOpen
  }

  /** `OpenToolTip`: a present tooltip becomes visible and open; an absent one stays absent. */
  function OpenToolTip(tip: Option<ToolTip>): (r: Option<ToolTip>)
    ensures r.Some? <==> tip.Some?
    ensures r.Some? ==> r.value.isOpen && Consistent(r.value) && r.value.content == tip.value.content
  {
    match tip
    case None => None
    case Some(t) => Some(t.(visible := true, isOpen := true))
  }

  /** `CloseToolTip`: a present tooltip becomes collapsed and closed. */
  function CloseToolTip(tip: Option<ToolTip>): (r: Option<ToolTip>)
    ensures r.Some? <==> tip.Some?
    ensures r.Some? ==> !r.value.isOpen && Consistent(r.value) && r.value.content == tip.value.content
  {
    match tip
    case None => None
    case Some(t) => Some(t.(visible := false, isOpen := false))
  }

  /** `ErrorHint_Tapped`: close an open tooltip, open a closed one, do nothing without one. */
  function ToggleToolTip(tip: Option<ToolTip>): (r: Option<ToolTip>)
    ensures tip.None? ==> r == tip
    ensures tip.Some? ==> r.Some? && r.value.isOpen == !tip.value.isOpen && Consistent(r.value)
  {
    match tip
    case None => None
    case Some(t) => if t.isOpen then CloseToolTip(tip) else OpenToolTip(tip)
  }

  /** Two taps restore a tooltip whose visibility tracks `IsOpen`. */
  lemma ToggleTwice(tip: Option<ToolTip>)
    requires tip.Some? ==> Consistent(tip.value)
    ensures ToggleToolTip(ToggleToolTip(tip)) == tip
  {
  }
}
