// The validating text box of UwpReusables.Controls/Standard/Validation: the
// error list is rebuilt from scratch on every evaluation and shown in a
// tooltip that the error hint toggles.

module ReusablesValidation {
  import opened Options
  import opened Validation
  import opened BulletText
  import opened VisualStates
  import opened Parts

  /**
   * Every field of the control, as a value. `errorToolTip` is `None` when the
   * template has no such part; `hasErrorHint` says whether it has the hint
   * button. `visualState` and `hintState` are the last states the control
   * went to in each group.
   */
  datatype Box = Box(
    Text: string, IsEnabled: bool,
    isMousedOver: bool, isFocused: bool, isValid: bool,
    IsDirty: bool, IsValid: bool, ValidationPairs: seq<ValidationPair>,
    hasErrorHint: bool, errorToolTip: Option<ToolTip>,
    visualState: Option<VisualState>, hintState: Option<HintState>)
  {
    function ApplyTemplate(tip: Option<ToolTip>, hasHint: bool): Box {
      this.(errorToolTip := tip, hasErrorHint := hasHint)
    }

    function UpdateVisualStates(errors: seq<string>): Box {
      if hasErrorHint then this.(hintState := Some(HintFor(errors))) else this
    }

    function UpdateFlyoutState(errors: seq<string>): Box {
      match errorToolTip
      case None => this
      case Some(tip) =>
        var text := BuilderText(errors);
        var filled := Some(tip.(content := text));
        var shown := if |errors| > 0 then OpenToolTip(filled) else filled;
        this.(errorToolTip := if IsBlank(text) then CloseToolTip(shown) else shown)
    }

    function ValidateNewInput(): Box {
      if !IsDirty then UpdateVisualStates([]).UpdateFlyoutState([])
      else
        var errors := FailingMessages(ValidationPairs, Text);
        UpdateVisualStates(errors).UpdateFlyoutState(errors).(isValid := errors == [], IsValid := errors == [])
    }

    /** Assigning `IsDirty`; the change callback revalidates only when the value changes. */
    function SetIsDirty(value: bool): Box {
      if IsDirty == value then this else this.(IsDirty := value).ValidateNewInput()
    }

    function TextChanged(newText: string): Box {
      var b := this.(Text := newText);
      (if !b.IsDirty then b.SetIsDirty(true) else b).ValidateNewInput()
    }

    function LostFocus(): Box {
      this.(isFocused := false,
            visualState := Some(Select(LostFocusFamily(isMousedOver, IsEnabled), isValid, IsDirty)),
            errorToolTip := CloseToolTip(errorToolTip))
    }

    /** `GotFocus` opens the tooltip exactly in this case. */
    predicate GotFocusOpensToolTip() {
      IsEnabled && !IsValid && IsDirty && errorToolTip.Some?
    }

    function GotFocus(): Box {
      if !IsEnabled then this.(isFocused := true)
      else
        this.(isFocused := true,
              visualState := Some(Select(Focused, isValid, IsDirty)),
              errorToolTip := if GotFocusOpensToolTip() then OpenToolTip(errorToolTip) else errorToolTip)
    }

    function PointerExited(): Box {
      if !isFocused && IsEnabled then this.(isMousedOver := false, visualState := Some(Select(Normal, isValid, IsDirty)))
      else this.(isMousedOver := false)
    }

    function PointerEntered(): Box {
      if !isFocused && IsEnabled then this.(isMousedOver := true, visualState := Some(Select(PointerOver, isValid, IsDirty)))
      else this.(isMousedOver := true)
    }

    /** `IsEnabledChanged` always picks the Disabled family, whatever the new value. */
    function IsEnabledChanged(newValue: bool): Box {
      this.(IsEnabled := newValue, visualState := Some(Select(Disabled, isValid, IsDirty)))
    }

    function ErrorHintTapped(): Box {
      this.(errorToolTip := ToggleToolTip(errorToolTip))
    }
  }

  /** The state of a freshly constructed control holding `pairs`. */
  function Initial(pairs: seq<ValidationPair>): Box {
    Box("", true, false, false, false, false, false, pairs, false, None, None, None)
  }

  // ---------------------------------------------------------------------------
  // Properties of the transitions
  // ---------------------------------------------------------------------------

  /** With a tooltip present, its content is the bullet text and it is open exactly when there are errors. */
  lemma ToolTipFollowsErrors(b: Box, errors: seq<string>)
    requires NoDuplicates(errors)
    ensures b.errorToolTip.None? ==> b.UpdateFlyoutState(errors) == b
    ensures b.errorToolTip.Some? ==>
      b.UpdateFlyoutState(errors) ==
        b.(errorToolTip := Some(ToolTip(errors != [], errors != [], BulletJoin(errors))))
  {
    BuilderTextIsJoin(errors);
    BulletJoinBlank(errors);
  }

  /**
   * A dirty evaluation sets both validity flags to "no errors", puts the
   * bullet text of the failing messages in the tooltip and opens it exactly
   * when there are errors.
   */
  lemma DirtyValidation(b: Box)
    requires b.IsDirty
    ensures var errors := FailingMessages(b.ValidationPairs, b.Text);
      var r := b.ValidateNewInput();
      && r.isValid == r.IsValid == (errors == [])
      && r.hintState == (if b.hasErrorHint then Some(HintFor(errors)) else b.hintState)
      && r.errorToolTip == (if b.errorToolTip.None? then None
                            else Some(ToolTip(errors != [], errors != [], BulletJoin(errors))))
  {
    var errors := FailingMessages(b.ValidationPairs, b.Text);
    ToolTipFollowsErrors(b.UpdateVisualStates(errors), errors);
  }

  /** An evaluation while not dirty collapses the hint, empties and closes the tooltip, and leaves validity alone. */
  lemma PristineValidation(b: Box)
    requires !b.IsDirty
    ensures var r := b.ValidateNewInput();
      && r.isValid == b.isValid && r.IsValid == b.IsValid
      && r.hintState == (if b.hasErrorHint then Some(ErrorHintCollapsed) else b.hintState)
      && r.errorToolTip == (if b.errorToolTip.None? then None else Some(ToolTip(false, false, "")))
  {
    ToolTipFollowsErrors(b.UpdateVisualStates([]), []);
  }

  /** A dirty state that already shows its own failing messages is left unchanged by evaluating. */
  lemma DirtyFixedPoint(r: Box)
    requires r.IsDirty
    requires var errors := FailingMessages(r.ValidationPairs, r.Text);
      && r.isValid == r.IsValid == (errors == [])
      && (r.hasErrorHint ==> r.hintState == Some(HintFor(errors)))
      && (r.errorToolTip.Some? ==> r.errorToolTip == Some(ToolTip(errors != [], errors != [], BulletJoin(errors))))
    ensures r.ValidateNewInput() == r
  {
    ToolTipFollowsErrors(r, FailingMessages(r.ValidationPairs, r.Text));
  }

  /** A pristine state that already shows no errors is left unchanged by evaluating. */
  lemma PristineFixedPoint(r: Box)
    requires !r.IsDirty
    requires r.hasErrorHint ==> r.hintState == Some(ErrorHintCollapsed)
    requires r.errorToolTip.Some? ==> r.errorToolTip == Some(ToolTip(false, false, ""))
    ensures r.ValidateNewInput() == r
  {
    ToolTipFollowsErrors(r, []);
  }

  /** Evaluating again without an intervening change yields the same state. */
  lemma ValidateNewInputIdempotent(b: Box)
    ensures b.ValidateNewInput().ValidateNewInput() == b.ValidateNewInput()
  {
    if b.IsDirty {
      DirtyValidation(b);
      DirtyFixedPoint(b.ValidateNewInput());
    } else {
      PristineValidation(b);
      PristineFixedPoint(b.ValidateNewInput());
    }
  }

  /** The first text change validates through the `IsDirty` callback and again directly; the second run repeats the first. */
  lemma FirstTextChange(b: Box, newText: string)
    requires !b.IsDirty
    ensures var dirty := b.(Text := newText, IsDirty := true);
      && b.TextChanged(newText) == dirty.ValidateNewInput().ValidateNewInput()
      && b.TextChanged(newText) == dirty.ValidateNewInput()
  {
    ValidateNewInputIdempotent(b.(Text := newText, IsDirty := true));
  }

  /** Tapping the hint flips `IsOpen` with Visibility following it; a second tap restores the tooltip. */
  lemma TapToggles(b: Box)
    requires b.errorToolTip.Some? ==> Consistent(b.errorToolTip.value)
    ensures var r := b.ErrorHintTapped();
      && (b.errorToolTip.None? ==> r == b)
      && (b.errorToolTip.Some? ==>
            r.errorToolTip.Some? && r.errorToolTip.value.isOpen == !b.errorToolTip.value.isOpen &&
            Consistent(r.errorToolTip.value))
      && r.ErrorHintTapped() == b
  {
    ToggleTwice(b.errorToolTip);
  }

  /** `GotFocus` opens the tooltip exactly when enabled, invalid, dirty and present; otherwise the tooltip is untouched. */
  lemma GotFocusOpens(b: Box)
    ensures var r := b.GotFocus();
      && r.isFocused
      && (b.GotFocusOpensToolTip() ==> r.errorToolTip.value.isOpen && Consistent(r.errorToolTip.value))
      && (!b.GotFocusOpensToolTip() ==> r.errorToolTip == b.errorToolTip)
      && (b.IsEnabled ==> r.visualState == Some(Select(Focused, b.isValid, b.IsDirty)))
  {
  }

  /** After `LostFocus` the tooltip is closed and the family follows pointer and enabled state. */
  lemma LostFocusCloses(b: Box)
    ensures var r := b.LostFocus();
      && !r.isFocused
      && r.visualState == Some(Select(LostFocusFamily(b.isMousedOver, b.IsEnabled), b.isValid, b.IsDirty))
      && (r.errorToolTip.Some? <==> b.errorToolTip.Some?)
      && (r.errorToolTip.Some? ==> !r.errorToolTip.value.isOpen && Consistent(r.errorToolTip.value))
  {
  }

  /** Pointer events change the visual state only when not focused and enabled. */
  lemma PointerEventsSelect(b: Box)
    ensures b.PointerEntered().visualState ==
      (if !b.isFocused && b.IsEnabled then Some(Select(PointerOver, b.isValid, b.IsDirty)) else b.visualState)
    ensures b.PointerExited().visualState ==
      (if !b.isFocused && b.IsEnabled then Some(Select(Normal, b.isValid, b.IsDirty)) else b.visualState)
  {
  }

  /** `IsEnabledChanged` picks the Disabled family whether the control was enabled or disabled. */
  lemma EnabledChangeAlwaysDisabled(b: Box, newValue: bool)
    ensures b.IsEnabledChanged(newValue).visualState.value.family == Disabled
  {
  }

  // ---------------------------------------------------------------------------
  // The control
  // ---------------------------------------------------------------------------

  class ValidatingTextBox {
    // TextBox properties owned by the host
    var Text: string
    var IsEnabled: bool
    // private state
    var isMousedOver: bool
    var isFocused: bool
    var isValid: bool
    // dependency properties
    var IsDirty: bool
    var IsValid: bool
    var ValidationPairs: ItemList<ValidationPair>
    // template parts and the visual-state groups
    var hasErrorHint: bool
    var errorToolTip: Option<ToolTip>
    var visualState: Option<VisualState>
    var hintState: Option<HintState>

    function View(): Box
      reads this, ValidationPairs
    {
      Box(Text, IsEnabled, isMousedOver, isFocused, isValid, IsDirty, IsValid, ValidationPairs.items,
          hasErrorHint, errorToolTip, visualState, hintState)
    }

    constructor ()
      ensures fresh(ValidationPairs)
      ensures View() == Initial([])
    {
      Text, IsEnabled := "", true;
      isMousedOver, isFocused, isValid := false, false, false;
      IsDirty, IsValid := false, false;
      ValidationPairs := new ItemList();
      hasErrorHint, errorToolTip := false, None;
      visualState, hintState := None, None;
    }

    /** `OnApplyTemplate`: the template's tooltip (if any) and whether it has an error hint button. */
    method OnApplyTemplate(tip: Option<ToolTip>, hasHint: bool)
      modifies this
      ensures ValidationPairs == old(ValidationPairs)
      ensures View() == old(View()).ApplyTemplate(tip, hasHint)
    {
      errorToolTip := tip;
      hasErrorHint := hasHint;
    }

    method ValidateInput(text: string) returns (errorsList: seq<string>)
      ensures errorsList == FailingMessages(ValidationPairs.items, text)
    {
      errorsList := [];
      var pairs := ValidationPairs.items;
      ghost var outcomes := PairOutcomes(pairs, text);
      for k := 0 to |pairs|
        invariant errorsList == Collected(outcomes[..k])
      {
        var pair := pairs[k];
        if !pair.validationFunction(text) && pair.errorMessage !in errorsList {
          errorsList := errorsList + [pair.errorMessage];
        }
        assert outcomes[..k + 1][..k] == outcomes[..k];
      }
      assert outcomes[..|pairs|] == outcomes;
    }

    method UpdateVisualStates(errorsList: seq<string>)
      modifies this
      ensures ValidationPairs == old(ValidationPairs)
      ensures View() == old(View()).UpdateVisualStates(errorsList)
    {
      if |errorsList| > 0 {
        if hasErrorHint {
          hintState := Some(ErrorHintVisible);
        }
      } else {
        if hasErrorHint {
          hintState := Some(ErrorHintCollapsed);
        }
      }
    }

    method UpdateFlyoutState(errorsList: seq<string>)
      modifies this
      ensures ValidationPairs == old(ValidationPairs)
      ensures View() == old(View()).UpdateFlyoutState(errorsList)
    {
      if errorToolTip.None? {
        return;
      }
      var text := BuildErrorText(errorsList);
      errorToolTip := Some(errorToolTip.value.(content := text));
      if |errorsList| > 0 {
        errorToolTip := OpenToolTip(errorToolTip);
      }
      if IsBlank(text) {
        errorToolTip := CloseToolTip(errorToolTip);
      }
    }

    method ValidateNewInput()
      modifies this
      ensures ValidationPairs == old(ValidationPairs)
      ensures View() == old(View()).ValidateNewInput()
    {
      if !IsDirty {
        UpdateVisualStates([]);
        UpdateFlyoutState([]);
        return;
      }
      var errorsList := ValidateInput(Text);
      UpdateVisualStates(errorsList);
      UpdateFlyoutState(errorsList);
      if |errorsList| > 0 {
        isValid := false;
        IsValid := false;
      } else {
        isValid := true;
        IsValid := true;
      }
    }

    /** The `IsDirty` setter together with its change callback. */
    method SetIsDirty(value: bool)
      modifies this
      ensures ValidationPairs == old(ValidationPairs)
      ensures View() == old(View()).SetIsDirty(value)
    {
      var oldValue := IsDirty;
      IsDirty := value;
      if oldValue == value {
        return;
      }
      ValidateNewInput();
    }

    /** `TextChanged`, raised after the host has stored `newText` as the text. */
    method TextChanged(newText: string)
      modifies this
      ensures ValidationPairs == old(ValidationPairs)
      ensures View() == old(View()).TextChanged(newText)
    {
      Text := newText;
      if !IsDirty {
        SetIsDirty(true);
      }
      ValidateNewInput();
    }

    method LostFocus()
      modifies this
      ensures View() == old(View()).LostFocus()
    {
      isFocused := false;
      if isMousedOver && IsEnabled {
        visualState := Some(Select(PointerOver, isValid, IsDirty));
      } else if IsEnabled {
        visualState := Some(Select(Normal, isValid, IsDirty));
      } else {
        visualState := Some(Select(Disabled, isValid, IsDirty));
      }
      errorToolTip := CloseToolTip(errorToolTip);
    }

    method GotFocus()
      modifies this
      ensures View() == old(View()).GotFocus()
    {
      isFocused := true;
      if IsEnabled {
        visualState := Some(Select(Focused, isValid, IsDirty));
        if !IsValid && IsDirty && errorToolTip.Some? {
          errorToolTip := OpenToolTip(errorToolTip);
        }
      }
    }

    method PointerExited()
      modifies this
      ensures View() == old(View()).PointerExited()
    {
      isMousedOver := false;
      if !isFocused && IsEnabled {
        visualState := Some(Select(Normal, isValid, IsDirty));
      }
    }

    method PointerEntered()
      modifies this
      ensures View() == old(View()).PointerEntered()
    {
      isMousedOver := true;
      if !isFocused && IsEnabled {
        visualState := Some(Select(PointerOver, isValid, IsDirty));
      }
    }

    method IsEnabledChanged(newValue: bool)
      modifies this
      ensures View() == old(View()).IsEnabledChanged(newValue)
    {
      IsEnabled := newValue;
      visualState := Some(Select(Disabled, isValid, IsDirty));
    }

    method ErrorHintTapped()
      modifies this
      ensures View() == old(View()).ErrorHintTapped()
    {
      if errorToolTip.Some? && errorToolTip.value.isOpen {
        errorToolTip := CloseToolTip(errorToolTip);
      } else if errorToolTip.Some? && !errorToolTip.value.isOpen {
        errorToolTip := OpenToolTip(errorToolTip);
      }
    }
  }
}
