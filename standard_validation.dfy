// The validating text box of Controls/Standard/Validation: the error list is
// rebuilt from scratch on every evaluation and shown in a flyout.

module StandardValidation {
  import opened Options
  import opened Validation
  import opened BulletText
  import opened VisualStates

  /** The error flyout part; only whether it is open is modelled. */
  datatype Flyout = Flyout(isOpen: bool)

  /**
   * Every field of the control, as a value. `errorFlyout` and
   * `errorFlyoutTextBlock` are `None` when the template has no such part;
   * the text block is represented by its `Text`. `visualState` and
   * `hintState` are the last states the control went to in each group.
   */
  datatype Box = Box(
    Text: string, IsEnabled: bool,
    isMousedOver: bool, isFocused: bool, isValid: bool, errorFlyoutManuallyOpened: bool,
    IsDirty: bool, IsValid: bool, ValidationPairs: seq<ValidationPair>,
    hasErrorHint: bool, errorFlyout: Option<Flyout>, errorFlyoutTextBlock: Option<string>,
    visualState: Option<VisualState>, hintState: Option<HintState>)
  {
    /** Both parts the flyout text needs are present. */
    predicate HasFlyoutParts() {
      errorFlyout.Some? && errorFlyoutTextBlock.Some?
    }

    function ApplyTemplate(hasErrorHint: bool, hasFlyout: bool, hasFlyoutTextBlock: bool): Box {
      this.(hasErrorHint := hasErrorHint,
            errorFlyout := if hasFlyout then Some(Flyout(false)) else None,
            errorFlyoutTextBlock := if hasFlyoutTextBlock then Some("") else None)
    }

    function UpdateVisualStates(errors: seq<string>): Box {
      if hasErrorHint then this.(hintState := Some(HintFor(errors))) else this
    }

    function UpdateFlyoutState(errors: seq<string>): Box {
      if !HasFlyoutParts() then this
      else
        var text := BuilderText(errors);
        var shown := if |errors| > 0 then Some(Flyout(true)) else errorFlyout;
        this.(errorFlyoutTextBlock := Some(text),
              errorFlyout := if IsBlank(text) then Some(Flyout(false)) else shown)
    }

    function ValidateNewInput(): Box {
      if !IsDirty then UpdateVisualStates([]).UpdateFlyoutState([])
      else
        var errors := FailingMessages(ValidationPairs, Text);
        UpdateVisualStates(errors).UpdateFlyoutState(errors).(isValid := errors == [], IsValid := errors == [])
    }

    /** Assigning `IsDirty`; the change callback revalidates only when the value changes. */
    function SetIsDirty(value: bool): Box {
      if IsDirty == value then this else this.(IsDirty := value).ValidateNewInput()
    }

    function TextChanged(newText: string): Box {
      var b := this.(Text := newText);
      (if !b.IsDirty then b.SetIsDirty(true) else b).ValidateNewInput()
    }

    function LostFocus(): Box {
      this.(isFocused := false,
            visualState := Some(Select(LostFocusFamily(isMousedOver, IsEnabled), isValid, IsDirty)),
            errorFlyout := if errorFlyout.Some? then Some(Flyout(false)) else None)
    }

    /** `GotFocus` shows the flyout and asks for focus back exactly in this case. */
    predicate GotFocusShowsFlyout() {
      IsEnabled && !IsValid && IsDirty && errorFlyout.Some?
    }

    function GotFocus(): Box {
      if !IsEnabled then this.(isFocused := true)
      else
        this.(isFocused := true,
              visualState := Some(Select(Focused, isValid, IsDirty)),
              errorFlyout := if GotFocusShowsFlyout() then Some(Flyout(true)) else errorFlyout)
    }

    function PointerExited(): Box {
      if !isFocused && IsEnabled then this.(isMousedOver := false, visualState := Some(Select(Normal, isValid, IsDirty)))
      else this.(isMousedOver := false)
    }

    function PointerEntered(): Box {
      if !isFocused && IsEnabled then this.(isMousedOver := true, visualState := Some(Select(PointerOver, isValid, IsDirty)))
      else this.(isMousedOver := true)
    }

    /** `IsEnabledChanged` fires after `IsEnabled` took its new value and always picks the Disabled family. */
    function IsEnabledChanged(newValue: bool): Box {
      this.(IsEnabled := newValue, visualState := Some(Select(Disabled, isValid, IsDirty)))
    }

    function ErrorHintTapped(): Box {
      if errorFlyout.Some? then this.(errorFlyoutManuallyOpened := true, errorFlyout := Some(Flyout(true)))
      else this
    }

    /** The flyout's `Opened` event; focus is forced back unless the hint was tapped. */
    function ErrorFlyoutOpened(): Box {
      this.(errorFlyoutManuallyOpened := false)
    }
  }

  /** The state of a freshly constructed control holding `pairs`. */
  function Initial(pairs: seq<ValidationPair>): Box {
    Box("", true, false, false, false, false, false, false, pairs, false, None, None, None, None)
  }

  // ---------------------------------------------------------------------------
  // Properties of the transitions
  // ---------------------------------------------------------------------------

  /**
   * A dirty evaluation sets both validity flags to "no errors", shows the
   * bullet text of the failing messages, and opens the flyout exactly when
   * there are errors.
   */
  lemma DirtyValidation(b: Box)
    requires b.IsDirty
    ensures var errors := FailingMessages(b.ValidationPairs, b.Text);
      var r := b.ValidateNewInput();
      && r.isValid == r.IsValid == (errors == [])
      && r.hintState == (if b.hasErrorHint then Some(HintFor(errors)) else b.hintState)
      && (b.HasFlyoutParts() ==>
            r.errorFlyoutTextBlock == Some(BulletJoin(errors)) && r.errorFlyout == Some(Flyout(errors != [])))
      && (!b.HasFlyoutParts() ==> r.errorFlyout == b.errorFlyout && r.errorFlyoutTextBlock == b.errorFlyoutTextBlock)
  {
    var errors := FailingMessages(b.ValidationPairs, b.Text);
    FlyoutFollowsErrors(b.UpdateVisualStates(errors), errors);
  }

  /** An evaluation while not dirty collapses the hint, empties and hides the flyout, and leaves validity alone. */
  lemma PristineValidation(b: Box)
    requires !b.IsDirty
    ensures var r := b.ValidateNewInput();
      && r.isValid == b.isValid && r.IsValid == b.IsValid
      && r.hintState == (if b.hasErrorHint then Some(ErrorHintCollapsed) else b.hintState)
      && (b.HasFlyoutParts() ==> r.errorFlyoutTextBlock == Some("") && r.errorFlyout == Some(Flyout(false)))
  {
    FlyoutFollowsErrors(b.UpdateVisualStates([]), []);
  }

  /** Evaluating again without an intervening change yields the same state. */
  lemma ValidateNewInputIdempotent(b: Box)
    ensures b.ValidateNewInput().ValidateNewInput() == b.ValidateNewInput()
  {
    if b.IsDirty {
      DirtyRevalidation(b);
    } else {
      PristineRevalidation(b);
    }
  }

  lemma DirtyRevalidation(b: Box)
    requires b.IsDirty
    ensures b.ValidateNewInput().ValidateNewInput() == b.ValidateNewInput()
  {
    DirtyValidation(b);
    DirtyFixedPoint(b.ValidateNewInput());
  }

  /** A dirty state that already shows its own failing messages is left unchanged by evaluating. */
  lemma DirtyFixedPoint(r: Box)
    requires r.IsDirty
    requires var errors := FailingMessages(r.ValidationPairs, r.Text);
      && r.isValid == r.IsValid == (errors == [])
      && (r.hasErrorHint ==> r.hintState == Some(HintFor(errors)))
      && (r.HasFlyoutParts() ==>
            r.errorFlyoutTextBlock == Some(BulletJoin(errors)) && r.errorFlyout == Some(Flyout(errors != [])))
    ensures r.ValidateNewInput() == r
  {
    var errors := FailingMessages(r.ValidationPairs, r.Text);
    ShownErrorsAreFixed(r, errors);
  }

  lemma PristineRevalidation(b: Box)
    requires !b.IsDirty
    ensures b.ValidateNewInput().ValidateNewInput() == b.ValidateNewInput()
  {
    var r := b.ValidateNewInput();
    PristineValidation(b);
    ShownErrorsAreFixed(r, []);
    assert r.ValidateNewInput() == r.UpdateVisualStates([]).UpdateFlyoutState([]);
  }

  /** A state that already shows `errors` is left as it is by showing them again. */
  lemma ShownErrorsAreFixed(r: Box, errors: seq<string>)
    requires NoDuplicates(errors)
    requires r.hasErrorHint ==> r.hintState == Some(HintFor(errors))
    requires r.HasFlyoutParts() ==>
      r.errorFlyoutTextBlock == Some(BulletJoin(errors)) && r.errorFlyout == Some(Flyout(errors != []))
    ensures r.UpdateVisualStates(errors) == r
    ensures r.UpdateFlyoutState(errors) == r
  {
    FlyoutFollowsErrors(r, errors);
  }

  /** With both parts present, the flyout text and its open state depend on the error list alone. */
  lemma FlyoutFollowsErrors(b: Box, errors: seq<string>)
    requires NoDuplicates(errors)
    ensures b.HasFlyoutParts() ==>
      b.UpdateFlyoutState(errors) == b.(errorFlyoutTextBlock := Some(BulletJoin(errors)), errorFlyout := Some(Flyout(errors != [])))
    ensures !b.HasFlyoutParts() ==> b.UpdateFlyoutState(errors) == b
  {
    BuilderTextIsJoin(errors);
    BulletJoinBlank(errors);
  }

  /**
   * The first text change marks the control dirty, which revalidates through
   * the change callback, and then validates once more; the second run
   * reproduces the first.
   */
  lemma FirstTextChange(b: Box, newText: string)
    requires !b.IsDirty
    ensures var dirty := b.(Text := newText, IsDirty := true);
      && b.TextChanged(newText) == dirty.ValidateNewInput().ValidateNewInput()
      && b.TextChanged(newText) == dirty.ValidateNewInput()
  {
    ValidateNewInputIdempotent(b.(Text := newText, IsDirty := true));
  }

  /** Clearing `IsDirty` revalidates as pristine: errors hidden, but validity keeps its last value. */
  lemma ResetDirtyKeepsValidity(b: Box)
    requires b.IsDirty
    ensures var r := b.SetIsDirty(false);
      !r.IsDirty && r.isValid == b.isValid && r.IsValid == b.IsValid
  {
  }

  /** A control that has never been dirtied reports invalid, whatever its text. */
  lemma NeverDirtyIsInvalid(pairs: seq<ValidationPair>, hasHint: bool, hasFlyout: bool, hasText: bool)
    ensures var b := Initial(pairs).ApplyTemplate(hasHint, hasFlyout, hasText).ValidateNewInput();
      !b.IsValid && !b.isValid
  {
  }

  /** After `LostFocus` the flyout is hidden and the family follows pointer and enabled state. */
  lemma LostFocusSelects(b: Box)
    ensures var r := b.LostFocus();
      && !r.isFocused
      && r.visualState.Some?
      && r.visualState.value.family == LostFocusFamily(b.isMousedOver, b.IsEnabled)
      && (r.visualState.value.error <==> !(b.isValid || !b.IsDirty))
      && (r.errorFlyout.Some? ==> !r.errorFlyout.value.isOpen)
  {
  }

  /** Pointer events change the visual state only when not focused and enabled. */
  lemma PointerEventsSelect(b: Box)
    ensures b.PointerEntered().visualState ==
      (if !b.isFocused && b.IsEnabled then Some(Select(PointerOver, b.isValid, b.IsDirty)) else b.visualState)
    ensures b.PointerExited().visualState ==
      (if !b.isFocused && b.IsEnabled then Some(Select(Normal, b.isValid, b.IsDirty)) else b.visualState)
  {
  }

  /** `IsEnabledChanged` picks the Disabled family whether the control was enabled or disabled. */
  lemma EnabledChangeAlwaysDisabled(b: Box, newValue: bool)
    ensures b.IsEnabledChanged(newValue).visualState.value.family == Disabled
  {
  }

  /** After a tap on the hint the `Opened` handler does not force focus, and it always resets the flag. */
  lemma TappedFlyoutDoesNotForceFocus(b: Box)
    requires b.errorFlyout.Some?
    ensures b.ErrorHintTapped().errorFlyoutManuallyOpened
    ensures !b.ErrorHintTapped().ErrorFlyoutOpened().errorFlyoutManuallyOpened
  {
  }

  // ---------------------------------------------------------------------------
  // The control
  // ---------------------------------------------------------------------------

  class ValidatingTextBox {
    // TextBox properties owned by the host
    var Text: string
    var IsEnabled: bool
    // private state
    var isMousedOver: bool
    var isFocused: bool
    var isValid: bool
    var errorFlyoutManuallyOpened: bool
    // dependency properties
    var IsDirty: bool
    var IsValid: bool
    var ValidationPairs: ItemList<ValidationPair>
    // template parts and the visual-state groups
    var hasErrorHint: bool
    var errorFlyout: Option<Flyout>
    var errorFlyoutTextBlock: Option<string>
    var visualState: Option<VisualState>
    var hintState: Option<HintState>

    function View(): Box
      reads this, ValidationPairs
    {
      Box(Text, IsEnabled, isMousedOver, isFocused, isValid, errorFlyoutManuallyOpened,
          IsDirty, IsValid, ValidationPairs.items, hasErrorHint, errorFlyout, errorFlyoutTextBlock,
          visualState, hintState)
    }

    constructor ()
      ensures fresh(ValidationPairs)
      ensures View() == Initial([])
    {
      Text, IsEnabled := "", true;
      isMousedOver, isFocused, isValid, errorFlyoutManuallyOpened := false, false, false, false;
      IsDirty, IsValid := false, false;
      ValidationPairs := new ItemList();
      hasErrorHint, errorFlyout, errorFlyoutTextBlock := false, None, None;
      visualState, hintState := None, None;
    }

    method OnApplyTemplate(hasHint: bool, hasFlyout: bool, hasFlyoutTextBlock: bool)
      modifies this
      ensures ValidationPairs == old(ValidationPairs)
      ensures View() == old(View()).ApplyTemplate(hasHint, hasFlyout, hasFlyoutTextBlock)
    {
      hasErrorHint := hasHint;
      errorFlyout := if hasFlyout then Some(Flyout(false)) else None;
      errorFlyoutTextBlock := if hasFlyoutTextBlock then Some("") else None;
    }

    /** The host replaces the validator list; no revalidation follows. */
    method SetValidationPairs(pairs: ItemList<ValidationPair>)
      modifies this
      ensures ValidationPairs == pairs
      ensures View() == old(View()).(ValidationPairs := pairs.items)
    {
      ValidationPairs := pairs;
    }

    method ValidateInput(text: string) returns (errorsList: seq<string>)
      ensures errorsList == FailingMessages(ValidationPairs.items, text)
    {
      errorsList := [];
      var pairs := ValidationPairs.items;
      ghost var outcomes := PairOutcomes(pairs, text);
      for k := 0 to |pairs|
        invariant errorsList == Collected(outcomes[..k])
      {
        var pair := pairs[k];
        if !pair.validationFunction(text) && pair.errorMessage !in errorsList {
          errorsList := errorsList + [pair.errorMessage];
        }
        assert outcomes[..k + 1][..k] == outcomes[..k];
      }
      assert outcomes[..|pairs|] == outcomes;
    }

    method UpdateVisualStates(errorsList: seq<string>)
      modifies this
      ensures ValidationPairs == old(ValidationPairs)
      ensures View() == old(View()).UpdateVisualStates(errorsList)
    {
      if |errorsList| > 0 {
        if hasErrorHint {
          hintState := Some(ErrorHintVisible);
        }
      } else {
        if hasErrorHint {
          hintState := Some(ErrorHintCollapsed);
        }
      }
    }

    method UpdateFlyoutState(errorsList: seq<string>)
      modifies this
      ensures ValidationPairs == old(ValidationPairs)
      ensures View() == old(View()).UpdateFlyoutState(errorsList)
    {
      if errorFlyoutTextBlock.None? || errorFlyout.None? {
        return;
      }
      var text := BuildErrorText(errorsList);
      errorFlyoutTextBlock := Some(text);
      if |errorsList| > 0 {
        errorFlyout := Some(Flyout(true));
      }
      if IsBlank(text) {
        errorFlyout := Some(Flyout(false));
      }
    }

    method ValidateNewInput()
      modifies this
      ensures ValidationPairs == old(ValidationPairs)
      ensures View() == old(View()).ValidateNewInput()
    {
      if !IsDirty {
        UpdateVisualStates([]);
        UpdateFlyoutState([]);
        return;
      }
      var errorsList := ValidateInput(Text);
      UpdateVisualStates(errorsList);
      UpdateFlyoutState(errorsList);
      if |errorsList| > 0 {
        isValid := false;
        IsValid := false;
      } else {
        isValid := true;
        IsValid := true;
      }
    }

    /** The `IsDirty` setter together with its change callback. */
    method SetIsDirty(value: bool)
      modifies this
      ensures ValidationPairs == old(ValidationPairs)
      ensures View() == old(View()).SetIsDirty(value)
    {
      var oldValue := IsDirty;
      IsDirty := value;
      if oldValue == value {
        return;
      }
      ValidateNewInput();
    }

    /** `TextChanged`, raised after the host has stored `newText` as the text. */
    method TextChanged(newText: string)
      modifies this
      ensures ValidationPairs == old(ValidationPairs)
      ensures View() == old(View()).TextChanged(newText)
    {
      Text := newText;
      if !IsDirty {
        SetIsDirty(true);
      }
      ValidateNewInput();
    }

    /** `LostFocus`; `thrown` when the template has no flyout, which the handler dereferences unguarded. */
    method LostFocus() returns (thrown: bool)
      modifies this
      ensures thrown <==> old(errorFlyout).None?
      ensures View() == old(View()).LostFocus()
    {
      isFocused := false;
      if isMousedOver && IsEnabled {
        visualState := Some(Select(PointerOver, isValid, IsDirty));
      } else if IsEnabled {
        visualState := Some(Select(Normal, isValid, IsDirty));
      } else {
        visualState := Some(Select(Disabled, isValid, IsDirty));
      }
      thrown := errorFlyout.None?;
      if !thrown {
        errorFlyout := Some(Flyout(false));
      }
    }

    /** `GotFocus`; `focusRequested` is the programmatic `Focus` call made after showing the flyout. */
    method GotFocus() returns (focusRequested: bool)
      modifies this
      ensures focusRequested <==> old(View()).GotFocusShowsFlyout()
      ensures View() == old(View()).GotFocus()
    {
      isFocused := true;
      focusRequested := false;
      if IsEnabled {
        visualState := Some(Select(Focused, isValid, IsDirty));
        if !IsValid && IsDirty && errorFlyout.Some? {
          errorFlyout := Some(Flyout(true));
          focusRequested := true;
        }
      }
    }

    method PointerExited()
      modifies this
      ensures View() == old(View()).PointerExited()
    {
      isMousedOver := false;
      if !isFocused && IsEnabled {
        visualState := Some(Select(Normal, isValid, IsDirty));
      }
    }

    method PointerEntered()
      modifies this
      ensures View() == old(View()).PointerEntered()
    {
      isMousedOver := true;
      if !isFocused && IsEnabled {
        visualState := Some(Select(PointerOver, isValid, IsDirty));
      }
    }

    method IsEnabledChanged(newValue: bool)
      modifies this
      ensures View() == old(View()).IsEnabledChanged(newValue)
    {
      IsEnabled := newValue;
      visualState := Some(Select(Disabled, isValid, IsDirty));
    }

    method ErrorHintTapped()
      modifies this
      ensures View() == old(View()).ErrorHintTapped()
    {
      if errorFlyout.Some? {
        errorFlyoutManuallyOpened := true;
        errorFlyout := Some(Flyout(true));
      }
    }

    /** `_errorFlyout_Opened`; `focusRequested` is the programmatic `Focus` call. */
    method ErrorFlyoutOpened() returns (focusRequested: bool)
      modifies this
      ensures focusRequested <==> !old(errorFlyoutManuallyOpened)
      ensures View() == old(View()).ErrorFlyoutOpened()
    {
      focusRequested := !errorFlyoutManuallyOpened;
      errorFlyoutManuallyOpened := false;
    }
  }
}
