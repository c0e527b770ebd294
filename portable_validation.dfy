// The validating text box of UwpReusables.Controls: the engine in
// Core/ValidatingTextBoxBase.cs together with its only subclass,
// Portable/Validation/ValidatingTextBoxPortable.cs, whose validators return
// an error message (null for "valid") instead of a boolean.

module PortableValidation {
  import opened Options
  import opened Validation
  import opened BulletText
  import opened VisualStates
  import opened Parts

  /** A `Func<string, string>` validator; `None` stands for a null message. */
  type Validator = string -> Option<string>

  /** The error list the subclass's `ValidateInput` returns for `text`. */
  function ProducedMessages(functions: seq<Validator>, text: string): seq<string> {
    Collected(FunctionOutcomes(functions, text))
  }

  /** Every field of the control, as a value (see the Standard copy in ReusablesValidation). */
  datatype Box = Box(
    Text: string, IsEnabled: bool,
    isMousedOver: bool, isFocused: bool, isValid: bool,
    IsDirty: bool, IsValid: bool, ValidationFunctions: seq<Validator>,
    hasErrorHint: bool, errorToolTip: Option<ToolTip>,
    visualState: Option<VisualState>, hintState: Option<HintState>)
  {
    function ApplyTemplate(tip: Option<ToolTip>, hasHint: bool): Box {
      this.(errorToolTip := tip, hasErrorHint := hasHint)
    }

    function UpdateVisualStates(errors: seq<string>): Box {
      if hasErrorHint then this.(hintState := Some(HintFor(errors))) else this
    }

    function UpdateTooltipState(errors: seq<string>): Box {
      match errorToolTip
      case None => this
      case Some(tip) =>
        var text := BuilderText(errors);
        var filled := Some(tip.(content := text));
        var shown := if |errors| > 0 then OpenToolTip(filled) else filled;
        this.(errorToolTip := if IsBlank(text) then CloseToolTip(shown) else shown)
    }

    function ValidateNewInput(): Box {
      if !IsDirty then UpdateVisualStates([]).UpdateTooltipState([])
      else
        var errors := ProducedMessages(ValidationFunctions, Text);
        UpdateVisualStates(errors).UpdateTooltipState(errors).(isValid := errors == [], IsValid := errors == [])
    }

    /** Assigning `IsDirty`; the change callback revalidates only when the value changes. */
    function SetIsDirty(value: bool): Box {
      if IsDirty == value then this else this.(IsDirty := value).ValidateNewInput()
    }

    function TextChanged(newText: string): Box {
      var b := this.(Text := newText);
      (if !b.IsDirty then b.SetIsDirty(true) else b).ValidateNewInput()
    }

    function LostFocus(): Box {
      this.(isFocused := false,
            visualState := Some(Select(LostFocusFamily(isMousedOver, IsEnabled), isValid, IsDirty)),
            errorToolTip := CloseToolTip(errorToolTip))
    }

    /** `GotFocus` opens the tooltip exactly in this case. */
    predicate GotFocusOpensToolTip() {
      IsEnabled && !IsValid && IsDirty && errorToolTip.Some?
    }

    function GotFocus(): Box {
      if !IsEnabled then this.(isFocused := true)
      else
        this.(isFocused := true,
              visualState := Some(Select(Focused, isValid, IsDirty)),
              errorToolTip := if GotFocusOpensToolTip() then OpenToolTip(errorToolTip) else errorToolTip)
    }

    function PointerExited(): Box {
      if !isFocused && IsEnabled then this.(isMousedOver := false, visualState := Some(Select(Normal, isValid, IsDirty)))
      else this.(isMousedOver := false)
    }

    function PointerEntered(): Box {
      if !isFocused && IsEnabled then this.(isMousedOver := true, visualState := Some(Select(PointerOver, isValid, IsDirty)))
      else this.(isMousedOver := true)
    }

    /** `IsEnabledChanged` always picks the Disabled family, whatever the new value. */
    function IsEnabledChanged(newValue: bool): Box {
      this.(IsEnabled := newValue, visualState := Some(Select(Disabled, isValid, IsDirty)))
    }

    function ErrorHintTapped(): Box {
      this.(errorToolTip := ToggleToolTip(errorToolTip))
    }
  }

  /** The state of a freshly constructed `ValidatingTextBoxPortable` holding `functions`. */
  function Initial(functions: seq<Validator>): Box {
    Box("", true, false, false, false, false, false, functions, false, None, None, None)
  }

  // ---------------------------------------------------------------------------
  // The subclass's ValidateInput
  // ---------------------------------------------------------------------------

  /** Exactly the non-null messages returned for `text` are listed, each once. */
  lemma ProducedMessagesMembers(functions: seq<Validator>, text: string, m: string)
    ensures m in ProducedMessages(functions, text) <==>
      exists i :: 0 <= i < |functions| && functions[i](text) == Some(m)
    ensures NoDuplicates(ProducedMessages(functions, text))
    ensures |ProducedMessages(functions, text)| <= |functions|
  {
    var outs := FunctionOutcomes(functions, text);
    CollectedMembers(outs, m);
    if Some(m) in outs {
      var i :| 0 <= i < |outs| && outs[i] == Some(m);
      assert functions[i](text) == Some(m);
    }
  }

  /** Messages appear in the order in which the validators first produced them. */
  lemma ProducedMessagesOrder(functions: seq<Validator>, text: string)
    ensures InFirstProducedOrder(ProducedMessages(functions, text), FunctionOutcomes(functions, text))
  {
    CollectedOrder(FunctionOutcomes(functions, text));
  }

  /** A validator that returns null for `text` contributes nothing: dropping it leaves the list unchanged. */
  lemma NullValidatorContributesNothing(functions: seq<Validator>, k: nat, text: string)
    requires k < |functions| && functions[k](text) == None
    ensures ProducedMessages(functions, text) == ProducedMessages(functions[..k] + functions[k + 1..], text)
  {
    var outs := FunctionOutcomes(functions, text);
    var front, back := outs[..k], outs[k + 1..];
    assert outs == front + [None] + back;
    assert FunctionOutcomes(functions[..k] + functions[k + 1..], text) == front + back;
    CollectedIgnoresNone(front, back);
  }

  /** A control without validators is valid after any dirty evaluation. */
  lemma NoValidatorsIsValid(b: Box)
    requires b.IsDirty && b.ValidationFunctions == []
    ensures b.ValidateNewInput().IsValid && b.ValidateNewInput().isValid
  {
    assert FunctionOutcomes([], b.Text) == [];
  }

  // ---------------------------------------------------------------------------
  // Properties of the engine's transitions
  // ---------------------------------------------------------------------------

  /** With a tooltip present, its content is the bullet text and it is open exactly when there are errors. */
  lemma ToolTipFollowsErrors(b: Box, errors: seq<string>)
    requires NoDuplicates(errors)
    ensures b.errorToolTip.None? ==> b.UpdateTooltipState(errors) == b
    ensures b.errorToolTip.Some? ==>
      b.UpdateTooltipState(errors) ==
        b.(errorToolTip := Some(ToolTip(errors != [], errors != [], BulletJoin(errors))))
  {
    BuilderTextIsJoin(errors);
    BulletJoinBlank(errors);
  }

  /** A dirty evaluation sets both validity flags to "the subclass returned no errors" and shows those errors. */
  lemma DirtyValidation(b: Box)
    requires b.IsDirty
    ensures var errors := ProducedMessages(b.ValidationFunctions, b.Text);
      var r := b.ValidateNewInput();
      && r.isValid == r.IsValid == (errors == [])
      && r.hintState == (if b.hasErrorHint then Some(HintFor(errors)) else b.hintState)
      && r.errorToolTip == (if b.errorToolTip.None? then None
                            else Some(ToolTip(errors != [], errors != [], BulletJoin(errors))))
  {
    var errors := ProducedMessages(b.ValidationFunctions, b.Text);
    ToolTipFollowsErrors(b.UpdateVisualStates(errors), errors);
  }

  /** An evaluation while not dirty collapses the hint, empties and closes the tooltip, and leaves validity alone. */
  lemma PristineValidation(b: Box)
    requires !b.IsDirty
    ensures var r := b.ValidateNewInput();
      && r.isValid == b.isValid && r.IsValid == b.IsValid
      && r.hintState == (if b.hasErrorHint then Some(ErrorHintCollapsed) else b.hintState)
      && r.errorToolTip == (if b.errorToolTip.None? then None else Some(ToolTip(false, false, "")))
  {
    ToolTipFollowsErrors(b.UpdateVisualStates([]), []);
  }

  /** Assigning the value `IsDirty` already has does nothing; a real change revalidates under the new value. */
  lemma IsDirtyCallback(b: Box, value: bool)
    ensures value == b.IsDirty ==> b.SetIsDirty(value) == b
    ensures value && !b.IsDirty ==>
      b.SetIsDirty(value).IsValid == (ProducedMessages(b.ValidationFunctions, b.Text) == [])
    ensures !value && b.IsDirty ==>
      b.SetIsDirty(value).IsValid == b.IsValid &&
      (b.errorToolTip.Some? ==> !b.SetIsDirty(value).errorToolTip.value.isOpen)
  {
    if value != b.IsDirty {
      if value {
        DirtyValidation(b.(IsDirty := value));
      } else {
        PristineValidation(b.(IsDirty := value));
      }
    }
  }

  /** Evaluating never changes the inputs of the evaluation. */
  lemma ValidateNewInputKeepsInputs(b: Box)
    ensures var r := b.ValidateNewInput();
      r.IsDirty == b.IsDirty && r.Text == b.Text && r.ValidationFunctions == b.ValidationFunctions
  {
  }

  /** A text change always leaves the control dirty, and its validity is that of the new text. */
  lemma TextChangeMakesDirty(b: Box, newText: string)
    ensures var r := b.TextChanged(newText);
      r.IsDirty && r.IsValid == r.isValid == (ProducedMessages(b.ValidationFunctions, newText) == [])
  {
    var c := b.(Text := newText);
    if !c.IsDirty {
      ValidateNewInputKeepsInputs(c.(IsDirty := true));
      DirtyValidation(c.(IsDirty := true).ValidateNewInput());
    } else {
      DirtyValidation(c);
    }
  }

  /** Tapping the hint flips `IsOpen` with Visibility following it; a second tap restores the tooltip. */
  lemma TapToggles(b: Box)
    requires b.errorToolTip.Some? ==> Consistent(b.errorToolTip.value)
    ensures var r := b.ErrorHintTapped();
      && (b.errorToolTip.None? ==> r == b)
      && (b.errorToolTip.Some? ==>
            r.errorToolTip.Some? && r.errorToolTip.value.isOpen == !b.errorToolTip.value.isOpen &&
            Consistent(r.errorToolTip.value))
      && r.ErrorHintTapped() == b
  {
    ToggleTwice(b.errorToolTip);
  }

  /** `GotFocus` opens the tooltip exactly when enabled, invalid, dirty and present; otherwise the tooltip is untouched. */
  lemma GotFocusOpens(b: Box)
    ensures var r := b.GotFocus();
      && r.isFocused
      && (b.GotFocusOpensToolTip() ==> r.errorToolTip.value.isOpen && Consistent(r.errorToolTip.value))
      && (!b.GotFocusOpensToolTip() ==> r.errorToolTip == b.errorToolTip)
      && (b.IsEnabled ==> r.visualState == Some(Select(Focused, b.isValid, b.IsDirty)))
  {
  }

  /** After `LostFocus` the tooltip is closed and the family follows pointer and enabled state. */
  lemma LostFocusCloses(b: Box)
    ensures var r := b.LostFocus();
      && !r.isFocused
      && r.visualState == Some(Select(LostFocusFamily(b.isMousedOver, b.IsEnabled), b.isValid, b.IsDirty))
      && (r.errorToolTip.Some? <==> b.errorToolTip.Some?)
      && (r.errorToolTip.Some? ==> !r.errorToolTip.value.isOpen && Consistent(r.errorToolTip.value))
  {
  }

  /** Pointer events change the visual state only when not focused and enabled. */
  lemma PointerEventsSelect(b: Box)
    ensures b.PointerEntered().visualState ==
      (if !b.isFocused && b.IsEnabled then Some(Select(PointerOver, b.isValid, b.IsDirty)) else b.visualState)
    ensures b.PointerExited().visualState ==
      (if !b.isFocused && b.IsEnabled then Some(Select(Normal, b.isValid, b.IsDirty)) else b.visualState)
  {
  }

  /** `IsEnabledChanged` picks the Disabled family whether the control was enabled or disabled. */
  lemma EnabledChangeAlwaysDisabled(b: Box, newValue: bool)
    ensures b.IsEnabledChanged(newValue).visualState.value.family == Disabled
  {
  }

  // ---------------------------------------------------------------------------
  // The control
  // ---------------------------------------------------------------------------

  /** `ValidatingTextBoxPortable` with the fields and handlers it inherits from `ValidatingTextBoxBase`. */
  class ValidatingTextBoxPortable {
    // TextBox properties owned by the host
    var Text: string
    var IsEnabled: bool
    // protected state of the base class
    var isMousedOver: bool
    var isFocused: bool
    var isValid: bool
    // dependency properties
    var IsDirty: bool
    var IsValid: bool
    var ValidationFunctions: ItemList<Validator>
    // template parts and the visual-state groups
    var hasErrorHint: bool
    var errorToolTip: Option<ToolTip>
    var visualState: Option<VisualState>
    var hintState: Option<HintState>

    function View(): Box
      reads this, ValidationFunctions
    {
      Box(Text, IsEnabled, isMousedOver, isFocused, isValid, IsDirty, IsValid, ValidationFunctions.items,
          hasErrorHint, errorToolTip, visualState, hintState)
    }

    constructor ()
      ensures fresh(ValidationFunctions)
      ensures View() == Initial([])
    {
      Text, IsEnabled := "", true;
      isMousedOver, isFocused, isValid := false, false, false;
      IsDirty, IsValid := false, false;
      ValidationFunctions := new ItemList();
      hasErrorHint, errorToolTip := false, None;
      visualState, hintState := None, None;
    }

    /** `OnApplyTemplate`: the template's tooltip (if any) and whether it has an error hint button. */
    method OnApplyTemplate(tip: Option<ToolTip>, hasHint: bool)
      modifies this
      ensures ValidationFunctions == old(ValidationFunctions)
      ensures View() == old(View()).ApplyTemplate(tip, hasHint)
    {
      errorToolTip := tip;
      hasErrorHint := hasHint;
    }

    /** The subclass's `ValidateInput`: the non-null messages, each once, in the order first returned. */
    method ValidateInput(text: string) returns (errorsList: seq<string>)
      ensures errorsList == ProducedMessages(ValidationFunctions.items, text)
    {
      errorsList := [];
      var functions := ValidationFunctions.items;
      ghost var outcomes := FunctionOutcomes(functions, text);
      for k := 0 to |functions|
        invariant errorsList == Collected(outcomes[..k])
      {
        var errorMessage := functions[k](text);
        if errorMessage.Some? && errorMessage.value !in errorsList {
          errorsList := errorsList + [errorMessage.value];
        }
        assert outcomes[..k + 1][..k] == outcomes[..k];
      }
      assert outcomes[..|functions|] == outcomes;
    }

    method UpdateVisualStates(errorsList: seq<string>)
      modifies this
      ensures ValidationFunctions == old(ValidationFunctions)
      ensures View() == old(View()).UpdateVisualStates(errorsList)
    {
      if |errorsList| > 0 {
        if hasErrorHint {
          hintState := Some(ErrorHintVisible);
        }
      } else {
        if hasErrorHint {
          hintState := Some(ErrorHintCollapsed);
        }
      }
    }

    method UpdateTooltipState(errorsList: seq<string>)
      modifies this
      ensures ValidationFunctions == old(ValidationFunctions)
      ensures View() == old(View()).UpdateTooltipState(errorsList)
    {
      if errorToolTip.None? {
        return;
      }
      var text := BuildErrorText(errorsList);
      errorToolTip := Some(errorToolTip.value.(content := text));
      if |errorsList| > 0 {
        errorToolTip := OpenToolTip(errorToolTip);
      }
      if IsBlank(text) {
        errorToolTip := CloseToolTip(errorToolTip);
      }
    }

    method ValidateNewInput()
      modifies this
      ensures ValidationFunctions == old(ValidationFunctions)
      ensures View() == old(View()).ValidateNewInput()
    {
      if !IsDirty {
        UpdateVisualStates([]);
        UpdateTooltipState([]);
        return;
      }
      var errorsList := ValidateInput(Text);
      UpdateVisualStates(errorsList);
      UpdateTooltipState(errorsList);
      if |errorsList| > 0 {
        isValid := false;
        IsValid := false;
      } else {
        isValid := true;
        IsValid := true;
      }
    }

    /** The `IsDirty` setter together with its change callback. */
    method SetIsDirty(value: bool)
      modifies this
      ensures ValidationFunctions == old(ValidationFunctions)
      ensures View() == old(View()).SetIsDirty(value)
    {
      var oldValue := IsDirty;
      IsDirty := value;
      if oldValue == value {
        return;
      }
      ValidateNewInput();
    }

    /** `TextChanged`, raised after the host has stored `newText` as the text. */
    method TextChanged(newText: string)
      modifies this
      ensures ValidationFunctions == old(ValidationFunctions)
      ensures View() == old(View()).TextChanged(newText)
    {
      Text := newText;
      if !IsDirty {
        SetIsDirty(true);
      }
      ValidateNewInput();
    }

    method LostFocus()
      modifies this
      ensures View() == old(View()).LostFocus()
    {
      isFocused := false;
      if isMousedOver && IsEnabled {
        visualState := Some(Select(PointerOver, isValid, IsDirty));
      } else if IsEnabled {
        visualState := Some(Select(Normal, isValid, IsDirty));
      } else {
        visualState := Some(Select(Disabled, isValid, IsDirty));
      }
      errorToolTip := CloseToolTip(errorToolTip);
    }

    method GotFocus()
      modifies this
      ensures View() == old(View()).GotFocus()
    {
      isFocused := true;
      if IsEnabled {
        visualState := Some(Select(Focused, isValid, IsDirty));
        if !IsValid && IsDirty && errorToolTip.Some? {
          errorToolTip := OpenToolTip(errorToolTip);
        }
      }
    }

    method PointerExited()
      modifies this
      ensures View() == old(View()).PointerExited()
    {
      isMousedOver := false;
      if !isFocused && IsEnabled {
        visualState := Some(Select(Normal, isValid, IsDirty));
      }
    }

    method PointerEntered()
      modifies this
      ensures View() == old(View()).PointerEntered()
    {
      isMousedOver := true;
      if !isFocused && IsEnabled {
        visualState := Some(Select(PointerOver, isValid, IsDirty));
      }
    }

    method IsEnabledChanged(newValue: bool)
      modifies this
      ensures View() == old(View()).IsEnabledChanged(newValue)
    {
      IsEnabled := newValue;
      visualState := Some(Select(Disabled, isValid, IsDirty));
    }

    method ErrorHintTapped()
      modifies this
      ensures View() == old(View()).ErrorHintTapped()
    {
      if errorToolTip.Some? && errorToolTip.value.isOpen {
        errorToolTip := CloseToolTip(errorToolTip);
      } else if errorToolTip.Some? && !errorToolTip.value.isOpen {
        errorToolTip := OpenToolTip(errorToolTip);
      }
    }
  }
}
