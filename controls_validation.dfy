// The validating text box of Controls/Validation: the error list persists
// between evaluations, and each evaluation changes it at most once, at the
// first validation pair whose message presence disagrees with its verdict.

module ControlsValidation {
  import opened Options
  import opened Validation
  import opened BulletText
  import opened VisualStates

  /** The error flyout part; only whether it is shown is modelled. */
  datatype Flyout = Flyout(isOpen: bool)

  // ---------------------------------------------------------------------------
  // UpdateErrorsList on values
  // ---------------------------------------------------------------------------

  /**
   * `UpdateErrorsList` on a list: the pairs are visited in order, and the
   * first failing pair whose message is missing adds it, or the first passing
   * pair whose message is present removes it; then the scan stops. The flag
   * says whether anything changed.
   */
  function EarlyUpdate(errors: seq<string>, pairs: seq<ValidationPair>, text: string): (r: (bool, seq<string>))
    ensures !r.0 ==> r.1 == errors
  {
    if pairs == [] then (false, errors)
    else
      var pair := pairs[0];
      if !pair.validationFunction(text) && pair.errorMessage !in errors then (true, errors + [pair.errorMessage])
      else if pair.validationFunction(text) && pair.errorMessage in errors then (true, RemoveFirst(errors, pair.errorMessage))
      else EarlyUpdate(errors, pairs[1..], text)
  }

  /** The index of the first pair that disagrees with `errors`, or `|pairs|` when all agree. */
  function FirstDisagreeing(errors: seq<string>, pairs: seq<ValidationPair>, text: string): (k: nat)
    ensures k <= |pairs|
    ensures forall i :: 0 <= i < k ==> Agrees(errors, pairs[i], text)
    ensures k < |pairs| ==> !Agrees(errors, pairs[k], text)
  {
    if pairs == [] || !Agrees(errors, pairs[0], text) then 0
    else
      var k := FirstDisagreeing(errors, pairs[1..], text);
      assert forall i :: 1 <= i <= k ==> pairs[i] == pairs[1..][i - 1];
      1 + k
  }

  /**
   * One call makes at most one change: it reconciles the first disagreeing
   * pair and nothing else, and reports a change exactly when some pair
   * disagrees.
   */
  lemma {:induction false} EarlyUpdateReconcilesFirst(errors: seq<string>, pairs: seq<ValidationPair>, text: string)
    ensures var k := FirstDisagreeing(errors, pairs, text);
      EarlyUpdate(errors, pairs, text) ==
        if k == |pairs| then (false, errors) else (true, Reconcile(errors, pairs[k], text))
    ensures EarlyUpdate(errors, pairs, text).0 <==> !AllAgree(errors, pairs, text)
  {
    if pairs != [] && Agrees(errors, pairs[0], text) {
      EarlyUpdateReconcilesFirst(errors, pairs[1..], text);
      var k := FirstDisagreeing(errors, pairs[1..], text);
      if k < |pairs| - 1 {
        assert pairs[1..][k] == pairs[k + 1];
      }
      assert AllAgree(errors, pairs, text) <==> AllAgree(errors, pairs[1..], text) by {
        if AllAgree(errors, pairs[1..], text) {
          forall i | 0 <= i < |pairs| ensures Agrees(errors, pairs[i], text) {
            if i > 0 {
              assert pairs[i] == pairs[1..][i - 1];
            }
          }
        }
      }
    }
  }

  /**
   * The list stays duplicate-free, a change either appends one new message
   * at the end or removes one present message, and only the message of the
   * reconciled pair changes membership.
   */
  lemma EarlyUpdateEffect(errors: seq<string>, pairs: seq<ValidationPair>, text: string)
    requires NoDuplicates(errors)
    ensures var r := EarlyUpdate(errors, pairs, text).1;
      && NoDuplicates(r)
      && (r == errors
          || (exists m :: m !in errors && r == errors + [m])
          || (exists m :: m in errors && r == RemoveFirst(errors, m)))
  {
    EarlyUpdateReconcilesFirst(errors, pairs, text);
    var k := FirstDisagreeing(errors, pairs, text);
    if k < |pairs| {
      ReconcileEffect(errors, pairs[k], text);
    }
  }

  /** A message that belongs to no current pair is never removed. */
  lemma StaleMessagesPersist(errors: seq<string>, pairs: seq<ValidationPair>, text: string, m: string)
    requires NoDuplicates(errors)
    requires m in errors && !IsPairMessage(pairs, m)
    ensures m in EarlyUpdate(errors, pairs, text).1
  {
    EarlyUpdateReconcilesFirst(errors, pairs, text);
    var k := FirstDisagreeing(errors, pairs, text);
    if k < |pairs| {
      ReconcileEffect(errors, pairs[k], text);
    }
  }

  /**
   * When a failing pair and the next, passing pair share a message, each
   * update flips whether the message is listed: the first pair appends it
   * and the second removes it again, so the list never settles.
   */
  lemma SharedMessageAlternates(errors: seq<string>, f: string -> bool, g: string -> bool, m: string, text: string)
    requires m !in errors && !f(text) && g(text)
    ensures var pairs := [ValidationPair(f, m), ValidationPair(g, m)];
      && EarlyUpdate(errors, pairs, text) == (true, errors + [m])
      && EarlyUpdate(errors + [m], pairs, text) == (true, errors)
  {
    var pairs := [ValidationPair(f, m), ValidationPair(g, m)];
    assert pairs[1..] == [pairs[1]];
    assert EarlyUpdate(errors + [m], pairs, text) == EarlyUpdate(errors + [m], pairs[1..], text);
    assert forall j :: 0 <= j < |errors| ==> (errors + [m])[j] == errors[j];
    assert IndexOf(errors + [m], m) == |errors|;
    assert (errors + [m])[..|errors|] == errors;
    assert (errors + [m])[|errors| + 1..] == [] && errors + [] == errors;
    assert RemoveFirst(errors + [m], m) == errors;
    assert EarlyUpdate(errors + [m], pairs[1..], text) == (true, RemoveFirst(errors + [m], m));
  }

  // ---------------------------------------------------------------------------
  // Repeated evaluation with a fixed text
  // ---------------------------------------------------------------------------

  /** The list after `n` dirty evaluations of the same text. */
  function Iterate(errors: seq<string>, pairs: seq<ValidationPair>, text: string, n: nat): seq<string>
    decreases n
  {
    if n == 0 then errors else Iterate(EarlyUpdate(errors, pairs, text).1, pairs, text, n - 1)
  }

  /** How many pairs disagree with `errors`. */
  function Disagreements(errors: seq<string>, pairs: seq<ValidationPair>, text: string): (n: nat)
    ensures n <= |pairs|
  {
    if pairs == [] then 0
    else (if Agrees(errors, pairs[0], text) then 0 else 1) + Disagreements(errors, pairs[1..], text)
  }

  lemma {:induction false} NoDisagreementsAllAgree(errors: seq<string>, pairs: seq<ValidationPair>, text: string)
    ensures Disagreements(errors, pairs, text) == 0 <==> AllAgree(errors, pairs, text)
  {
    if pairs != [] {
      NoDisagreementsAllAgree(errors, pairs[1..], text);
      assert AllAgree(errors, pairs, text) <==> Agrees(errors, pairs[0], text) && AllAgree(errors, pairs[1..], text) by {
        forall i | 0 < i < |pairs| ensures pairs[i] == pairs[1..][i - 1] {}
      }
    }
  }

  lemma {:induction false} SameAgreementSameCount(e: seq<string>, e': seq<string>, pairs: seq<ValidationPair>, text: string)
    requires forall i :: 0 <= i < |pairs| ==> (Agrees(e', pairs[i], text) <==> Agrees(e, pairs[i], text))
    ensures Disagreements(e', pairs, text) == Disagreements(e, pairs, text)
  {
    if pairs != [] {
      assert forall i :: 0 <= i < |pairs| - 1 ==> pairs[1..][i] == pairs[i + 1];
      SameAgreementSameCount(e, e', pairs[1..], text);
    }
  }

  lemma {:induction false} OneFixedOneFewer(e: seq<string>, e': seq<string>, pairs: seq<ValidationPair>, text: string, k: nat)
    requires k < |pairs|
    requires !Agrees(e, pairs[k], text) && Agrees(e', pairs[k], text)
    requires forall i :: 0 <= i < |pairs| && i != k ==> (Agrees(e', pairs[i], text) <==> Agrees(e, pairs[i], text))
    ensures Disagreements(e', pairs, text) == Disagreements(e, pairs, text) - 1
  {
    assert forall i :: 0 <= i < |pairs| - 1 ==> pairs[1..][i] == pairs[i + 1];
    if k == 0 {
      SameAgreementSameCount(e, e', pairs[1..], text);
    } else {
      OneFixedOneFewer(e, e', pairs[1..], text, k - 1);
    }
  }

  /** With pairwise-distinct messages, a change fixes the reconciled pair and disturbs no other pair. */
  lemma EarlyUpdateProgress(errors: seq<string>, pairs: seq<ValidationPair>, text: string)
    requires NoDuplicates(errors) && DistinctMessages(pairs)
    requires !AllAgree(errors, pairs, text)
    ensures Disagreements(EarlyUpdate(errors, pairs, text).1, pairs, text) == Disagreements(errors, pairs, text) - 1
  {
    EarlyUpdateReconcilesFirst(errors, pairs, text);
    var k := FirstDisagreeing(errors, pairs, text);
    var r := Reconcile(errors, pairs[k], text);
    ReconcileEffect(errors, pairs[k], text);
    forall i | 0 <= i < |pairs| && i != k
      ensures Agrees(r, pairs[i], text) <==> Agrees(errors, pairs[i], text)
    {
      assert pairs[i].errorMessage != pairs[k].errorMessage;
    }
    OneFixedOneFewer(errors, r, pairs, text, k);
  }

  lemma {:induction false} IterateConverges(errors: seq<string>, pairs: seq<ValidationPair>, text: string, n: nat)
    requires NoDuplicates(errors) && DistinctMessages(pairs)
    requires Disagreements(errors, pairs, text) <= n
    decreases n
    ensures var r := Iterate(errors, pairs, text, n);
      NoDuplicates(r) && AllAgree(r, pairs, text)
  {
    NoDisagreementsAllAgree(errors, pairs, text);
    EarlyUpdateReconcilesFirst(errors, pairs, text);
    if n > 0 {
      var next := EarlyUpdate(errors, pairs, text).1;
      EarlyUpdateEffect(errors, pairs, text);
      if !AllAgree(errors, pairs, text) {
        EarlyUpdateProgress(errors, pairs, text);
      }
      IterateConverges(next, pairs, text, n - 1);
    }
  }

  /**
   * With pairwise-distinct messages and a fixed text, |pairs| evaluations
   * reach a fixed point at which the pair messages listed are exactly the
   * failing ones.
   */
  lemma ConvergesWithinPairCount(errors: seq<string>, pairs: seq<ValidationPair>, text: string)
    requires NoDuplicates(errors) && DistinctMessages(pairs)
    ensures var r := Iterate(errors, pairs, text, |pairs|);
      && EarlyUpdate(r, pairs, text) == (false, r)
      && (forall m :: IsPairMessage(pairs, m) ==> (m in r <==> m in FailingMessages(pairs, text)))
  {
    var r := Iterate(errors, pairs, text, |pairs|);
    IterateConverges(errors, pairs, text, |pairs|);
    EarlyUpdateReconcilesFirst(r, pairs, text);
    forall m | IsPairMessage(pairs, m) ensures m in r <==> m in FailingMessages(pairs, text) {
      AgreedMembership(r, pairs, text, m);
    }
  }

  // ---------------------------------------------------------------------------
  // The control's state
  // ---------------------------------------------------------------------------

  /**
   * Every field of the control, as a value. `errorList` is `_errorList`;
   * `errorFlyout` and `errorFlyoutTextBlock` are `None` when the template has
   * no such part, the text block being represented by its `Text`.
   */
  datatype Box = Box(
    Text: string, IsEnabled: bool,
    isMousedOver: bool, isFocused: bool, isValid: bool, errorList: seq<string>,
    IsDirty: bool, IsValid: bool, ValidationPairs: seq<ValidationPair>,
    hasErrorHint: bool, errorFlyout: Option<Flyout>, errorFlyoutTextBlock: Option<string>,
    visualState: Option<VisualState>, hintState: Option<HintState>)
  {
    function ApplyTemplate(hasHint: bool, hasFlyout: bool, hasFlyoutTextBlock: bool): Box {
      this.(hasErrorHint := hasHint,
            errorFlyout := if hasFlyout then Some(Flyout(false)) else None,
            errorFlyoutTextBlock := if hasFlyoutTextBlock then Some("") else None)
    }

    function UpdateErrorsList(text: string): (bool, Box) {
      var r := EarlyUpdate(errorList, ValidationPairs, text);
      (r.0, this.(errorList := r.1))
    }

    function UpdateVisualStates(): Box {
      if hasErrorHint then this.(hintState := Some(HintFor(errorList))) else this
    }

    function UpdateFlyoutText(): Box {
      if errorFlyoutTextBlock.None? then this else this.(errorFlyoutTextBlock := Some(BuilderText(errorList)))
    }

    function ValidateNewInput(): Box {
      if !IsDirty then this.(errorList := []).UpdateVisualStates().UpdateFlyoutText()
      else
        var (changed, b) := UpdateErrorsList(Text);
        var v := b.(isValid := b.errorList == [], IsValid := b.errorList == []);
        if !changed then v else v.UpdateVisualStates().UpdateFlyoutText()
    }

    /** Assigning `IsDirty`; the change callback revalidates only when the value changes. */
    function SetIsDirty(value: bool): Box {
      if IsDirty == value then this else this.(IsDirty := value).ValidateNewInput()
    }

    function TextChanged(newText: string): Box {
      var b := this.(Text := newText);
      (if !b.IsDirty then b.SetIsDirty(true) else b).ValidateNewInput()
    }

    function LostFocus(): Box {
      this.(isFocused := false,
            visualState := Some(Select(LostFocusFamily(isMousedOver, IsEnabled), isValid, IsDirty)))
    }

    function GotFocus(): Box {
      if IsEnabled then this.(isFocused := true, visualState := Some(Select(Focused, isValid, IsDirty)))
      else this.(isFocused := true)
    }

    function PointerExited(): Box {
      if !isFocused && IsEnabled then this.(isMousedOver := false, visualState := Some(Select(Normal, isValid, IsDirty)))
      else this.(isMousedOver := false)
    }

    function PointerEntered(): Box {
      if !isFocused && IsEnabled then this.(isMousedOver := true, visualState := Some(Select(PointerOver, isValid, IsDirty)))
      else this.(isMousedOver := true)
    }

    /** `IsEnabledChanged` always picks the Disabled family, whatever the new value. */
    function IsEnabledChanged(newValue: bool): Box {
      this.(IsEnabled := newValue, visualState := Some(Select(Disabled, isValid, IsDirty)))
    }

    /** `ErrorHint_Tapped` shows the flyout; without one the unguarded call throws and nothing changes. */
    function ErrorHintTapped(): Box {
      if errorFlyout.Some? then this.(errorFlyout := Some(Flyout(true))) else this
    }
  }

  /** The state of a freshly constructed control holding `pairs`. */
  function Initial(pairs: seq<ValidationPair>): Box {
    Box("", true, false, false, false, [], false, false, pairs, false, None, None, None, None)
  }

  // ---------------------------------------------------------------------------
  // Properties of the transitions
  // ---------------------------------------------------------------------------

  /**
   * A dirty evaluation applies one `UpdateErrorsList` step and sets both
   * validity flags to "the list is empty"; the hint and the flyout text are
   * refreshed only when the list changed, and then show the new list.
   */
  lemma DirtyValidation(b: Box)
    requires b.IsDirty && NoDuplicates(b.errorList)
    ensures var (changed, errs) := EarlyUpdate(b.errorList, b.ValidationPairs, b.Text);
      var r := b.ValidateNewInput();
      && r.errorList == errs && NoDuplicates(errs)
      && r.isValid == r.IsValid == (errs == [])
      && (!changed ==> r.hintState == b.hintState && r.errorFlyoutTextBlock == b.errorFlyoutTextBlock)
      && (changed ==>
            r.hintState == (if b.hasErrorHint then Some(HintFor(errs)) else b.hintState) &&
            r.errorFlyoutTextBlock == (if b.errorFlyoutTextBlock.None? then None else Some(BulletJoin(errs))))
  {
    var (changed, errs) := EarlyUpdate(b.errorList, b.ValidationPairs, b.Text);
    EarlyUpdateEffect(b.errorList, b.ValidationPairs, b.Text);
    var v := b.(errorList := errs, isValid := errs == [], IsValid := errs == []);
    assert b.ValidateNewInput() == if changed then v.UpdateVisualStates().UpdateFlyoutText() else v;
    if changed {
      BuilderTextIsJoin(errs);
    }
  }

  /** An evaluation while not dirty clears the list, collapses the hint and empties the text, leaving validity alone. */
  lemma PristineValidation(b: Box)
    requires !b.IsDirty
    ensures var r := b.ValidateNewInput();
      && r.errorList == []
      && r.isValid == b.isValid && r.IsValid == b.IsValid
      && r.hintState == (if b.hasErrorHint then Some(ErrorHintCollapsed) else b.hintState)
      && r.errorFlyoutTextBlock == (if b.errorFlyoutTextBlock.None? then None else Some(""))
  {
  }

  /** Evaluating never changes the inputs of the evaluation. */
  lemma ValidateNewInputKeepsInputs(b: Box)
    ensures var r := b.ValidateNewInput();
      r.IsDirty == b.IsDirty && r.Text == b.Text && r.ValidationPairs == b.ValidationPairs
  {
    if b.IsDirty {
      var (changed, u) := b.UpdateErrorsList(b.Text);
      var v := u.(isValid := u.errorList == [], IsValid := u.errorList == []);
      assert v.IsDirty == b.IsDirty && v.Text == b.Text && v.ValidationPairs == b.ValidationPairs;
      var w := v.UpdateVisualStates();
      assert w.IsDirty == b.IsDirty && w.Text == b.Text && w.ValidationPairs == b.ValidationPairs;
    } else {
      var w := b.(errorList := []).UpdateVisualStates();
      assert w.IsDirty == b.IsDirty && w.Text == b.Text && w.ValidationPairs == b.ValidationPairs;
    }
  }

  /** The first text change runs two `UpdateErrorsList` steps: one through the `IsDirty` callback and one directly. */
  lemma FirstTextChangeTwoSteps(b: Box, newText: string)
    requires !b.IsDirty
    ensures b.TextChanged(newText).errorList == Iterate(b.errorList, b.ValidationPairs, newText, 2)
  {
    var c := b.(Text := newText);
    var d := c.(IsDirty := true);
    assert c.SetIsDirty(true) == d.ValidateNewInput();
    var once := d.ValidateNewInput();
    ValidateNewInputKeepsInputs(d);
    DirtyStep(d);
    DirtyStep(once);
  }

  /** A dirty evaluation applies exactly one `UpdateErrorsList` step to the list. */
  lemma DirtyStep(b: Box)
    requires b.IsDirty
    ensures b.ValidateNewInput().errorList == EarlyUpdate(b.errorList, b.ValidationPairs, b.Text).1
  {
  }

  /** Focus events only move between visual states; they never touch the flyout. */
  lemma FocusSelects(b: Box)
    ensures var r := b.LostFocus();
      && !r.isFocused && r.errorFlyout == b.errorFlyout
      && r.visualState == Some(Select(LostFocusFamily(b.isMousedOver, b.IsEnabled), b.isValid, b.IsDirty))
    ensures var r := b.GotFocus();
      && r.isFocused && r.errorFlyout == b.errorFlyout
      && r.visualState == (if b.IsEnabled then Some(Select(Focused, b.isValid, b.IsDirty)) else b.visualState)
  {
  }

  /** Pointer events change the visual state only when not focused and enabled. */
  lemma PointerEventsSelect(b: Box)
    ensures b.PointerEntered().visualState ==
      (if !b.isFocused && b.IsEnabled then Some(Select(PointerOver, b.isValid, b.IsDirty)) else b.visualState)
    ensures b.PointerExited().visualState ==
      (if !b.isFocused && b.IsEnabled then Some(Select(Normal, b.isValid, b.IsDirty)) else b.visualState)
  {
  }

  /** `IsEnabledChanged` picks the Disabled family whether the control was enabled or disabled. */
  lemma EnabledChangeAlwaysDisabled(b: Box, newValue: bool)
    ensures b.IsEnabledChanged(newValue).visualState.value.family == Disabled
  {
  }

  // ---------------------------------------------------------------------------
  // The control
  // ---------------------------------------------------------------------------

  class ValidatingTextBox {
    // TextBox properties owned by the host
    var Text: string
    var IsEnabled: bool
    // private state
    var isMousedOver: bool
    var isFocused: bool
    var isValid: bool
    var errorList: seq<string>
    // dependency properties
    var IsDirty: bool
    var IsValid: bool
    var ValidationPairs: ItemList<ValidationPair>
    // template parts and the visual-state groups
    var hasErrorHint: bool
    var errorFlyout: Option<Flyout>
    var errorFlyoutTextBlock: Option<string>
    var visualState: Option<VisualState>
    var hintState: Option<HintState>

    function View(): Box
      reads this, ValidationPairs
    {
      Box(Text, IsEnabled, isMousedOver, isFocused, isValid, errorList, IsDirty, IsValid, ValidationPairs.items,
          hasErrorHint, errorFlyout, errorFlyoutTextBlock, visualState, hintState)
    }

    /** `_errorList` never holds a message twice. */
    predicate Valid()
      reads this
    {
      NoDuplicates(errorList)
    }

    constructor ()
      ensures Valid() && fresh(ValidationPairs)
      ensures View() == Initial([])
    {
      Text, IsEnabled := "", true;
      isMousedOver, isFocused, isValid := false, false, false;
      errorList := [];
      IsDirty, IsValid := false, false;
      ValidationPairs := new ItemList();
      hasErrorHint, errorFlyout, errorFlyoutTextBlock := false, None, None;
      visualState, hintState := None, None;
    }

    method OnApplyTemplate(hasHint: bool, hasFlyout: bool, hasFlyoutTextBlock: bool)
      modifies this
      ensures ValidationPairs == old(ValidationPairs) && errorList == old(errorList)
      ensures View() == old(View()).ApplyTemplate(hasHint, hasFlyout, hasFlyoutTextBlock)
    {
      hasErrorHint := hasHint;
      errorFlyout := if hasFlyout then Some(Flyout(false)) else None;
      errorFlyoutTextBlock := if hasFlyoutTextBlock then Some("") else None;
    }

    method UpdateErrorsList(text: string) returns (changed: bool)
      requires Valid()
      modifies this
      ensures Valid() && ValidationPairs == old(ValidationPairs)
      ensures (changed, View()) == old(View()).UpdateErrorsList(text)
    {
      ghost var start := errorList;
      EarlyUpdateEffect(start, ValidationPairs.items, text);
      var pairs := ValidationPairs.items;
      for k := 0 to |pairs|
        invariant unchanged(this)
        invariant EarlyUpdate(start, pairs, text) == EarlyUpdate(start, pairs[k..], text)
      {
        var pair := pairs[k];
        assert pairs[k..][1..] == pairs[k + 1..];
        if !pair.validationFunction(text) && pair.errorMessage !in errorList {
          errorList := errorList + [pair.errorMessage];
          return true;
        } else if pair.validationFunction(text) && pair.errorMessage in errorList {
          errorList := RemoveFirst(errorList, pair.errorMessage);
          return true;
        }
      }
      return false;
    }

    method UpdateVisualStates()
      modifies this
      ensures ValidationPairs == old(ValidationPairs) && errorList == old(errorList)
      ensures View() == old(View()).UpdateVisualStates()
    {
      if |errorList| > 0 {
        if hasErrorHint {
          hintState := Some(ErrorHintVisible);
        }
      } else {
        if hasErrorHint {
          hintState := Some(ErrorHintCollapsed);
        }
      }
    }

    method UpdateFlyoutText()
      modifies this
      ensures ValidationPairs == old(ValidationPairs) && errorList == old(errorList)
      ensures View() == old(View()).UpdateFlyoutText()
    {
      if errorFlyoutTextBlock.None? {
        return;
      }
      var text := BuildErrorText(errorList);
      errorFlyoutTextBlock := Some(text);
    }

    method ValidateNewInput()
      requires Valid()
      modifies this
      ensures Valid() && ValidationPairs == old(ValidationPairs)
      ensures View() == old(View()).ValidateNewInput()
    {
      if !IsDirty {
        errorList := [];
        UpdateVisualStates();
        UpdateFlyoutText();
        return;
      }
      var errorStateChanged := UpdateErrorsList(Text);
      if |errorList| > 0 {
        isValid := false;
        IsValid := false;
      } else {
        isValid := true;
        IsValid := true;
      }
      if !errorStateChanged {
        return;
      }
      UpdateVisualStates();
      UpdateFlyoutText();
    }

    /** The `IsDirty` setter together with its change callback. */
    method SetIsDirty(value: bool)
      requires Valid()
      modifies this
      ensures Valid() && ValidationPairs == old(ValidationPairs)
      ensures View() == old(View()).SetIsDirty(value)
    {
      var oldValue := IsDirty;
      IsDirty := value;
      if oldValue == value {
        return;
      }
      ValidateNewInput();
    }

    /** `TextChanged`, raised after the host has stored `newText` as the text. */
    method TextChanged(newText: string)
      requires Valid()
      modifies this
      ensures Valid() && ValidationPairs == old(ValidationPairs)
      ensures View() == old(View()).TextChanged(newText)
    {
      Text := newText;
      if !IsDirty {
        SetIsDirty(true);
      }
      ValidateNewInput();
    }

    method LostFocus()
      modifies this
      ensures View() == old(View()).LostFocus()
    {
      isFocused := false;
      if isMousedOver && IsEnabled {
        visualState := Some(Select(PointerOver, isValid, IsDirty));
      } else if IsEnabled {
        visualState := Some(Select(Normal, isValid, IsDirty));
      } else {
        visualState := Some(Select(Disabled, isValid, IsDirty));
      }
    }

    method GotFocus()
      modifies this
      ensures View() == old(View()).GotFocus()
    {
      isFocused := true;
      if IsEnabled {
        visualState := Some(Select(Focused, isValid, IsDirty));
      }
    }

    method PointerExited()
      modifies this
      ensures View() == old(View()).PointerExited()
    {
      isMousedOver := false;
      if !isFocused && IsEnabled {
        visualState := Some(Select(Normal, isValid, IsDirty));
      }
    }

    method PointerEntered()
      modifies this
      ensures View() == old(View()).PointerEntered()
    {
      isMousedOver := true;
      if !isFocused && IsEnabled {
        visualState := Some(Select(PointerOver, isValid, IsDirty));
      }
    }

    method IsEnabledChanged(newValue: bool)
      modifies this
      ensures View() == old(View()).IsEnabledChanged(newValue)
    {
      IsEnabled := newValue;
      visualState := Some(Select(Disabled, isValid, IsDirty));
    }

    /** `ErrorHint_Tapped`; `thrown` when the template has no flyout, which the handler dereferences unguarded. */
    method ErrorHintTapped() returns (thrown: bool)
      modifies this
      ensures thrown <==> old(errorFlyout).None?
      ensures View() == old(View()).ErrorHintTapped()
    {
      thrown := errorFlyout.None?;
      if !thrown {
        errorFlyout := Some(Flyout(true));
      }
    }
  }
}
