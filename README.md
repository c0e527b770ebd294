# Validating text boxes and the inline formatter, modelled in Dafny

The repository is a collection of reusable controls for the Universal
Windows Platform. Its core is the **ValidatingTextBox**: a `TextBox` that
checks its text against a list of validators. It shows an error hint, an
error surface (a flyout or a tooltip) listing one "● message" line per
error, and one of eight visual states (`{Normal, PointerOver, Focused,
Disabled} × {OK, Error}`). The repository holds five copies of this control,
written at different times and differing in the details:

| module | file | copy |
|---|---|---|
| `StandardValidation` | `standard_validation.dfy` | `Controls/Standard/Validation/ValidatingTextBox.cs`: rebuilds the list on every evaluation, error flyout |
| `ReusablesValidation` | `reusables_validation.dfy` | `UwpReusables.Controls/Standard/Validation/ValidatingTextBox.cs`: rebuilds the list, error tooltip |
| `PortableValidation` | `portable_validation.dfy` | `UwpReusables.Controls/Core/ValidatingTextBoxBase.cs` with its subclass `UwpReusables.Controls/Portable/Validation/ValidatingTextBoxPortable.cs`: message-returning validators |
| `ControlsValidation` | `controls_validation.dfy` | `Controls/Validation/ValidatingTextBox.cs`: persistent list, reconciles at most one validator per evaluation |
| `OriginalValidation` | `original_validation.dfy` | `ValidatingTextBox/ValidatingTextBox.cs`: persistent list, reconciles every validator in one scan |

The second part of the core is the **InlineFormatter** (`Controls/Standard/Formatting/InlineFormatter.cs`,
module `InlineFormatting` in `inline_formatter.dfy`). It is a pair of attached
properties. They turn markup such as `<format>a <Bold>b</Bold></format>` into
the `Inlines` of a `TextBlock`, one span per element. The source text is
shown verbatim when the markup does not parse or its root is not `format`.

Shared pieces sit in their own modules:
- `Validation` (`validation.dfy`) holds the validator pair and the duplicate-free list that `ValidateInput` builds. It also holds the per-pair reconciliation the two incremental copies use, `List<T>.Remove`, and the validator list object (`ItemList`).
- `BulletText` (`bullets.dfy`) holds the `StringBuilder` loop that builds the error text, a reference definition of that text, and `String.IsNullOrWhiteSpace`.
- `VisualStates` (`presentation.dfy`) holds the eight state names, the state each handler picks, and the hint state.
- `Parts` (`presentation.dfy`) holds the error tooltip template part.

Each control is a Dafny `class` whose fields are the C# fields and
dependency properties its logic reads or writes. Each has:
- a snapshot `View()`, a `Box` datatype value;
- a `Box` function per event handler, stating the handler's effect on the snapshot;
- a method per handler, which updates the fields step by step as the C# does and ensures `View() == old(View()).Handler(...)`;
- lemmas about the `Box` functions, stating what the handlers promise.

### Where the code and the design description disagree (the model follows the code)
- **A control that was never dirty is not valid.** `IsValid` starts `false` and a pristine evaluation leaves it alone (`StandardValidation.NeverDirtyIsInvalid`).
- **Evaluating twice is not idempotent in every copy.**
  - It is idempotent in the copies that rebuild the list.
  - `Controls/Validation` reconciles one disagreeing validator per evaluation. A first text change therefore applies two steps (`ControlsValidation.FirstTextChangeTwoSteps`), and the list settles only after up to one evaluation per validator (`ControlsValidation.ConvergesWithinPairCount`).
- **A message shared by two validators does not collapse to one entry in the incremental copies.**
  - A later passing validator removes the message a failing one added (`OriginalValidation.SharedMessageRemoved`).
  - In `Controls/Validation` the list then alternates forever (`ControlsValidation.SharedMessageAlternates`).
- **Order.** The incremental copies keep insertion order, not declaration order (`OriginalValidation.ScanOrder`).
- **Resetting `IsDirty` does not restore a pristine state.**
  - In the original copy `IsDirty` is a plain property: clearing it neither revalidates nor clears the errors (`OriginalValidation.ClearingDirtyKeepsErrors`).
  - In the others, clearing it leaves validity as it was (`StandardValidation.ResetDirtyKeepsValidity`).
- **Changing the validator list does not revalidate.** Assigning `ValidationPairs` stores the list and nothing else (`StandardValidation.ValidatingTextBox.SetValidationPairs`).

## Model

| member | source | states |
|---|---|---|
| Validation.RemoveFirst | Controls/Validation/ValidatingTextBox.cs:287-305 | `List.Remove`: an absent message leaves the list as it is; a present one makes it one shorter |
| Validation.RemoveFirstMembers | Controls/Validation/ValidatingTextBox.cs:287-305 | removing from a duplicate-free list keeps it duplicate-free and drops exactly the removed message |
| Validation.PairOutcomes | Controls/Standard/Validation/ValidatingTextBox.cs:317-329 | one outcome per validator, in list order: the message when the function rejects the text |
| Validation.FunctionOutcomes | UwpReusables.Controls/Portable/Validation/ValidatingTextBoxPortable.cs:41-54 | one outcome per message function, in list order: what it returns for the text |
| Validation.Collected | Controls/Standard/Validation/ValidatingTextBox.cs:317-329 | the list `ValidateInput` builds is duplicate-free and no longer than the validator list |
| Validation.CollectedMembers | Controls/Standard/Validation/ValidatingTextBox.cs:317-329 | a message is listed exactly when some validator produced it |
| Validation.CollectedIgnoresNone | UwpReusables.Controls/Portable/Validation/ValidatingTextBoxPortable.cs:41-54 | a validator returning null adds nothing: removing it from the outcomes leaves the list unchanged |
| Validation.CollectedOrder | Controls/Standard/Validation/ValidatingTextBox.cs:317-329 | messages are listed in the order in which they were first produced |
| Validation.FailingMessagesMembers | Controls/Standard/Validation/ValidatingTextBox.cs:317-329 | the list holds exactly the messages of pairs whose function returns false |
| Validation.Reconcile | ValidatingTextBox/ValidatingTextBox.cs:136-151 | for one pair: an agreeing list is unchanged; a failing pair's missing message is appended; a passing pair's present message is removed |
| Validation.ReconcileEffect | ValidatingTextBox/ValidatingTextBox.cs:136-151 | reconciling keeps the list duplicate-free, makes the pair agree, and changes no other message's membership |
| Validation.ReconcileKeepsOtherAgreement | ValidatingTextBox/ValidatingTextBox.cs:136-151 | reconciling one pair does not change whether a pair with a different message agrees |
| Validation.AgreedMembership | ValidatingTextBox/ValidatingTextBox.cs:136-151 | when every pair agrees and messages are distinct, a pair message is listed exactly when it is among the failing messages |
| Validation.ItemList.constructor | Controls/Standard/Validation/ValidatingTextBox.cs:47-59 | a new validator list is empty |
| Validation.ItemList.Add | Controls/Standard/Validation/ValidatingTextBox.cs:194-204 | adding a validator appends it to the list the control references |
| BulletText.BulletJoin | Controls/Standard/Validation/ValidatingTextBox.cs:290-303 | the reference error text: one bullet line per message, newline-separated; empty exactly when there are no errors (its link to the loop is `BuilderTextIsJoin`) |
| BulletText.BuilderPrefix | Controls/Standard/Validation/ValidatingTextBox.cs:290-303 | the builder after `k` iterations holds at least two characters per visited message |
| BulletText.BuilderText | Controls/Standard/Validation/ValidatingTextBox.cs:290-306 | the text the loop leaves in the builder is empty exactly when there are no errors |
| BulletText.BuildErrorText | Controls/Standard/Validation/ValidatingTextBox.cs:290-303 | the `StringBuilder` loop yields the text of `BuilderText`: "last line" means "equal to the list's last element" |
| BulletText.BuilderTextIsJoin | Controls/Standard/Validation/ValidatingTextBox.cs:290-303 | for a duplicate-free list the loop gives one bullet line per message, joined by newlines, with nothing after the last |
| BulletText.RepeatedLastMessageLosesSeparator | Controls/Standard/Validation/ValidatingTextBox.cs:290-303 | for any list whose last message also occurs earlier, the loop's text is at least one newline shorter than the bullet join, so it differs from it; this cannot happen with the duplicate-free lists the copies pass |
| BulletText.PrefixShorterThanLines | Controls/Standard/Validation/ValidatingTextBox.cs:290-303 | after visiting the first `k` messages the loop holds no more than their newline-terminated lines, and a newline less once it has passed an earlier copy of the last message |
| BulletText.IsBlank | Controls/Standard/Validation/ValidatingTextBox.cs:311 | `String.IsNullOrWhiteSpace` on a non-null string: every character is Unicode white space; its contract about the error text is `BulletJoinBlank` |
| BulletText.BulletJoinBlank | Controls/Standard/Validation/ValidatingTextBox.cs:309-312 | the error text is null-or-white-space exactly when there are no errors, so the flyout is hidden exactly then |
| VisualStates.NameRoundTrip | Controls/Standard/Validation/ValidatingTextBox.cs:61-91 | the eight state names are distinct: the name of a state reads back as that state |
| VisualStates.FromNameSound | Controls/Standard/Validation/ValidatingTextBox.cs:61-91 | every recognised name is the name of the state it is read as |
| VisualStates.Select | Controls/Standard/Validation/ValidatingTextBox.cs:61-91 | the chosen state has the requested family and is an Error state exactly when dirty and not valid |
| VisualStates.LostFocusFamily | Controls/Standard/Validation/ValidatingTextBox.cs:61-91 | after losing focus: Disabled exactly when disabled, PointerOver exactly when moused over and enabled |
| VisualStates.HintFor | Controls/Standard/Validation/ValidatingTextBox.cs:266-282 | the hint is visible exactly when there are errors |
| Parts.OpenToolTip | UwpReusables.Controls/Standard/Validation/ValidatingTextBox.cs:333-340 | opening a present tooltip makes it open and visible and keeps its content; an absent one stays absent |
| Parts.CloseToolTip | UwpReusables.Controls/Standard/Validation/ValidatingTextBox.cs:342-349 | closing a present tooltip makes it closed and collapsed and keeps its content; an absent one stays absent |
| Parts.ToggleToolTip | UwpReusables.Controls/Standard/Validation/ValidatingTextBox.cs:321-331 | tapping flips `IsOpen` with visibility following it; an absent tooltip is untouched |
| Parts.ToggleTwice | UwpReusables.Controls/Standard/Validation/ValidatingTextBox.cs:321-331 | two taps restore a consistent tooltip |
| StandardValidation.DirtyValidation | Controls/Standard/Validation/ValidatingTextBox.cs:240-264 | a dirty evaluation sets both validity flags to "no failing messages", shows the hint iff there are errors, and sets the flyout text to their bullet lines, open iff there are errors |
| StandardValidation.PristineValidation | Controls/Standard/Validation/ValidatingTextBox.cs:240-248 | an evaluation while not dirty leaves validity alone, collapses the hint, and empties and hides the flyout |
| StandardValidation.ValidateNewInputIdempotent | Controls/Standard/Validation/ValidatingTextBox.cs:240-315 | evaluating twice with no change in between gives the same state as evaluating once |
| StandardValidation.DirtyRevalidation | Controls/Standard/Validation/ValidatingTextBox.cs:240-264 | a second dirty evaluation changes nothing |
| StandardValidation.DirtyFixedPoint | Controls/Standard/Validation/ValidatingTextBox.cs:240-315 | a dirty state already showing its own failing messages is left unchanged by evaluating |
| StandardValidation.PristineRevalidation | Controls/Standard/Validation/ValidatingTextBox.cs:240-248 | a second pristine evaluation changes nothing |
| StandardValidation.ShownErrorsAreFixed | Controls/Standard/Validation/ValidatingTextBox.cs:266-315 | hint and flyout refreshes are no-ops once they already show the list |
| StandardValidation.FlyoutFollowsErrors | Controls/Standard/Validation/ValidatingTextBox.cs:284-315 | with both flyout parts, the text is the bullet join and the flyout is open iff there are errors; with either part missing nothing changes |
| StandardValidation.FirstTextChange | Controls/Standard/Validation/ValidatingTextBox.cs:230-238 | the first text change validates through the `IsDirty` callback and then again directly, and the second run repeats the first |
| StandardValidation.ResetDirtyKeepsValidity | Controls/Standard/Validation/ValidatingTextBox.cs:161-172 | clearing `IsDirty` leaves both validity flags as they were |
| StandardValidation.NeverDirtyIsInvalid | Controls/Standard/Validation/ValidatingTextBox.cs:240-248 | a control that was never dirtied reports not valid after evaluating, because `IsValid` starts false |
| StandardValidation.LostFocusSelects | Controls/Standard/Validation/ValidatingTextBox.cs:61-91 | losing focus unfocuses, picks the family from pointer and enabled state with Error iff dirty and invalid, and closes the flyout |
| StandardValidation.PointerEventsSelect | Controls/Standard/Validation/ValidatingTextBox.cs:111-133 | pointer events change the visual state only when not focused and enabled |
| StandardValidation.EnabledChangeAlwaysDisabled | Controls/Standard/Validation/ValidatingTextBox.cs:135-141 | an enabled-change picks the Disabled family whatever the new value |
| StandardValidation.TappedFlyoutDoesNotForceFocus | Controls/Standard/Validation/ValidatingTextBox.cs:331-348 | tapping the hint marks the flyout as opened by hand, and the flyout's Opened handler clears that mark |
| StandardValidation.ValidatingTextBox.constructor | Controls/Standard/Validation/ValidatingTextBox.cs:47-59 | a new control has a fresh empty validator list, is enabled, not dirty and not valid |
| StandardValidation.ValidatingTextBox.OnApplyTemplate | Controls/Standard/Validation/ValidatingTextBox.cs:143-156 | records which template parts exist; the flyout starts closed and its text empty |
| StandardValidation.ValidatingTextBox.SetValidationPairs | Controls/Standard/Validation/ValidatingTextBox.cs:200-204 | assigning the validator list stores the reference and revalidates nothing |
| StandardValidation.ValidatingTextBox.ValidateInput | Controls/Standard/Validation/ValidatingTextBox.cs:317-329 | the loop returns exactly the failing messages, each once, in first-failing order |
| StandardValidation.ValidatingTextBox.UpdateVisualStates | Controls/Standard/Validation/ValidatingTextBox.cs:266-282 | the hint state becomes that of the list when the hint part exists |
| StandardValidation.ValidatingTextBox.UpdateFlyoutState | Controls/Standard/Validation/ValidatingTextBox.cs:284-315 | the flyout text and open state as `Box.UpdateFlyoutState` gives them |
| StandardValidation.ValidatingTextBox.ValidateNewInput | Controls/Standard/Validation/ValidatingTextBox.cs:240-264 | the new state is `Box.ValidateNewInput` of the old |
| StandardValidation.ValidatingTextBox.SetIsDirty | Controls/Standard/Validation/ValidatingTextBox.cs:161-180 | assigning `IsDirty` revalidates only when the value changes |
| StandardValidation.ValidatingTextBox.TextChanged | Controls/Standard/Validation/ValidatingTextBox.cs:230-238 | a text change dirties the control and revalidates |
| StandardValidation.ValidatingTextBox.LostFocus | Controls/Standard/Validation/ValidatingTextBox.cs:61-91 | the state after losing focus; throws exactly when the template has no flyout |
| StandardValidation.ValidatingTextBox.GotFocus | Controls/Standard/Validation/ValidatingTextBox.cs:93-109 | focus is requested exactly when the control is enabled, invalid and dirty, and has a flyout |
| StandardValidation.ValidatingTextBox.PointerExited | Controls/Standard/Validation/ValidatingTextBox.cs:111-121 | the state after the pointer leaves |
| StandardValidation.ValidatingTextBox.PointerEntered | Controls/Standard/Validation/ValidatingTextBox.cs:123-133 | the state after the pointer enters |
| StandardValidation.ValidatingTextBox.IsEnabledChanged | Controls/Standard/Validation/ValidatingTextBox.cs:135-141 | the state after the enabled flag changes |
| StandardValidation.ValidatingTextBox.ErrorHintTapped | Controls/Standard/Validation/ValidatingTextBox.cs:331-338 | tapping the hint opens a present flyout by hand |
| StandardValidation.ValidatingTextBox.ErrorFlyoutOpened | Controls/Standard/Validation/ValidatingTextBox.cs:340-348 | focus is requested exactly when the flyout was not opened by hand; the mark is reset |
| ReusablesValidation.ToolTipFollowsErrors | UwpReusables.Controls/Standard/Validation/ValidatingTextBox.cs:274-305 | a present tooltip gets the bullet text and is open and visible exactly when there are errors |
| ReusablesValidation.DirtyValidation | UwpReusables.Controls/Standard/Validation/ValidatingTextBox.cs:230-254 | a dirty evaluation sets both validity flags to "no failing messages" and shows them in hint and tooltip |
| ReusablesValidation.PristineValidation | UwpReusables.Controls/Standard/Validation/ValidatingTextBox.cs:230-254 | an evaluation while not dirty leaves validity alone, collapses the hint, and empties and closes the tooltip |
| ReusablesValidation.DirtyFixedPoint | UwpReusables.Controls/Standard/Validation/ValidatingTextBox.cs:230-305 | a dirty state already showing its failing messages is left unchanged |
| ReusablesValidation.PristineFixedPoint | UwpReusables.Controls/Standard/Validation/ValidatingTextBox.cs:230-305 | a pristine state already showing no errors is left unchanged |
| ReusablesValidation.ValidateNewInputIdempotent | UwpReusables.Controls/Standard/Validation/ValidatingTextBox.cs:230-305 | evaluating twice with no change in between gives the same state as evaluating once |
| ReusablesValidation.FirstTextChange | UwpReusables.Controls/Standard/Validation/ValidatingTextBox.cs:220-228 | the first text change validates twice, and the second run repeats the first |
| ReusablesValidation.TapToggles | UwpReusables.Controls/Standard/Validation/ValidatingTextBox.cs:321-331 | tapping the hint flips the tooltip, and tapping again restores it |
| ReusablesValidation.GotFocusOpens | UwpReusables.Controls/Standard/Validation/ValidatingTextBox.cs:91-106 | focus opens the tooltip exactly when enabled, invalid, dirty and present, and otherwise leaves it alone |
| ReusablesValidation.LostFocusCloses | UwpReusables.Controls/Standard/Validation/ValidatingTextBox.cs:59-89 | losing focus closes the tooltip and picks the family from pointer and enabled state |
| ReusablesValidation.PointerEventsSelect | UwpReusables.Controls/Standard/Validation/ValidatingTextBox.cs:108-130 | pointer events change the visual state only when not focused and enabled |
| ReusablesValidation.EnabledChangeAlwaysDisabled | UwpReusables.Controls/Standard/Validation/ValidatingTextBox.cs:132-138 | an enabled-change picks the Disabled family whatever the new value |
| ReusablesValidation.ValidatingTextBox.constructor | UwpReusables.Controls/Standard/Validation/ValidatingTextBox.cs:45-57 | a new control has a fresh empty validator list, is enabled, not dirty and not valid |
| ReusablesValidation.ValidatingTextBox.OnApplyTemplate | UwpReusables.Controls/Standard/Validation/ValidatingTextBox.cs:140-146 | records the tooltip and hint parts |
| ReusablesValidation.ValidatingTextBox.ValidateInput | UwpReusables.Controls/Standard/Validation/ValidatingTextBox.cs:307-319 | the loop returns exactly the failing messages, each once, in first-failing order |
| ReusablesValidation.ValidatingTextBox.UpdateVisualStates | UwpReusables.Controls/Standard/Validation/ValidatingTextBox.cs:256-272 | the hint state becomes that of the list when the hint part exists |
| ReusablesValidation.ValidatingTextBox.UpdateFlyoutState | UwpReusables.Controls/Standard/Validation/ValidatingTextBox.cs:274-305 | the tooltip content and open state as `Box.UpdateFlyoutState` gives them |
| ReusablesValidation.ValidatingTextBox.ValidateNewInput | UwpReusables.Controls/Standard/Validation/ValidatingTextBox.cs:230-254 | the new state is `Box.ValidateNewInput` of the old |
| ReusablesValidation.ValidatingTextBox.SetIsDirty | UwpReusables.Controls/Standard/Validation/ValidatingTextBox.cs:151-162 | assigning `IsDirty` revalidates only when the value changes |
| ReusablesValidation.ValidatingTextBox.TextChanged | UwpReusables.Controls/Standard/Validation/ValidatingTextBox.cs:220-228 | a text change dirties the control and revalidates |
| ReusablesValidation.ValidatingTextBox.LostFocus | UwpReusables.Controls/Standard/Validation/ValidatingTextBox.cs:59-89 | the state after losing focus |
| ReusablesValidation.ValidatingTextBox.GotFocus | UwpReusables.Controls/Standard/Validation/ValidatingTextBox.cs:91-106 | the state after gaining focus |
| ReusablesValidation.ValidatingTextBox.PointerExited | UwpReusables.Controls/Standard/Validation/ValidatingTextBox.cs:108-118 | the state after the pointer leaves |
| ReusablesValidation.ValidatingTextBox.PointerEntered | UwpReusables.Controls/Standard/Validation/ValidatingTextBox.cs:120-130 | the state after the pointer enters |
| ReusablesValidation.ValidatingTextBox.IsEnabledChanged | UwpReusables.Controls/Standard/Validation/ValidatingTextBox.cs:132-138 | the state after the enabled flag changes |
| ReusablesValidation.ValidatingTextBox.ErrorHintTapped | UwpReusables.Controls/Standard/Validation/ValidatingTextBox.cs:321-331 | tapping the hint toggles the tooltip |
| PortableValidation.ProducedMessagesMembers | UwpReusables.Controls/Portable/Validation/ValidatingTextBoxPortable.cs:41-54 | exactly the non-null messages returned for the text are listed, each once, at most one per function |
| PortableValidation.ProducedMessagesOrder | UwpReusables.Controls/Portable/Validation/ValidatingTextBoxPortable.cs:41-54 | messages are listed in the order the functions first returned them |
| PortableValidation.NullValidatorContributesNothing | UwpReusables.Controls/Portable/Validation/ValidatingTextBoxPortable.cs:41-54 | dropping a function that returns null for the text leaves the list unchanged |
| PortableValidation.NoValidatorsIsValid | UwpReusables.Controls/Core/ValidatingTextBoxBase.cs:197-221 | with no functions, a dirty evaluation is valid |
| PortableValidation.ToolTipFollowsErrors | UwpReusables.Controls/Core/ValidatingTextBoxBase.cs:243-274 | a present tooltip gets the bullet text and is open and visible exactly when there are errors |
| PortableValidation.DirtyValidation | UwpReusables.Controls/Core/ValidatingTextBoxBase.cs:197-221 | a dirty evaluation sets both validity flags to "no messages returned" and shows the messages in hint and tooltip |
| PortableValidation.PristineValidation | UwpReusables.Controls/Core/ValidatingTextBoxBase.cs:197-221 | an evaluation while not dirty leaves validity alone, collapses the hint, and empties and closes the tooltip |
| PortableValidation.IsDirtyCallback | UwpReusables.Controls/Core/ValidatingTextBoxBase.cs:131-142 | assigning the current `IsDirty` value does nothing; setting it revalidates the text; clearing it keeps validity and closes the tooltip |
| PortableValidation.ValidateNewInputKeepsInputs | UwpReusables.Controls/Core/ValidatingTextBoxBase.cs:197-221 | evaluating never changes the text, the dirty flag or the functions |
| PortableValidation.TextChangeMakesDirty | UwpReusables.Controls/Core/ValidatingTextBoxBase.cs:187-195 | after a text change the control is dirty and valid exactly when no function returns a message for the new text |
| PortableValidation.TapToggles | UwpReusables.Controls/Core/ValidatingTextBoxBase.cs:276-286 | tapping the hint flips the tooltip, and tapping again restores it |
| PortableValidation.GotFocusOpens | UwpReusables.Controls/Core/ValidatingTextBoxBase.cs:71-86 | focus opens the tooltip exactly when enabled, invalid, dirty and present, and otherwise leaves it alone |
| PortableValidation.LostFocusCloses | UwpReusables.Controls/Core/ValidatingTextBoxBase.cs:39-69 | losing focus closes the tooltip and picks the family from pointer and enabled state |
| PortableValidation.PointerEventsSelect | UwpReusables.Controls/Core/ValidatingTextBoxBase.cs:88-110 | pointer events change the visual state only when not focused and enabled |
| PortableValidation.EnabledChangeAlwaysDisabled | UwpReusables.Controls/Core/ValidatingTextBoxBase.cs:112-118 | an enabled-change picks the Disabled family whatever the new value |
| PortableValidation.ValidatingTextBoxPortable.constructor | UwpReusables.Controls/Portable/Validation/ValidatingTextBoxPortable.cs:15-27 | a new control has a fresh empty function list, is enabled, not dirty and not valid |
| PortableValidation.ValidatingTextBoxPortable.OnApplyTemplate | UwpReusables.Controls/Core/ValidatingTextBoxBase.cs:120-126 | records the tooltip and hint parts |
| PortableValidation.ValidatingTextBoxPortable.ValidateInput | UwpReusables.Controls/Portable/Validation/ValidatingTextBoxPortable.cs:41-54 | the loop returns exactly the non-null messages, each once, in first-returned order |
| PortableValidation.ValidatingTextBoxPortable.UpdateVisualStates | UwpReusables.Controls/Core/ValidatingTextBoxBase.cs:225-241 | the hint state becomes that of the list when the hint part exists |
| PortableValidation.ValidatingTextBoxPortable.UpdateTooltipState | UwpReusables.Controls/Core/ValidatingTextBoxBase.cs:243-274 | the tooltip content and open state as `Box.UpdateTooltipState` gives them |
| PortableValidation.ValidatingTextBoxPortable.ValidateNewInput | UwpReusables.Controls/Core/ValidatingTextBoxBase.cs:197-221 | the new state is `Box.ValidateNewInput` of the old |
| PortableValidation.ValidatingTextBoxPortable.SetIsDirty | UwpReusables.Controls/Core/ValidatingTextBoxBase.cs:131-142 | assigning `IsDirty` revalidates only when the value changes |
| PortableValidation.ValidatingTextBoxPortable.TextChanged | UwpReusables.Controls/Core/ValidatingTextBoxBase.cs:187-195 | a text change dirties the control and revalidates |
| PortableValidation.ValidatingTextBoxPortable.LostFocus | UwpReusables.Controls/Core/ValidatingTextBoxBase.cs:39-69 | the state after losing focus |
| PortableValidation.ValidatingTextBoxPortable.GotFocus | UwpReusables.Controls/Core/ValidatingTextBoxBase.cs:71-86 | the state after gaining focus |
| PortableValidation.ValidatingTextBoxPortable.PointerExited | UwpReusables.Controls/Core/ValidatingTextBoxBase.cs:88-98 | the state after the pointer leaves |
| PortableValidation.ValidatingTextBoxPortable.PointerEntered | UwpReusables.Controls/Core/ValidatingTextBoxBase.cs:100-110 | the state after the pointer enters |
| PortableValidation.ValidatingTextBoxPortable.IsEnabledChanged | UwpReusables.Controls/Core/ValidatingTextBoxBase.cs:112-118 | the state after the enabled flag changes |
| PortableValidation.ValidatingTextBoxPortable.ErrorHintTapped | UwpReusables.Controls/Core/ValidatingTextBoxBase.cs:276-286 | tapping the hint toggles the tooltip |
| ControlsValidation.EarlyUpdate | Controls/Validation/ValidatingTextBox.cs:287-305 | an update that reports no change leaves the list as it was |
| ControlsValidation.FirstDisagreeing | Controls/Validation/ValidatingTextBox.cs:287-305 | the index of the first pair that disagrees with the list: all earlier pairs agree |
| ControlsValidation.EarlyUpdateReconcilesFirst | Controls/Validation/ValidatingTextBox.cs:287-305 | the loop's early return reconciles only the first disagreeing pair; it reports a change exactly when some pair disagrees |
| ControlsValidation.EarlyUpdateEffect | Controls/Validation/ValidatingTextBox.cs:287-305 | one update keeps the list duplicate-free and either leaves it alone, appends one new message, or removes one present message |
| ControlsValidation.StaleMessagesPersist | Controls/Validation/ValidatingTextBox.cs:287-305 | a message of no current pair is never removed |
| ControlsValidation.SharedMessageAlternates | Controls/Validation/ValidatingTextBox.cs:289-303 | for any list without message `m` and any failing pair followed by a passing pair that both carry `m`: one update appends `m`, the next removes it again, both reporting a change, so the list never settles |
| ControlsValidation.EarlyUpdateProgress | Controls/Validation/ValidatingTextBox.cs:287-305 | with distinct messages, an update while some pair disagrees lowers the number of disagreeing pairs by exactly one |
| ControlsValidation.IterateConverges | Controls/Validation/ValidatingTextBox.cs:217-246 | with distinct messages, as many evaluations as there are disagreeing pairs make every pair agree |
| ControlsValidation.ConvergesWithinPairCount | Controls/Validation/ValidatingTextBox.cs:217-246 | with distinct messages, one evaluation per pair reaches a fixed point whose pair messages are exactly the failing ones |
| ControlsValidation.DirtyValidation | Controls/Validation/ValidatingTextBox.cs:217-246 | a dirty evaluation applies one update and sets validity to "list empty"; hint and flyout text are refreshed to the new list only when it changed |
| ControlsValidation.PristineValidation | Controls/Validation/ValidatingTextBox.cs:217-246 | an evaluation while not dirty clears the list, leaves validity alone, collapses the hint and empties the flyout text |
| ControlsValidation.ValidateNewInputKeepsInputs | Controls/Validation/ValidatingTextBox.cs:217-246 | evaluating never changes the text, the dirty flag or the validators |
| ControlsValidation.FirstTextChangeTwoSteps | Controls/Validation/ValidatingTextBox.cs:207-215 | the first text change applies exactly two updates to the list: one through the `IsDirty` callback and one directly |
| ControlsValidation.DirtyStep | Controls/Validation/ValidatingTextBox.cs:217-246 | a dirty evaluation applies exactly one update to the list |
| ControlsValidation.FocusSelects | Controls/Validation/ValidatingTextBox.cs:58-98 | focus events set the focus flag and the visual state and never touch the flyout |
| ControlsValidation.PointerEventsSelect | Controls/Validation/ValidatingTextBox.cs:100-122 | pointer events change the visual state only when not focused and enabled |
| ControlsValidation.EnabledChangeAlwaysDisabled | Controls/Validation/ValidatingTextBox.cs:124-130 | an enabled-change picks the Disabled family whatever the new value |
| ControlsValidation.ValidatingTextBox.constructor | Controls/Validation/ValidatingTextBox.cs:44-56 | a new control has a fresh empty validator list and an empty error list |
| ControlsValidation.ValidatingTextBox.OnApplyTemplate | Controls/Validation/ValidatingTextBox.cs:132-140 | records which template parts exist |
| ControlsValidation.ValidatingTextBox.UpdateErrorsList | Controls/Validation/ValidatingTextBox.cs:287-305 | the loop with its early return yields `EarlyUpdate` and keeps the list duplicate-free |
| ControlsValidation.ValidatingTextBox.UpdateVisualStates | Controls/Validation/ValidatingTextBox.cs:269-285 | the hint state becomes that of the list when the hint part exists |
| ControlsValidation.ValidatingTextBox.UpdateFlyoutText | Controls/Validation/ValidatingTextBox.cs:248-267 | the flyout text becomes the bullet text of the list when the part exists |
| ControlsValidation.ValidatingTextBox.ValidateNewInput | Controls/Validation/ValidatingTextBox.cs:217-246 | the new state is `Box.ValidateNewInput` of the old; the list stays duplicate-free |
| ControlsValidation.ValidatingTextBox.SetIsDirty | Controls/Validation/ValidatingTextBox.cs:145-156 | assigning `IsDirty` revalidates only when the value changes |
| ControlsValidation.ValidatingTextBox.TextChanged | Controls/Validation/ValidatingTextBox.cs:207-215 | a text change dirties the control and revalidates |
| ControlsValidation.ValidatingTextBox.LostFocus | Controls/Validation/ValidatingTextBox.cs:58-86 | the state after losing focus |
| ControlsValidation.ValidatingTextBox.GotFocus | Controls/Validation/ValidatingTextBox.cs:88-98 | the state after gaining focus |
| ControlsValidation.ValidatingTextBox.PointerExited | Controls/Validation/ValidatingTextBox.cs:100-110 | the state after the pointer leaves |
| ControlsValidation.ValidatingTextBox.PointerEntered | Controls/Validation/ValidatingTextBox.cs:112-122 | the state after the pointer enters |
| ControlsValidation.ValidatingTextBox.IsEnabledChanged | Controls/Validation/ValidatingTextBox.cs:124-130 | the state after the enabled flag changes |
| ControlsValidation.ValidatingTextBox.ErrorHintTapped | Controls/Validation/ValidatingTextBox.cs:307-310 | the unguarded `ShowAt` throws exactly when the template has no flyout; otherwise the flyout opens |
| OriginalValidation.ScanUpdate | ValidatingTextBox/ValidatingTextBox.cs:136-151 | a scan that reports no change leaves the list as it was |
| OriginalValidation.ScanChangedIffDisagreement | ValidatingTextBox/ValidatingTextBox.cs:136-151 | the scan reports a change exactly when some pair disagreed with the list |
| OriginalValidation.ScanKeepsNoDuplicates | ValidatingTextBox/ValidatingTextBox.cs:136-151 | the scan keeps the list duplicate-free |
| OriginalValidation.ScanKeepsStaleMessages | ValidatingTextBox/ValidatingTextBox.cs:136-151 | a message of no pair is listed after the scan exactly when it was before |
| OriginalValidation.ScanAgreesWithAll | ValidatingTextBox/ValidatingTextBox.cs:136-151 | with distinct messages, after the scan every pair agrees with the list |
| OriginalValidation.ScanMembership | ValidatingTextBox/ValidatingTextBox.cs:136-151 | with distinct messages, pair messages listed are exactly the failing ones, other messages are kept, and a second scan changes nothing |
| OriginalValidation.ScanSplit | ValidatingTextBox/ValidatingTextBox.cs:136-151 | scanning a concatenation of pair lists is scanning the first part, then the second from where the first left the list |
| OriginalValidation.LastPairDecides | ValidatingTextBox/ValidatingTextBox.cs:139-150 | for any duplicate-free list and any pairs around it, the last pair carrying a message decides: the message is listed after the scan exactly when that pair fails |
| OriginalValidation.SharedMessageRemoved | ValidatingTextBox/ValidatingTextBox.cs:139-150 | for any duplicate-free list, a message carried by a failing pair and a later passing pair is among the failing messages, yet the scan leaves it out |
| OriginalValidation.PassedMessages | ValidatingTextBox/ValidatingTextBox.cs:136-151 | the messages of the passing pairs are pair messages |
| OriginalValidation.NewFailures | ValidatingTextBox/ValidatingTextBox.cs:136-151 | the newly failing messages are pair messages not in the old list |
| OriginalValidation.ScanOrder | ValidatingTextBox/ValidatingTextBox.cs:136-151 | with distinct messages, the scan keeps the old messages of non-passing pairs in their old order, then appends newly failing messages in pair order |
| OriginalValidation.DirtyEvaluation | ValidatingTextBox/ValidatingTextBox.cs:128-201 | a dirty evaluation applies one scan; without a change nothing else changes, otherwise validity is "list empty" and hint and flyout text show the new list |
| OriginalValidation.ClearingDirtyKeepsErrors | ValidatingTextBox/ValidatingTextBox.cs:57-63 | clearing `IsDirty` keeps errors, validity and hint, and later evaluations change nothing |
| OriginalValidation.TextChangeScansOnce | ValidatingTextBox/ValidatingTextBox.cs:203-215 | a text change leaves the control dirty with the new text and applies exactly one scan |
| OriginalValidation.ValidatingTextBox.constructor | ValidatingTextBox/ValidatingTextBox.cs:41-45 | a new control references the validator list it is given (the property's default) and has an empty error list |
| OriginalValidation.ValidatingTextBox.OnApplyTemplate | ValidatingTextBox/ValidatingTextBox.cs:47-55 | records which template parts exist |
| OriginalValidation.ValidatingTextBox.ValidateNewInput | ValidatingTextBox/ValidatingTextBox.cs:128-201 | the new state is `Box.ValidateNewInput` of the old; the list stays duplicate-free |
| OriginalValidation.ValidatingTextBox.SetIsDirty | ValidatingTextBox/ValidatingTextBox.cs:57-63 | assigning `IsDirty` only stores it |
| OriginalValidation.ValidatingTextBox.TextChanged | ValidatingTextBox/ValidatingTextBox.cs:203-215 | a text change dirties the control and evaluates the new text |
| OriginalValidation.ValidatingTextBox.ErrorHintTapped | ValidatingTextBox/ValidatingTextBox.cs:217-220 | the unguarded `ShowAt` throws exactly when the template has no flyout; otherwise the flyout opens |
| OriginalValidation.SharedDefaultPairs | ValidatingTextBox/ValidatingTextBox.cs:73-74 | two controls built from the property's one default list share it: a pair added to it is seen by both |
| InlineFormatting.AsciiLower | Controls/Standard/Formatting/InlineFormatter.cs:56 | lower-casing keeps the length and maps each character on its own |
| InlineFormatting.DefaultTransform | Controls/Standard/Formatting/InlineFormatter.cs:54-67 | the default transformer never throws and produces only Bold, Italic or Underline spans (which names give which: `DefaultTransformRecognises`) |
| InlineFormatting.DefaultTransformRecognises | Controls/Standard/Formatting/InlineFormatter.cs:54-67 | the default transformer gives Bold, Italic or Underline exactly for those names ignoring case, null for any other, and never throws |
| InlineFormatting.DefaultTransformIgnoresCase | Controls/Standard/Formatting/InlineFormatter.cs:54-67 | "BOLD", "Italic" and "UnderLine" are recognised; "Format" is not a span name |
| InlineFormatting.Transform | Controls/Standard/Formatting/InlineFormatter.cs:151-168 | the span `ParseRecursor` builds: a transformer throw on the element makes it fail; otherwise it is a span of the transformer's kind (a bare span for null) |
| InlineFormatting.TransformNodes | Controls/Standard/Formatting/InlineFormatter.cs:155-166 | the children's inlines, at most one per node (text to run, element to span, other nodes dropped) |
| InlineFormatting.ThrowPersists | Controls/Standard/Formatting/InlineFormatter.cs:151-168 | once a child throws, the whole element throws |
| InlineFormatting.TransformKeepsContent | Controls/Standard/Formatting/InlineFormatter.cs:151-168 | the text of the runs is the element's text content in document order, and there is one span per element |
| InlineFormatting.TransformNodesKeepContent | Controls/Standard/Formatting/InlineFormatter.cs:151-168 | for a node list: run text is the text content, span count is the element count |
| InlineFormatting.TransformTotal | Controls/Standard/Formatting/InlineFormatter.cs:151-168 | with a transformer that never throws, the transform always produces a span |
| InlineFormatting.TransformNodesTotal | Controls/Standard/Formatting/InlineFormatter.cs:151-168 | with a transformer that never throws, every node list transforms |
| InlineFormatting.Formatted | Controls/Standard/Formatting/InlineFormatter.cs:127-143 | `ParseInlineText`'s result; a run result is always the source verbatim (the full case split is `FormattedCases`) |
| InlineFormatting.FormattedCases | Controls/Standard/Formatting/InlineFormatter.cs:127-143 | the result is a span exactly when the markup parses, its root is "format" ignoring case, and nothing throws; otherwise it is the source verbatim as one run; a span shows the root's text content |
| InlineFormatting.DefaultNeverFallsBackOnFormatRoot | Controls/Standard/Formatting/InlineFormatter.cs:127-143 | with the default transformer, parsed markup with a "format" root becomes a plain span with the markup's text |
| InlineFormatting.FormatsSmallDocument | Controls/Standard/Formatting/InlineFormatter.cs:127-168 | `<format>a <Bold>b</Bold>…</format>` becomes a span holding the run "a " and a bold span holding "b" |
| InlineFormatting.ParseRecursor | Controls/Standard/Formatting/InlineFormatter.cs:151-168 | the depth-first loop yields the span `Transform` gives, or the throw |
| InlineFormatting.ParseInlineText | Controls/Standard/Formatting/InlineFormatter.cs:127-143 | the result is `Formatted`: the transformed tree, or the fallback run |
| InlineFormatting.FormattedTarget.constructor | Controls/Standard/Formatting/InlineFormatter.cs:27-81 | a new target has no text, the default transformer and no inlines |
| InlineFormatting.FormattedTarget.TryParseCallback | Controls/Standard/Formatting/InlineFormatter.cs:103-114 | a `TextBlock` with both a text and a transformer gets exactly one inline, the formatted text; any other target is unchanged |

## Left out

- Visual-state plumbing: the `VisualStateManager`, dependency-property registration, template part lookup by name and event wiring. The chosen state is kept as a value and the parts as `Option` fields.
- Rendering and the platform: `ShowAt`/`Hide` placement, `Focus`, brushes, colours and glyphs. Flyout and tooltip are open/closed flags; a focus request is a returned flag.
- The rest of the repository: the searchable combo box, the test pages and the value converters are not part of this model.
- XML parsing is a parameter (`Parser`): any markup error is `None`. Namespaces, attributes, comments and processing instructions are `XOther`. CDATA sections, which .NET treats as text nodes, are assumed to come out of the parser as `XText`.
- `AsciiLower`: `ToLowerInvariant` is modelled for ASCII letters only; other characters keep their case.
- `BulletText.NewLine`: `Environment.NewLine` is fixed to the Windows value "\r\n".
- Validator exceptions: validators are pure, total functions. A validator that throws, and the fact that the incremental copies call each function twice per pair, are not modelled.
- `InlineFormatting.Transform`: a transformer that throws is the `Threw` outcome. Reuse of one span object by a transformer for several elements is not modelled; every element gets its own span.
- `InlineFormatting.FormattedTarget`: the framework calls `TryParseCallback` whenever either attached property changes. The model exposes it as a method. `SetText`/`GetText` and `SetTransformer`/`GetTransformer` are plain field accesses.
- The `_errorFlyoutHost` argument of `ShowAt` is not modelled, so a null host is not modelled either. This concerns `ErrorHintTapped` in the copies with a flyout, and in the Standard copy also `GotFocus` (Controls/Standard/Validation/ValidatingTextBox.cs:105) and `UpdateFlyoutState` (lines 307-310).
- `PortableValidation`: the abstract base class and its one subclass are merged into one class. The abstract `ValidateInput` is the subclass's.
- `BulletText.BuildErrorText`: its contract states the loop's result as `BuilderText`. That this equals the bullet join holds for duplicate-free lists, which `BuilderTextIsJoin` proves separately.
- A host that assigns `null` to the validator list: every copy would throw on the next evaluation. The model's list is always present.
- The framework tooltip's own open-on-hover behaviour is not modelled. Only the control's explicit `IsOpen`/`Visibility` assignments are.
