// The validating text box of ValidatingTextBox/ValidatingTextBox.cs: the
// error list persists between evaluations and each evaluation scans every
// validation pair in order, adding a failing pair's missing message at the
// end and removing a passing pair's present message.

module OriginalValidation {
  import opened Options
  import opened Validation
  import opened BulletText
  import opened VisualStates

  /** The error flyout part; only whether it is shown is modelled. */
  datatype Flyout = Flyout(isOpen: bool)

  // ---------------------------------------------------------------------------
  // The full scan on values
  // ---------------------------------------------------------------------------

  /**
   * The scan of `ValidateNewInput` over `pairs`, processed in order: each pair
   * reconciles the list, and the flag records whether any pair added or
   * removed a message.
   */
  function ScanUpdate(errors: seq<string>, pairs: seq<ValidationPair>, text: string): (r: (bool, seq<string>))
    ensures !r.0 ==> r.1 == errors
  {
    if pairs == [] then (false, errors)
    else
      var (changed, current) := ScanUpdate(errors, pairs[..|pairs| - 1], text);
      var pair := pairs[|pairs| - 1];
      (changed || !Agrees(current, pair, text), Reconcile(current, pair, text))
  }

  /** The flag is set exactly when some pair disagreed with the list the scan started from. */
  lemma {:induction false} ScanChangedIffDisagreement(errors: seq<string>, pairs: seq<ValidationPair>, text: string)
    ensures ScanUpdate(errors, pairs, text).0 <==> !AllAgree(errors, pairs, text)
  {
    if pairs != [] {
      var n := |pairs| - 1;
      ScanChangedIffDisagreement(errors, pairs[..n], text);
      assert AllAgree(errors, pairs, text) <==> AllAgree(errors, pairs[..n], text) && Agrees(errors, pairs[n], text) by {
        assert forall i :: 0 <= i < n ==> pairs[..n][i] == pairs[i];
      }
    }
  }

  /** The scan keeps the list duplicate-free. */
  lemma {:induction false} ScanKeepsNoDuplicates(errors: seq<string>, pairs: seq<ValidationPair>, text: string)
    requires NoDuplicates(errors)
    ensures NoDuplicates(ScanUpdate(errors, pairs, text).1)
  {
    if pairs != [] {
      var n := |pairs| - 1;
      ScanKeepsNoDuplicates(errors, pairs[..n], text);
      ReconcileEffect(ScanUpdate(errors, pairs[..n], text).1, pairs[n], text);
    }
  }

  /** A message that belongs to no current pair is never removed, nor added. */
  lemma {:induction false} ScanKeepsStaleMessages(errors: seq<string>, pairs: seq<ValidationPair>, text: string, m: string)
    requires NoDuplicates(errors) && !IsPairMessage(pairs, m)
    ensures m in ScanUpdate(errors, pairs, text).1 <==> m in errors
  {
    if pairs != [] {
      var n := |pairs| - 1;
      assert !IsPairMessage(pairs[..n], m) by {
        assert forall i :: 0 <= i < n ==> pairs[..n][i] == pairs[i];
      }
      ScanKeepsStaleMessages(errors, pairs[..n], text, m);
      ScanKeepsNoDuplicates(errors, pairs[..n], text);
      ReconcileEffect(ScanUpdate(errors, pairs[..n], text).1, pairs[n], text);
    }
  }

  /** Reconciling the last pair keeps the earlier pairs, whose messages differ, in agreement. */
  lemma ReconcileLastAgrees(current: seq<string>, pairs: seq<ValidationPair>, text: string)
    requires pairs != [] && NoDuplicates(current) && DistinctMessages(pairs)
    requires AllAgree(current, pairs[..|pairs| - 1], text)
    ensures AllAgree(Reconcile(current, pairs[|pairs| - 1], text), pairs, text)
  {
    var n := |pairs| - 1;
    forall i | 0 <= i < |pairs| ensures Agrees(Reconcile(current, pairs[n], text), pairs[i], text) {
      if i < n {
        assert pairs[..n][i] == pairs[i];
        ReconcileKeepsOtherAgreement(current, pairs[n], pairs[i], text);
      } else {
        ReconcileEffect(current, pairs[n], text);
      }
    }
  }

  /** With pairwise-distinct messages, after one scan every pair agrees with the list. */
  lemma {:induction false} ScanAgreesWithAll(errors: seq<string>, pairs: seq<ValidationPair>, text: string)
    requires NoDuplicates(errors) && DistinctMessages(pairs)
    ensures AllAgree(ScanUpdate(errors, pairs, text).1, pairs, text)
  {
    if pairs != [] {
      var n := |pairs| - 1;
      var front := pairs[..n];
      assert DistinctMessages(front) by {
        assert forall i :: 0 <= i < n ==> front[i] == pairs[i];
      }
      ScanAgreesWithAll(errors, front, text);
      ScanKeepsNoDuplicates(errors, front, text);
      var current := ScanUpdate(errors, front, text).1;
      assert ScanUpdate(errors, pairs, text).1 == Reconcile(current, pairs[n], text);
      ReconcileLastAgrees(current, pairs, text);
    }
  }

  /**
   * With pairwise-distinct messages, one scan leaves exactly the failing
   * pairs' messages among the pair messages, keeps every other message as it
   * was, and a second scan changes nothing.
   */
  lemma ScanMembership(errors: seq<string>, pairs: seq<ValidationPair>, text: string)
    requires NoDuplicates(errors) && DistinctMessages(pairs)
    ensures var r := ScanUpdate(errors, pairs, text).1;
      && (forall m :: IsPairMessage(pairs, m) ==> (m in r <==> m in FailingMessages(pairs, text)))
      && (forall m :: !IsPairMessage(pairs, m) ==> (m in r <==> m in errors))
      && ScanUpdate(r, pairs, text) == (false, r)
  {
    var r := ScanUpdate(errors, pairs, text).1;
    ScanAgreesWithAll(errors, pairs, text);
    ScanChangedIffDisagreement(r, pairs, text);
    forall m | IsPairMessage(pairs, m) ensures m in r <==> m in FailingMessages(pairs, text) {
      AgreedMembership(r, pairs, text, m);
    }
    forall m | !IsPairMessage(pairs, m) ensures m in r <==> m in errors {
      ScanKeepsStaleMessages(errors, pairs, text, m);
    }
  }

  /** Scanning `front + back` is scanning `front`, then scanning `back` from where it left the list. */
  lemma {:induction false} ScanSplit(errors: seq<string>, front: seq<ValidationPair>, back: seq<ValidationPair>, text: string)
    ensures ScanUpdate(errors, front + back, text).1 == ScanUpdate(ScanUpdate(errors, front, text).1, back, text).1
  {
    if back == [] {
      assert front + back == front;
    } else {
      var n := |back| - 1;
      ScanSplit(errors, front, back[..n], text);
      assert (front + back)[..|front + back| - 1] == front + back[..n];
      assert (front + back)[|front + back| - 1] == back[n];
    }
  }

  /**
   * The last pair carrying a message decides whether the scan lists it:
   * listed exactly when that pair fails, whatever earlier pairs with the
   * same message said.
   */
  lemma LastPairDecides(errors: seq<string>, front: seq<ValidationPair>, p: ValidationPair, back: seq<ValidationPair>, text: string)
    requires NoDuplicates(errors) && !IsPairMessage(back, p.errorMessage)
    ensures p.errorMessage in ScanUpdate(errors, front + [p] + back, text).1 <==> !p.validationFunction(text)
  {
    var upToP := front + [p];
    assert upToP[..|upToP| - 1] == front && upToP[|upToP| - 1] == p;
    var before := ScanUpdate(errors, front, text).1;
    var mid := ScanUpdate(errors, upToP, text).1;
    assert mid == Reconcile(before, p, text);
    ScanKeepsNoDuplicates(errors, front, text);
    ReconcileEffect(before, p, text);
    ScanSplit(errors, upToP, back, text);
    ScanKeepsStaleMessages(mid, back, text, p.errorMessage);
  }

  /**
   * A message shared by a failing pair and a later passing pair is among
   * the failing messages, yet the scan leaves it out.
   */
  lemma SharedMessageRemoved(errors: seq<string>, f: string -> bool, g: string -> bool, m: string, text: string)
    requires NoDuplicates(errors) && !f(text) && g(text)
    ensures var pairs := [ValidationPair(f, m), ValidationPair(g, m)];
      && m in FailingMessages(pairs, text)
      && m !in ScanUpdate(errors, pairs, text).1
  {
    var pairs := [ValidationPair(f, m), ValidationPair(g, m)];
    FailingMessagesMembers(pairs, text, m);
    assert !pairs[0].validationFunction(text);
    assert [pairs[0]] + [pairs[1]] + [] == pairs;
    LastPairDecides(errors, [pairs[0]], pairs[1], [], text);
  }

  // ---------------------------------------------------------------------------
  // The order of the list after a scan
  // ---------------------------------------------------------------------------

  /** The messages of the pairs that pass. */
  function PassedMessages(pairs: seq<ValidationPair>, text: string): (passed: set<string>)
    ensures forall m :: m in passed ==> IsPairMessage(pairs, m)
  {
    if pairs == [] then {}
    else
      var n := |pairs| - 1;
      var front := PassedMessages(pairs[..n], text);
      assert forall i :: 0 <= i < n ==> pairs[..n][i] == pairs[i];
      front + if pairs[n].validationFunction(text) then {pairs[n].errorMessage} else {}
  }

  /** The messages of failing pairs that `errors` lacks, in pair order. */
  function NewFailures(errors: seq<string>, pairs: seq<ValidationPair>, text: string): (added: seq<string>)
    ensures forall m :: m in added ==> m !in errors && IsPairMessage(pairs, m)
  {
    if pairs == [] then []
    else
      var n := |pairs| - 1;
      var front := NewFailures(errors, pairs[..n], text);
      assert forall i :: 0 <= i < n ==> pairs[..n][i] == pairs[i];
      var pair := pairs[n];
      front + if !pair.validationFunction(text) && pair.errorMessage !in errors then [pair.errorMessage] else []
  }

  /** `s` without the elements in `removed`, in their original order. */
  function Kept<T(==,!new)>(s: seq<T>, removed: set<T>): (r: seq<T>)
    ensures forall x :: x in r <==> x in s && x !in removed
  {
    if s == [] then []
    else (if s[0] in removed then [] else [s[0]]) + Kept(s[1..], removed)
  }

  lemma {:induction false} KeptNothing<T(!new)>(s: seq<T>)
    ensures Kept(s, {}) == s
  {
    if s != [] {
      KeptNothing(s[1..]);
    }
  }

  lemma {:induction false} KeptIgnoresAbsent<T(!new)>(s: seq<T>, removed: set<T>, x: T)
    requires x !in s
    ensures Kept(s, removed + {x}) == Kept(s, removed)
  {
    if s != [] {
      KeptIgnoresAbsent(s[1..], removed, x);
    }
  }

  lemma RemoveFirstOfHead<T>(x: T, s: seq<T>)
    ensures RemoveFirst([x] + s, x) == s
  {
    var t := [x] + s;
    assert IndexOf(t, x) == 0;
    assert t[1..] == s;
  }

  lemma RemoveFirstPrepend<T>(x: T, s: seq<T>, y: T)
    requires x != y && y in s
    ensures RemoveFirst([x] + s, y) == [x] + RemoveFirst(s, y)
  {
    var t := [x] + s;
    var k := IndexOf(s, y);
    assert IndexOf(t, y) == 1 + k by {
      assert t[1..] == s;
    }
    calc {
      RemoveFirst(t, y);
      t[..1 + k] + t[1 + k + 1..];
      { assert t[..1 + k] == [x] + s[..k]; assert t[1 + k + 1..] == s[k + 1..]; }
      ([x] + s[..k]) + s[k + 1..];
      [x] + (s[..k] + s[k + 1..]);
    }
  }

  lemma {:induction false} IndexOfBeforeTail<T>(s: seq<T>, tail: seq<T>, x: T)
    requires x in s
    ensures x in s + tail && IndexOf(s + tail, x) == IndexOf(s, x)
  {
    if s[0] != x {
      assert (s + tail)[1..] == s[1..] + tail;
      IndexOfBeforeTail(s[1..], tail, x);
    }
  }

  lemma RemoveFirstAppend<T>(s: seq<T>, tail: seq<T>, x: T)
    requires x in s
    ensures RemoveFirst(s + tail, x) == RemoveFirst(s, x) + tail
  {
    var k := IndexOf(s, x);
    IndexOfBeforeTail(s, tail, x);
    calc {
      RemoveFirst(s + tail, x);
      (s + tail)[..k] + (s + tail)[k + 1..];
      { assert (s + tail)[..k] == s[..k]; assert (s + tail)[k + 1..] == s[k + 1..] + tail; }
      s[..k] + (s[k + 1..] + tail);
      (s[..k] + s[k + 1..]) + tail;
    }
  }

  /** Removing one more present element from the kept list is `List.Remove` of it. */
  lemma {:induction false} KeptOneMore<T(!new)>(s: seq<T>, removed: set<T>, x: T)
    requires NoDuplicates(s) && x in s && x !in removed
    ensures Kept(s, removed + {x}) == RemoveFirst(Kept(s, removed), x)
  {
    var rest := s[1..];
    assert forall i :: 0 <= i < |rest| ==> rest[i] == s[i + 1];
    assert NoDuplicates(rest);
    if s[0] == x {
      assert x !in rest;
      assert Kept(s, removed + {x}) == Kept(rest, removed + {x});
      assert Kept(s, removed) == [x] + Kept(rest, removed);
      KeptIgnoresAbsent(rest, removed, x);
      RemoveFirstOfHead(x, Kept(rest, removed));
    } else {
      assert x in rest;
      KeptOneMore(rest, removed, x);
      assert x in Kept(rest, removed);
      if s[0] in removed {
        assert Kept(s, removed + {x}) == Kept(rest, removed + {x});
        assert Kept(s, removed) == Kept(rest, removed);
      } else {
        assert Kept(s, removed + {x}) == [s[0]] + Kept(rest, removed + {x});
        assert Kept(s, removed) == [s[0]] + Kept(rest, removed);
        RemoveFirstPrepend(s[0], Kept(rest, removed), x);
      }
    }
  }

  /** One pair reconciled against a list in kept-then-added form keeps that form. */
  lemma OrderStep(errors: seq<string>, passed: set<string>, added: seq<string>, pair: ValidationPair, text: string)
    requires NoDuplicates(errors)
    requires pair.errorMessage !in passed && pair.errorMessage !in added
    requires forall x :: x in added ==> x !in errors
    ensures var m := pair.errorMessage;
      Reconcile(Kept(errors, passed) + added, pair, text) ==
        Kept(errors, passed + if pair.validationFunction(text) then {m} else {}) +
        (added + if !pair.validationFunction(text) && m !in errors then [m] else [])
  {
    var m := pair.errorMessage;
    var kept := Kept(errors, passed);
    assert m in kept + added <==> m in errors;
    if pair.validationFunction(text) {
      if m in errors {
        KeptOneMore(errors, passed, m);
        RemoveFirstAppend(kept, added, m);
      } else {
        KeptIgnoresAbsent(errors, passed, m);
      }
    } else {
      assert passed + {} == passed;
      assert kept + added + [m] == kept + (added + [m]);
    }
  }

  /**
   * With pairwise-distinct messages, a scan keeps the previous messages whose
   * pair passes no longer removed, in their previous order, and appends the
   * newly failing pairs' messages in pair order: the list is in insertion
   * order, not declaration order.
   */
  lemma {:induction false} ScanOrder(errors: seq<string>, pairs: seq<ValidationPair>, text: string)
    requires NoDuplicates(errors) && DistinctMessages(pairs)
    ensures ScanUpdate(errors, pairs, text).1 ==
      Kept(errors, PassedMessages(pairs, text)) + NewFailures(errors, pairs, text)
  {
    if pairs == [] {
      KeptNothing(errors);
    } else {
      var n := |pairs| - 1;
      var front, pair := pairs[..n], pairs[n];
      assert forall i :: 0 <= i < n ==> front[i] == pairs[i];
      ScanOrder(errors, front, text);
      var m := pair.errorMessage;
      assert !IsPairMessage(front, m);
      var passed, added := PassedMessages(front, text), NewFailures(errors, front, text);
      var passedNow: set<string> := if pair.validationFunction(text) then {m} else {};
      var addedNow: seq<string> := if !pair.validationFunction(text) && m !in errors then [m] else [];
      assert ScanUpdate(errors, pairs, text).1 == Reconcile(Kept(errors, passed) + added, pair, text);
      assert PassedMessages(pairs, text) == passed + passedNow;
      assert NewFailures(errors, pairs, text) == added + addedNow;
      OrderStep(errors, passed, added, pair, text);
    }
  }

  // ---------------------------------------------------------------------------
  // The control's state
  // ---------------------------------------------------------------------------

  /**
   * Every field of the control that its logic reads or writes, as a value.
   * `errorList` is `_errorList`; a template part is `None` when absent, the
   * flyout text block being represented by its `Text`.
   */
  datatype Box = Box(
    Text: string, IsDirty: bool, IsValid: bool, ValidationPairs: seq<ValidationPair>,
    errorList: seq<string>, hasErrorHint: bool, errorFlyout: Option<Flyout>,
    errorFlyoutTextBlock: Option<string>, hintState: Option<HintState>)
  {
    function ApplyTemplate(hasHint: bool, hasFlyout: bool, hasFlyoutTextBlock: bool): Box {
      this.(hasErrorHint := hasHint,
            errorFlyout := if hasFlyout then Some(Flyout(false)) else None,
            errorFlyoutTextBlock := if hasFlyoutTextBlock then Some("") else None)
    }

    function ValidateNewInput(text: string): Box {
      if !IsDirty then this
      else
        var (changed, errs) := ScanUpdate(errorList, ValidationPairs, text);
        if !changed then this
        else
          this.(errorList := errs, IsValid := errs == [],
                hintState := if hasErrorHint then Some(HintFor(errs)) else hintState,
                errorFlyoutTextBlock := if errorFlyoutTextBlock.None? then None else Some(BuilderText(errs)))
    }

    /** `IsDirty` is a plain dependency property: assigning it runs nothing. */
    function SetIsDirty(value: bool): Box {
      this.(IsDirty := value)
    }

    function TextChanged(newText: string): Box {
      this.(Text := newText, IsDirty := true).ValidateNewInput(newText)
    }

    /** `ErrorHint_Tapped` shows the flyout; without one the unguarded call throws and nothing changes. */
    function ErrorHintTapped(): Box {
      if errorFlyout.Some? then this.(errorFlyout := Some(Flyout(true))) else this
    }
  }

  // ---------------------------------------------------------------------------
  // Properties of the transitions
  // ---------------------------------------------------------------------------

  /**
   * A dirty evaluation applies one scan; when nothing changed, nothing else
   * changes either, and otherwise `IsValid` is "the list is empty" and the
   * hint and the flyout text show the new list.
   */
  lemma DirtyEvaluation(b: Box, text: string)
    requires b.IsDirty && NoDuplicates(b.errorList)
    ensures var (changed, errs) := ScanUpdate(b.errorList, b.ValidationPairs, text);
      var r := b.ValidateNewInput(text);
      && r.errorList == errs && NoDuplicates(errs)
      && (!changed ==> r == b)
      && (changed ==>
            r.IsValid == (errs == []) &&
            r.hintState == (if b.hasErrorHint then Some(HintFor(errs)) else b.hintState) &&
            r.errorFlyoutTextBlock == (if b.errorFlyoutTextBlock.None? then None else Some(BulletJoin(errs))))
  {
    var errs := ScanUpdate(b.errorList, b.ValidationPairs, text).1;
    ScanKeepsNoDuplicates(b.errorList, b.ValidationPairs, text);
    BuilderTextIsJoin(errs);
  }

  /** Clearing `IsDirty` neither revalidates nor clears the errors, and evaluations then change nothing. */
  lemma ClearingDirtyKeepsErrors(b: Box, text: string)
    ensures var r := b.SetIsDirty(false);
      && r.errorList == b.errorList && r.IsValid == b.IsValid && r.hintState == b.hintState
      && r.ValidateNewInput(text) == r
  {
  }

  /** A text change leaves the control dirty and applies exactly one scan of the new text. */
  lemma TextChangeScansOnce(b: Box, newText: string)
    ensures var r := b.TextChanged(newText);
      && r.IsDirty && r.Text == newText
      && r.errorList == ScanUpdate(b.errorList, b.ValidationPairs, newText).1
  {
  }

  // ---------------------------------------------------------------------------
  // The control
  // ---------------------------------------------------------------------------

  class ValidatingTextBox {
    var Text: string
    var IsDirty: bool
    var IsValid: bool
    var ValidationPairs: ItemList<ValidationPair>
    var errorList: seq<string>
    var hasErrorHint: bool
    var errorFlyout: Option<Flyout>
    var errorFlyoutTextBlock: Option<string>
    var hintState: Option<HintState>

    function View(): Box
      reads this, ValidationPairs
    {
      Box(Text, IsDirty, IsValid, ValidationPairs.items, errorList, hasErrorHint, errorFlyout,
          errorFlyoutTextBlock, hintState)
    }

    /** `_errorList` never holds a message twice. */
    predicate Valid()
      reads this
    {
      NoDuplicates(errorList)
    }

    /**
     * A new control. `defaultPairs` is the list created once in the
     * `ValidationPairs` property metadata, so every control that does not
     * replace it refers to the same list.
     */
    constructor (defaultPairs: ItemList<ValidationPair>)
      ensures Valid() && ValidationPairs == defaultPairs
      ensures View() == Box("", false, false, defaultPairs.items, [], false, None, None, None)
    {
      Text, IsDirty, IsValid := "", false, false;
      ValidationPairs := defaultPairs;
      errorList := [];
      hasErrorHint, errorFlyout, errorFlyoutTextBlock, hintState := false, None, None, None;
    }

    method OnApplyTemplate(hasHint: bool, hasFlyout: bool, hasFlyoutTextBlock: bool)
      modifies this
      ensures ValidationPairs == old(ValidationPairs) && errorList == old(errorList)
      ensures View() == old(View()).ApplyTemplate(hasHint, hasFlyout, hasFlyoutTextBlock)
    {
      hasErrorHint := hasHint;
      errorFlyout := if hasFlyout then Some(Flyout(false)) else None;
      errorFlyoutTextBlock := if hasFlyoutTextBlock then Some("") else None;
    }

    method ValidateNewInput(text: string)
      requires Valid()
      modifies this
      ensures Valid() && ValidationPairs == old(ValidationPairs)
      ensures View() == old(View()).ValidateNewInput(text)
    {
      if !IsDirty {
        return;
      }
      ScanKeepsNoDuplicates(errorList, ValidationPairs.items, text);
      var pairs := ValidationPairs.items;
      var errors := errorList;
      var errorStateChanged := false;
      for k := 0 to |pairs|
        invariant (errorStateChanged, errors) == ScanUpdate(errorList, pairs[..k], text)
      {
        var pair := pairs[k];
        assert pairs[..k + 1][..k] == pairs[..k];
        if !pair.validationFunction(text) && pair.errorMessage !in errors {
          errors := errors + [pair.errorMessage];
          errorStateChanged := true;
        } else if pair.validationFunction(text) && pair.errorMessage in errors {
          errors := RemoveFirst(errors, pair.errorMessage);
          errorStateChanged := true;
        }
      }
      assert pairs[..|pairs|] == pairs;
      errorList := errors;
      if !errorStateChanged {
        return;
      }
      if |errorList| > 0 {
        IsValid := false;
        if hasErrorHint {
          hintState := Some(ErrorHintVisible);
        }
      } else {
        IsValid := true;
        if hasErrorHint {
          hintState := Some(ErrorHintCollapsed);
        }
      }
      if errorFlyoutTextBlock.None? {
        return;
      }
      var flyoutText := BuildErrorText(errorList);
      errorFlyoutTextBlock := Some(flyoutText);
    }

    method SetIsDirty(value: bool)
      modifies this
      ensures View() == old(View()).SetIsDirty(value)
    {
      IsDirty := value;
    }

    /** `ValidatingTextBox_TextChanged`, raised after the host has stored `newText` as the text. */
    method TextChanged(newText: string)
      requires Valid()
      modifies this
      ensures Valid() && ValidationPairs == old(ValidationPairs)
      ensures View() == old(View()).TextChanged(newText)
    {
      Text := newText;
      if !IsDirty {
        IsDirty := true;
      }
      ValidateNewInput(Text);
    }

    /** `ErrorHint_Tapped`; `thrown` when the template has no flyout, which the handler dereferences unguarded. */
    method ErrorHintTapped() returns (thrown: bool)
      modifies this
      ensures thrown <==> old(errorFlyout).None?
      ensures View() == old(View()).ErrorHintTapped()
    {
      thrown := errorFlyout.None?;
      if !thrown {
        errorFlyout := Some(Flyout(true));
      }
    }
  }

  /** Two controls built from the same metadata default see a pair added through either of them. */
  method SharedDefaultPairs(pair: ValidationPair) returns (first: ValidatingTextBox, second: ValidatingTextBox)
    ensures first != second && first.ValidationPairs == second.ValidationPairs
    ensures second.ValidationPairs.items == [pair]
  {
    var defaultPairs := new ItemList<ValidationPair>();
    first := new ValidatingTextBox(defaultPairs);
    second := new ValidatingTextBox(defaultPairs);
    first.ValidationPairs.Add(pair);
  }
}
