// Shared, copy-independent logic of the validating text boxes: what one
// validator contributes for a text, the duplicate-free error list built from
// those contributions, and the per-pair reconciliation step used by the two
// copies that keep a persistent error list.

module Options {
  datatype Option<T> = None | Some(value: T)
}

module Validation {
  import opened Options

  /** A validation function (true means "valid") and the message shown when it returns false. */
  datatype ValidationPair = ValidationPair(validationFunction: string -> bool, errorMessage: string)

  predicate NoDuplicates<T(==)>(s: seq<T>) {
    forall i, j :: 0 <= i < j < |s| ==> s[i] != s[j]
  }

  /** Position of the first occurrence of `x` in `s`. */
  function IndexOf<T(==)>(s: seq<T>, x: T): (k: nat)
    requires x in s
    ensures k < |s| && s[k] == x
    ensures forall j :: 0 <= j < k ==> s[j] != x
  {
    if s[0] == x then 0 else 1 + IndexOf(s[1..], x)
  }

  lemma {:induction false} IndexOfExtended<T>(s: seq<T>, y: T, x: T)
    requires x in s
    ensures x in s + [y] && IndexOf(s + [y], x) == IndexOf(s, x)
  {
    if s[0] != x {
      assert (s + [y])[1..] == s[1..] + [y];
      IndexOfExtended(s[1..], y, x);
    }
  }

  /** `List<string>.Remove`: drops the first occurrence of `x`, if any. */
  function RemoveFirst<T(==)>(s: seq<T>, x: T): (r: seq<T>)
    ensures x !in s ==> r == s
    ensures x in s ==> |r| == |s| - 1
  {
    if x in s then s[..IndexOf(s, x)] + s[IndexOf(s, x) + 1..] else s
  }

  lemma RemoveFirstMembers<T>(s: seq<T>, x: T)
    requires NoDuplicates(s)
    ensures NoDuplicates(RemoveFirst(s, x))
    ensures forall y :: y in RemoveFirst(s, x) <==> y in s && y != x
  {
    if x in s {
      var k := IndexOf(s, x);
      var front, back := s[..k], s[k + 1..];
      assert s == front + [x] + back;
      assert RemoveFirst(s, x) == front + back;
      assert x !in front && x !in back by {
        forall i | 0 <= i < |back| ensures back[i] != x {
          assert back[i] == s[k + 1 + i];
        }
      }
    }
  }

  // ---------------------------------------------------------------------------
  // Rebuilding the error list from scratch (the copies without a persistent list)
  // ---------------------------------------------------------------------------

  /** What one pair contributes for `text`: its message when its function rejects the text. */
  function PairOutcome(pair: ValidationPair, text: string): Option<string> {
    if pair.validationFunction(text) then None else Some(pair.errorMessage)
  }

  function PairOutcomes(pairs: seq<ValidationPair>, text: string): (outs: seq<Option<string>>)
    ensures |outs| == |pairs|
    ensures forall i :: 0 <= i < |pairs| ==> outs[i] == PairOutcome(pairs[i], text)
  {
    seq(|pairs|, i requires 0 <= i < |pairs| => PairOutcome(pairs[i], text))
  }

  /** The outcomes of message-returning validators (`None` stands for a null message). */
  function FunctionOutcomes(functions: seq<string -> Option<string>>, text: string): (outs: seq<Option<string>>)
    ensures |outs| == |functions|
    ensures forall i :: 0 <= i < |functions| ==> outs[i] == functions[i](text)
  {
    seq(|functions|, i requires 0 <= i < |functions| => functions[i](text))
  }

  /** One loop iteration of `ValidateInput`: add the message unless it is absent or already listed. */
  function AddIfAbsent(errors: seq<string>, outcome: Option<string>): seq<string> {
    match outcome
    case Some(m) => if m in errors then errors else errors + [m]
    case None => errors
  }

  /** The error list `ValidateInput` builds from the outcomes, processed in order. */
  function Collected(outcomes: seq<Option<string>>): (errors: seq<string>)
    ensures |errors| <= |outcomes|
    ensures NoDuplicates(errors)
  {
    if outcomes == [] then []
    else AddIfAbsent(Collected(outcomes[..|outcomes| - 1]), outcomes[|outcomes| - 1])
  }

  /** The messages of the failing pairs, each once, in the order their first failing pair appears. */
  function FailingMessages(pairs: seq<ValidationPair>, text: string): seq<string> {
    Collected(PairOutcomes(pairs, text))
  }

  /** A message is collected exactly when some validator produced it. */
  lemma {:induction false} CollectedMembers(outcomes: seq<Option<string>>, m: string)
    ensures m in Collected(outcomes) <==> Some(m) in outcomes
  {
    if outcomes != [] {
      var front := outcomes[..|outcomes| - 1];
      assert outcomes == front + [outcomes[|outcomes| - 1]];
      CollectedMembers(front, m);
    }
  }

  /** An outcome without a message (a validator returning null) does not affect the collected list. */
  lemma {:induction false} CollectedIgnoresNone(front: seq<Option<string>>, back: seq<Option<string>>)
    ensures Collected(front + [None] + back) == Collected(front + back)
  {
    var s, t := front + [None] + back, front + back;
    if back == [] {
      assert s[..|s| - 1] == front && s[|s| - 1] == None;
      assert t == front;
    } else {
      var n := |back| - 1;
      CollectedIgnoresNone(front, back[..n]);
      assert s[..|s| - 1] == front + [None] + back[..n] && s[|s| - 1] == back[n];
      assert t[..|t| - 1] == front + back[..n] && t[|t| - 1] == back[n];
      assert Collected(s) == AddIfAbsent(Collected(front + [None] + back[..n]), back[n]);
      assert Collected(t) == AddIfAbsent(Collected(front + back[..n]), back[n]);
    }
  }

  /** Every message of `errors` was produced, and they are listed in the order of their first production. */
  predicate InFirstProducedOrder(errors: seq<string>, outcomes: seq<Option<string>>) {
    forall i, j :: 0 <= i < j < |errors| ==>
      Some(errors[i]) in outcomes && Some(errors[j]) in outcomes &&
      IndexOf(outcomes, Some(errors[i])) < IndexOf(outcomes, Some(errors[j]))
  }

  /** Messages are listed in the order in which they were first produced. */
  lemma {:induction false} CollectedOrder(outcomes: seq<Option<string>>)
    ensures InFirstProducedOrder(Collected(outcomes), outcomes)
  {
    if outcomes != [] {
      var n := |outcomes| - 1;
      var front, last := outcomes[..n], outcomes[n];
      assert outcomes == front + [last];
      var before := Collected(front);
      var errors := Collected(outcomes);
      CollectedOrder(front);
      forall k | 0 <= k < |before|
        ensures Some(before[k]) in front && Some(before[k]) in outcomes
        ensures IndexOf(outcomes, Some(before[k])) == IndexOf(front, Some(before[k]))
      {
        CollectedMembers(front, before[k]);
        IndexOfExtended(front, last, Some(before[k]));
      }
      if errors != before {
        var m := last.value;
        assert errors == before + [m] && m !in before;
        CollectedMembers(front, m);
        assert Some(m) !in front;
        assert IndexOf(outcomes, Some(m)) == n;
      }
    }
  }

  /** `FailingMessages` holds exactly the messages of pairs whose function returns false. */
  lemma FailingMessagesMembers(pairs: seq<ValidationPair>, text: string, m: string)
    ensures m in FailingMessages(pairs, text) <==>
      exists i :: 0 <= i < |pairs| && !pairs[i].validationFunction(text) && pairs[i].errorMessage == m
  {
    var outs := PairOutcomes(pairs, text);
    CollectedMembers(outs, m);
    if Some(m) in outs {
      var i :| 0 <= i < |outs| && outs[i] == Some(m);
      assert !pairs[i].validationFunction(text) && pairs[i].errorMessage == m;
    }
    if exists i :: 0 <= i < |pairs| && !pairs[i].validationFunction(text) && pairs[i].errorMessage == m {
      var i :| 0 <= i < |pairs| && !pairs[i].validationFunction(text) && pairs[i].errorMessage == m;
      assert outs[i] == Some(m);
    }
  }

  // ---------------------------------------------------------------------------
  // Reconciling a persistent error list with one pair (the incremental copies)
  // ---------------------------------------------------------------------------

  /** `errors` already agrees with `pair`: its message is listed exactly when the pair fails. */
  predicate Agrees(errors: seq<string>, pair: ValidationPair, text: string) {
    pair.validationFunction(text) <==> pair.errorMessage !in errors
  }

  /** The list change one pair causes: add a failing pair's missing message, remove a passing pair's present one. */
  function Reconcile(errors: seq<string>, pair: ValidationPair, text: string): (r: seq<string>)
    ensures Agrees(errors, pair, text) ==> r == errors
    ensures !Agrees(errors, pair, text) && !pair.validationFunction(text) ==> r == errors + [pair.errorMessage]
    ensures !Agrees(errors, pair, text) && pair.validationFunction(text) ==> r == RemoveFirst(errors, pair.errorMessage)
  {
    if !pair.validationFunction(text) && pair.errorMessage !in errors then errors + [pair.errorMessage]
    else if pair.validationFunction(text) && pair.errorMessage in errors then RemoveFirst(errors, pair.errorMessage)
    else errors
  }

  /** Reconciling keeps the list duplicate-free, makes the pair agree, and only touches the pair's own message. */
  lemma ReconcileEffect(errors: seq<string>, pair: ValidationPair, text: string)
    requires NoDuplicates(errors)
    ensures var r := Reconcile(errors, pair, text);
      && NoDuplicates(r)
      && Agrees(r, pair, text)
      && (forall m :: m != pair.errorMessage ==> (m in r <==> m in errors))
  {
    RemoveFirstMembers(errors, pair.errorMessage);
  }

  /** Reconciling one pair leaves the agreement of a pair with another message as it was. */
  lemma ReconcileKeepsOtherAgreement(errors: seq<string>, pair: ValidationPair, other: ValidationPair, text: string)
    requires NoDuplicates(errors) && other.errorMessage != pair.errorMessage
    ensures Agrees(Reconcile(errors, pair, text), other, text) <==> Agrees(errors, other, text)
  {
    ReconcileEffect(errors, pair, text);
  }

  /** No two pairs share a message. */
  predicate DistinctMessages(pairs: seq<ValidationPair>) {
    forall i, j :: 0 <= i < j < |pairs| ==> pairs[i].errorMessage != pairs[j].errorMessage
  }

  /** `m` is the message of a pair in `pairs`. */
  predicate IsPairMessage(pairs: seq<ValidationPair>, m: string) {
    exists i :: 0 <= i < |pairs| && pairs[i].errorMessage == m
  }

  /** Every pair agrees with `errors`. */
  predicate AllAgree(errors: seq<string>, pairs: seq<ValidationPair>, text: string) {
    forall i :: 0 <= i < |pairs| ==> Agrees(errors, pairs[i], text)
  }

  /** When every pair agrees, each pair's message is listed exactly when some pair with that message fails. */
  lemma AgreedMembership(errors: seq<string>, pairs: seq<ValidationPair>, text: string, m: string)
    requires DistinctMessages(pairs) && AllAgree(errors, pairs, text)
    requires IsPairMessage(pairs, m)
    ensures m in errors <==> m in FailingMessages(pairs, text)
  {
    var i :| 0 <= i < |pairs| && pairs[i].errorMessage == m;
    FailingMessagesMembers(pairs, text, m);
    assert Agrees(errors, pairs[i], text);
    if m in FailingMessages(pairs, text) {
      var j :| 0 <= j < |pairs| && !pairs[j].validationFunction(text) && pairs[j].errorMessage == m;
      assert j == i;
    }
  }

  // ---------------------------------------------------------------------------
  // The validator list object (a `List<T>` the host fills through `Add`)
  // ---------------------------------------------------------------------------

  /** A mutable list that a control references; it may be shared between controls. */
  class ItemList<T> {
    var items: seq<T>

    constructor ()
      ensures items == []
    {
      items := [];
    }

    method Add(x: T)
      modifies this
      ensures items == old(items) + [x]
    {
      items := items + [x];
    }
  }
}
