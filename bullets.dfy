// The error-detail text: one "● message" line per error. Every copy builds it
// with the same StringBuilder loop, which decides "last line" by comparing the
// message with the list's last element rather than by position.

module BulletText {
  import opened Validation

  /** `Environment.NewLine` on the platform the controls run on. */
  const NewLine: string := "\r\n"

  /** The text appended for one message: `$"● {error}"`. */
  function BulletLine(error: string): string {
    "● " + error
  }

  /** Reference definition: the bullet lines joined with newlines, nothing after the last. */
  function BulletJoin(errors: seq<string>): (r: string)
    ensures r == "" <==> errors == []
  {
    if |errors| == 0 then ""
    else if |errors| == 1 then BulletLine(errors[0])
    else BulletLine(errors[0]) + NewLine + BulletJoin(errors[1..])
  }

  /** The piece the loop appends for `error`: `Append` when it equals the last element, `AppendLine` otherwise. */
  function Piece(errors: seq<string>, error: string): string
    requires errors != []
  {
    if IsLast(errors, error) then BulletLine(error) else BulletLine(error) + NewLine
  }

  /** The loop's "last line" test: the message equals the list's last element. */
  predicate IsLast(errors: seq<string>, error: string)
    requires errors != []
  {
    error == errors[|errors| - 1]
  }

  /** What the StringBuilder holds after the loop has visited the first `k` errors. */
  function BuilderPrefix(errors: seq<string>, k: nat): (r: string)
    requires k <= |errors|
    ensures |r| >= 2 * k
  {
    if k == 0 then "" else BuilderPrefix(errors, k - 1) + Piece(errors, errors[k - 1])
  }

  /** The text the loop leaves in the StringBuilder: empty exactly when there are no errors. */
  function BuilderText(errors: seq<string>): (r: string)
    ensures r == "" <==> errors == []
  {
    BuilderPrefix(errors, |errors|)
  }

  /** The StringBuilder loop of `UpdateFlyoutState` / `UpdateTooltipState` / `UpdateFlyoutText`. */
  method BuildErrorText(errors: seq<string>) returns (text: string)
    ensures text == BuilderText(errors)
  {
    text := "";
    for k := 0 to |errors|
      invariant text == BuilderPrefix(errors, k)
    {
      var error := errors[k];
      var appended: string;
      if IsLast(errors, error) {
        appended := BulletLine(error);
      } else {
        appended := BulletLine(error) + NewLine;
      }
      text := text + appended;
    }
  }

  /** All lines of `errors`, each followed by a newline. */
  function Lines(errors: seq<string>): string {
    if errors == [] then "" else Lines(errors[..|errors| - 1]) + BulletLine(errors[|errors| - 1]) + NewLine
  }

  lemma {:induction false} BuilderPrefixIsLines(errors: seq<string>, k: nat)
    requires NoDuplicates(errors)
    requires k < |errors|
    ensures BuilderPrefix(errors, k) == Lines(errors[..k])
  {
    if k > 0 {
      BuilderPrefixIsLines(errors, k - 1);
      assert errors[..k][..k - 1] == errors[..k - 1];
      assert errors[k - 1] != errors[|errors| - 1];
    }
  }

  lemma {:induction false} JoinIsLinesThenLast(errors: seq<string>)
    requires errors != []
    ensures BulletJoin(errors) == Lines(errors[..|errors| - 1]) + BulletLine(errors[|errors| - 1])
  {
    if |errors| > 1 {
      var tail := errors[1..];
      JoinIsLinesThenLast(tail);
      LinesCons(errors[0], tail[..|tail| - 1]);
      assert [errors[0]] + tail[..|tail| - 1] == errors[..|errors| - 1];
    }
  }

  lemma {:induction false} LinesCons(e: string, rest: seq<string>)
    ensures Lines([e] + rest) == BulletLine(e) + NewLine + Lines(rest)
  {
    if rest != [] {
      var front := rest[..|rest| - 1];
      assert ([e] + rest)[..|rest|] == [e] + front;
      LinesCons(e, front);
    } else {
      assert ([e] + rest)[..0] == [];
    }
  }

  /** For a duplicate-free list the loop's "compare with the last element" test singles out the last line only. */
  lemma BuilderTextIsJoin(errors: seq<string>)
    requires NoDuplicates(errors)
    ensures BuilderText(errors) == BulletJoin(errors)
  {
    if errors != [] {
      var n := |errors| - 1;
      BuilderPrefixIsLines(errors, n);
      JoinIsLinesThenLast(errors);
    }
  }

  /**
   * When the last message also occurs earlier, the loop treats that earlier
   * occurrence as the last line too and drops its newline, so its text is
   * shorter than the bullet join; this is why the copies keep lists
   * duplicate-free.
   */
  lemma RepeatedLastMessageLosesSeparator(errors: seq<string>, i: nat)
    requires i < |errors| - 1 && errors[i] == errors[|errors| - 1]
    ensures |BuilderText(errors)| + |NewLine| <= |BulletJoin(errors)|
    ensures BuilderText(errors) != BulletJoin(errors)
  {
    var n := |errors| - 1;
    PrefixShorterThanLines(errors, i, n);
    JoinIsLinesThenLast(errors);
    assert BuilderText(errors) == BuilderPrefix(errors, n) + BulletLine(errors[n]);
  }

  /** The loop's prefix is never longer than the lines it visited, and a newline shorter once it has passed `i`. */
  lemma {:induction false} PrefixShorterThanLines(errors: seq<string>, i: nat, k: nat)
    requires i < |errors| && errors[i] == errors[|errors| - 1] && k <= |errors|
    ensures |BuilderPrefix(errors, k)| <= |Lines(errors[..k])|
    ensures i < k ==> |BuilderPrefix(errors, k)| + |NewLine| <= |Lines(errors[..k])|
  {
    if k > 0 {
      PrefixShorterThanLines(errors, i, k - 1);
      var e := errors[k - 1];
      var piece := Piece(errors, e);
      assert errors[..k][..k - 1] == errors[..k - 1] && errors[..k][k - 1] == e;
      assert |BuilderPrefix(errors, k)| == |BuilderPrefix(errors, k - 1)| + |piece|;
      assert |Lines(errors[..k])| == |Lines(errors[..k - 1])| + |BulletLine(e)| + |NewLine|;
      assert |piece| == |BulletLine(e)| || |piece| == |BulletLine(e)| + |NewLine|;
      assert k - 1 == i ==> |piece| == |BulletLine(e)|;
    }
  }

  // ---------------------------------------------------------------------------
  // String.IsNullOrWhiteSpace
  // ---------------------------------------------------------------------------

  /** `Char.IsWhiteSpace`: the Unicode space separators, line and paragraph separators and the control whitespace. */
  predicate IsWhiteSpaceChar(c: char) {
    || ('\U{0009}' <= c <= '\U{000D}') || c == ' ' || c == '\U{0085}' || c == '\U{00A0}'
    || c == '\U{1680}' || ('\U{2000}' <= c <= '\U{200A}') || c == '\U{2028}' || c == '\U{2029}'
    || c == '\U{202F}' || c == '\U{205F}' || c == '\U{3000}'
  }

  /** `String.IsNullOrWhiteSpace` on a non-null string. */
  predicate IsBlank(s: string) {
    forall i :: 0 <= i < |s| ==> IsWhiteSpaceChar(s[i])
  }

  /** The error text is blank exactly when there are no errors. */
  lemma BulletJoinBlank(errors: seq<string>)
    ensures IsBlank(BulletJoin(errors)) <==> errors == []
  {
    if errors != [] {
      assert BulletJoin(errors)[0] == '●';
    }
  }
}
