/**
 * Client-side validation results as the forms use them: a schema yields a list of issues, each
 * with a path and a message, and a submit handler folds that list into a map from field name to
 * message.
 */
module FormErrors {
  import opened Wrappers

  /** One validation issue; `path[0]` names the field it belongs to. */
  datatype Issue = Issue(path: seq<string>, message: string)

  /** The issue's field, when `path[0]` is present and truthy (a non-empty string). */
  function KeyOf(issue: Issue): Option<string>
  {
    if |issue.path| > 0 && issue.path[0] != "" then Some(issue.path[0]) else None
  }

  /** A minimum-length check on field `key`: one issue when `s` is shorter than `n`. */
  function MinLength(key: string, s: string, n: nat, message: string): (issues: seq<Issue>)
    ensures issues == [] <==> |s| >= n
    ensures issues != [] ==> issues == [Issue([key], message)]
  {
    if |s| < n then [Issue([key], message)] else []
  }

  /** A maximum-length check on field `key`: one issue when `s` is longer than `n`. */
  function MaxLength(key: string, s: string, n: nat, message: string): (issues: seq<Issue>)
    ensures issues == [] <==> |s| <= n
    ensures issues != [] ==> issues == [Issue([key], message)]
  {
    if |s| > n then [Issue([key], message)] else []
  }

  /** The field-error map after visiting the issues in order, each later one overwriting its key. */
  function FieldErrors(issues: seq<Issue>): map<string, string>
  {
    if issues == [] then map[]
    else
      var m := FieldErrors(issues[..|issues| - 1]);
      var last := issues[|issues| - 1];
      if KeyOf(last).Some? then m[KeyOf(last).value := last.message] else m
  }

  /** One issue gives a one-entry map, or an empty one when it names no field. */
  lemma FieldErrorsSingle(issue: Issue)
    ensures FieldErrors([issue]) == if KeyOf(issue).Some? then map[KeyOf(issue).value := issue.message] else map[]
  {
    assert [issue][..0] == [];
  }

  /** The `forEach` loop of the submit handlers that fills the field-error map. */
  method CollectFieldErrors(issues: seq<Issue>) returns (fieldErrors: map<string, string>)
    ensures fieldErrors == FieldErrors(issues)
  {
    fieldErrors := map[];
    var i := 0;
    while i < |issues|
      invariant 0 <= i <= |issues|
      invariant fieldErrors == FieldErrors(issues[..i])
    {
      var issue := issues[i];
      if |issue.path| > 0 && issue.path[0] != "" {
        fieldErrors := fieldErrors[issue.path[0] := issue.message];
      }
      assert issues[..i + 1][..i] == issues[..i];
      i := i + 1;
    }
    assert issues[..i] == issues;
  }

  /** A key is in the map exactly when some issue carries it. */
  lemma {:induction false} FieldErrorsKeys(issues: seq<Issue>, k: string)
    ensures k in FieldErrors(issues) <==> exists i :: 0 <= i < |issues| && KeyOf(issues[i]) == Some(k)
  {
    if issues != [] {
      var init := issues[..|issues| - 1];
      FieldErrorsKeys(init, k);
      assert forall i :: 0 <= i < |init| ==> init[i] == issues[i];
    }
  }

  /** The message kept for a key is the one of the last issue carrying it. */
  lemma {:induction false} FieldErrorsLastWins(issues: seq<Issue>, i: nat)
    requires i < |issues| && KeyOf(issues[i]).Some?
    requires forall j :: i < j < |issues| ==> KeyOf(issues[j]) != KeyOf(issues[i])
    ensures KeyOf(issues[i]).value in FieldErrors(issues)
    ensures FieldErrors(issues)[KeyOf(issues[i]).value] == issues[i].message
  {
    if i < |issues| - 1 {
      var init := issues[..|issues| - 1];
      assert init[i] == issues[i];
      FieldErrorsLastWins(init, i);
    }
  }
}
