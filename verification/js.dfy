/**
 * The JavaScript value semantics the addon relies on: string-valued properties that
 * may be undefined or null, truthiness, template-literal interpolation, and the
 * `startsWith` / `includes` string builtins.
 */
module Js {

  /** A string-valued property of a JavaScript object or query string. */
  datatype Field = Undefined | Null | Text(s: string)

  /** `!!f`: only a non-empty string is truthy; undefined, null and "" are falsy. */
  predicate Truthy(f: Field) {
    f.Text? && f.s != ""
  }

  /** `${f}` inside a template literal. */
  function Interpolate(f: Field): (r: string)
    ensures f.Text? ==> r == f.s
    ensures f == Undefined ==> r == "undefined"
    ensures f == Null ==> r == "null"
  {
    match f
    case Undefined => "undefined"
    case Null => "null"
    case Text(s) => s
  }

  /** The star-and-space prefix of the badge text and of the renamed catalog entries. */
  const Star: string := "★ "

  /** `s.startsWith(prefix)`. */
  predicate StartsWith(s: string, prefix: string) {
    |prefix| <= |s| && s[..|prefix|] == prefix
  }

  /** `t` occurs in `s` starting at index `i`. */
  ghost predicate OccursAt(s: string, t: string, i: int) {
    0 <= i && i + |t| <= |s| && s[i..i + |t|] == t
  }

  /** Occurrences in `s[1..]` are the occurrences in `s` shifted by one. */
  lemma OccursInTail(s: string, t: string, j: int)
    requires |s| > 0 && 0 <= j
    ensures OccursAt(s[1..], t, j) <==> OccursAt(s, t, j + 1)
  {
  }

  /** `s.includes(t)`: a left-to-right scan for an occurrence of `t`. */
  function Includes(s: string, t: string): (r: bool)
    ensures r <==> exists i :: OccursAt(s, t, i)
    decreases |s|
  {
    if |s| < |t| then
      assert forall i :: !OccursAt(s, t, i);
      false
    else if s[..|t|] == t then
      assert OccursAt(s, t, 0);
      true
    else
      assert |s| > 0;
      assert forall j :: 0 <= j ==> (OccursAt(s[1..], t, j) <==> OccursAt(s, t, j + 1)) by {
        forall j | 0 <= j ensures OccursAt(s[1..], t, j) <==> OccursAt(s, t, j + 1) {
          OccursInTail(s, t, j);
        }
      }
      assert forall i :: OccursAt(s, t, i) ==> i > 0 && OccursAt(s[1..], t, i - 1);
      Includes(s[1..], t)
  }

  /** A string includes any string appended to it. */
  lemma {:induction false} IncludesAppended(s: string, t: string)
    ensures Includes(s + t, t)
  {
    assert OccursAt(s + t, t, |s|) by {
      assert (s + t)[|s|..|s| + |t|] == t;
    }
  }

  /** Appending text keeps every occurrence already present. */
  lemma {:induction false} IncludesExtended(s: string, u: string, t: string)
    requires Includes(s, t)
    ensures Includes(s + u, t)
  {
    var i :| OccursAt(s, t, i);
    assert (s + u)[i..i + |t|] == s[i..i + |t|];
    assert OccursAt(s + u, t, i);
  }
}
