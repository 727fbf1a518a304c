/** Form validation as the zod schemas perform it: each string field has a
    minimum length, and a rejected form reports one issue per failing field
    with the message the schema gives. */
module Forms {
  import opened Text

  /** One validation issue: the field it concerns and the schema's message. */
  datatype Issue<+F> = Issue(field: F, message: string)

  /** Result of validating a form: the accepted values, or the issues found. */
  datatype Validation<+T, +F> = Valid(values: T) | Invalid(issues: seq<Issue<F>>)

  /** Some issue in the list concerns `field`. */
  predicate Reports<F(==)>(issues: seq<Issue<F>>, field: F) {
    exists i :: 0 <= i < |issues| && issues[i].field == field
  }

  /** An issue list reports a field when one of its two parts does. */
  lemma ReportsAppend<F>(a: seq<Issue<F>>, b: seq<Issue<F>>, field: F)
    ensures Reports(a + b, field) <==> Reports(a, field) || Reports(b, field)
  {
    if Reports(a + b, field) {
      var i :| 0 <= i < |a + b| && (a + b)[i].field == field;
      if i >= |a| {
        assert b[i - |a|].field == field;
      }
    }
    if Reports(a, field) {
      var j :| 0 <= j < |a| && a[j].field == field;
      assert (a + b)[j].field == field;
    }
    if Reports(b, field) {
      var j :| 0 <= j < |b| && b[j].field == field;
      assert (a + b)[|a| + j].field == field;
    }
  }

  /** zod's `z.string().min(n)`: JavaScript's `length` is at least `n`. The
      string is not trimmed first, so white space counts. */
  predicate MinLength(s: string, n: nat) {
    JsLength(s) >= n
  }

  /** The issues one `min(n, { message })` rule reports for a field value:
      none when the rule holds, otherwise exactly one with its message. */
  function CheckMin<F(==)>(field: F, value: string, n: nat, message: string): (issues: seq<Issue<F>>)
    ensures issues == [] <==> MinLength(value, n)
    ensures issues != [] ==> issues == [Issue(field, message)]
    ensures Reports(issues, field) <==> !MinLength(value, n)
    ensures forall i :: 0 <= i < |issues| ==> issues[i].field == field && issues[i].message == message
  {
    if MinLength(value, n) then []
    else
      var issues := [Issue(field, message)];
      assert issues[0].field == field;
      issues
  }

  /** For text made of Basic Multilingual Plane characters only, the rule
      is a plain character count. */
  lemma MinLengthOfBmp(s: string, n: nat)
    requires forall i :: 0 <= i < |s| ==> s[i] as int <= 0xFFFF
    ensures MinLength(s, n) <==> |s| >= n
  {
    JsLengthOfBmp(s);
  }

  /** White space is not trimmed: two spaces meet a minimum of two, and one
      character outside the Basic Multilingual Plane meets it as well. */
  lemma MinLengthCountsCodeUnits()
    ensures MinLength("  ", 2)
    ensures MinLength("\U{1F441}", 2) && !MinLength("a", 2)
  {
    assert "\U{1F441}"[1..] == "";
    assert "a"[1..] == "";
  }
}
