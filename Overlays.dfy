/**
 * The result overlays of the Home view: the display string built for one
 * recognised expression, and the reveals a submit schedules (one
 * `setTimeout(..., 1000)` per response item). Timers are not modelled as
 * time: all reveals share one delay and are queued in the order they were
 * scheduled, so they fire first-in, first-out.
 */
module Overlays {
  import opened VariableBindings

  /** The `result` state: one outcome slated for display. */
  datatype GeneratedExpression = GeneratedExpression(expression: string, answer: string)

  /** The delay every reveal is scheduled with, in milliseconds. */
  const RevealDelay: nat := 1000

  /** A scheduled, not yet fired `setTimeout` callback. */
  datatype Reveal = Reveal(delay: nat, entry: GeneratedExpression)

  /** The text around a display string: `\(\LARGE{`, ` = ` and `}\)`. */
  const Opening: string := "\\(\\LARGE{"
  const Separator: string := " = "
  const Closing: string := "}\\)"

  /**
   * The markup string the typesetter turns into `expression = answer`: the
   * opening, the expression, the separator, the answer and the closing, so
   * both can be read back from it given the expression's length.
   */
  function Display(e: GeneratedExpression): (s: string)
    ensures var i := |Opening| + |e.expression|;
      |s| == i + |Separator| + |e.answer| + |Closing| &&
      s[..|Opening|] == "\\(\\LARGE{" &&
      s[|Opening|..i] == e.expression &&
      s[i..i + |Separator|] == " = " &&
      s[i + |Separator|..|s| - |Closing|] == e.answer &&
      s[|s| - |Closing|..] == "}\\)"
  {
    Opening + e.expression + Separator + e.answer + Closing
  }

  /** Two expressions of the same length give the same display string only if they are equal. */
  lemma DisplayInjective(e1: GeneratedExpression, e2: GeneratedExpression)
    requires |e1.expression| == |e2.expression|
    requires Display(e1) == Display(e2)
    ensures e1 == e2
  {
  }

  /**
   * The reveals one response schedules: exactly one per item, assigning or
   * not, in response order, all with the same delay.
   */
  function Schedule(items: seq<Item>): (r: seq<Reveal>)
    ensures |r| == |items|
    ensures forall j :: 0 <= j < |items| ==>
      r[j].delay == RevealDelay &&
      r[j].entry.expression == items[j].expr && r[j].entry.answer == items[j].result
  {
    if items == [] then [] else [Reveal(RevealDelay, GeneratedExpression(items[0].expr, items[0].result))] + Schedule(items[1..])
  }
}
