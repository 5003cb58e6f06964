/**
 * Series labels: the template strings `${t}h` for hours and
 * `${lang === 'vi' ? 'T' : 'M'}${i + 1}` for months.
 */
module Labels {

  datatype Lang = Vi | En

  function Digit(d: nat): (c: char)
    requires d < 10
    ensures '0' <= c <= '9'
  {
    ('0' as int + d) as char
  }

  /** The decimal rendering of a natural number, as `${n}` prints it. */
  function NatToString(n: nat): (s: string)
    ensures |s| >= 1
    ensures forall i :: 0 <= i < |s| ==> '0' <= s[i] <= '9'
    decreases n
  {
    if n < 10 then [Digit(n)] else NatToString(n / 10) + [Digit(n % 10)]
  }

  /** Different numbers print differently. */
  lemma {:induction false} NatToStringInjective(a: nat, b: nat)
    requires NatToString(a) == NatToString(b)
    ensures a == b
    decreases a
  {
    var sa, sb := NatToString(a), NatToString(b);
    if a < 10 && b < 10 {
      assert Digit(a) == sa[0] == sb[0] == Digit(b);
    } else if a >= 10 && b >= 10 {
      assert sa[|sa| - 1] == Digit(a % 10) && sb[|sb| - 1] == Digit(b % 10);
      assert NatToString(a / 10) == sa[..|sa| - 1] == sb[..|sb| - 1] == NatToString(b / 10);
      NatToStringInjective(a / 10, b / 10);
    }
  }

  /** Label of the hour slot `t`: "0h" .. "23h". */
  function HourLabel(t: nat): string
  {
    NatToString(t) + "h"
  }

  /** Label of the month with index `i` (0-based): "T1" .. "T12" or "M1" .. "M12". */
  function MonthLabel(lang: Lang, i: nat): string
  {
    [if lang == Vi then 'T' else 'M'] + NatToString(i + 1)
  }

  /** Hour labels name their slots unambiguously. */
  lemma HourLabelsDistinct(t: nat, u: nat)
    requires t != u
    ensures HourLabel(t) != HourLabel(u)
  {
    if HourLabel(t) == HourLabel(u) {
      var st, su := NatToString(t), NatToString(u);
      assert |st| == |su|;
      assert st == HourLabel(t)[..|st|] == HourLabel(u)[..|su|] == su;
      NatToStringInjective(t, u);
    }
  }

  /** Month labels of one language name their months unambiguously. */
  lemma MonthLabelsDistinct(lang: Lang, i: nat, j: nat)
    requires i != j
    ensures MonthLabel(lang, i) != MonthLabel(lang, j)
  {
    if MonthLabel(lang, i) == MonthLabel(lang, j) {
      assert NatToString(i + 1) == MonthLabel(lang, i)[1..] == MonthLabel(lang, j)[1..] == NatToString(j + 1);
      NatToStringInjective(i + 1, j + 1);
    }
  }
}
