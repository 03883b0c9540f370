/** The names `v_<n>` that the tracers give to traced values. */
module Names {

  function Digit(d: nat): char
    requires d < 10
  {
    ['0', '1', '2', '3', '4', '5', '6', '7', '8', '9'][d]
  }

  function Decimal(n: nat): (s: string)
    ensures |s| > 0
  {
    if n < 10 then [Digit(n)] else Decimal(n / 10) + [Digit(n % 10)]
  }

  function VarName(n: nat): string {
    "v_" + Decimal(n)
  }

  /** The number that a text of decimal digits stands for. */
  function Reading(s: string): int {
    if s == "" then 0 else 10 * Reading(s[..|s| - 1]) + (s[|s| - 1] as int - '0' as int)
  }

  /** The text of a number has digits only, does not begin with a needless zero, and reads as
      the number. */
  lemma {:induction false} DecimalReads(n: nat)
    ensures Reading(Decimal(n)) == n
    ensures forall i :: 0 <= i < |Decimal(n)| ==> '0' <= Decimal(n)[i] <= '9'
    ensures Decimal(n)[0] == '0' ==> n == 0
    decreases n
  {
    var s := Decimal(n);
    if n >= 10 {
      DecimalReads(n / 10);
      assert s[..|s| - 1] == Decimal(n / 10);
      assert s[|s| - 1] as int - '0' as int == n % 10;
    } else {
      assert s[..0] == "" && Reading(s) == 10 * Reading(s[..0]) + (s[0] as int - '0' as int);
    }
  }

  /** A name is `v_` and then its number in decimal. */
  lemma NameReads(n: nat)
    ensures VarName(n)[..2] == "v_" && Reading(VarName(n)[2..]) == n
    ensures forall i :: 2 <= i < |VarName(n)| ==> '0' <= VarName(n)[i] <= '9'
  {
    DecimalReads(n);
    assert VarName(n)[2..] == Decimal(n);
  }

  lemma {:induction false} DecimalInjective(a: nat, b: nat)
    requires Decimal(a) == Decimal(b)
    ensures a == b
  {
    var s := Decimal(a);
    if a < 10 && b < 10 {
      assert s[0] == Digit(a) == Digit(b);
    } else if a >= 10 && b >= 10 {
      assert s[|s| - 1] == Digit(a % 10) == Digit(b % 10);
      assert s[..|s| - 1] == Decimal(a / 10) == Decimal(b / 10);
      DecimalInjective(a / 10, b / 10);
    } else {
      assert false;
    }
  }

  lemma VarNameInjective(a: nat, b: nat)
    requires VarName(a) == VarName(b)
    ensures a == b
  {
    assert VarName(a)[2..] == Decimal(a) && VarName(b)[2..] == Decimal(b);
    DecimalInjective(a, b);
  }

  lemma VarNameIsNotArg(n: nat)
    ensures VarName(n) != "arg"
  {
    assert VarName(n)[0] == 'v' && "arg"[0] == 'a';
  }
}
