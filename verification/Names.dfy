/** Ordinal pod names: `<deployment>-<index>`, written by the controller and read back from the listing. */
module Names {

  datatype Option<+T> = None | Some(value: T)

  const MAX_INT64: int := 0x7fff_ffff_ffff_ffff
  const MAX_INT32: int := 0x7fff_ffff

  predicate IsDigit(c: char) { '0' <= c <= '9' }

  predicate AllDigits(s: string) { forall i :: 0 <= i < |s| ==> IsDigit(s[i]) }

  function DigitChar(v: nat): (c: char)
    requires v < 10
    ensures IsDigit(c) && DigitValue(c) == v
  {
    ("0123456789")[v]
  }

  function DigitValue(c: char): (v: nat)
    requires IsDigit(c)
  {
    c as int - '0' as int
  }

  /** The number a string of digits denotes. */
  function Numeral(s: string): (v: nat)
    requires AllDigits(s)
  {
    if s == "" then 0 else Numeral(s[..|s| - 1]) * 10 + DigitValue(s[|s| - 1])
  }

  /** `%d` on a non-negative index. */
  function Itoa(n: nat): (s: string)
    ensures s != "" && AllDigits(s)
  {
    if n < 10 then [DigitChar(n)] else Itoa(n / 10) + [DigitChar(n % 10)]
  }

  /** `%d` on any integer. */
  function Decimal(n: int): string
  {
    if n < 0 then "-" + Itoa(-n) else Itoa(n)
  }

  lemma {:induction false} NumeralOfItoa(n: nat)
    ensures Numeral(Itoa(n)) == n
  {
    if n < 10 {
      assert Itoa(n)[..0] == "";
    } else {
      NumeralOfItoa(n / 10);
      assert Itoa(n)[..|Itoa(n)| - 1] == Itoa(n / 10);
    }
  }

  /** `strconv.Atoi`: optional sign, decimal digits, 64-bit range; anything else is an error. */
  function Atoi(s: string): (r: Option<int>)
  {
    var signed := s != "" && (s[0] == '-' || s[0] == '+');
    var digits := if signed then s[1..] else s;
    if digits == "" || !AllDigits(digits) then None
    else
      var n: int := Numeral(digits);
      var v := if signed && s[0] == '-' then -n else n;
      if -MAX_INT64 - 1 <= v <= MAX_INT64 then Some(v) else None
  }

  /** The strings `strconv.Atoi` accepts, and the number each denotes. */
  ghost predicate Denotes(s: string, v: int)
  {
    && -0x8000_0000_0000_0000 <= v <= 0x7fff_ffff_ffff_ffff
    && exists digits :: digits != "" && AllDigits(digits) &&
         ((s in {digits, "+" + digits} && v == Numeral(digits)) || (s == "-" + digits && v + Numeral(digits) == 0))
  }

  lemma AtoiMeans(s: string, v: int)
    ensures Atoi(s) == Some(v) <==> Denotes(s, v)
  {
    if Atoi(s) == Some(v) {
      var digits := if s[0] == '-' || s[0] == '+' then s[1..] else s;
      if s[0] == '-' || s[0] == '+' {
        assert s == [s[0]] + digits;
        assert s[0] == '-' ==> s == "-" + digits;
        assert s[0] == '+' ==> s == "+" + digits;
      }
    }
    if Denotes(s, v) {
      var digits :| digits != "" && AllDigits(digits) &&
        ((s in {digits, "+" + digits} && v == Numeral(digits)) || (s == "-" + digits && v + Numeral(digits) == 0));
      assert IsDigit(digits[0]);
      if s != digits {
        assert s[1..] == digits;
      }
    }
  }

  /** Printing in base ten: a number is printed as the number without its last digit followed by that digit. */
  lemma DecimalMeans(n: nat, v: nat)
    requires v < 10
    ensures n > 0 ==> Decimal(10 * n + v) == Decimal(n) + ["0123456789"[v]]
    ensures Decimal(v) == ["0123456789"[v]]
    ensures n > 0 ==> Decimal(0 - n) == "-" + Decimal(n)
  {
  }

  /** `strings.TrimPrefix`: leaves the string alone when the prefix is absent. */
  function TrimPrefix(s: string, prefix: string): (r: string)
  {
    if prefix <= s then s[|prefix|..] else s
  }

  function PodName(deployment: string, index: nat): (name: string)
  {
    deployment + "-" + Itoa(index)
  }

  /** The ordinal `reconcileOne` reads off an owned pod's name. */
  function Ordinal(deployment: string, name: string): (r: Option<int>)
  {
    Atoi(TrimPrefix(name, deployment + "-"))
  }

  /** What counts as an ordinal: the number after the deployment's prefix, or the whole name when it has none. */
  lemma OrdinalMeans(deployment: string, name: string, v: int)
    ensures Ordinal(deployment, name) == Some(v) <==>
      Denotes(if deployment + "-" <= name then name[|deployment| + 1..] else name, v)
  {
    AtoiMeans(if deployment + "-" <= name then name[|deployment| + 1..] else name, v);
  }

  /** The listing reads back the index the controller wrote. */
  lemma OrdinalOfPodName(deployment: string, index: nat)
    requires index <= MAX_INT64
    ensures Ordinal(deployment, PodName(deployment, index)) == Some(index)
  {
    var name := PodName(deployment, index);
    var prefix := deployment + "-";
    assert name == prefix + Itoa(index);
    assert TrimPrefix(name, prefix) == Itoa(index);
    NumeralOfItoa(index);
    assert IsDigit(Itoa(index)[0]);
  }

  /** No two (deployment, index) pairs share a pod name, even when deployment names contain dashes and digits. */
  lemma PodNameInjective(d: string, i: nat, e: string, j: nat)
    requires PodName(d, i) == PodName(e, j)
    ensures d == e && i == j
  {
    var name := PodName(d, i);
    assert name[|d|] == '-' && name[|e|] == '-';
    assert forall k :: |d| < k < |name| ==> IsDigit(name[k]);
    assert forall k :: |e| < k < |name| ==> IsDigit(name[k]);
    assert |d| == |e|;
    assert d == name[..|d|] == e;
    assert Itoa(i) == name[|d| + 1..] == Itoa(j);
    NumeralOfItoa(i);
    NumeralOfItoa(j);
  }
}
