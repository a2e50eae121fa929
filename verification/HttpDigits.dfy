/** The numbers that the digits of a stream denote. */
module HttpDigits {
  import opened HttpMachine

  function Num(ch: Byte): nat { if IsNum(ch) then ch - 48 else 0 }

  function HexDigit(ch: Byte): nat { if Unhex(ch) >= 0 then Unhex(ch) else 0 }

  predicate AllNum(d: seq<Byte>) { forall i :: 0 <= i < |d| ==> IsNum(d[i]) }

  predicate AllHex(d: seq<Byte>) { forall i :: 0 <= i < |d| ==> Unhex(d[i]) >= 0 }

  /** The number that decimal digits denote. */
  function DecVal(d: seq<Byte>): (n: nat) {
    if d == [] then 0 else DecVal(d[..|d| - 1]) * 10 + Num(d[|d| - 1])
  }

  /** The number that hexadecimal digits denote. */
  function HexVal(d: seq<Byte>): (n: nat) {
    if d == [] then 0 else HexVal(d[..|d| - 1]) * 16 + HexDigit(d[|d| - 1])
  }

  lemma DecAppend(d: seq<Byte>, x: Byte)
    ensures DecVal(d + [x]) == DecVal(d) * 10 + Num(x) && DecVal([x]) == Num(x)
  {
    assert (d + [x])[..|d|] == d;
    assert [x][..0] == [];
  }

  lemma HexAppend(d: seq<Byte>, x: Byte)
    ensures HexVal(d + [x]) == HexVal(d) * 16 + HexDigit(x) && HexVal([x]) == HexDigit(x)
  {
    assert (d + [x])[..|d|] == d;
    assert [x][..0] == [];
  }

  /** Every further digit is read while the value so far is below the limit. */
  ghost predicate FitsDec(d: seq<Byte>) {
    |d| <= 1 || DecVal(d[..|d| - 1]) <= (ULLONG_MAX - 10) / 10
  }

  ghost predicate FitsHex(d: seq<Byte>) {
    |d| <= 1 || HexVal(d[..|d| - 1]) <= (ULLONG_MAX - 16) / 16
  }

  /** The digits among digits and spaces. */
  function Nums(d: seq<Byte>): (r: seq<Byte>)
    ensures |r| <= |d|
  {
    if d == [] then [] else Nums(d[..|d| - 1]) + if d[|d| - 1] == SP then [] else [d[|d| - 1]]
  }

  predicate NumsAndSpaces(d: seq<Byte>) { forall i :: 0 <= i < |d| ==> IsNum(d[i]) || d[i] == SP }

  lemma {:induction false} NumsAreNum(d: seq<Byte>)
    requires NumsAndSpaces(d)
    ensures AllNum(Nums(d))
    ensures d != [] && d[0] != SP ==> Nums(d) != [] && Nums(d)[0] == d[0]
    ensures AllNum(d) ==> Nums(d) == d
  {
    if d != [] { NumsAreNum(d[..|d| - 1]); }
  }

  lemma NumsStep(d: seq<Byte>, x: Byte)
    ensures Nums(d + [x]) == Nums(d) + (if x == SP then [] else [x])
    ensures Nums([]) == []
  {
    assert (d + [x])[..|d|] == d;
  }

  /** One more digit fits exactly when the value so far is below the limit. */
  lemma FitsStep(n: seq<Byte>, x: Byte)
    requires n != []
    ensures FitsDec(n + [x]) <==> DecVal(n) <= (ULLONG_MAX - 10) / 10
    ensures !FitsDec(n) ==> !FitsDec(n + [x])
    ensures FitsDec([x])
  {
    hide DecVal;
    assert (n + [x])[..|n|] == n;
    var k := |n| - 1;
    assert n == n[..k] + [n[k]];
    DecAppend(n[..k], n[k]);
  }

  lemma Twelve()
    ensures Nums([49, SP, 50]) == [49, 50] && DecVal([49, 50]) == 12 && FitsDec([49, 50])
  {
    hide Nums, DecVal, FitsDec;
    NumsStep([49, SP], 50);
    NumsStep([49], SP);
    NumsStep([], 49);
    assert [49, SP] + [50] == [49, SP, 50] && [49] + [SP] == [49, SP] && [] + [49] == [49] && [49] + [50] == [49, 50];
    DecAppend([], 49);
    DecAppend([49], 50);
    FitsStep([49], 50);
  }
}
