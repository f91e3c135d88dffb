/** Decimal integers as text: `fmt.Sprintf("%d", n)` and `strconv.Atoi`. */
module Decimal {
  import opened Bytes
  import opened Errors

  /** '0'-'9'. */
  predicate IsDigit(c: byte) {
    48 <= c <= 57
  }

  predicate AllDigits(s: GoString) {
    forall i :: 0 <= i < |s| ==> IsDigit(s[i])
  }

  /** The shortest decimal spelling of a natural number: no sign, no leading zero. */
  function Digits(n: nat): (r: GoString)
    ensures 1 <= |r| && AllDigits(r)
    ensures |r| > 1 ==> r[0] != 48
    decreases n
  {
    if n < 10 then [48 + n] else Digits(n / 10) + [48 + n % 10]
  }

  /** The number a run of decimal digits spells, most significant digit first. */
  function ValueOf(s: GoString): nat
    requires AllDigits(s)
  {
    if s == [] then 0 else ValueOf(s[..|s| - 1]) * 10 + (s[|s| - 1] - 48)
  }

  /** `%d`: a '-' for negative numbers, then the digits of the magnitude. */
  function Itoa(n: int): (r: GoString)
    ensures n >= 0 ==> AllDigits(r) && (|r| > 1 ==> r[0] != 48)
    ensures n < 0 ==> |r| >= 2 && r[0] == 45 && AllDigits(r[1..]) && r[1] != 48
  {
    if n < 0 then [45] + Digits(-n) else Digits(n)
  }

  /** `strconv.Atoi` with a 64-bit `int`: an optional '+' or '-', then at least one
      decimal digit and nothing else, whose value fits the type. */
  function Atoi(s: GoString): (r: Result<int64>)
    ensures r.Success? ==> |s| >= 1
    ensures r.Success? ==>
      var body := if s[0] == 43 || s[0] == 45 then s[1..] else s;
      && |body| >= 1 && AllDigits(body)
      && (if s[0] == 45 then r.value == 0 - ValueOf(body) as int else r.value == ValueOf(body))
    ensures (forall i :: 0 <= i < |s| ==> !IsDigit(s[i])) ==> r.Failure?
    ensures (&& |s| >= 2 && (s[0] == 43 || s[0] == 45) && AllDigits(s[1..])
             && (s[0] == 45 ==> ValueOf(s[1..]) <= 0x8000_0000_0000_0000)
             && (s[0] == 43 ==> ValueOf(s[1..]) < 0x8000_0000_0000_0000)) ==> r.Success?
    ensures AllDigits(s) && |s| >= 1 && ValueOf(s) < 0x8000_0000_0000_0000 ==> r.Success?
  {
    var signed := |s| > 0 && (s[0] == 43 || s[0] == 45);
    var body := if signed then s[1..] else s;
    if body == [] || !AllDigits(body) then Failure(NotAnInt)
    else
      var v: int := if signed && s[0] == 45 then 0 - ValueOf(body) as int else ValueOf(body);
      if -0x8000_0000_0000_0000 <= v < 0x8000_0000_0000_0000 then Success(v) else Failure(NotAnInt)
  }

  lemma {:induction false} ValueOfDigits(n: nat)
    ensures ValueOf(Digits(n)) == n
    decreases n
  {
    if n >= 10 {
      var d := Digits(n);
      assert d[..|d| - 1] == Digits(n / 10);
      ValueOfDigits(n / 10);
    }
  }

  /** `strconv.Atoi` reads back every 64-bit integer `%d` writes. */
  lemma AtoiItoa(n: int64)
    ensures Atoi(Itoa(n)) == Success(n)
  {
    var s := Itoa(n);
    if n < 0 {
      var d := Digits(-(n as int));
      assert s == [45] + d && s[1..] == d;
      ValueOfDigits(-(n as int));
      assert AllDigits(s[1..]) && s[1..] != [];
      assert 0 - ValueOf(s[1..]) as int == n;
    } else {
      ValueOfDigits(n);
      assert s == Digits(n) && s[0] != 43 && s[0] != 45;
    }
  }
}
