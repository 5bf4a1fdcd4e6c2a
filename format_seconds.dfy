/**
 * `formatSeconds` of src/lib/format-seconds.ts on whole, non-negative
 * seconds: the unit is chosen from the size of the input, then the input in
 * that unit is rounded with `Math.round` and printed with the unit letter.
 */
module FormatSeconds {
  datatype TimeUnit = Seconds | Minutes | Hours | Days

  /** A count of one unit, before printing. */
  datatype Duration = Duration(amount: nat, unit: TimeUnit)

  /** How many seconds one unit is. */
  function UnitSeconds(u: TimeUnit): nat {
    match u
    case Seconds => 1
    case Minutes => 60
    case Hours => 3600
    case Days => 86400
  }

  /** `r` is `n / d` rounded half up, as `Math.round` rounds a non-negative quotient. */
  ghost predicate IsRounded(n: nat, d: nat, r: nat) {
    2 * d * r <= 2 * n + d < 2 * d * r + 2 * d
  }

  /** `Math.round(n / d)` for natural `n` and positive `d`. */
  function RoundDiv(n: nat, d: nat): (r: nat)
    requires d > 0
    ensures IsRounded(n, d, r)
  {
    var q := (2 * n + d) / (2 * d);
    assert 2 * n + d == 2 * d * q + (2 * n + d) % (2 * d);
    q
  }

  /** The only value rounding can give. */
  lemma RoundingIsUnique(n: nat, d: nat, r1: nat, r2: nat)
    requires d > 0 && IsRounded(n, d, r1) && IsRounded(n, d, r2)
    ensures r1 == r2
  {
    var k := 2 * d;
    assert k * (r1 - r2) < k by {
      assert k * (r1 - r2) == k * r1 - k * r2;
    }
    assert k * (r2 - r1) < k by {
      assert k * (r2 - r1) == k * r2 - k * r1;
    }
    BelowOneMultiple(k, r1 - r2);
    BelowOneMultiple(k, r2 - r1);
  }

  lemma BelowOneMultiple(k: int, x: int)
    requires k > 0 && k * x < k
    ensures x <= 0
  {
  }

  /**
   * The unit and amount `formatSeconds` chooses: the unit is chosen on the
   * unrounded value, so the amount can reach the next threshold.
   */
  function Choose(n: nat): (r: Duration)
    ensures r.unit == Seconds <==> n < 60
    ensures r.unit == Minutes <==> 60 <= n < 3600
    ensures r.unit == Hours <==> 3600 <= n < 86400
    ensures r.unit == Days <==> 86400 <= n
    ensures IsRounded(n, UnitSeconds(r.unit), r.amount)
  {
    if n < 60 then Duration(RoundDiv(n, 1), Seconds)
    else if n < 3600 then Duration(RoundDiv(n, 60), Minutes)
    else if n < 86400 then Duration(RoundDiv(n, 3600), Hours)
    else Duration(RoundDiv(n, 86400), Days)
  }

  /**
   * The amounts each unit can show: seconds are the input itself, minutes
   * are 1 to 60, hours 1 to 24, and days at least 1.
   */
  lemma AmountBounds(n: nat)
    ensures var r := Choose(n);
      && (r.unit == Seconds ==> r.amount == n)
      && (r.unit == Minutes ==> 1 <= r.amount <= 60)
      && (r.unit == Hours ==> 1 <= r.amount <= 24)
      && (r.unit == Days ==> r.amount >= 1)
  {
    var r := Choose(n);
    var a := r.amount;
    match r.unit
    case Seconds =>
    case Minutes =>
      assert 120 * a <= 2 * n + 60 < 120 * a + 120;
    case Hours =>
      assert 7200 * a <= 2 * n + 3600 < 7200 * a + 7200;
    case Days =>
      assert 172800 * a <= 2 * n + 86400 < 172800 * a + 172800;
  }

  function DigitChar(d: nat): (c: char)
    requires d < 10
    ensures '0' <= c <= '9' && c as int - '0' as int == d
  {
    "0123456789"[d]
  }

  /** `Number.prototype.toString()` on a natural number: decimal, no leading zero. */
  function ShowNat(n: nat): (s: string)
    ensures |s| >= 1
    ensures forall i :: 0 <= i < |s| ==> '0' <= s[i] <= '9'
    ensures s[0] == '0' ==> n == 0 && |s| == 1
    decreases n
  {
    if n < 10 then [DigitChar(n)] else ShowNat(n / 10) + [DigitChar(n % 10)]
  }

  /** The value of a string of decimal digits. */
  function ReadNat(s: string): nat
    requires forall i :: 0 <= i < |s| ==> '0' <= s[i] <= '9'
    decreases |s|
  {
    if s == [] then 0 else ReadNat(s[..|s| - 1]) * 10 + (s[|s| - 1] as int - '0' as int)
  }

  /** Printing a number and reading it back gives the number. */
  lemma {:induction false} ReadShowNat(n: nat)
    ensures ReadNat(ShowNat(n)) == n
    decreases n
  {
    if n >= 10 {
      var s := ShowNat(n);
      assert s[..|s| - 1] == ShowNat(n / 10);
      ReadShowNat(n / 10);
    }
  }

  function UnitLetter(u: TimeUnit): char {
    match u
    case Seconds => 's'
    case Minutes => 'm'
    case Hours => 'h'
    case Days => 'd'
  }

  /** `formatSeconds(n)`. */
  function Format(n: nat): (s: string)
    ensures |s| >= 2 && s[|s| - 1] == UnitLetter(Choose(n).unit)
    ensures (forall i :: 0 <= i < |s| - 1 ==> '0' <= s[i] <= '9') && ReadNat(s[..|s| - 1]) == Choose(n).amount
    ensures s[0] == '0' ==> |s| == 2
  {
    var d := Choose(n);
    var s := ShowNat(d.amount) + [UnitLetter(d.unit)];
    assert s[..|s| - 1] == ShowNat(d.amount);
    ReadShowNat(d.amount);
    s
  }

  /** The printed number can equal the next threshold. */
  lemma ThresholdsReached()
    ensures Format(59) == "59s"
    ensures Format(3599) == "60m"
    ensures Format(86399) == "24h"
    ensures Format(90) == "2m"
  {
    assert ShowNat(59) == "59";
    assert ShowNat(60) == "60";
    assert ShowNat(24) == "24";
    assert Choose(3599) == Duration(60, Minutes);
    assert Choose(86399) == Duration(24, Hours);
    assert Choose(90) == Duration(2, Minutes);
  }
}
