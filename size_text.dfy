/**
 * The "Dateigröße" text of a deleted-file record: `f"{size / 1024:.0f}kB"`.
 * The quotient of a byte count by 1024 is exact in binary floating point,
 * and `.0f` rounds an exact value to the nearest integer with ties going
 * to the even neighbour, so the number is computed here on integers only.
 */
module SizeText {
  import Decimal

  const UNIT: nat := 1024

  /** The nearest whole number of kilobytes; an exact half goes to the even neighbour. */
  function RoundKiB(size: nat): (k: nat)
    ensures -512 <= UNIT * k - size <= 512
    ensures (UNIT * k - size == 512 || UNIT * k - size == -512) ==> k % 2 == 0
  {
    var q, r := size / UNIT, size % UNIT;
    if r > 512 || (r == 512 && q % 2 == 1) then q + 1 else q
  }

  /** No other whole number is closer to size / 1024. */
  lemma RoundKiBIsNearest(size: nat, j: int)
    ensures Abs(UNIT * RoundKiB(size) - size) <= Abs(UNIT * j - size)
  {
    var k := RoundKiB(size);
    var d := UNIT * k - size;
    // j is a whole number of steps of 1024 away from k, and |d| is at most half a step
    assert UNIT * j - size == d + 1024 * (j - k);
    if j > k {
      assert 1024 * (j - k) >= 1024;
    } else if j < k {
      assert 1024 * (j - k) <= -1024;
    }
  }

  /** The two properties of RoundKiB pin it down: any k with them is RoundKiB(size). */
  lemma RoundKiBUnique(size: nat, k: int)
    requires -512 <= UNIT * k - size <= 512
    requires (UNIT * k - size == 512 || UNIT * k - size == -512) ==> k % 2 == 0
    ensures k == RoundKiB(size)
  {
  }

  function Abs(x: int): nat {
    if x < 0 then -x else x
  }

  /** The size text: the rounded kilobytes in decimal, with no leading zero, then "kB". */
  function SizeText(size: nat): (text: string)
    ensures |text| >= 3 && text[|text| - 2..] == "kB"
    ensures Decimal.AllDigits(text[..|text| - 2])
    ensures text[0] == '0' ==> RoundKiB(size) == 0
  {
    Decimal.NatToString(RoundKiB(size)) + "kB"
  }

  /** Reading the digits of the size text back gives the rounded kilobytes. */
  lemma SizeTextDenotesRoundedKiB(size: nat)
    ensures var text := SizeText(size);
      Decimal.ParseNat(text[..|text| - 2]) == RoundKiB(size)
  {
    var text := SizeText(size);
    assert text[..|text| - 2] == Decimal.NatToString(RoundKiB(size));
    Decimal.ParseNatToString(RoundKiB(size));
  }

  /** A file of at most half a kilobyte, or any size that rounds to 0, has the size text "0kB". */
  lemma SizeTextOfZeroKiB(size: nat)
    requires RoundKiB(size) == 0
    ensures SizeText(size) == "0kB"
  {
    Decimal.NatToStringZero();
  }

  /** Boundary values: a half kilobyte rounds down to 0, 1.5 up to 2, 2.5 down to 2. */
  lemma SizeTextBoundaries()
    ensures SizeText(512) == "0kB"
    ensures SizeText(1536) == "2kB"
    ensures SizeText(2560) == "2kB"
    ensures SizeText(1000) == "1kB"
    ensures SizeText(3000) == "3kB"
  {
  }
}
