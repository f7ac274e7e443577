/** The funds check of a withdrawal or a transfer, which compares in binary64 although
    the posting itself is decimal. */
module Funds {
  import opened Money
  import opened Binary64

  // A balance column as a JavaScript number.
  function Number(balance: int): real {
    Fl(balance as real / 100.0)
  }

  // `Number(balance) - amount < 0`: the amount is itself a double, the one nearest to
  // the decimal it prints as, and the subtraction is rounded too.
  predicate Refused(balance: int, amount: real) {
    Fl(Number(balance) - Fl(amount)) < 0.0
  }

  // 2^45 and 2^46 units.
  const ANY_AMOUNT_CENTS: int := 3518437208883200
  const WHOLE_AMOUNT_CENTS: int := 7036874417766400

  /** The one consequence of printing a double as the shortest decimal that reads back as
      it: a double that some whole number of cents reads back as is printed as whole cents. */
  ghost predicate Printed(amount: real) {
    forall c: int :: Number(c) == Fl(amount) ==> WholeCents(amount)
  }

  // Where an accepted debit never overdraws: up to 2^46 units for amounts as they are
  // printed, and a little above 2^45 units for arbitrary reals.
  ghost predicate InRange(balance: int, amount: real) {
    balance <= ANY_AMOUNT_CENTS + 1 || (Printed(amount) && balance <= WHOLE_AMOUNT_CENTS)
  }

  /** The check is an order test on the two rounded numbers. */
  lemma RefusedIsOrder(balance: int, amount: real)
    requires 0 <= balance && 0.0 <= amount
    ensures Refused(balance, amount) <==> Number(balance) < Fl(amount)
  {
    hide Fl;
    DifferenceSign(balance as real / 100.0, amount);
  }

  /** No covered amount is ever refused, whatever the size of the balance and however
      many fraction digits the amount has. */
  lemma CoveredIsNeverRefused(balance: int, amount: real)
    requires 0 <= balance && 0.0 <= amount <= balance as real / 100.0
    ensures !Refused(balance, amount)
  {
    hide Fl;
    RefusedIsOrder(balance, amount);
    FlMonotone(amount, balance as real / 100.0);
  }

  // ----- the size of one rounding error

  lemma SmallPowers()
    ensures Pow2(0) == 1.0 && Pow2(-6) == 0.015625 && Pow2(-7) == 0.0078125 && Pow2(-8) == 0.00390625
    ensures Pow2(-8 + 53) == 35184372088832.0
    ensures Pow2(-7 + 53) == 70368744177664.0
    ensures Pow2(-6 + 53) == 140737488355328.0
  {
    Pow2Step(-1);
    Pow2Step(-2);
    Pow2Step(-3);
    Pow2Step(-4);
    Pow2Step(-5);
    Pow2Step(-6);
    Pow2Step(-7);
    Pow2Step(-8);
    Pow2Binade(-8);
    Pow2Binade(-7);
    Pow2Binade(-6);
  }

  lemma ErrorBelow(x: real, e: int)
    requires 0.0 <= x < Pow2(e + 53) && MIN_EXP <= e <= MAX_EXP
    ensures -Pow2(e) <= 2.0 * (Fl(x) - x) <= Pow2(e)
  {
    hide Fl, Pow2;
    RoundingError(x);
    UlpBelow(x, e);
  }

  // The power at the foot of a binade is itself a double.
  lemma FootIsFixed(e: int)
    requires MIN_EXP < e <= MAX_EXP
    ensures Fl(Pow2(e + 52)) == Pow2(e + 52)
  {
    hide Fl, Pow2;
    Pow2Step(e + 52);
    var x := Pow2(e + 52);
    BinadeIsUnique(x, e, UlpExp(x)) by {
      assert e + 52 + 1 == e + 53;
      assert InBinade(x, e);
    }
    Pow2Binade(e);
    FixedMultiple(x, 0x10_0000_0000_0000);
  }

  // What an accepted amount can exceed the balance by, for balances of one binade.
  lemma Shortfall(x: real, amount: real, e: int)
    requires 0.0 <= x && 0.0 <= amount && MIN_EXP <= e < MAX_EXP
    requires x + Pow2(e) < Pow2(e + 53) && Fl(amount) <= Fl(x)
    ensures amount - x <= Pow2(e)
  {
    hide Fl, Pow2;
    ErrorBelow(x, e);
    if amount < Pow2(e + 53) {
      ErrorBelow(amount, e);
    } else {
      FootIsFixed(e + 1);
      FlMonotone(Pow2(e + 53), amount) by {
        assert e + 1 + 52 == e + 53;
      }
    }
  }

  // Whole cents, up to 2^46 units.
  lemma AcceptedWholeCents(balance: int, amount: real)
    requires 0 <= balance <= WHOLE_AMOUNT_CENTS && 0.0 <= amount && WholeCents(amount)
    requires !Refused(balance, amount)
    ensures amount * 100.0 <= balance as real
  {
    hide Fl, Pow2;
    SmallPowers();
    WholeCentsAreExact(balance, amount);
    if balance < WHOLE_AMOUNT_CENTS {
      RefusedIsOrder(balance, amount);
      Shortfall(balance as real / 100.0, amount, -7);
      assert Cents(amount) as real - balance as real < 1.0;
    } else {
      TopOfTheRange(amount);
    }
  }

  // The largest whole-cent balance in range: 2^46 units.
  lemma TopOfTheRange(amount: real)
    requires 0.0 <= amount && WholeCents(amount) && !Refused(WHOLE_AMOUNT_CENTS, amount)
    ensures amount * 100.0 <= WHOLE_AMOUNT_CENTS as real
  {
    hide Fl, Pow2;
    SmallPowers();
    var x := 70368744177664.0;
    RefusedIsOrder(WHOLE_AMOUNT_CENTS, amount);
    FootIsFixed(-6) by {
      assert -6 + 52 == -7 + 53;
    }
    assert Fl(x) == x;
    if x < amount {
      var y := 70368744177664.01;
      WholeCentsAreExact(0, amount);
      assert Cents(amount) > WHOLE_AMOUNT_CENTS;
      FlMonotone(y, amount);
      ErrorBelow(y, -6);
    }
  }

  // 2^45 units and a few cents, and where they round to.
  lemma JustAbove(x: real, k: int, y: real)
    requires 35184372088832.0 <= x < 35184372088833.0
    requires y == 35184372088832.0 + k as real * 0.0078125 && -0.0078125 < 2.0 * (y - x) < 0.0078125
    ensures Fl(x) == y
  {
    hide Fl, Pow2;
    SmallPowers();
    assert InBinade(x, -7) by {
      assert -7 + 52 == -8 + 53;
    }
    RoundsTo(x, -7, 0x10_0000_0000_0000 + k, y);
  }

  // The two largest balances in range for arbitrary reals.
  lemma TopForAnyAmount(balance: int, amount: real)
    requires ANY_AMOUNT_CENTS <= balance <= ANY_AMOUNT_CENTS + 1 && 0.0 <= amount && !Refused(balance, amount)
    ensures amount * 100.0 - balance as real < 0.5
  {
    hide Fl, Pow2;
    RefusedIsOrder(balance, amount);
    if balance == ANY_AMOUNT_CENTS {
      JustAbove(35184372088832.0, 0, 35184372088832.0);
      JustAbove(35184372088832.005, 1, 35184372088832.0078125);
      if 35184372088832.005 <= amount {
        FlMonotone(35184372088832.005, amount);
      }
    } else {
      JustAbove(35184372088832.01, 1, 35184372088832.0078125);
      JustAbove(35184372088832.015, 2, 35184372088832.015625);
      if 35184372088832.015 <= amount {
        FlMonotone(35184372088832.015, amount);
      }
    }
  }

  /** For amounts as they are printed, with any number of fraction digits, the check is
      exact: it refuses exactly the amounts that the balance does not cover. */
  lemma ExactForPrinted(balance: int, amount: real)
    requires 0 <= balance <= WHOLE_AMOUNT_CENTS && 0.0 <= amount && Printed(amount)
    ensures Refused(balance, amount) <==> balance as real < amount * 100.0
  {
    hide Fl;
    if amount * 100.0 <= balance as real {
      CoveredIsNeverRefused(balance, amount);
    } else if !Refused(balance, amount) {
      RefusedIsOrder(balance, amount);
      FlMonotone(balance as real / 100.0, amount);
      assert Number(balance) == Fl(amount);
      AcceptedWholeCents(balance, amount);
    }
  }

  /** Amounts of three decimals are as they are printed, half cents included: below 2^42 units
      no two of them round to the same double. */
  lemma ThreeDecimalsArePrinted(amount: real, mills: int)
    requires 0.0 <= amount <= 4398046511103.0 && amount * 1000.0 == mills as real
    ensures Printed(amount)
  {
    hide Fl, Pow2;
    FineGrid();
    forall c: int | Number(c) == Fl(amount)
      ensures WholeCents(amount)
    {
      ErrorBelow(amount, -11);
      if c < 0 {
        NegativeRoundsDown(c as real / 100.0);
      } else if c as real / 100.0 <= 4398046511103.5 {
        ErrorBelow(c as real / 100.0, -11);
        assert 10 * c == mills;
      } else {
        ErrorBelow(4398046511103.5, -11);
        FlMonotone(4398046511103.5, c as real / 100.0);
      }
    }
  }

  lemma FineGrid()
    ensures Pow2(-11) == 0.00048828125 && Pow2(-11 + 53) == 4398046511104.0
  {
    SmallPowers();
    Pow2Step(-9);
    Pow2Step(-10);
    Pow2Step(-11);
    Pow2Binade(-11);
  }

  // A negative number of at least a cent rounds to one below zero.
  lemma NegativeRoundsDown(x: real)
    requires x <= -0.01
    ensures Fl(x) < 0.0
  {
    hide Pow2;
    FineGrid();
    assert Fl(x) == -Fl(-x);
    ErrorBelow(0.01, -11);
    FlMonotone(0.01, -x);
  }

  /** For whole-cent amounts that is: the balance is less than the amount recorded. */
  lemma ExactForWholeCents(balance: int, amount: real)
    requires 0 <= balance <= WHOLE_AMOUNT_CENTS && 0.0 <= amount && WholeCents(amount)
    ensures Refused(balance, amount) <==> balance < Cents(amount)
  {
    hide Refused;
    WholeCentsAreExact(balance, amount);
    ExactForPrinted(balance, amount);
  }

  /** Within range an accepted amount exceeds the balance by less than half a cent. */
  lemma AcceptedIsCovered(balance: int, amount: real)
    requires 0 <= balance && 0.0 <= amount && InRange(balance, amount)
    requires !Refused(balance, amount)
    ensures amount * 100.0 - balance as real < 0.5
  {
    hide Fl, Pow2, Refused;
    if ANY_AMOUNT_CENTS + 1 < balance {
      ExactForPrinted(balance, amount);
    } else if ANY_AMOUNT_CENTS <= balance {
      TopForAnyAmount(balance, amount);
    } else {
      SmallPowers();
      RefusedIsOrder(balance, amount);
      Shortfall(balance as real / 100.0, amount, -8);
    }
  }

  // ----- beyond the range

  // Two neighbouring cents just above 2^46 units round to the same double.
  lemma CentsCollide()
    ensures Fl(70368744177664.01) == Fl(70368744177664.02)
  {
    hide Fl, Pow2;
    SmallPowers();
    assert InBinade(70368744177664.01, -6) && InBinade(70368744177664.02, -6) by {
      assert -6 + 52 == -7 + 53;
    }
    RoundsTo(70368744177664.01, -6, 0x10_0000_0000_0001, 70368744177664.015625);
    RoundsTo(70368744177664.02, -6, 0x10_0000_0000_0001, 70368744177664.015625);
  }

  lemma OneCentTooMuch()
    ensures WholeCents(70368744177664.02) && Cents(70368744177664.02) == WHOLE_AMOUNT_CENTS + 2
    ensures !Refused(WHOLE_AMOUNT_CENTS + 1, 70368744177664.02)
  {
    hide Fl;
    CentsCollide();
    RefusedIsOrder(WHOLE_AMOUNT_CENTS + 1, 70368744177664.02);
  }

  // The check decides every printed amount correctly, for balances up to n cents.
  ghost predicate ExactUpTo(n: int) {
    forall b: int, amount: real :: 0 <= b <= n && 0.0 <= amount && Printed(amount) ==>
      (Refused(b, amount) <==> b as real < amount * 100.0)
  }

  /** 2^46 units is not a safe estimate but the exact bound: one cent above it there is
      already an uncovered amount, of whole cents, that the check lets through. */
  lemma ExactnessBound(n: int)
    requires 0 <= n
    ensures ExactUpTo(n) <==> n <= WHOLE_AMOUNT_CENTS
  {
    hide Refused;
    if n <= WHOLE_AMOUNT_CENTS {
      forall b: int, amount: real | 0 <= b <= n && 0.0 <= amount && Printed(amount)
        ensures Refused(b, amount) <==> b as real < amount * 100.0
      {
        ExactForPrinted(b, amount);
      }
    } else {
      OneCentTooMuch();
      var b, amount := WHOLE_AMOUNT_CENTS + 1, 70368744177664.02;
      assert !Refused(b, amount) && Printed(amount);
    }
  }

  // No debit that the check accepts overdraws a balance of up to n cents.
  ghost predicate SafeUpTo(n: int) {
    forall b: int, amount: real :: 0 <= b <= n && 0.0 <= amount && !Refused(b, amount) ==>
      0 <= After(b, Debit, amount)
  }

  lemma JustOutOfRange()
    ensures !Refused(ANY_AMOUNT_CENTS + 2, 35184372088832.027)
    ensures After(ANY_AMOUNT_CENTS + 2, Debit, 35184372088832.027) == -1
  {
    hide Fl;
    JustAbove(35184372088832.02, 3, 35184372088832.0234375);
    JustAbove(35184372088832.027, 3, 35184372088832.0234375);
    RefusedIsOrder(ANY_AMOUNT_CENTS + 2, 35184372088832.027);
  }

  /** Over all reals, printed or not, accepted debits are safe up to 2^45 units and one
      cent, and no further. */
  lemma SafetyBound(n: int)
    requires 0 <= n
    ensures SafeUpTo(n) <==> n <= ANY_AMOUNT_CENTS + 1
  {
    hide Refused, After;
    if n <= ANY_AMOUNT_CENTS + 1 {
      forall b: int, amount: real | 0 <= b <= n && 0.0 <= amount && !Refused(b, amount)
        ensures 0 <= After(b, Debit, amount)
      {
        AcceptedIsCovered(b, amount);
        DebitStaysNonNegative(b, amount);
      }
    } else {
      JustOutOfRange();
      var b, amount := ANY_AMOUNT_CENTS + 2, 35184372088832.027;
      assert !Refused(b, amount) && After(b, Debit, amount) < 0;
    }
  }

  /** Out of range a withdrawal can overdraw by far more than a rounding: this one takes
      a balance to minus 49 cents. */
  lemma LargeBalanceOverdraws()
    ensures !Refused(500000000000000051, 5000000000000001.0)
    ensures After(500000000000000051, Debit, 5000000000000001.0) == -49
  {
    hide Fl, Pow2;
    SmallPowers();
    var x, y := 5000000000000000.51, 5000000000000001.0;
    Pow2Binade(0);
    assert InBinade(x, 0) && InBinade(y, 0);
    RoundsTo(x, 0, 5000000000000001, y);
    RoundsTo(y, 0, 5000000000000001, y);
    RefusedIsOrder(500000000000000051, y);
    WholeCentsAreExact(500000000000000051, y);
  }
}
