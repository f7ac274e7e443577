/** Money columns.  A balance or a recorded amount is a DECIMAL(18,2) column and is
    modelled as a whole number of cents.  A requested amount is an arbitrary real
    number of currency units: the decimal that a JavaScript number prints as. */
module Money {

  datatype Kind = Credit | Debit

  // A DECIMAL(18,2) column holds fewer than 10^16 units, that is 10^18 cents.
  const COLUMN_LIMIT: int := 1_000_000_000_000_000_000

  predicate Fits(cents: int) {
    -COLUMN_LIMIT < cents < COLUMN_LIMIT
  }

  // The coercion of a decimal to a whole number of cents: nearest, ties away from zero.
  function Nearest(x: real): int {
    if x < 0.0 then -((0.5 - x).Floor) else (x + 0.5).Floor
  }

  // The value an amount has once it is stored in a column.
  function Cents(amount: real): int {
    Nearest(amount * 100.0)
  }

  // The balance column after one posting: exact decimal arithmetic, then the coercion.
  function After(balance: int, kind: Kind, amount: real): int {
    match kind
    case Credit => Nearest(balance as real + amount * 100.0)
    case Debit => Nearest(balance as real - amount * 100.0)
  }

  predicate WholeCents(amount: real) {
    (amount * 100.0).Floor as real == amount * 100.0
  }

  // The amount lies exactly half way between two neighbouring cents.
  predicate HalfCentTie(amount: real) {
    (amount * 100.0).Floor as real + 0.5 == amount * 100.0
  }

  function Signed(kind: Kind, cents: int): int {
    if kind == Credit then cents else -cents
  }

  /** The coercion, characterised without its formula: the one integer within half a
      unit, and on a tie the one farther from zero. */
  lemma NearestIsNearest(x: real, n: int)
    ensures n == Nearest(x) <==>
            && -0.5 <= n as real - x <= 0.5
            && (n as real - x == 0.5 ==> x > 0.0)
            && (n as real - x == -0.5 ==> x < 0.0)
  {
    var m := Nearest(x);
    if n != m && -0.5 <= n as real - x <= 0.5 {
      assert n == m + 1 || n == m - 1;
    }
  }

  // What one posting adds to the distance between a balance and its ledger, judged by
  // the balance it leaves.
  function DriftOf(kind: Kind, amount: real, balanceAfter: int): int {
    if !HalfCentTie(amount) then 0
    else if kind == Debit && 0 < balanceAfter then 1
    else if kind == Credit && balanceAfter < 0 then -1
    else 0
  }

  /** Any posting to any balance, overdrawn ones included: the balance moves by the amount
      recorded in the ledger, except that one cent appears where a half cent is rounded up on
      both sides of a debit, and disappears where it is rounded down on both sides of a
      credit to an overdrawn balance. */
  lemma PostingDrift(balance: int, kind: Kind, amount: real)
    requires 0.0 < amount
    ensures After(balance, kind, amount)
         == balance + Signed(kind, Cents(amount)) + DriftOf(kind, amount, After(balance, kind, amount))
  {
    var f := (amount * 100.0).Floor;
    var n := if amount * 100.0 - f as real < 0.5 then f else f + 1;
    NearestIsNearest(amount * 100.0, n);
    var exact := balance as real + (if kind == Debit then -(amount * 100.0) else amount * 100.0);
    var moved := balance + Signed(kind, n);
    NearestIsNearest(exact, moved);
    NearestIsNearest(exact, moved + 1);
    NearestIsNearest(exact, moved - 1);
  }

  /** A credit to a balance that is not negative moves the balance by exactly the
      amount recorded in the ledger, however many fraction digits the amount has. */
  lemma CreditHasNoDrift(balance: int, amount: real)
    requires 0 <= balance && 0.0 < amount
    ensures After(balance, Credit, amount) == balance + Cents(amount)
    ensures 0 <= Cents(amount)
  {
    PostingDrift(balance, Credit, amount);
  }

  /** A debit leaves a balance that is not negative exactly when the shortfall is
      smaller than half a cent. */
  lemma DebitStaysNonNegative(balance: int, amount: real)
    ensures 0 <= After(balance, Debit, amount) <==> amount * 100.0 - balance as real < 0.5
  {
    NearestIsNearest(balance as real - amount * 100.0, After(balance, Debit, amount));
  }

  /** A debit that the balance covers to within half a cent moves the balance by the
      amount recorded in the ledger, and one cent less when the amount is a tie: the
      entry rounds up and so does the remaining balance. */
  lemma DebitDriftsOnTies(balance: int, amount: real)
    requires 0.0 < amount && amount * 100.0 - balance as real < 0.5
    ensures After(balance, Debit, amount)
         == balance - Cents(amount) + (if HalfCentTie(amount) then 1 else 0)
  {
    PostingDrift(balance, Debit, amount);
    DebitStaysNonNegative(balance, amount);
    if HalfCentTie(amount) {
      TieNeverClears(balance, amount);
    }
    hide After, Cents, HalfCentTie;
  }

  lemma TieNeverClears(balance: int, amount: real)
    requires HalfCentTie(amount)
    ensures After(balance, Debit, amount) != 0
  {
    var f := (amount * 100.0).Floor;
    NearestIsNearest(balance as real - amount * 100.0, if f < balance then balance - f else balance - f - 1);
  }

  /** A withdrawal of half a cent: the ledger records one cent, the balance does not move. */
  lemma HalfCentWithdrawal()
    ensures Cents(0.005) == 1 && After(100, Debit, 0.005) == 100 && HalfCentTie(0.005)
  {
    DebitDriftsOnTies(100, 0.005);
  }

  /** Whole-cent amounts are stored as they are, and post without any rounding. */
  lemma WholeCentsAreExact(balance: int, amount: real)
    requires WholeCents(amount)
    ensures Cents(amount) as real == amount * 100.0
    ensures !HalfCentTie(amount)
    ensures forall kind :: After(balance, kind, amount) == balance + Signed(kind, Cents(amount))
  {
    var c := (amount * 100.0).Floor;
    NearestIsNearest(amount * 100.0, c);
    forall kind: Kind
      ensures After(balance, kind, amount) == balance + Signed(kind, c)
    {
      NearestIsNearest(balance as real + Signed(kind, c) as real, balance + Signed(kind, c));
    }
  }
}
