/**
 * The interest tier of a savings account (SavingsAccount.java). Balances are
 * in cents and rates in basis points: 100 is 0.01, 150 is 0.015, 200 is 0.02.
 */
module SavingsAccount {

  const LowTierLimit: int := 1000_00
  const MiddleTierLimit: int := 5000_00

  /** `calculateInterestRate`: a three-step function of the balance. */
  function InterestRate(balance: int): (basisPoints: nat)
    ensures 100 <= basisPoints <= 200
  {
    if balance < LowTierLimit then 100
    else if balance < MiddleTierLimit then 150
    else 200
  }

  /**
   * Between two balances the rate differs exactly when a tier limit lies
   * between them: it is constant inside each tier and steps up at $1,000 and
   * at $5,000, by 50 basis points each time.
   */
  lemma InterestRateSteps(low: int, high: int)
    requires low <= high
    ensures (InterestRate(low) != InterestRate(high))
        <==> (low < LowTierLimit <= high || low < MiddleTierLimit <= high)
    ensures InterestRate(high) - InterestRate(low)
              == (if low < LowTierLimit <= high then 50 else 0) + (if low < MiddleTierLimit <= high then 50 else 0)
  {
  }

  /** A larger balance never earns a lower rate. */
  lemma InterestRateMonotonic(low: int, high: int)
    requires low <= high
    ensures InterestRate(low) <= InterestRate(high)
  {
  }
}
