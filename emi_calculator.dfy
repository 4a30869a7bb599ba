/**
 * The EMI calculator page: the annuity installment of a loan and its
 * month-by-month reducing-balance schedule, in exact real arithmetic
 * with a whole number of months.
 */
module Emi {
  import opened Wrappers
  import opened Numbers
  import opened Text

  /** The two tenure units the page offers. */
  datatype TenureUnit = Months | Years

  /** One row of the schedule. */
  datatype MonthlyPayment = MonthlyPayment(month: nat, emi: real, principal: real, interest: real, balance: real)

  /** What the page shows after a calculation. */
  datatype EmiResult = EmiResult(emi: real, totalAmount: real, totalInterest: real, monthlyBreakdown: seq<MonthlyPayment>)

  /** `x` raised to the whole power `n`. */
  function Pow(x: real, n: nat): real
  {
    if n == 0 then 1.0 else x * Pow(x, n - 1)
  }

  /** A base above one raised to a positive power stays above one. */
  lemma {:induction false} PowAboveOne(x: real, n: nat)
    requires x > 1.0 && n >= 1
    ensures Pow(x, n) > 1.0
  {
    if n > 1 {
      PowAboveOne(x, n - 1);
      var y := Pow(x, n - 1);
      assert x * y > 1.0 * y by { assert (x - 1.0) * y > 0.0; }
    }
  }

  /** `N`: the tenure counted in months. */
  function Periods(tenure: real, unit: TenureUnit): (n: real)
    ensures unit == Months ==> n == tenure
    ensures unit == Years ==> n == 12.0 * tenure
  {
    if unit == Years then tenure * 12.0 else tenure
  }

  /** `R`: the monthly rate as a fraction, from an annual rate in percent. */
  function MonthlyRate(annualRate: real): (r: real)
    ensures annualRate > 0.0 ==> r > 0.0
    ensures 1200.0 * r == annualRate
  {
    annualRate / 12.0 / 100.0
  }

  /** `P·R·(1+R)^N / ((1+R)^N − 1)`: positive for a positive loan. */
  function Installment(p: real, r: real, n: nat): (emi: real)
    requires r > 0.0 && n >= 1
    ensures p > 0.0 ==> emi > 0.0
  {
    PowAboveOne(1.0 + r, n);
    var q := Pow(1.0 + r, n);
    assert p > 0.0 ==> p * r * q > 0.0;
    (p * r * q) / (q - 1.0)
  }

  /** The installment solves the annuity equation `emi·((1+R)^N − 1) = P·R·(1+R)^N`. */
  lemma InstallmentEquation(p: real, r: real, n: nat)
    requires r > 0.0 && n >= 1
    ensures Installment(p, r, n) * (Pow(1.0 + r, n) - 1.0) == p * r * Pow(1.0 + r, n)
  {
    PowAboveOne(1.0 + r, n);
  }

  /** `Math.max(0, x)` */
  function Max0(x: real): (m: real)
    ensures m >= 0.0 && m >= x
    ensures m == x || m == 0.0
  {
    if x < 0.0 then 0.0 else x
  }

  /** The running balance after `k` months: each month the interest on the balance is
      charged and the installment paid. */
  function Balance(p: real, r: real, emi: real, k: nat): real
  {
    if k == 0 then p
    else
      var b := Balance(p, r, emi, k - 1);
      b - (emi - b * r)
  }

  /** The row recorded for month `i + 1`. */
  function Row(p: real, r: real, emi: real, i: nat): MonthlyPayment
  {
    var b := Balance(p, r, emi, i);
    MonthlyPayment(i + 1, emi, emi - b * r, b * r, Max0(Balance(p, r, emi, i + 1)))
  }

  /** The first `n` rows of the schedule, in month order. */
  function Schedule(p: real, r: real, emi: real, n: nat): seq<MonthlyPayment>
  {
    if n == 0 then [] else Schedule(p, r, emi, n - 1) + [Row(p, r, emi, n - 1)]
  }

  /** The loop of `calculateEMI`: month by month, the interest on the running balance,
      the rest of the installment as principal, the balance reduced by that principal,
      and a row appended. */
  method BuildSchedule(p: real, r: real, emi: real, n: nat) returns (rows: seq<MonthlyPayment>)
    ensures rows == Schedule(p, r, emi, n)
  {
    rows := [];
    var balance := p;
    var month := 1;
    while month <= n
      invariant 1 <= month <= n + 1
      invariant balance == Balance(p, r, emi, month - 1)
      invariant rows == Schedule(p, r, emi, month - 1)
    {
      var interestForMonth := balance * r;
      var principalForMonth := emi - interestForMonth;
      balance := balance - principalForMonth;
      assert balance == Balance(p, r, emi, month);
      assert MonthlyPayment(month, emi, principalForMonth, interestForMonth, Max0(balance)) == Row(p, r, emi, month - 1);
      rows := rows + [MonthlyPayment(month, emi, principalForMonth, interestForMonth, Max0(balance))];
      month := month + 1;
    }
  }

  /** Row `i` of the schedule is the row for month `i + 1`. */
  lemma {:induction false} ScheduleIndex(p: real, r: real, emi: real, n: nat)
    ensures |Schedule(p, r, emi, n)| == n
    ensures forall i | 0 <= i < n :: Schedule(p, r, emi, n)[i] == Row(p, r, emi, i)
  {
    if n > 0 {
      ScheduleIndex(p, r, emi, n - 1);
    }
  }

  /** Row `w` is a reducing-balance row for month `i + 1`: it pays the installment,
      split into the interest on the balance before it and the principal, which is what
      reduces the balance; the balance it shows is that balance, floored at zero. */
  predicate ReducingBalanceRow(w: MonthlyPayment, p: real, r: real, emi: real, i: nat)
  {
    w.month == i + 1 && w.emi == emi &&
    w.interest == Balance(p, r, emi, i) * r &&
    w.principal + w.interest == emi &&
    Balance(p, r, emi, i + 1) == Balance(p, r, emi, i) - w.principal &&
    w.balance == Max0(Balance(p, r, emi, i + 1))
  }

  /** The schedule has one reducing-balance row per month, in month order, and the
      balance it shows is never negative. */
  lemma ScheduleRows(p: real, r: real, emi: real, n: nat)
    ensures var s := Schedule(p, r, emi, n);
      |s| == n &&
      forall i | 0 <= i < n :: ReducingBalanceRow(s[i], p, r, emi, i) && s[i].balance >= 0.0
  {
    var s := Schedule(p, r, emi, n);
    ScheduleIndex(p, r, emi, n);
    forall i | 0 <= i < n
      ensures ReducingBalanceRow(s[i], p, r, emi, i) && s[i].balance >= 0.0
    {
      assert s[i] == Row(p, r, emi, i);
    }
  }

  /** One month of the closed form: if `b·R = P·R·q − emi·(q − 1)`, the next balance
      `b'` satisfies it with `q` replaced by `q' = (1+R)·q`. */
  lemma ClosedFormStep(p: real, r: real, emi: real, b: real, q: real, b': real, q': real)
    requires b * r == p * r * q - emi * (q - 1.0)
    requires b' == b - (emi - b * r) && q' == (1.0 + r) * q
    ensures b' * r == p * r * q' - emi * (q' - 1.0)
  {
    calc {
      b' * r;
      (b - (emi - b * r)) * r;
      (b * r) * (1.0 + r) - emi * r;
      (p * r * q - emi * (q - 1.0)) * (1.0 + r) - emi * r;
      p * r * ((1.0 + r) * q) - emi * ((1.0 + r) * q - 1.0);
      p * r * q' - emi * (q' - 1.0);
    }
  }

  /** The balance in closed form, scaled by the rate:
      `B_k·R = P·R·(1+R)^k − emi·((1+R)^k − 1)`. */
  lemma {:induction false} BalanceClosedForm(p: real, r: real, emi: real, k: nat)
    ensures Balance(p, r, emi, k) * r == p * r * Pow(1.0 + r, k) - emi * (Pow(1.0 + r, k) - 1.0)
  {
    if k > 0 {
      var b, q := Balance(p, r, emi, k - 1), Pow(1.0 + r, k - 1);
      var b', q' := Balance(p, r, emi, k), Pow(1.0 + r, k);
      BalanceClosedForm(p, r, emi, k - 1);
      assert b' == b - (emi - b * r);
      assert q' == (1.0 + r) * q;
      ClosedFormStep(p, r, emi, b, q, b', q');
    }
  }

  /** With a positive rate and at least one month, the annuity installment pays the loan
      off exactly: the running balance after the last month is zero. */
  lemma AnnuityClearsBalance(p: real, r: real, n: nat)
    requires r > 0.0 && n >= 1
    ensures Balance(p, r, Installment(p, r, n), n) == 0.0
  {
    var emi := Installment(p, r, n);
    InstallmentEquation(p, r, n);
    BalanceClosedForm(p, r, emi, n);
    assert Balance(p, r, emi, n) * r == 0.0;
  }

  /** A base of at least one keeps every power at least one. */
  lemma {:induction false} PowAtLeastOne(x: real, k: nat)
    requires x >= 1.0
    ensures Pow(x, k) >= 1.0
  {
    if k > 0 {
      PowAtLeastOne(x, k - 1);
      var y := Pow(x, k - 1);
      assert x * y >= 1.0 * y by { assert (x - 1.0) * y >= 0.0; }
    }
  }

  /** The installment of a positive loan is more than the first month's interest `P·R`. */
  lemma InstallmentAboveInterest(p: real, r: real, n: nat)
    requires p > 0.0 && r > 0.0 && n >= 1
    ensures Installment(p, r, n) > p * r
  {
    var emi, q := Installment(p, r, n), Pow(1.0 + r, n);
    PowAboveOne(1.0 + r, n);
    InstallmentEquation(p, r, n);
    assert (emi - p * r) * (q - 1.0) == p * r;
    assert p * r > 0.0;
  }

  /** Every month of an annuity repays some principal, so the running balance strictly
      falls from one month to the next. */
  lemma BalanceDecreasing(p: real, r: real, n: nat, k: nat)
    requires p > 0.0 && r > 0.0 && n >= 1
    ensures Balance(p, r, Installment(p, r, n), k + 1) < Balance(p, r, Installment(p, r, n), k)
  {
    var emi := Installment(p, r, n);
    var b, q := Balance(p, r, emi, k), Pow(1.0 + r, k);
    BalanceClosedForm(p, r, emi, k);
    assert emi - b * r == q * (emi - p * r);
    InstallmentAboveInterest(p, r, n);
    PowAtLeastOne(1.0 + r, k);
    assert q * (emi - p * r) > 0.0;
  }

  /** The balance shown in the schedule of a positive loan never goes up from one row
      to the next. */
  lemma ShownBalanceNonIncreasing(p: real, r: real, n: nat)
    requires p > 0.0 && r > 0.0 && n >= 1
    ensures var s := Schedule(p, r, Installment(p, r, n), n);
      forall i | 0 < i < |s| :: s[i].balance <= s[i - 1].balance
  {
    var emi := Installment(p, r, n);
    var s := Schedule(p, r, emi, n);
    ScheduleIndex(p, r, emi, n);
    forall i | 0 < i < |s| ensures s[i].balance <= s[i - 1].balance {
      assert s[i] == Row(p, r, emi, i) && s[i - 1] == Row(p, r, emi, i - 1);
      BalanceDecreasing(p, r, n, i);
    }
  }

  function SumPrincipal(rows: seq<MonthlyPayment>): real
  {
    if rows == [] then 0.0 else SumPrincipal(rows[..|rows| - 1]) + rows[|rows| - 1].principal
  }

  function SumInterest(rows: seq<MonthlyPayment>): real
  {
    if rows == [] then 0.0 else SumInterest(rows[..|rows| - 1]) + rows[|rows| - 1].interest
  }

  /** The principal column adds up to what the balance fell by. */
  lemma {:induction false} SchedulePrincipalSum(p: real, r: real, emi: real, n: nat)
    ensures SumPrincipal(Schedule(p, r, emi, n)) == p - Balance(p, r, emi, n)
  {
    if n > 0 {
      var s, t := Schedule(p, r, emi, n), Schedule(p, r, emi, n - 1);
      var w := Row(p, r, emi, n - 1);
      SchedulePrincipalSum(p, r, emi, n - 1);
      assert s == t + [w];
      assert s[..|s| - 1] == t;
      assert SumPrincipal(s) == SumPrincipal(t) + w.principal;
      assert Balance(p, r, emi, n) == Balance(p, r, emi, n - 1) - w.principal;
    }
  }

  /** The interest column adds up to the installments paid less what went to principal. */
  lemma {:induction false} ScheduleInterestSum(p: real, r: real, emi: real, n: nat)
    ensures SumInterest(Schedule(p, r, emi, n)) == emi * n as real - SumPrincipal(Schedule(p, r, emi, n))
  {
    if n > 0 {
      var s, t := Schedule(p, r, emi, n), Schedule(p, r, emi, n - 1);
      var w := Row(p, r, emi, n - 1);
      ScheduleInterestSum(p, r, emi, n - 1);
      assert s == t + [w];
      assert s[..|s| - 1] == t;
      assert SumInterest(s) == SumInterest(t) + w.interest;
      assert SumPrincipal(s) == SumPrincipal(t) + w.principal;
      assert w.principal + w.interest == emi;
      assert emi * n as real == emi * (n - 1) as real + emi;
    }
  }

  /** A calculation over a positive monthly rate and a whole number of months. */
  function Calculation(p: real, r: real, n: nat): EmiResult
    requires r > 0.0 && n >= 1
  {
    var emi := Installment(p, r, n);
    EmiResult(emi, emi * n as real, emi * n as real - p, Schedule(p, r, emi, n))
  }

  /** The body of `calculateEMI` past its guard: the installment, the totals and the
      schedule built by the loop. */
  method Calculate(p: real, r: real, n: nat) returns (e: EmiResult)
    requires r > 0.0 && n >= 1
    ensures e == Calculation(p, r, n)
  {
    var emi := Installment(p, r, n);
    var totalAmount := emi * n as real;
    var totalInterest := totalAmount - p;
    var monthlyBreakdown := BuildSchedule(p, r, emi, n);
    e := EmiResult(emi, totalAmount, totalInterest, monthlyBreakdown);
  }

  /** A number read with `parseFloat` that is usable as a loan input: present and positive. */
  function Positive(v: Option<real>): (r: Option<real>)
    ensures r.Some? <==> v.Some? && v.value > 0.0
    ensures r.Some? ==> r == v
  {
    if v.Some? && v.value > 0.0 then v else None
  }

  /** What `calculateEMI` computes from the page's inputs, or `None` when it returns early:
      an amount, rate or tenure that is not a number or not positive, or (beyond the
      model's whole months) a tenure that is not a whole number of months. */
  function Outcome(principal: string, interestRate: string, tenure: string, unit: TenureUnit): (o: Option<EmiResult>)
    ensures Positive(ParseFloat(principal)).None? ==> o.None?
    ensures Positive(ParseFloat(interestRate)).None? ==> o.None?
    ensures Positive(ParseFloat(tenure)).None? ==> o.None?
  {
    var p, a, t := Positive(ParseFloat(principal)), Positive(ParseFloat(interestRate)), Positive(ParseFloat(tenure));
    if p.None? || a.None? || t.None? then None
    else
      var n := Periods(t.value, unit);
      if n != n.Floor as real then None
      else Some(Calculation(p.value, MonthlyRate(a.value), n.Floor))
  }

  /** A calculation over a positive rate and at least one month: the installment is
      positive, the totals are the installments paid and what they pay above the loan,
      there is one reducing-balance row per month, the principal column repays the loan,
      the interest column is the total interest and the last row shows a zero balance. */
  lemma CalculationProperties(p: real, r: real, n: nat)
    requires p > 0.0 && r > 0.0 && n >= 1
    ensures var e := Calculation(p, r, n);
      e.emi > 0.0 &&
      e.totalAmount == e.emi * n as real && e.totalInterest == e.totalAmount - p &&
      |e.monthlyBreakdown| == n &&
      (forall i | 0 <= i < n :: ReducingBalanceRow(e.monthlyBreakdown[i], p, r, e.emi, i)) &&
      SumPrincipal(e.monthlyBreakdown) == p &&
      SumInterest(e.monthlyBreakdown) == e.totalInterest &&
      e.monthlyBreakdown[n - 1].balance == 0.0
  {
    var emi := Installment(p, r, n);
    assert Calculation(p, r, n) == EmiResult(emi, emi * n as real, emi * n as real - p, Schedule(p, r, emi, n));
    AnnuityClearsBalance(p, r, n);
    PaidOffSchedule(p, r, emi, n);
  }

  /** A schedule whose running balance ends at zero: one reducing-balance row per month,
      the principal column sums to the loan, the interest column to the installments
      paid above it, and the last row shows a zero balance. */
  lemma PaidOffSchedule(p: real, r: real, emi: real, n: nat)
    requires n >= 1 && Balance(p, r, emi, n) == 0.0
    ensures var s := Schedule(p, r, emi, n);
      |s| == n &&
      (forall i | 0 <= i < n :: ReducingBalanceRow(s[i], p, r, emi, i)) &&
      SumPrincipal(s) == p &&
      SumInterest(s) == emi * n as real - p &&
      s[n - 1].balance == 0.0
  {
    ScheduleRows(p, r, emi, n);
    SchedulePrincipalSum(p, r, emi, n);
    ScheduleInterestSum(p, r, emi, n);
  }

  /** Past the guard and with whole months, `Outcome` is the calculation over the
      numbers read. */
  lemma OutcomeOf(principal: string, interestRate: string, tenure: string, unit: TenureUnit)
    requires var p, a, t := ParseFloat(principal), ParseFloat(interestRate), ParseFloat(tenure);
      p.Some? && a.Some? && t.Some? && p.value > 0.0 && a.value > 0.0 && t.value > 0.0 &&
      Periods(t.value, unit) == Periods(t.value, unit).Floor as real
    ensures var p, a, t := ParseFloat(principal), ParseFloat(interestRate), ParseFloat(tenure);
      var n := Periods(t.value, unit);
      n.Floor >= 1 &&
      Outcome(principal, interestRate, tenure, unit) == Some(Calculation(p.value, MonthlyRate(a.value), n.Floor))
  {
  }

  /** Whole numbers typed as numerals: the amount, the annual rate and the tenure are
      read as those numbers, and the calculation runs on them with `N` months. */
  lemma OutcomeOfNumerals(p: nat, a: nat, t: nat, unit: TenureUnit)
    requires p >= 1 && a >= 1 && t >= 1
    ensures var n := if unit == Years then 12 * t else t;
      n >= 1 &&
      Outcome(Numeral(p), Numeral(a), Numeral(t), unit) == Some(Calculation(p as real, MonthlyRate(a as real), n))
  {
    ParseFloatOfNumeral(p);
    ParseFloatOfNumeral(a);
    ParseFloatOfNumeral(t);
    var n: nat := if unit == Years then 12 * t else t;
    assert Periods(t as real, unit) == n as real;
    assert (n as real).Floor == n;
    OutcomeOf(Numeral(p), Numeral(a), Numeral(t), unit);
  }

  /** A calculation goes through only on a positive amount, rate and tenure, and then
      its month count is `N` and it has the properties of `CalculationProperties`. */
  lemma OutcomeProperties(principal: string, interestRate: string, tenure: string, unit: TenureUnit)
    requires Outcome(principal, interestRate, tenure, unit).Some?
    ensures var p, a, t := ParseFloat(principal), ParseFloat(interestRate), ParseFloat(tenure);
      p.Some? && a.Some? && t.Some? && p.value > 0.0 && a.value > 0.0 && t.value > 0.0 &&
      var n := Periods(t.value, unit);
      n == n.Floor as real && n >= 1.0 &&
      Outcome(principal, interestRate, tenure, unit).value == Calculation(p.value, MonthlyRate(a.value), n.Floor)
  {
  }

  /** The page's state. */
  class EmiCalculator {
    var principal: string
    var interestRate: string
    var tenure: string
    var tenureType: TenureUnit
    var result: Option<EmiResult>
    var showBreakdown: bool

    /** Empty inputs, years as the unit, nothing calculated, the breakdown hidden. */
    constructor ()
      ensures principal == "" && interestRate == "" && tenure == ""
      ensures tenureType == Years && result == None && !showBreakdown
    {
      principal, interestRate, tenure := "", "", "";
      tenureType := Years;
      result := None;
      showBreakdown := false;
    }

    /** `calculateEMI`: on inputs that pass the guard, the result becomes
        the calculation; otherwise nothing changes. The inputs are never touched. */
    method CalculateEMI()
      modifies this
      ensures principal == old(principal) && interestRate == old(interestRate) && tenure == old(tenure)
      ensures tenureType == old(tenureType) && showBreakdown == old(showBreakdown)
      ensures var o := Outcome(principal, interestRate, tenure, tenureType);
        result == if o.Some? then o else old(result)
    {
      var p := ParseFloat(principal);
      var annualRate := ParseFloat(interestRate);
      var tenureValue := ParseFloat(tenure);
      if p.None? || annualRate.None? || tenureValue.None? ||
         p.value <= 0.0 || annualRate.value <= 0.0 || tenureValue.value <= 0.0 {
        assert Positive(p).None? || Positive(annualRate).None? || Positive(tenureValue).None?;
        return;
      }
      var n := Periods(tenureValue.value, tenureType);
      if n != n.Floor as real {
        return;
      }
      OutcomeOf(principal, interestRate, tenure, tenureType);
      var months: nat := n.Floor;
      var r := MonthlyRate(annualRate.value);
      var calculated := Calculate(p.value, r, months);
      result := Some(calculated);
    }

    /** `handleReset`: the three inputs emptied, the result cleared and the breakdown
        hidden; the tenure unit stays as it was. */
    method HandleReset()
      modifies this
      ensures principal == "" && interestRate == "" && tenure == ""
      ensures result == None && !showBreakdown
      ensures tenureType == old(tenureType)
    {
      principal, interestRate, tenure := "", "", "";
      result := None;
      showBreakdown := false;
    }
  }

  /** After a reset, calculating finds nothing to work on and the result stays cleared. */
  lemma ResetInputsRefused(unit: TenureUnit)
    ensures Outcome("", "", "", unit) == None
  {
    assert TrimStart("") == [];
  }
}
