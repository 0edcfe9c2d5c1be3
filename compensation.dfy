/**
 * The compensation model of one person (a_model/person.py). A Person reads a handful of
 * company-wide figures from its Datascope and two sections of the configuration file, and
 * derives from them its ownership, its take-home-pay target and its share of the profits.
 * Every derivation is a pure function; the ones that can raise return a Result.
 */
module Compensation {
  import opened Wrappers

  /** What ConfigParser.getfloat finds for one option of a section. */
  datatype Entry =
    | Missing          // the option is absent: NoOptionError
    | Invalid          // the option is present but not a number: ValueError
    | Value(v: real)   // the option parses as the number v

  /** A configuration section, keyed by option name; an absent key reads as Missing. */
  type Section = map<string, Entry>

  /** The two sections the model reads. */
  datatype Config = Config(ownership: Section, takeHomePay: Section)

  /** The company-wide figures a Person reads from its Datascope. */
  datatype Datascope = Datascope(
    config: Config,
    afterTaxSalary: real,              // monthly after-tax base salary
    nMonthsAfterTaxBonus: real,        // months of after-tax bonus expected per year
    fractionProfitForDividends: real,  // share of the profit paid out as dividends
    nPeople: int,                      // size of the roster
    taxRate: real,                     // tax rate applied to bonuses
    afterTaxTargetProfit: real)        // the value of after_tax_target_profit()

  datatype Person = Person(datascope: Datascope, name: string)

  function Lookup(section: Section, name: string): Entry {
    if name in section then section[name] else Missing
  }

  /** `ownership`: only NoOptionError is caught, so a malformed entry raises. */
  function Ownership(p: Person): Result<real> {
    match Lookup(p.datascope.config.ownership, p.name)
    case Missing => Ok(0.0)
    case Invalid => Err(ValueError)
    case Value(v) => Ok(v)
  }

  /** `is_partner` */
  function IsPartner(p: Person): Result<bool> {
    match Ownership(p)
    case Ok(o) => Ok(o > 0.0)
    case Err(e) => Err(e)
  }

  /** The take-home pay estimated from the base salary and the bonus months. */
  function DefaultTargetSalary(ds: Datascope): real {
    ds.afterTaxSalary * (1.0 + ds.nMonthsAfterTaxBonus / 12.0)
  }

  /** `after_tax_target_salary`: both NoOptionError and ValueError fall back to the default. */
  function AfterTaxTargetSalary(p: Person): real {
    match Lookup(p.datascope.config.takeHomePay, p.name)
    case Value(v) => v
    case _ => DefaultTargetSalary(p.datascope)
  }

  /** `is_active` */
  predicate IsActive(p: Person) {
    AfterTaxTargetSalary(p) > 0.0
  }

  /** `fraction_dividends` */
  function FractionDividends(p: Person): Result<real> {
    match Ownership(p)
    case Ok(o) => Ok(p.datascope.fractionProfitForDividends * o)
    case Err(e) => Err(e)
  }

  /** `fraction_bonus`: a float division by the head count. */
  function FractionBonus(p: Person): Result<real> {
    var ds := p.datascope;
    if ds.nPeople == 0 then Err(ZeroDivisionError)
    else Ok((1.0 - ds.fractionProfitForDividends) / ds.nPeople as real)
  }

  /** `net_fraction_of_profits`: the dividend fraction is evaluated first. */
  function NetFractionOfProfits(p: Person): Result<real> {
    match FractionDividends(p)
    case Err(e) => Err(e)
    case Ok(d) =>
      match FractionBonus(p)
      case Err(e) => Err(e)
      case Ok(b) => Ok(d + b)
  }

  /** `after_tax_target_salary_from_bonus_dividends` */
  function AfterTaxTargetSalaryFromBonusDividends(p: Person): real {
    AfterTaxTargetSalary(p) - p.datascope.afterTaxSalary
  }

  /** `after_tax_salary_from_bonus` */
  function AfterTaxSalaryFromBonus(p: Person): Result<real> {
    match FractionBonus(p)
    case Ok(b) => Ok(b * p.datascope.afterTaxTargetProfit)
    case Err(e) => Err(e)
  }

  /** `after_tax_salary_from_dividends` */
  function AfterTaxSalaryFromDividends(p: Person): Result<real> {
    match FractionDividends(p)
    case Ok(d) => Ok(d * p.datascope.afterTaxTargetProfit)
    case Err(e) => Err(e)
  }

  /** `after_tax_salary`: the bonus part is evaluated first. */
  function AfterTaxSalary(p: Person): Result<real> {
    match AfterTaxSalaryFromBonus(p)
    case Err(e) => Err(e)
    case Ok(b) =>
      match AfterTaxSalaryFromDividends(p)
      case Err(e) => Err(e)
      case Ok(d) => Ok(b + d + p.datascope.afterTaxSalary)
  }

  /** `before_tax_target_bonus_dividends`: only the bonus is grossed up for tax. */
  function BeforeTaxTargetBonusDividends(p: Person): Result<real> {
    match AfterTaxSalaryFromBonus(p)
    case Err(e) => Err(e)
    case Ok(b) =>
      if p.datascope.taxRate == 1.0 then Err(ZeroDivisionError)
      else
        match AfterTaxSalaryFromDividends(p)
        case Err(e) => Err(e)
        case Ok(d) => Ok(b / (1.0 - p.datascope.taxRate) + d)
  }

  // ---------------------------------------------------------------------------------------
  // Properties of one person

  /** A missing ownership entry reads as 0, a number as itself, anything else raises. */
  lemma OwnershipCases(p: Person)
    ensures Lookup(p.datascope.config.ownership, p.name) == Missing ==>
              Ownership(p) == Ok(0.0) && IsPartner(p) == Ok(false) && FractionDividends(p) == Ok(0.0)
    ensures forall v :: Lookup(p.datascope.config.ownership, p.name) == Value(v) ==> Ownership(p) == Ok(v)
    ensures Lookup(p.datascope.config.ownership, p.name) == Invalid <==> Ownership(p) == Err(ValueError)
    ensures Ownership(p).Err? ==> IsPartner(p) == Err(ValueError) && FractionDividends(p) == Err(ValueError)
  {
  }

  /** A person is a partner exactly when their ownership is positive. */
  lemma PartnerIffPositiveOwnership(p: Person)
    ensures IsPartner(p) == Ok(true) <==> Ownership(p).Ok? && Ownership(p).value > 0.0
    ensures IsPartner(p).Ok? <==> Ownership(p).Ok?
  {
  }

  /** The configured take-home pay wins when it is a number; otherwise the default applies. */
  lemma TargetSalaryCases(p: Person)
    ensures forall v :: Lookup(p.datascope.config.takeHomePay, p.name) == Value(v) ==> AfterTaxTargetSalary(p) == v
    ensures !Lookup(p.datascope.config.takeHomePay, p.name).Value? ==>
              AfterTaxTargetSalary(p) ==
              p.datascope.afterTaxSalary * (1.0 + p.datascope.nMonthsAfterTaxBonus / 12.0)
  {
  }

  /**
   * An explicit take-home pay at or below zero makes a person inactive, whatever the default
   * would have been; without one, activity is decided by the default.
   */
  lemma ActivityFollowsTarget(p: Person)
    ensures forall v :: Lookup(p.datascope.config.takeHomePay, p.name) == Value(v) ==> (IsActive(p) <==> v > 0.0)
    ensures !Lookup(p.datascope.config.takeHomePay, p.name).Value? ==>
              (IsActive(p) <==> DefaultTargetSalary(p.datascope) > 0.0)
  {
  }

  /** The net fraction is the dividend fraction plus the bonus fraction, and fails when either does. */
  lemma NetFractionIsSum(p: Person)
    ensures NetFractionOfProfits(p).Ok? <==> FractionDividends(p).Ok? && FractionBonus(p).Ok?
    ensures NetFractionOfProfits(p).Ok? ==>
              NetFractionOfProfits(p).value == FractionDividends(p).value + FractionBonus(p).value
    ensures FractionDividends(p).Err? ==> NetFractionOfProfits(p) == FractionDividends(p)
  {
  }

  /** The bonus fraction depends on the company only, and needs a non-zero head count. */
  lemma FractionBonusIsPerHead(p: Person, q: Person)
    requires p.datascope == q.datascope
    ensures FractionBonus(p) == FractionBonus(q)
    ensures FractionBonus(p).Ok? <==> p.datascope.nPeople != 0
    ensures FractionBonus(p).Ok? ==>
              FractionBonus(p).value * p.datascope.nPeople as real == 1.0 - p.datascope.fractionProfitForDividends
  {
  }

  /**
   * The after-tax salary is the base salary plus the net profit fraction of the target
   * profit. It fails exactly when the net fraction fails, though not always with the same
   * exception: with both a malformed ownership and no people, the bonus is evaluated first
   * here and the dividends first in the net fraction.
   */
  lemma AfterTaxSalaryDecomposition(p: Person)
    ensures AfterTaxSalary(p).Ok? <==> NetFractionOfProfits(p).Ok?
    ensures AfterTaxSalary(p).Ok? ==>
              AfterTaxSalary(p).value ==
              p.datascope.afterTaxSalary + NetFractionOfProfits(p).value * p.datascope.afterTaxTargetProfit
    ensures p.datascope.nPeople == 0 ==> AfterTaxSalary(p) == Err(ZeroDivisionError)
    ensures p.datascope.nPeople == 0 && Ownership(p).Err? ==> NetFractionOfProfits(p) == Err(ValueError)
  {
    if NetFractionOfProfits(p).Ok? {
      var d, b := FractionDividends(p).value, FractionBonus(p).value;
      var t := p.datascope.afterTaxTargetProfit;
      assert b * t + d * t == (d + b) * t;
    }
  }

  /** The part of the target paid through bonus and dividends is the target minus the base. */
  lemma TargetFromBonusDividends(p: Person)
    ensures AfterTaxTargetSalaryFromBonusDividends(p) + p.datascope.afterTaxSalary == AfterTaxTargetSalary(p)
    ensures !Lookup(p.datascope.config.takeHomePay, p.name).Value? ==>
              AfterTaxTargetSalaryFromBonusDividends(p) ==
              p.datascope.afterTaxSalary * p.datascope.nMonthsAfterTaxBonus / 12.0
  {
  }

  /** Grossing up: bonus / (1 - tax rate) + dividends; a tax rate of 1 divides by zero. */
  lemma BeforeTaxGrossUp(p: Person)
    requires AfterTaxSalaryFromBonus(p).Ok? && AfterTaxSalaryFromDividends(p).Ok?
    ensures BeforeTaxTargetBonusDividends(p).Err? <==> p.datascope.taxRate == 1.0
    ensures BeforeTaxTargetBonusDividends(p).Err? ==> BeforeTaxTargetBonusDividends(p).error == ZeroDivisionError
    ensures p.datascope.taxRate != 1.0 ==>
              BeforeTaxTargetBonusDividends(p).value ==
              AfterTaxSalaryFromBonus(p).value / (1.0 - p.datascope.taxRate) + AfterTaxSalaryFromDividends(p).value
  {
  }

  /**
   * For a tax rate in [0, 1) and a non-negative bonus, the before-tax figure is at least the
   * after-tax bonus plus dividends, with equality exactly when the tax rate or the bonus is 0.
   */
  lemma BeforeTaxAtLeastAfterTax(p: Person)
    requires AfterTaxSalaryFromBonus(p).Ok? && AfterTaxSalaryFromDividends(p).Ok?
    requires 0.0 <= p.datascope.taxRate < 1.0
    requires AfterTaxSalaryFromBonus(p).value >= 0.0
    ensures BeforeTaxTargetBonusDividends(p).Ok?
    ensures BeforeTaxTargetBonusDividends(p).value >=
            AfterTaxSalaryFromBonus(p).value + AfterTaxSalaryFromDividends(p).value
    ensures BeforeTaxTargetBonusDividends(p).value ==
            AfterTaxSalaryFromBonus(p).value + AfterTaxSalaryFromDividends(p).value
            <==> p.datascope.taxRate == 0.0 || AfterTaxSalaryFromBonus(p).value == 0.0
  {
    var b, t := AfterTaxSalaryFromBonus(p).value, p.datascope.taxRate;
    var g := b / (1.0 - t);
    assert g * (1.0 - t) == b;
    assert g - b == g * t;
    if b > 0.0 && t > 0.0 {
      assert g > 0.0;
      assert g * t > 0.0;
    }
  }

  /** With a positive after-tax bonus, a higher tax rate below 1 gives a higher before-tax figure. */
  lemma BeforeTaxIncreasesWithTaxRate(p: Person, t: real)
    requires AfterTaxSalaryFromBonus(p).Ok? && AfterTaxSalaryFromDividends(p).Ok?
    requires AfterTaxSalaryFromBonus(p).value > 0.0
    requires p.datascope.taxRate < t < 1.0
    ensures var q := p.(datascope := p.datascope.(taxRate := t));
            BeforeTaxTargetBonusDividends(p).Ok? && BeforeTaxTargetBonusDividends(q).Ok? &&
            BeforeTaxTargetBonusDividends(p).value < BeforeTaxTargetBonusDividends(q).value
  {
    var q := p.(datascope := p.datascope.(taxRate := t));
    var b := AfterTaxSalaryFromBonus(p).value;
    var u := p.datascope.taxRate;
    assert Ownership(q) == Ownership(p) && FractionBonus(q) == FractionBonus(p);
    assert AfterTaxSalaryFromBonus(q).Ok? && AfterTaxSalaryFromBonus(q).value == b;
    assert AfterTaxSalaryFromDividends(q).Ok?;
    assert AfterTaxSalaryFromDividends(q).value == AfterTaxSalaryFromDividends(p).value;
    var gp, gq := b / (1.0 - u), b / (1.0 - t);
    assert gp * (1.0 - u) == b && gq * (1.0 - t) == b;
    assert gq * (1.0 - u) > b by {
      assert gq * (1.0 - u) == gq * (1.0 - t) + gq * (t - u);
      assert gq > 0.0;
      assert gq * (t - u) > 0.0;
    }
    assert gp < gq by {
      assert (gq - gp) * (1.0 - u) > 0.0;
    }
  }

  /**
   * A worked example: base salary 5000, one bonus month, 40% of profit
   * for dividends, five people, 10% ownership, tax rate 0.3, target profit 20000. The
   * dividends are 800 and the bonus 2400; the after-tax salary adds them to the base salary
   * (8200), not to the take-home-pay target.
   */
  lemma WorkedExample()
    ensures var ds := Datascope(Config(map["ada" := Value(0.1)], map[]), 5000.0, 1.0, 0.4, 5, 0.3, 20000.0);
            var p := Person(ds, "ada");
            && FractionDividends(p) == Ok(0.04)
            && FractionBonus(p) == Ok(0.12)
            && AfterTaxSalaryFromDividends(p) == Ok(800.0)
            && AfterTaxSalaryFromBonus(p) == Ok(2400.0)
            && AfterTaxSalary(p) == Ok(8200.0)
            && AfterTaxTargetSalary(p) == 5000.0 * 13.0 / 12.0
            && IsActive(p) && IsPartner(p) == Ok(true)
            && BeforeTaxTargetBonusDividends(p) == Ok(29600.0 / 7.0)
  {
  }

  // ---------------------------------------------------------------------------------------
  // Properties of a roster of people who share one Datascope

  predicate SharesDatascope(roster: seq<Person>, ds: Datascope) {
    forall i :: 0 <= i < |roster| ==> roster[i].datascope == ds
  }

  predicate OwnershipsDefined(roster: seq<Person>) {
    forall i :: 0 <= i < |roster| ==> Ownership(roster[i]).Ok?
  }

  ghost function TotalOwnership(roster: seq<Person>): real
    requires OwnershipsDefined(roster)
  {
    if roster == [] then 0.0 else Ownership(roster[0]).value + TotalOwnership(roster[1..])
  }

  ghost function TotalBonusFraction(roster: seq<Person>): real
    requires forall i :: 0 <= i < |roster| ==> FractionBonus(roster[i]).Ok?
  {
    if roster == [] then 0.0 else FractionBonus(roster[0]).value + TotalBonusFraction(roster[1..])
  }

  ghost function TotalNetFraction(roster: seq<Person>): real
    requires forall i :: 0 <= i < |roster| ==> NetFractionOfProfits(roster[i]).Ok?
  {
    if roster == [] then 0.0 else NetFractionOfProfits(roster[0]).value + TotalNetFraction(roster[1..])
  }

  /** The bonus fractions of k people sharing a Datascope add up to k per-head shares. */
  lemma {:induction false} TotalBonusFractionIsShares(roster: seq<Person>, ds: Datascope)
    requires SharesDatascope(roster, ds) && ds.nPeople != 0
    ensures forall i :: 0 <= i < |roster| ==> FractionBonus(roster[i]).Ok?
    ensures TotalBonusFraction(roster) ==
            |roster| as real * ((1.0 - ds.fractionProfitForDividends) / ds.nPeople as real)
  {
    if roster != [] {
      TotalBonusFractionIsShares(roster[1..], ds);
      var share := (1.0 - ds.fractionProfitForDividends) / ds.nPeople as real;
      assert (|roster| - 1) as real * share + share == |roster| as real * share;
    }
  }

  /** Over a roster of exactly nPeople people the bonus fractions add up to the bonus pool. */
  lemma BonusPoolIsDistributed(roster: seq<Person>, ds: Datascope)
    requires SharesDatascope(roster, ds) && ds.nPeople != 0 && |roster| == ds.nPeople
    ensures forall i :: 0 <= i < |roster| ==> FractionBonus(roster[i]).Ok?
    ensures TotalBonusFraction(roster) == 1.0 - ds.fractionProfitForDividends
  {
    TotalBonusFractionIsShares(roster, ds);
  }

  /**
   * The net fractions of a roster add up to the dividend fraction times the total ownership
   * plus the roster's bonus fractions. Nothing in the model keeps this at or below 1.
   */
  lemma {:induction false} TotalNetFractionSplit(roster: seq<Person>, ds: Datascope)
    requires SharesDatascope(roster, ds) && ds.nPeople != 0 && OwnershipsDefined(roster)
    ensures forall i :: 0 <= i < |roster| ==> NetFractionOfProfits(roster[i]).Ok? && FractionBonus(roster[i]).Ok?
    ensures TotalNetFraction(roster) ==
            ds.fractionProfitForDividends * TotalOwnership(roster) + TotalBonusFraction(roster)
  {
    NetFractionsDefined(roster, ds);
    if roster != [] {
      var rest := roster[1..];
      TotalNetFractionSplit(rest, ds);
      var f := ds.fractionProfitForDividends;
      assert roster[0].datascope == ds;
      var o := Ownership(roster[0]).value;
      NetFractionOfMember(roster[0]);
      assert TotalNetFraction(roster) == FractionDividends(roster[0]).value + FractionBonus(roster[0]).value
                                         + TotalNetFraction(rest);
      assert TotalBonusFraction(roster) == FractionBonus(roster[0]).value + TotalBonusFraction(rest);
      assert TotalOwnership(roster) == o + TotalOwnership(rest);
      Distribute(f, o, TotalOwnership(rest), TotalOwnership(roster));
    }
  }

  /** Everyone with a defined ownership and a non-zero head count has a net fraction. */
  lemma NetFractionsDefined(roster: seq<Person>, ds: Datascope)
    requires SharesDatascope(roster, ds) && ds.nPeople != 0 && OwnershipsDefined(roster)
    ensures forall i :: 0 <= i < |roster| ==> NetFractionOfProfits(roster[i]).Ok? && FractionBonus(roster[i]).Ok?
  {
    forall i | 0 <= i < |roster|
      ensures NetFractionOfProfits(roster[i]).Ok? && FractionBonus(roster[i]).Ok?
    {
      NetFractionOfMember(roster[i]);
    }
  }

  /** The net fraction of one person with a defined ownership: dividends on the ownership plus the bonus. */
  lemma NetFractionOfMember(p: Person)
    requires Ownership(p).Ok? && p.datascope.nPeople != 0
    ensures FractionDividends(p).Ok? && FractionBonus(p).Ok? && NetFractionOfProfits(p).Ok?
    ensures FractionDividends(p).value == p.datascope.fractionProfitForDividends * Ownership(p).value
    ensures NetFractionOfProfits(p).value == FractionDividends(p).value + FractionBonus(p).value
  {
  }

  /** Multiplication distributes over the ownership of the first person and the rest. */
  lemma Distribute(f: real, o: real, t: real, total: real)
    requires total == o + t
    ensures f * o + f * t == f * total
  {
  }

  /** When the ownerships add up to 1 over a full roster, the profit is exactly distributed. */
  lemma ProfitIsConservedForFullOwnership(roster: seq<Person>, ds: Datascope)
    requires SharesDatascope(roster, ds) && ds.nPeople != 0 && |roster| == ds.nPeople
    requires OwnershipsDefined(roster) && TotalOwnership(roster) == 1.0
    ensures forall i :: 0 <= i < |roster| ==> NetFractionOfProfits(roster[i]).Ok?
    ensures TotalNetFraction(roster) == 1.0
  {
    TotalNetFractionSplit(roster, ds);
    BonusPoolIsDistributed(roster, ds);
  }
}
