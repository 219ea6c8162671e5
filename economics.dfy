/** The value sent with a rent transaction and the checks made before it is sent. Both
    pages that rent (the catalogue and the single-book view) use this module: they
    declare the same two constants and the same formula. */
module Economics {
  import opened Wrappers
  import opened JsValues

  /** Mirrors of the contract's constants. */
  const MAX_PENALTY_DAYS: nat := 5
  const PENALTY_PER_DAY_WEI: nat := 100000000000000

  /** The payable value of `rentBook`: rent for the requested days plus a reserve for
      the longest penalty, in exact (bigint) wei. */
  function Deposit(days: int, dailyRentWei: int): (value: int)
    ensures days >= 0 && dailyRentWei >= 0 ==> value >= 500000000000000
    ensures days >= 1 && dailyRentWei >= 0 ==> value >= dailyRentWei + 500000000000000
    ensures dailyRentWei == 0 ==> value == 500000000000000
  {
    days * dailyRentWei + MAX_PENALTY_DAYS * PENALTY_PER_DAY_WEI
  }

  /** The deposit is exact: no rounding, and it always covers the rent plus the
      500000000000000 wei (5 x 1e14) penalty reserve. */
  lemma DepositExact(days: int, dailyRentWei: int)
    requires days >= 1 && dailyRentWei >= 0
    ensures Deposit(days, dailyRentWei) == days * dailyRentWei + 500000000000000
    ensures Deposit(days, dailyRentWei) >= dailyRentWei + 500000000000000
  {
  }

  /** One more day costs exactly one more day's rent. */
  lemma DepositStep(days: int, dailyRentWei: int)
    ensures Deposit(days + 1, dailyRentWei) == Deposit(days, dailyRentWei) + dailyRentWei
  {
  }

  /** A longer rental never needs a smaller deposit. */
  lemma DepositMonotone(d1: nat, d2: nat, dailyRentWei: nat)
    requires d1 <= d2
    ensures Deposit(d1, dailyRentWei) <= Deposit(d2, dailyRentWei)
  {
  }

  /** Three days at 1e15 wei a day: 3.5e15 wei. */
  lemma DepositScenario()
    ensures Deposit(3, 1000000000000000) == 3500000000000000
  {
  }

  /** `!days || days < 1`: a cancelled prompt (`Number(null)` is 0), an empty or
      non-numeric answer (0 or NaN) and anything below one day stop the rent before any
      contract call. */
  function RejectsDays(days: JsNumber): (rejected: bool)
    ensures !rejected <==> days == PosInfinity || (days.Finite? && days.r >= 1.0)
  {
    match days
    case NaN => true
    case PosInfinity => false
    case NegInfinity => true
    case Finite(r) => r == 0.0 || r < 1.0
  }

  /** `BigInt(n)` of a number: a RangeError (None) unless n is a finite integer. */
  function BigIntOfNumber(n: JsNumber): (r: Option<int>)
    ensures r.Some? <==> n.Finite? && n.r == n.r.Floor as real
    ensures r.Some? ==> r.value as real == n.r
  {
    match n
    case Finite(x) => if x == x.Floor as real then Some(x.Floor) else None
    case _ => None
  }

  /** `BigInt(v)` of a contract field: a bigint is itself, a boolean is 0 or 1, the empty
      string is 0, a string of digits is its value; null and undefined throw. */
  function BigIntOfValue(v: JsValue): (r: Option<int>)
    ensures v.BigInt? ==> r == Some(v.i)
    ensures v.Undefined? || v.Null? ==> r.None?
  {
    match v
    case BigInt(i) => Some(i)
    case Bool(b) => Some(if b then 1 else 0)
    case Str(s) => if s == "" then Some(0) else if AllDigits(s) then Some(DecimalValue(s)) else None
    case _ => None
  }

  /** What the rent handler does with the requested days and the book's daily rent:
      give up silently, throw while converting (reported as a failed rent, nothing
      sent), or send `value` for a whole number of days. */
  datatype RentPlan = Abandoned | ConversionFailed | Send(days: nat, value: int)

  function PlanRent(days: JsNumber, dailyRentWei: JsValue): (p: RentPlan)
    ensures p.Abandoned? <==> RejectsDays(days)
    ensures p.Send? <==> !RejectsDays(days) && BigIntOfNumber(days).Some? && BigIntOfValue(dailyRentWei).Some?
    ensures p.Send? ==> p.days >= 1 && days == Finite(p.days as real)
    ensures p.Send? ==> p.value == Deposit(p.days, BigIntOfValue(dailyRentWei).value)
  {
    if RejectsDays(days) then Abandoned
    else
      match BigIntOfNumber(days)
      case None => ConversionFailed
      case Some(d) =>
        match BigIntOfValue(dailyRentWei)
        case None => ConversionFailed
        case Some(rent) => Send(d, Deposit(d, rent))
  }

  /** A whole number of days of at least one, on a book whose rent is a bigint, is sent
      with the exact deposit. */
  lemma WholeDaysAreSent(days: nat, dailyRentWei: nat)
    requires days >= 1
    ensures PlanRent(Finite(days as real), BigInt(dailyRentWei))
            == Send(days, days * dailyRentWei + 500000000000000)
  {
  }

  /** A fractional day count passes the guard but `BigInt(days)` throws, so nothing is
      sent; so does an infinite one. */
  lemma NonIntegralDaysFail(r: real, dailyRentWei: JsValue)
    requires r >= 1.0 && r != r.Floor as real
    ensures !RejectsDays(Finite(r)) && PlanRent(Finite(r), dailyRentWei) == ConversionFailed
    ensures !RejectsDays(PosInfinity) && PlanRent(PosInfinity, dailyRentWei) == ConversionFailed
  {
  }

  /** Cancelling the prompt, a non-number, and a count below one never reach the contract. */
  lemma BelowOneDayIsAbandoned(r: real, dailyRentWei: JsValue)
    requires r < 1.0
    ensures PlanRent(Finite(r), dailyRentWei) == Abandoned
    ensures PlanRent(NaN, dailyRentWei) == Abandoned
    ensures PlanRent(NegInfinity, dailyRentWei) == Abandoned
  {
  }

  /** The outcome of a rent attempt as the user sees it. `RentFailed(attempted)` says
      whether the send call was reached: a conversion failure comes before it, while a
      refused signature or a call the library rejects before sending come after. */
  datatype RentOutcome = NotSubmitted | AlreadyRented | RentFailed(attempted: bool) | Rented(days: nat, value: int)

  /** Send the planned transaction; `accepted` is the wallet's and the ledger's answer. */
  function Submit(p: RentPlan, accepted: bool): (o: RentOutcome)
    ensures o.Rented? <==> p.Send? && accepted
    ensures o.Rented? ==> o.days == p.days && o.value == p.value
    ensures o.NotSubmitted? <==> p.Abandoned?
    ensures o.RentFailed? ==> (o.attempted <==> p.Send?)
    ensures !o.AlreadyRented?
  {
    match p
    case Abandoned => NotSubmitted
    case ConversionFailed => RentFailed(false)
    case Send(d, v) => if accepted then Rented(d, v) else RentFailed(true)
  }
}
