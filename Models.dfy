/** The records of the reservation domain and the room pricing rule.

    Decimal fields are held as integers counting their smallest unit:
    a price with two decimal places is a number of cents, a discount
    percentage with two decimal places is a number of hundredths of a
    percent.  Dates only need their order, so a date is a day number. */
module Models {

  datatype Option<T> = None | Some(value: T)

  /** The outcome of evaluating Python code: a value, or the exception raised. */
  datatype Evaluation<T> = Value(value: T) | Raised(exception: string)

  /** A calendar date as a day number; only `<=` between dates is used. */
  type Date = int

  /** A price in cents (price_per_night has two decimal places). */
  type Cents = int

  /** A percentage in hundredths of a percent (two decimal places). */
  type Hundredths = int

  /** Exclusive magnitude bound of a DecimalField with max_digits = 6,
      counted in its smallest unit: at most 9999.99. */
  const PriceLimit: int := 1_000_000

  /** Exclusive magnitude bound of a DecimalField with max_digits = 5:
      at most 999.99 percent. */
  const PercentLimit: int := 100_000

  /** The value 100% in hundredths of a percent. */
  const FullDiscount: Hundredths := 10_000

  /** Multiplying cents by this gives millionths, the scale of a
      discounted price (cents times hundredths of a hundredth). */
  const MillionthsPerCent: int := 10_000

  /** A stored decimal fits its column: the digit count includes the
      decimal places. */
  predicate FitsDigits(units: int, limit: int) {
    -limit < units < limit
  }

  datatype Promotion = Promotion(
    id: nat,
    code: string,
    description: string,
    discountPercentage: Hundredths,
    startDate: Date,
    endDate: Date)
  {
    /** The promotion's date window, inclusive at both ends, holds `today`. */
    predicate ActiveOn(today: Date) {
      startDate <= today <= endDate
    }

    predicate WellFormed() {
      FitsDigits(discountPercentage, PercentLimit)
    }
  }

  datatype Room = Room(
    id: nat,
    roomNumber: string,
    roomType: string,
    description: string,
    pricePerNight: Cents,
    available: bool,
    /** The related promotion row, as loaded through the nullable foreign
        key: the pricing rule reads its fields, so the room carries the
        row itself, and the store invariant requires it to be one of the
        promotion table's rows.  A reservation's links are compared only by
        key, so it carries ids. */
    promotion: Option<Promotion>)
  {
    predicate WellFormed() {
      && FitsDigits(pricePerNight, PriceLimit)
      && (promotion.Some? ==> promotion.value.WellFormed())
    }
  }

  datatype Guest = Guest(
    id: nat,
    /** The one account this profile belongs to (a one-to-one link). */
    user: nat,
    firstName: string,
    lastName: string,
    email: string,
    phoneNumber: string,
    address: string)

  datatype Reservation = Reservation(
    id: nat,
    guest: nat,
    room: nat,
    checkInDate: Date,
    checkOutDate: Date,
    promotion: Option<nat>)

  /** Whether a room's promotion gives a discount on `today`. */
  predicate PromotionApplies(promotion: Option<Promotion>, today: Date) {
    promotion.Some? && promotion.value.ActiveOn(today)
  }

  // The exact decimal arithmetic of the source, over the reals.

  ghost function CentsValue(c: Cents): real {
    c as real / 100.0
  }

  ghost function PercentValue(h: Hundredths): real {
    h as real / 100.0
  }

  ghost function MillionthsValue(m: int): real {
    m as real / 1_000_000.0
  }

  /**`price - price * (pct / 100)`, the discount formula on exact decimals. */
  ghost function DecimalDiscount(price: real, pct: real): real {
    price - price * (pct / 100.0)
  }

  /** The integer computation on scaled values is the decimal formula. */
  lemma ScaledDiscountIsDecimal(p: Cents, d: Hundredths)
    ensures MillionthsValue(p * MillionthsPerCent - p * d)
            == DecimalDiscount(CentsValue(p), PercentValue(d))
  {
  }

  /** The effective nightly price of a room on `today`, in millionths.
      A promotion whose window holds `today` takes its percentage off;
      otherwise the base price is returned unchanged. */
  function DiscountedPrice(room: Room, today: Date): (r: int)
    ensures !PromotionApplies(room.promotion, today)
            ==> r == room.pricePerNight * MillionthsPerCent
    ensures PromotionApplies(room.promotion, today)
            ==> MillionthsValue(r) == DecimalDiscount(
                  CentsValue(room.pricePerNight),
                  PercentValue(room.promotion.value.discountPercentage))
  {
    if PromotionApplies(room.promotion, today) then
      var price := room.pricePerNight;
      var discount := price * room.promotion.value.discountPercentage;
      ScaledDiscountIsDecimal(price, room.promotion.value.discountPercentage);
      price * MillionthsPerCent - discount
    else
      room.pricePerNight * MillionthsPerCent
  }

  /** Without a promotion the date does not matter. */
  lemma NoPromotionPriceIsBase(room: Room, today: Date, other: Date)
    requires room.promotion.None?
    ensures DiscountedPrice(room, today) == DiscountedPrice(room, other)
            == room.pricePerNight * MillionthsPerCent
  {
  }

  /** The promotion's dates alone decide the price: outside the window the
      base price, inside it the discounted one, and both ends of a
      non-empty window are inside it while the day before the start and
      the day after the end are not. */
  lemma PromotionAppliesExactly(room: Room, today: Date)
    requires room.promotion.Some?
    ensures var pr := room.promotion.value;
            !(pr.startDate <= today <= pr.endDate)
            ==> DiscountedPrice(room, today) == room.pricePerNight * MillionthsPerCent
    ensures var pr := room.promotion.value;
            pr.startDate <= today <= pr.endDate
            ==> MillionthsValue(DiscountedPrice(room, today))
                == DecimalDiscount(CentsValue(room.pricePerNight), PercentValue(pr.discountPercentage))
    ensures var pr := room.promotion.value;
            pr.startDate <= pr.endDate ==>
              && MillionthsValue(DiscountedPrice(room, pr.startDate))
                 == DecimalDiscount(CentsValue(room.pricePerNight), PercentValue(pr.discountPercentage))
              && MillionthsValue(DiscountedPrice(room, pr.endDate))
                 == DecimalDiscount(CentsValue(room.pricePerNight), PercentValue(pr.discountPercentage))
              && DiscountedPrice(room, pr.startDate - 1) == room.pricePerNight * MillionthsPerCent
              && DiscountedPrice(room, pr.endDate + 1) == room.pricePerNight * MillionthsPerCent
  {
  }

  /** A promotion whose start comes after its end never applies. */
  lemma InvertedWindowNeverApplies(room: Room, today: Date)
    requires room.promotion.Some?
    requires room.promotion.value.startDate > room.promotion.value.endDate
    ensures DiscountedPrice(room, today) == room.pricePerNight * MillionthsPerCent
  {
  }

  /** An applied discount of 0% keeps the price; one of 100% makes it zero. */
  lemma DiscountEdgeCases(room: Room, today: Date)
    requires PromotionApplies(room.promotion, today)
    ensures room.promotion.value.discountPercentage == 0
            ==> DiscountedPrice(room, today) == room.pricePerNight * MillionthsPerCent
    ensures room.promotion.value.discountPercentage == FullDiscount
            ==> DiscountedPrice(room, today) == 0
  {
  }

  /** A percentage between 0 and 100 on a non-negative price gives a
      price between zero and the base price. */
  lemma DiscountedPriceBounds(room: Room, today: Date)
    requires room.pricePerNight >= 0
    requires room.promotion.Some? ==>
               0 <= room.promotion.value.discountPercentage <= FullDiscount
    ensures 0 <= DiscountedPrice(room, today) <= room.pricePerNight * MillionthsPerCent
  {
    if PromotionApplies(room.promotion, today) {
      var p, d := room.pricePerNight, room.promotion.value.discountPercentage;
      assert p * d <= p * FullDiscount by {
        assert p * (FullDiscount - d) >= 0;
      }
      assert p * d >= 0;
    }
  }

  /** 50% off 100.00 is 50.00. */
  lemma HalfOffExample(today: Date)
    ensures DiscountedPrice(
              Room(1, "101", "single", "", 10_000, true,
                   Some(Promotion(1, "HALF", "", 5_000, today, today))),
              today) == 5_000 * MillionthsPerCent
  {
  }

  /** `get_discounted_price` as the module is written: `datetime` is never
      bound there, so once the promotion test passes the date test raises
      NameError; only a room without a promotion gets a price. */
  function DiscountedPriceAsWritten(room: Room): (r: Evaluation<int>)
    ensures r.Raised? <==> room.promotion.Some?
    ensures r.Value? ==> r.value == room.pricePerNight * MillionthsPerCent
  {
    if room.promotion.None? then Value(room.pricePerNight * MillionthsPerCent)
    else Raised("NameError")
  }

  /** The written method agrees with the intended rule exactly on rooms
      without a promotion, and fails on every other room, whether or not
      the promotion is active. */
  lemma AsWrittenFailsWithPromotion(room: Room, today: Date)
    ensures room.promotion.None? ==> DiscountedPriceAsWritten(room) == Value(DiscountedPrice(room, today))
    ensures room.promotion.Some? <==> DiscountedPriceAsWritten(room).Raised?
  {
  }
}
