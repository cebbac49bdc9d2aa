/** Go's int64: the range, and what addition leaves when it overflows. */
module Int64 {
  const MAX: int := 0x7FFF_FFFF_FFFF_FFFF
  const MIN: int := -0x8000_0000_0000_0000
  const SPAN: int := 0x1_0000_0000_0000_0000

  /** The largest amount and the largest quantity the decimal reader returns (Money.dfy). */
  const AMOUNT_MAX: int := 4_611_686_018_427_389_999
  const QUANTITY_MAX: int := 4_611_686_018_499_999_999

  predicate Fits(x: int) {
    MIN <= x <= MAX
  }

  /** A representable number. */
  type Number = x: int | Fits(x)

  /** Two's complement wrap-around: the one representable number a whole number of spans
      away. */
  function Wrap(x: int): (r: int)
    ensures Fits(r)
    decreases if Fits(x) then 0 else if x > MAX then x else -x
  {
    if Fits(x) then x
    else if x > MAX then Wrap(x - SPAN)
    else Wrap(x + SPAN)
  }

  lemma {:induction false} WrapShift(x: int)
    ensures Wrap(x + SPAN) == Wrap(x)
    decreases if Fits(x) then 0 else if x > MAX then x else -x
  {
    if !Fits(x) {
      if x > MAX {
        WrapShift(x - SPAN);
      } else if !Fits(x + SPAN) {
        WrapShift(x + SPAN);
      }
    }
  }

  /** Wrapping early or late makes no difference to a sum. */
  lemma {:induction false} WrapAdd(x: int, y: int)
    ensures Wrap(Wrap(x) + y) == Wrap(x + y)
    decreases if Fits(x) then 0 else if x > MAX then x else -x
  {
    if !Fits(x) {
      if x > MAX {
        WrapAdd(x - SPAN, y);
        WrapShift(x - SPAN + y);
        assert x - SPAN + y + SPAN == x + y;
      } else {
        WrapAdd(x + SPAN, y);
        WrapShift(x + y);
        assert x + y + SPAN == x + SPAN + y;
      }
    }
  }

}
