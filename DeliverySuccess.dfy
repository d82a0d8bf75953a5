/**
 * The delivery success breakdown: outcome rows with a count each, their total
 * (shown in the chart legend) and the success rate (delivered over total, as a
 * percentage rounded to the nearest integer, 0 when the total is not positive).
 */
module DeliverySuccess {
  import opened Options

  datatype DeliveryOutcome = DeliveryOutcome(status: string, count: int, color: string)

  const DeliveredStatus: string := "Delivered"

  /** The sum of all counts, as `data.reduce((sum, item) => sum + item.count, 0)`.
      The chart legend shows the same total. */
  function Total(data: seq<DeliveryOutcome>): (r: int)
    ensures (forall j :: 0 <= j < |data| ==> data[j].count >= 0) ==> r >= 0
  {
    if data == [] then 0 else data[0].count + Total(data[1..])
  }

  lemma {:induction false} TotalAppend(a: seq<DeliveryOutcome>, b: seq<DeliveryOutcome>)
    ensures Total(a + b) == Total(a) + Total(b)
  {
    if a == [] {
      assert a + b == b;
    } else {
      assert (a + b)[1..] == a[1..] + b;
      TotalAppend(a[1..], b);
    }
  }

  /** With no negative count, the total is at least every single count. */
  lemma {:induction false} TotalBoundsEachCount(data: seq<DeliveryOutcome>, i: nat)
    requires forall j :: 0 <= j < |data| ==> data[j].count >= 0
    requires i < |data|
    ensures 0 <= data[i].count <= Total(data)
  {
    if i > 0 {
      TotalBoundsEachCount(data[1..], i - 1);
    } else if |data| > 1 {
      TotalBoundsEachCount(data[1..], 0);
    }
  }

  /** The position `data.find(item => item.status === 'Delivered')` stops at. */
  function FindDelivered(data: seq<DeliveryOutcome>): (r: Option<nat>)
    ensures r.Some? ==> r.value < |data| && data[r.value].status == DeliveredStatus
    ensures r.Some? ==> forall j :: 0 <= j < r.value ==> data[j].status != DeliveredStatus
    ensures r.None? ==> forall j :: 0 <= j < |data| ==> data[j].status != DeliveredStatus
  {
    if data == [] then None
    else if data[0].status == DeliveredStatus then Some(0)
    else match FindDelivered(data[1..])
      case None => None
      case Some(k) => Some(k + 1)
  }

  /** `data.find(...)?.count || 0`: the count of the first "Delivered" row, or 0. */
  function DeliveredCount(data: seq<DeliveryOutcome>): (r: int)
    ensures forall j :: (0 <= j < |data| && data[j].status == DeliveredStatus
                         && (forall k :: 0 <= k < j ==> data[k].status != DeliveredStatus)) ==> r == data[j].count
    ensures (forall j :: 0 <= j < |data| ==> data[j].status != DeliveredStatus) ==> r == 0
  {
    match FindDelivered(data)
    case None => 0
    case Some(k) => data[k].count
  }

  /** `Math.round(part / whole * 100)` for a positive whole, computed exactly:
      the nearest integer, halves rounded up. */
  function RoundedPercent(part: int, whole: int): (r: int)
    requires whole > 0
    ensures 2 * whole * r - whole <= 200 * part < 2 * whole * r + whole
  {
    (200 * part + whole) / (2 * whole)
  }

  /** `calculateSuccessRate`: 0 for a total that is not positive, otherwise the delivered
      count as a percentage of the total, rounded to the nearest integer. */
  function SuccessRate(data: seq<DeliveryOutcome>): (r: int)
    ensures Total(data) <= 0 ==> r == 0
    ensures Total(data) > 0 ==>
      2 * Total(data) * r - Total(data) <= 200 * DeliveredCount(data) < 2 * Total(data) * r + Total(data)
  {
    var total := Total(data);
    if total > 0 then RoundedPercent(DeliveredCount(data), total) else 0
  }

  /** A total of zero (or less) gives a rate of 0. */
  lemma RateZeroWithoutTotal(data: seq<DeliveryOutcome>)
    requires Total(data) <= 0
    ensures SuccessRate(data) == 0
  {
  }

  /** Without a "Delivered" row the rate is 0. */
  lemma RateZeroWithoutDelivered(data: seq<DeliveryOutcome>)
    requires forall j :: 0 <= j < |data| ==> data[j].status != DeliveredStatus
    ensures DeliveredCount(data) == 0
    ensures SuccessRate(data) == 0
  {
    assert FindDelivered(data).None?;
    if Total(data) > 0 {
      RoundedPercentOfZero(Total(data));
    }
  }

  /** With no negative count, the delivered count lies between 0 and the total. */
  lemma DeliveredWithinTotal(data: seq<DeliveryOutcome>)
    requires forall j :: 0 <= j < |data| ==> data[j].count >= 0
    ensures 0 <= DeliveredCount(data) <= Total(data)
  {
    match FindDelivered(data)
    case None =>
    case Some(k) => TotalBoundsEachCount(data, k);
  }

  lemma MulMonotone(a: int, b: int, d: int)
    requires d > 0 && a <= b
    ensures a * d <= b * d
  {
    assert b * d - a * d == (b - a) * d;
  }

  /** Floor division by a positive divisor returns the unique q with q*d <= x < q*d + d. */
  lemma DivUnique(x: int, d: int, q: int)
    requires d > 0 && q * d <= x < q * d + d
    ensures x / d == q
  {
    var r := x / d;
    assert x == r * d + x % d;
    if r < q {
      MulMonotone(r + 1, q, d);
    } else if r > q {
      MulMonotone(q + 1, r, d);
    }
  }

  lemma DivBelow(x: int, d: int, k: int)
    requires d > 0 && 0 <= x < k * d
    ensures 0 <= x / d < k
  {
    var r := x / d;
    assert x == r * d + x % d;
    if r >= k {
      MulMonotone(k, r, d);
    } else if r < 0 {
      MulMonotone(r + 1, 0, d);
    }
  }

  lemma RoundedPercentBounds(part: int, whole: int)
    requires 0 <= part <= whole && whole > 0
    ensures 0 <= RoundedPercent(part, whole) <= 100
  {
    DivBelow(200 * part + whole, 2 * whole, 101);
  }

  lemma RoundedPercentOfZero(whole: int)
    requires whole > 0
    ensures RoundedPercent(0, whole) == 0
  {
    DivUnique(whole, 2 * whole, 0);
  }

  /** With no negative count, the rate is a percentage between 0 and 100. */
  lemma RateIsPercentage(data: seq<DeliveryOutcome>)
    requires forall j :: 0 <= j < |data| ==> data[j].count >= 0
    ensures 0 <= SuccessRate(data) <= 100
  {
    if Total(data) > 0 {
      DeliveredWithinTotal(data);
      RoundedPercentBounds(DeliveredCount(data), Total(data));
    }
  }

  /** When every shipment counted is a delivered one, the rate is 100. */
  lemma RateFullWhenAllDelivered(data: seq<DeliveryOutcome>)
    requires Total(data) > 0 && DeliveredCount(data) == Total(data)
    ensures SuccessRate(data) == 100
  {
    var t := Total(data);
    DivUnique(200 * t + t, 2 * t, 100);
  }

  /** A single "Delivered" row with a positive count gives 100. */
  lemma RateFullForSingleDeliveredRow(count: int, color: string)
    requires count > 0
    ensures SuccessRate([DeliveryOutcome(DeliveredStatus, count, color)]) == 100
  {
    var data := [DeliveryOutcome(DeliveredStatus, count, color)];
    assert Total(data[1..]) == 0;
    RateFullWhenAllDelivered(data);
  }
}
