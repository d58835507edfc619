/**
 * The order status header: the status entry shown (with a fallback), and the
 * "Expected by" time of day.
 */
module OrderStatusHeader {
  import opened Wrappers
  import opened Decimal
  import opened OrderStatusConfig

  const MinutesPerDay: nat := 1440

  /** `Array.prototype.find` on the status value. */
  function Find(table: seq<StatusInfo>, status: string): (r: Option<nat>)
    ensures r.Some? ==> r.value < |table| && table[r.value].value == status
    ensures r.Some? ==> forall k :: 0 <= k < r.value ==> table[k].value != status
    ensures r.None? <==> forall k :: 0 <= k < |table| ==> table[k].value != status
  {
    if table == [] then None
    else if table[0].value == status then Some(0)
    else match Find(table[1..], status)
      case None => None
      case Some(i) => Some(i + 1)
  }

  /** `getOrderStatusInfo`: the matching entry, or the first entry when none matches. */
  function StatusInfoFor(status: string): StatusInfo
  {
    match Find(OrderStatusTable, status)
    case Some(i) => OrderStatusTable[i]
    case None => OrderStatusTable[0]
  }

  /** A status in the table maps to its own entry. */
  lemma KnownStatus(i: nat)
    requires i < |OrderStatusTable|
    ensures StatusInfoFor(OrderStatusTable[i].value) == OrderStatusTable[i]
  {
    ValuesDistinct();
  }

  /** Any other status falls back to "Placed" at 0%. */
  lemma UnknownStatus(status: string)
    requires forall k :: 0 <= k < |OrderStatusTable| ==> OrderStatusTable[k].value != status
    ensures StatusInfoFor(status) == StatusInfo("Placed", "placed", 0)
  {
  }

  lemma InProgressExample()
    ensures StatusInfoFor("inProgress").labelText == "In Progress"
    ensures StatusInfoFor("inProgress").progressValue == 50
  {
    KnownStatus(2);
  }

  /** The header's two readings of the status. */
  datatype StatusView = StatusView(labelText: string, progress: nat)

  function View(status: string): StatusView
  {
    StatusView(StatusInfoFor(status).labelText, StatusInfoFor(status).progressValue)
  }

  /** The label and the bar always come from one and the same table entry. */
  lemma ViewFromOneEntry(status: string)
    ensures exists i :: 0 <= i < |OrderStatusTable|
                        && View(status) == StatusView(OrderStatusTable[i].labelText, OrderStatusTable[i].progressValue)
  {
    match Find(OrderStatusTable, status)
    case Some(i) =>
      assert View(status) == StatusView(OrderStatusTable[i].labelText, OrderStatusTable[i].progressValue);
    case None =>
      assert View(status) == StatusView(OrderStatusTable[0].labelText, OrderStatusTable[0].progressValue);
  }

  /** `${hours}:${paddedMinutes}` for a minute of the day. */
  function ClockText(m: nat): string
    requires m < MinutesPerDay
  {
    NatToString(m / 60) + ":" + TwoDigits(m % 60)
  }

  /** Reads `H:MM` or `HH:MM` back into a minute of the day. */
  function ParseClock(s: string): Option<nat>
  {
    if |s| >= 4 && s[|s| - 3] == ':' && AllDigits(s[..|s| - 3]) && AllDigits(s[|s| - 2..])
    then Some(DigitsValue(s[..|s| - 3]) * 60 + DigitsValue(s[|s| - 2..]))
    else None
  }

  /** One or two hour digits (unpadded), a colon, exactly two minute digits; and it reads back. */
  lemma ClockTextShape(m: nat)
    requires m < MinutesPerDay
    ensures var s := ClockText(m);
      && 4 <= |s| <= 5 && s[|s| - 3] == ':'
      && AllDigits(s[..|s| - 3]) && AllDigits(s[|s| - 2..])
      && (s[0] == '0' <==> m < 60)
      && (s[|s| - 2] == '0' <==> m % 60 < 10)
    ensures ParseClock(ClockText(m)) == Some(m)
  {
    var h, mm := NatToString(m / 60), TwoDigits(m % 60);
    NatToStringShape(m / 60);
    NatToStringRoundTrip(m / 60);
    TwoDigitsShape(m % 60);
    var s := ClockText(m);
    assert s[..|s| - 3] == h;
    assert s[|s| - 2..] == mm;
    assert s[0] == h[0];
    assert s[|s| - 2] == mm[0];
  }

  /** A `Date`'s wall-clock time, reduced to the minute of the day. */
  class LocalTime {
    var minuteOfDay: nat

    constructor (minuteOfDay: nat)
      requires minuteOfDay < MinutesPerDay
      ensures this.minuteOfDay == minuteOfDay
    {
      this.minuteOfDay := minuteOfDay;
    }

    predicate Valid()
      reads this
    {
      minuteOfDay < MinutesPerDay
    }

    function GetHours(): nat
      reads this
    {
      minuteOfDay / 60
    }

    function GetMinutes(): nat
      reads this
    {
      minuteOfDay % 60
    }

    /** `setMinutes(x)`: minutes past the hour become x, carrying into hours and days. */
    method SetMinutes(x: int)
      requires Valid()
      modifies this
      ensures Valid()
      ensures minuteOfDay == (old(GetHours()) * 60 + x) % MinutesPerDay
    {
      minuteOfDay := (GetHours() * 60 + x) % MinutesPerDay;
    }
  }

  /** `getExpectedDelivery`: add the estimate to the creation time and print H:MM. */
  method ExpectedDelivery(createdMinute: nat, estimatedDeliveryTime: int) returns (text: string)
    requires createdMinute < MinutesPerDay
    ensures text == ClockText((createdMinute + estimatedDeliveryTime) % MinutesPerDay)
  {
    var created := new LocalTime(createdMinute);
    created.SetMinutes(created.GetMinutes() + estimatedDeliveryTime);
    var hours := created.GetHours();
    var minutes := created.GetMinutes();
    var paddedMinutes := if minutes < 10 then "0" + NatToString(minutes) else NatToString(minutes);
    text := NatToString(hours) + ":" + paddedMinutes;
  }

  /** The printed time is the creation time plus the estimate, wrapping at midnight. */
  lemma ExpectedDeliveryReadsBack(createdMinute: nat, estimatedDeliveryTime: int)
    requires createdMinute < MinutesPerDay
    ensures ParseClock(ClockText((createdMinute + estimatedDeliveryTime) % MinutesPerDay))
         == Some((createdMinute + estimatedDeliveryTime) % MinutesPerDay)
  {
    ClockTextShape((createdMinute + estimatedDeliveryTime) % MinutesPerDay);
  }
}
