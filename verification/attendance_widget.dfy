/**
 * The figures of the attendance widget
 * (src/components/dashboard/AttendanceWidget.tsx): the default for a missing
 * record and the attendance rate in whole percent.
 */
module AttendanceWidget {
  import opened Wrappers

  datatype AttendanceData = AttendanceData(present: int, absent: int, late: int, total: int)

  const NoAttendance := AttendanceData(0, 0, 0, 0)

  /** `data || { present: 0, absent: 0, late: 0, total: 0 }`. */
  function OrDefault(data: Option<AttendanceData>): (d: AttendanceData)
    ensures data.None? ==> d.present == d.absent == d.late == d.total == 0
    ensures data.Some? ==> d == data.value
  {
    match data
    case None => NoAttendance
    case Some(v) => v
  }

  /** The integer nearest to `num / den`, halves rounded up, as `Math.round` does. */
  function RoundHalfUp(num: int, den: int): (r: int)
    requires den > 0
    ensures 2 * den * r <= 2 * num + den < 2 * den * (r + 1)
  {
    (2 * num + den) / (2 * den)
  }

  /**
   * `total > 0 ? Math.round(present / total * 100) : 0`, in exact
   * arithmetic: the percentage of present records, rounded half up, and 0
   * when there are no records.
   */
  function AttendanceRate(data: AttendanceData): (rate: int)
    ensures data.total <= 0 ==> rate == 0
    ensures data.total > 0 ==>
      2 * data.total * rate <= 200 * data.present + data.total < 2 * data.total * (rate + 1)
  {
    if data.total > 0 then RoundHalfUp(100 * data.present, data.total) else 0
  }

  /** The rate the widget shows for the record it is given, or for none. */
  function WidgetRate(data: Option<AttendanceData>): (rate: int)
    ensures data.None? ==> rate == 0
  {
    AttendanceRate(OrDefault(data))
  }

  /** Dividing both sides of a strict inequality by a positive factor. */
  lemma CancelPositive(t: int, a: int, b: int)
    requires t > 0 && t * a < t * b
    ensures a < b
  {
  }

  /** Whenever no more are present than recorded in all, the rate is a percentage. */
  lemma RateInRange(data: AttendanceData)
    requires 0 <= data.present <= data.total
    ensures 0 <= AttendanceRate(data) <= 100
  {
    var t, r := data.total, AttendanceRate(data);
    if t > 0 {
      assert t * (2 * r) == 2 * t * r && t * (2 * (r + 1)) == 2 * t * (r + 1);
      assert t * (2 * r) < t * 202 by { assert 200 * data.present <= 200 * t; }
      CancelPositive(t, 2 * r, 202);
      assert t * -1 < t * (2 * (r + 1));
      CancelPositive(t, -1, 2 * (r + 1));
    }
  }

  /** Everyone present gives 100. */
  lemma RateAllPresent(data: AttendanceData)
    requires data.total > 0 && data.present == data.total
    ensures AttendanceRate(data) == 100
  {
    var t, r := data.total, AttendanceRate(data);
    CancelPositive(t, 2 * r, 202);
    CancelPositive(t, 200, 2 * (r + 1));
  }

  /** Nobody present gives 0. */
  lemma RateNonePresent(data: AttendanceData)
    requires data.present == 0
    ensures AttendanceRate(data) == 0
  {
    var t, r := data.total, AttendanceRate(data);
    if t > 0 {
      CancelPositive(t, 2 * r, 2);
      CancelPositive(t, 0, 2 * (r + 1));
    }
  }

  /** Only `present` and `total` matter: the absent and late counts never change the rate. */
  lemma RateIgnoresAbsentAndLate(d1: AttendanceData, d2: AttendanceData)
    requires d1.present == d2.present && d1.total == d2.total
    ensures AttendanceRate(d1) == AttendanceRate(d2)
  {
  }

  /** More present records, out of the same total, never lower the rate. */
  lemma RateMonotone(d1: AttendanceData, d2: AttendanceData)
    requires d1.total == d2.total && d1.present <= d2.present
    ensures AttendanceRate(d1) <= AttendanceRate(d2)
  {
    var t, r1, r2 := d1.total, AttendanceRate(d1), AttendanceRate(d2);
    if t > 0 {
      CancelPositive(t, 2 * r1, 2 * (r2 + 1));
    }
  }
}
