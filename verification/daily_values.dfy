/**
 * The `valores_diarios` array of a monthly closing: how it is built from a sparse
 * request list, how bootstrap zero-fills it, how a single day is written into it, and
 * how its values are summed.
 */
module DailyValues {
  import opened Wrappers

  /** One `{day, value}` element of the array. */
  datatype Entry = Entry(day: int, value: real)

  /** The stored array. `None` stands for a hole left by a write past the end, which
      JSON serialisation turns into `null`. */
  type Days = seq<Option<Entry>>

  /** Record creation always builds this many entries, whatever the month. */
  const FillLength: nat := 30

  /** Every position holds an entry. */
  predicate NoHoles(a: Days)
  {
    forall i | 0 <= i < |a| :: a[i].Some?
  }

  /** Every present entry sits at the index its day number names. */
  predicate WellNumbered(a: Days)
  {
    forall i | 0 <= i < |a| && a[i].Some? :: a[i].value.day == i + 1
  }

  /** The value read back at position `day - 1`, if an entry is there. */
  function ValueAt(a: Days, day: int): (r: Option<real>)
  {
    if 1 <= day <= |a| && a[day - 1].Some? then Some(a[day - 1].value.value) else None
  }

  /** `Array.prototype.find` with the predicate `e.day === day`. */
  function Find(dvs: seq<Entry>, day: int): (r: Option<Entry>)
    ensures r.None? <==> forall j | 0 <= j < |dvs| :: dvs[j].day != day
    ensures r.Some? ==>
      exists k | 0 <= k < |dvs| :: dvs[k] == r.value && dvs[k].day == day &&
        forall j | 0 <= j < k :: dvs[j].day != day
  {
    if |dvs| == 0 then None
    else if dvs[0].day == day then Some(dvs[0])
    else
      var r := Find(dvs[1..], day);
      assert forall j | 1 <= j < |dvs| :: dvs[j] == dvs[1..][j - 1];
      if r.Some? then
        var k :| 0 <= k < |dvs[1..]| && dvs[1..][k] == r.value && dvs[1..][k].day == day &&
          forall j | 0 <= j < k :: dvs[1..][j].day != day;
        assert dvs[k + 1] == r.value && forall j | 0 <= j < k + 1 :: dvs[j].day != day;
        r
      else r
  }

  /** The value the fill takes for `day`: that of the first matching element, else 0. */
  function FoundValue(dvs: seq<Entry>, day: int): (r: real)
  {
    match Find(dvs, day)
    case Some(e) => e.value
    case None => 0.0
  }

  /** The 30-entry array `POST /fechamentos` builds from the request's `day_values`. */
  function Fill(dvs: seq<Entry>): (r: Days)
    ensures |r| == FillLength
    ensures NoHoles(r) && WellNumbered(r)
    ensures forall d | 1 <= d <= FillLength :: ValueAt(r, d) == Some(FoundValue(dvs, d))
  {
    seq(FillLength, i => Some(Entry(i + 1, FoundValue(dvs, i + 1))))
  }

  /** The array bootstrap stores for a month of `n` days: days 1..n, all zero. */
  function Zeroed(n: nat): (r: Days)
    ensures |r| == n
    ensures NoHoles(r) && WellNumbered(r)
    ensures forall d | 1 <= d <= n :: ValueAt(r, d) == Some(0.0)
  {
    seq(n, i => Some(Entry(i + 1, 0.0)))
  }

  /** The largest day whose index `day - 1` is still a JavaScript array index; indices
      run up to 2^32 - 2, so an array holds at most this many entries. */
  const MaxDay: int := 0xFFFF_FFFF

  function Max(a: int, b: int): (r: int)
  {
    if a < b then b else a
  }

  /**
   * `PUT /fechamentos/:id/dia/:day` on the loaded array: an entry at index `day - 1`
   * keeps its day and takes the new value; otherwise `{day, value}` is stored there,
   * which leaves holes when `day` lies more than one past the end. Beyond `MaxDay` the
   * index is an ordinary property name, which serialisation drops: the array is
   * unchanged.
   */
  function UpsertDay(a: Days, day: int, value: real): (r: Days)
    requires day >= 1
    ensures day > MaxDay ==> r == a
    ensures day <= MaxDay ==> |r| == Max(|a|, day)
    ensures day <= MaxDay && day - 1 < |a| && a[day - 1].Some? ==>
      r[day - 1] == Some(Entry(a[day - 1].value.day, value))
    ensures day <= MaxDay && !(day - 1 < |a| && a[day - 1].Some?) ==>
      r[day - 1] == Some(Entry(day, value))
    ensures forall j | 0 <= j < |a| && j != day - 1 :: r[j] == a[j]
    ensures day <= MaxDay ==> forall j | |a| <= j < day - 1 :: r[j].None?
  {
    var i := day - 1;
    if day > MaxDay then a
    else if i < |a| then
      match a[i]
      case Some(e) => a[i := Some(e.(value := value))]
      case None => a[i := Some(Entry(day, value))]
    else
      a + seq(i - |a|, _ => None) + [Some(Entry(day, value))]
  }

  /** The arithmetic sum of the values of a hole-free array. */
  function Total(a: Days): (r: real)
    requires NoHoles(a)
  {
    if |a| == 0 then 0.0 else a[0].value.value + Total(a[1..])
  }

  /**
   * `somarValores`: adds up `valores[i].value` left to right. Reading `.value` of a
   * hole or `null` throws, which is reported here as `None`.
   */
  method SumValues(a: Days) returns (r: Option<real>)
    ensures r.Some? <==> NoHoles(a)
    ensures r.Some? ==> r.value == Total(a)
    ensures |a| == 0 ==> r == Some(0.0)
  {
    var soma := 0.0;
    var i := 0;
    while i < |a|
      invariant 0 <= i <= |a|
      invariant NoHoles(a[..i])
      invariant soma == Total(a[..i])
    {
      if a[i].None? {
        return None;
      }
      TotalSnoc(a[..i], a[i]);
      assert a[..i + 1] == a[..i] + [a[i]];
      soma := soma + a[i].value.value;
      i := i + 1;
    }
    assert a[..i] == a;
    r := Some(soma);
  }

  lemma {:induction false} TotalAppend(a: Days, b: Days)
    requires NoHoles(a) && NoHoles(b)
    ensures NoHoles(a + b)
    ensures Total(a + b) == Total(a) + Total(b)
    decreases |a|
  {
    if |a| == 0 {
      assert a + b == b;
    } else {
      assert (a + b)[1..] == a[1..] + b;
      TotalAppend(a[1..], b);
    }
  }

  lemma TotalSnoc(a: Days, x: Option<Entry>)
    requires NoHoles(a) && x.Some?
    ensures NoHoles(a + [x])
    ensures Total(a + [x]) == Total(a) + x.value.value
  {
    TotalAppend(a, [x]);
  }

  /** Overwriting one entry shifts the sum by the difference of the two values. */
  lemma {:induction false} TotalUpdate(a: Days, i: nat, e: Entry)
    requires NoHoles(a) && i < |a|
    ensures NoHoles(a[i := Some(e)])
    ensures Total(a[i := Some(e)]) == Total(a) - a[i].value.value + e.value
    decreases |a|
  {
    var b := a[i := Some(e)];
    if i == 0 {
      assert b[1..] == a[1..];
    } else {
      assert b[1..] == a[1..][i - 1 := Some(e)];
      TotalUpdate(a[1..], i - 1, e);
    }
  }

  /** An array whose every value is 0 sums to 0. */
  lemma {:induction false} TotalAllZero(a: Days)
    requires NoHoles(a)
    requires forall i | 0 <= i < |a| :: a[i].value.value == 0.0
    ensures Total(a) == 0.0
    decreases |a|
  {
    if |a| > 0 {
      TotalAllZero(a[1..]);
    }
  }

  /** The bootstrap array sums to 0, matching the `soma_valores` it is stored with. */
  lemma TotalZeroed(n: nat)
    ensures Total(Zeroed(n)) == 0.0
  {
    TotalAllZero(Zeroed(n));
  }

  /** The fill takes the first element whose day matches. */
  lemma FillTakesFirstMatch(dvs: seq<Entry>, k: nat)
    requires k < |dvs| && 1 <= dvs[k].day <= FillLength
    requires forall j | 0 <= j < k :: dvs[j].day != dvs[k].day
    ensures ValueAt(Fill(dvs), dvs[k].day) == Some(dvs[k].value)
  {
  }

  /** A day no element names is filled with 0. */
  lemma FillDefaultsToZero(dvs: seq<Entry>, d: int)
    requires 1 <= d <= FillLength
    requires forall j | 0 <= j < |dvs| :: dvs[j].day != d
    ensures ValueAt(Fill(dvs), d) == Some(0.0)
  {
  }

  /** Elements appended after a match for `d` do not change what is filled for `d`. */
  lemma FillIgnoresLaterDuplicates(dvs: seq<Entry>, more: seq<Entry>, d: int)
    requires 1 <= d <= FillLength
    requires exists j | 0 <= j < |dvs| :: dvs[j].day == d
    ensures ValueAt(Fill(dvs + more), d) == ValueAt(Fill(dvs), d)
  {
    var r := Find(dvs, d);
    var k :| 0 <= k < |dvs| && dvs[k] == r.value && dvs[k].day == d &&
      forall j | 0 <= j < k :: dvs[j].day != d;
    var all := dvs + more;
    assert all[k] == dvs[k];
    assert forall j | 0 <= j < k :: all[j] == dvs[j];
    FillTakesFirstMatch(all, k);
    FillTakesFirstMatch(dvs, k);
  }

  /** Reading a day back after writing it gives the written value, and every other
      day reads as before; a day beyond `MaxDay` is not written at all. */
  lemma UpsertReadBack(a: Days, day: int, value: real, d: int)
    requires day >= 1
    ensures ValueAt(UpsertDay(a, day, value), d)
         == if d == day && day <= MaxDay then Some(value) else ValueAt(a, d)
  {
  }

  /** A write keeps the array numbered by position. */
  lemma UpsertKeepsNumbering(a: Days, day: int, value: real)
    requires day >= 1 && WellNumbered(a)
    ensures WellNumbered(UpsertDay(a, day, value))
  {
  }

  /** Writing inside a hole-free array keeps it hole-free and moves the sum by the
      difference between the new and the old value. */
  lemma UpsertInsideTotal(a: Days, day: int, value: real)
    requires NoHoles(a) && 1 <= day <= |a| && |a| <= MaxDay
    ensures NoHoles(UpsertDay(a, day, value))
    ensures Total(UpsertDay(a, day, value)) == Total(a) - a[day - 1].value.value + value
  {
    TotalUpdate(a, day - 1, a[day - 1].value.(value := value));
  }

  /** Writing the day just past the end of a hole-free array appends it. */
  lemma UpsertAppendTotal(a: Days, day: int, value: real)
    requires NoHoles(a) && day == |a| + 1 && day <= MaxDay
    ensures NoHoles(UpsertDay(a, day, value))
    ensures Total(UpsertDay(a, day, value)) == Total(a) + value
  {
    assert UpsertDay(a, day, value) == a + [Some(Entry(day, value))];
    TotalSnoc(a, Some(Entry(day, value)));
  }

  /** Writing further past the end, up to `MaxDay`, leaves holes, so the array can no
      longer be summed. */
  lemma UpsertPastEndLeavesHole(a: Days, day: int, value: real)
    requires |a| + 1 < day <= MaxDay
    ensures !NoHoles(UpsertDay(a, day, value))
  {
    assert UpsertDay(a, day, value)[|a|].None?;
  }
}
