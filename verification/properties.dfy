/** Properties that relate several operations of the closing service. */
module Properties {
  import opened Wrappers
  import opened DailyValues
  import opened Database
  import opened Routes

  /** Running the start-up seeding again changes nothing. */
  lemma BootstrapIdempotent(s: State, year: int, month: int, daysInMonth: nat)
    ensures Bootstrap(Bootstrap(s, year, month, daysInMonth), year, month, daysInMonth)
         == Bootstrap(s, year, month, daysInMonth)
  {
  }

  /** When no closing exists for the current month, bootstrap leaves exactly one: the
      row it inserted. */
  lemma BootstrapCreatesExactlyOne(s: State, year: int, month: int, daysInMonth: nat)
    requires Valid(s) && !HasClosingFor(s, year, month)
    ensures var r := Bootstrap(s, year, month, daysInMonth);
      (set id | id in r.closings && r.closings[id].year == year && r.closings[id].month == month)
      == {s.nextId}
  {
  }

  /** After bootstrap the selection table holds one row, so a valid `PUT /selecionado`
      leaves exactly the new year and month there. */
  lemma SetSelectionAfterBootstrap(s: State, year: int, month: int, daysInMonth: nat, ano: int, mes: int)
    requires Valid(s) && ano != 0 && mes != 0
    ensures var r := SetSelection(Bootstrap(s, year, month, daysInMonth), SelectionBody(Some(ano), Some(mes)));
      r.Success? && r.value.selection == [Selection(ano, mes)]
  {
  }

  /** A closing just created already carries the right sum, so recomputing it is a
      no-op. */
  lemma CreateThenRecomputeIsNoOp(s: State, body: CreateBody)
    requires CreateClosing(s, body).Success?
    ensures UpdateTotal(CreateClosing(s, body).value, s.nextId) == CreateClosing(s, body)
  {
    var r := CreateClosing(s, body).value;
    var c := r.closings[s.nextId];
    assert c.(sumValues := Total(c.dailyValues)) == c;
    assert r.closings[s.nextId := c] == r.closings;
  }

  /** Writing a day inside a consistent closing's array and then recomputing moves the
      sum by exactly the change of that day's value. */
  lemma DayWriteThenRecompute(s: State, id: nat, day: int, value: real)
    requires id in s.closings && Consistent(s.closings[id])
    requires 1 <= day <= |s.closings[id].dailyValues| <= MaxDay
    ensures SetDayValue(s, id, day, value).Success?
    ensures var after := UpdateTotal(SetDayValue(s, id, day, value).value, id);
      && after.Success?
      && after.value.closings[id].sumValues
         == s.closings[id].sumValues - s.closings[id].dailyValues[day - 1].value.value + value
  {
    var c := s.closings[id];
    UpsertInsideTotal(c.dailyValues, day, value);
  }

  /** A day written more than one position past the end leaves a hole, and the next
      recomputation of that closing's sum throws. */
  lemma SparseDayWriteBreaksRecompute(s: State, id: nat, day: int, value: real)
    requires id in s.closings && |s.closings[id].dailyValues| + 1 < day <= MaxDay
    ensures SetDayValue(s, id, day, value).Success?
    ensures UpdateTotal(SetDayValue(s, id, day, value).value, id) == Failure(TypeError)
  {
    UpsertPastEndLeavesHole(s.closings[id].dailyValues, day, value);
  }

  /** A day whose index is not a JavaScript array index is dropped on serialisation:
      the write is acknowledged and nothing changes. */
  lemma HugeDayWriteChangesNothing(s: State, id: nat, day: int, value: real)
    requires id in s.closings && day > MaxDay
    ensures SetDayValue(s, id, day, value) == Success(s)
  {
    assert s.closings[id := s.closings[id]] == s.closings;
  }

  /** A write does not touch the stored sum until it is recomputed. */
  lemma DayWriteKeepsStoredSum(s: State, id: nat, day: int, value: real)
    requires id in s.closings && day >= 1
    ensures SetDayValue(s, id, day, value).Success?
    ensures SetDayValue(s, id, day, value).value.closings[id].sumValues == s.closings[id].sumValues
  {
  }

  /** The minimum goal in the body of `PUT /fechamentos/:id/meta` has no effect. */
  lemma MaxGoalIgnoresMinimum(s: State, id: nat, maxima: real, min1: real, min2: real)
    ensures SetMaxGoal(s, id, GoalBody(maxima, min1)) == SetMaxGoal(s, id, GoalBody(maxima, min2))
  {
  }

  /** A request body giving days 1 and 2 as 10 and 5. */
  function ExampleBody(): (b: CreateBody)
  {
    CreateBody(map[2024 := YearBody(map[5 := MonthBody(20, 1000.0, 500.0,
      [Entry(1, 10.0), Entry(2, 5.0)])])])
  }

  /** Days 1 and 2 given as 10 and 5, the rest absent: 30 entries summing to 15. */
  lemma CreateExampleSumsToFifteen(s: State)
    ensures CreateClosing(s, ExampleBody()).Success?
    ensures var c := CreateClosing(s, ExampleBody()).value.closings[s.nextId];
      && c.year == 2024 && c.month == 5
      && |c.dailyValues| == 30
      && c.sumValues == 15.0
  {
    var body := ExampleBody();
    assert 2024 in body.years && 5 in body.years[2024].months;
    assert LeastKey(body.years.Keys) == 2024;
    assert LeastKey(body.years[2024].months.Keys) == 5;
    var dvs := [Entry(1, 10.0), Entry(2, 5.0)];
    var f := Fill(dvs);
    FillTakesFirstMatch(dvs, 0);
    FillTakesFirstMatch(dvs, 1);
    var head, tail := f[..2], f[2..];
    assert f == head + tail;
    forall i | 0 <= i < |tail|
      ensures tail[i].value.value == 0.0
    {
      FillDefaultsToZero(dvs, i + 3);
    }
    TotalAllZero(tail);
    assert ValueAt(f, 1) == Some(10.0) && ValueAt(f, 2) == Some(5.0);
    assert head[0].value.value == 10.0 && head[1..][0].value.value == 5.0;
    assert head[1..][1..] == [];
    assert Total(head[1..]) == 5.0;
    assert Total(head) == 15.0;
    TotalAppend(head, tail);
  }
}
