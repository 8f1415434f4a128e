/**
 * The request handlers of the monthly-closing service, its start-up bootstrap and its
 * sum recomputation, each as a pure function from the database state to the state it
 * leaves behind. Those that can fail return a `Result`; a `Failure` means nothing was
 * written.
 */
module Routes {
  import opened Wrappers
  import opened DailyValues
  import opened Database

  /** How an operation fails: a 400 answer, a missing row, a rejected SQL statement, or
      a JavaScript `TypeError` thrown while reading the request or the row, which the
      code never catches. */
  datatype Error = BadRequest | NotFound | DuplicateKey | TypeError

  // ---------------------------------------------------------------------------
  // Bootstrap (`initializeDatabase`)
  // ---------------------------------------------------------------------------

  /** Seeds `selecionado` with the current year and month when the table is empty. */
  function SeedSelection(s: State, year: int, month: int): (r: State)
    ensures |s.selection| == 0 ==> r.selection == [Selection(year, month)]
    ensures |s.selection| > 0 ==> r.selection == s.selection
    ensures r.closings == s.closings && r.nextId == s.nextId
    ensures Valid(s) ==> Valid(r)
  {
    if |s.selection| == 0 then s.(selection := [Selection(year, month)]) else s
  }

  /** The row bootstrap inserts for the current month. */
  function CurrentMonthClosing(year: int, month: int, daysInMonth: nat): (c: Closing)
  {
    Closing(year, month, 0, 0.0, 0.0, Zeroed(daysInMonth), 0.0)
  }

  /** Inserts a zeroed closing for (year, month) unless one already exists. */
  function SeedClosing(s: State, year: int, month: int, daysInMonth: nat): (r: State)
    ensures HasClosingFor(s, year, month) ==> r == s
    ensures !HasClosingFor(s, year, month) ==>
      && s.nextId in r.closings
      && r == Insert(s, r.closings[s.nextId])
      && var c := r.closings[s.nextId];
      && c.year == year && c.month == month
      && c.daysWorked == 0 && c.maxGoal == 0.0 && c.minGoal == 0.0
      && |c.dailyValues| == daysInMonth && WellNumbered(c.dailyValues)
      && (forall d | 1 <= d <= daysInMonth :: ValueAt(c.dailyValues, d) == Some(0.0))
      && c.sumValues == 0.0 && Consistent(c)
    ensures HasClosingFor(r, year, month)
    ensures Valid(s) ==> Valid(r)
  {
    if HasClosingFor(s, year, month) then s
    else
      TotalZeroed(daysInMonth);
      Insert(s, CurrentMonthClosing(year, month, daysInMonth))
  }

  /**
   * Start-up seeding for the current (year, month), which the caller reads from the
   * clock at UTC-3 together with that month's number of days.
   */
  function Bootstrap(s: State, year: int, month: int, daysInMonth: nat): (r: State)
    ensures |r.selection| >= 1
    ensures |s.selection| == 0 ==> r.selection == [Selection(year, month)]
    ensures |s.selection| > 0 ==> r.selection == s.selection
    ensures HasClosingFor(r, year, month)
    ensures HasClosingFor(s, year, month) ==> r == SeedSelection(s, year, month)
    ensures !HasClosingFor(s, year, month) ==>
      r == Insert(SeedSelection(s, year, month), CurrentMonthClosing(year, month, daysInMonth))
    ensures forall id | id in s.closings && id != s.nextId :: id in r.closings && r.closings[id] == s.closings[id]
    ensures Valid(s) ==> Valid(r)
  {
    SeedClosing(SeedSelection(s, year, month), year, month, daysInMonth)
  }

  // ---------------------------------------------------------------------------
  // PUT /selecionado
  // ---------------------------------------------------------------------------

  /** The request body `{ano, mes}`; `None` is a field left out. */
  datatype SelectionBody = SelectionBody(ano: Option<int>, mes: Option<int>)

  /** A field JavaScript's `!` treats as false: missing or 0. */
  predicate Falsy(f: Option<int>)
  {
    f == None || f == Some(0)
  }

  /**
   * Validates the body, then runs an UPDATE with no WHERE clause. Setting every row to
   * the same (ano, mes) breaks the table's unique key as soon as two rows exist, so
   * the statement then fails and changes nothing.
   */
  function SetSelection(s: State, body: SelectionBody): (r: Result<State, Error>)
    ensures r == Failure(BadRequest) <==> Falsy(body.ano) || Falsy(body.mes)
    ensures r == Failure(DuplicateKey) <==> !Falsy(body.ano) && !Falsy(body.mes) && |s.selection| >= 2
    ensures !Falsy(body.ano) && !Falsy(body.mes) && |s.selection| <= 1 ==> r.Success?
    ensures r.Success? ==>
      && body.ano.Some? && body.mes.Some?
      && r.value.closings == s.closings && r.value.nextId == s.nextId
      && |r.value.selection| == |s.selection|
      && forall i | 0 <= i < |r.value.selection| ::
           r.value.selection[i] == Selection(body.ano.value, body.mes.value)
    ensures r.Success? && Valid(s) ==> Valid(r.value)
  {
    if Falsy(body.ano) || Falsy(body.mes) then Failure(BadRequest)
    else if |s.selection| >= 2 then Failure(DuplicateKey)
    else Success(s.(selection := seq(|s.selection|, _ => Selection(body.ano.value, body.mes.value))))
  }

  // ---------------------------------------------------------------------------
  // PUT /fechamentos/:id/dia/:day
  // ---------------------------------------------------------------------------

  /** Loads the row's array, writes one day into it and stores it back; `soma_valores`
      is left as it was. */
  function SetDayValue(s: State, id: nat, day: int, value: real): (r: Result<State, Error>)
    requires day >= 1
    ensures r.Failure? <==> id !in s.closings
    ensures r.Failure? ==> r.error == NotFound
    ensures r.Success? ==>
      && id in s.closings && id in r.value.closings
      && var c := s.closings[id];
      && var c' := r.value.closings[id];
      && r.value == Replace(s, id, c')
      && c' == c.(dailyValues := UpsertDay(c.dailyValues, day, value))
    ensures r.Success? && Valid(s) ==> Valid(r.value)
  {
    if id !in s.closings then Failure(NotFound)
    else
      var c := s.closings[id];
      Success(Replace(s, id, c.(dailyValues := UpsertDay(c.dailyValues, day, value))))
  }

  // ---------------------------------------------------------------------------
  // POST /fechamentos
  // ---------------------------------------------------------------------------

  /** `years[Y].months[M]` of the request body. */
  datatype MonthBody = MonthBody(daysWorked: int, maxGoal: real, minGoal: real, dayValues: seq<Entry>)

  /** `years[Y]` of the request body. */
  datatype YearBody = YearBody(months: map<nat, MonthBody>)

  /** The request body `{years: {Y: {months: {M: ...}}}}`. Year and month keys are
      integer-like property names, which `Object.keys` lists in ascending order. */
  datatype CreateBody = CreateBody(years: map<nat, YearBody>)

  /** Some key of a non-empty set: the bound that makes the upward search terminate. */
  ghost function SomeKey(keys: set<nat>): (k: nat)
    requires keys != {}
  {
    var k :| k in keys; k
  }

  /** The least key not below `k`, searching upwards. */
  function LeastFrom(keys: set<nat>, k: nat): (m: nat)
    requires keys != {}
    requires forall x | x in keys :: k <= x
    ensures m in keys
    ensures forall x | x in keys :: m <= x
    decreases SomeKey(keys) - k
  {
    if k in keys then k else LeastFrom(keys, k + 1)
  }

  /** `Object.keys(o)[0]` for an object whose keys are all integer-like. */
  function LeastKey(keys: set<nat>): (m: nat)
    requires keys != {}
    ensures m in keys
    ensures forall x | x in keys :: m <= x
  {
    LeastFrom(keys, 0)
  }

  /**
   * Takes the first year and its first month of the body, builds the 30-day array from
   * `day_values` and inserts a row whose `soma_valores` is that array's sum. An empty
   * `years` or `months` object makes the property reads throw.
   */
  function CreateClosing(s: State, body: CreateBody): (r: Result<State, Error>)
    ensures r.Failure? <==>
      body.years.Keys == {} || body.years[LeastKey(body.years.Keys)].months.Keys == {}
    ensures r.Failure? ==> r.error == TypeError
    ensures r.Success? ==>
      && s.nextId in r.value.closings
      && var c := r.value.closings[s.nextId];
      && r.value == Insert(s, c)
      && c.year in body.years && (forall y | y in body.years :: c.year <= y)
      && var months := body.years[c.year].months;
      && c.month in months && (forall m | m in months :: c.month <= m)
      && var mb := months[c.month];
      && c.daysWorked == mb.daysWorked && c.maxGoal == mb.maxGoal && c.minGoal == mb.minGoal
      && c.dailyValues == Fill(mb.dayValues)
      && Consistent(c)
    ensures r.Success? && Valid(s) ==> Valid(r.value)
  {
    if body.years.Keys == {} then Failure(TypeError)
    else
      var year := LeastKey(body.years.Keys);
      var months := body.years[year].months;
      if months.Keys == {} then Failure(TypeError)
      else
        var month := LeastKey(months.Keys);
        var mb := months[month];
        var days := Fill(mb.dayValues);
        Success(Insert(s, Closing(year, month, mb.daysWorked, mb.maxGoal, mb.minGoal, days, Total(days))))
  }

  // ---------------------------------------------------------------------------
  // Single-column updates
  // ---------------------------------------------------------------------------

  /** The request body `{meta_maxima, meta_minima}`. */
  datatype GoalBody = GoalBody(metaMaxima: real, metaMinima: real)

  /** `PUT /fechamentos/:id/meta`: writes `meta_maxima` only; an unknown id matches no
      row and is still acknowledged. */
  function SetMaxGoal(s: State, id: nat, body: GoalBody): (r: State)
    ensures id !in s.closings ==> r == s
    ensures id in s.closings ==>
      && id in r.closings
      && r == Replace(s, id, r.closings[id])
      && r.closings[id] == s.closings[id].(maxGoal := body.metaMaxima)
    ensures Valid(s) ==> Valid(r)
  {
    if id !in s.closings then s
    else Replace(s, id, s.closings[id].(maxGoal := body.metaMaxima))
  }

  /** `PUT /fechamentos/:id/dias-trabalhados`: writes `dias_trabalhados` only. */
  function SetDaysWorked(s: State, id: nat, daysWorked: int): (r: State)
    ensures id !in s.closings ==> r == s
    ensures id in s.closings ==>
      && id in r.closings
      && r == Replace(s, id, r.closings[id])
      && r.closings[id] == s.closings[id].(daysWorked := daysWorked)
    ensures Valid(s) ==> Valid(r)
  {
    if id !in s.closings then s
    else Replace(s, id, s.closings[id].(daysWorked := daysWorked))
  }

  /**
   * `updateTotal`: recomputes `soma_valores` from the stored array. A missing row is
   * only logged; a hole in the array makes the sum throw.
   */
  function UpdateTotal(s: State, id: nat): (r: Result<State, Error>)
    ensures r == Failure(NotFound) <==> id !in s.closings
    ensures r == Failure(TypeError) <==> id in s.closings && !NoHoles(s.closings[id].dailyValues)
    ensures id in s.closings && NoHoles(s.closings[id].dailyValues) ==> r.Success?
    ensures r.Success? ==>
      && id in s.closings && id in r.value.closings
      && var c' := r.value.closings[id];
      && r.value == Replace(s, id, c')
      && c' == s.closings[id].(sumValues := c'.sumValues)
      && Consistent(c')
    ensures r.Success? && Valid(s) ==> Valid(r.value)
  {
    if id !in s.closings then Failure(NotFound)
    else
      var c := s.closings[id];
      if !NoHoles(c.dailyValues) then Failure(TypeError)
      else Success(Replace(s, id, c.(sumValues := Total(c.dailyValues))))
  }
}
