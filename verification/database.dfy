/**
 * The two tables the service owns, held in memory: `selecionado` (the selected year
 * and month) and `fechamento_mensal` (one row per monthly closing, keyed by an
 * auto-increment id).
 */
module Database {
  import opened DailyValues

  /** A row of `selecionado`. */
  datatype Selection = Selection(year: int, month: int)

  /** A row of `fechamento_mensal`. */
  datatype Closing = Closing(
    year: int,
    month: int,
    daysWorked: int,
    maxGoal: real,
    minGoal: real,
    dailyValues: Days,
    sumValues: real)

  /** Both tables, plus the next auto-increment id of `fechamento_mensal`. */
  datatype State = State(selection: seq<Selection>, closings: map<nat, Closing>, nextId: nat)

  /** Freshly created tables: no rows, ids start at 1. */
  const Empty: State := State([], map[], 1)

  /** What every reachable state satisfies: ids already handed out lie below the
      counter, and `selecionado` holds at most one row. */
  predicate Valid(s: State)
  {
    && |s.selection| <= 1
    && forall id | id in s.closings :: id < s.nextId
  }

  /** The invariant holds from the start. */
  lemma EmptyValid()
    ensures Valid(Empty)
  {
  }

  /** `soma_valores` agrees with the stored array. */
  predicate Consistent(c: Closing)
  {
    NoHoles(c.dailyValues) && c.sumValues == Total(c.dailyValues)
  }

  /** Some row of `fechamento_mensal` is for this year and month. */
  predicate HasClosingFor(s: State, year: int, month: int)
  {
    exists id | id in s.closings :: s.closings[id].year == year && s.closings[id].month == month
  }

  /** `INSERT INTO fechamento_mensal`: the row gets the next auto-increment id. */
  function Insert(s: State, c: Closing): (r: State)
    ensures s.nextId in r.closings && r.closings[s.nextId] == c
    ensures r.closings.Keys == s.closings.Keys + {s.nextId}
    ensures forall id | id in s.closings && id != s.nextId :: r.closings[id] == s.closings[id]
    ensures r.nextId == s.nextId + 1 && r.selection == s.selection
    ensures Valid(s) ==> Valid(r)
  {
    s.(closings := s.closings[s.nextId := c], nextId := s.nextId + 1)
  }

  /** `UPDATE fechamento_mensal ... WHERE id = ?` replacing a whole row. */
  function Replace(s: State, id: nat, c: Closing): (r: State)
    requires id in s.closings
    ensures r.closings.Keys == s.closings.Keys && r.closings[id] == c
    ensures forall other | other in s.closings && other != id :: r.closings[other] == s.closings[other]
    ensures r.nextId == s.nextId && r.selection == s.selection
    ensures Valid(s) ==> Valid(r)
  {
    s.(closings := s.closings[id := c])
  }
}
