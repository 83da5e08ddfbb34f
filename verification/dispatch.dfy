/** The run-level control of the race executor (`_execute_run` in
    proxy/app/runs/executor.py): the order in which a run's tests and cars are visited,
    the action each visit takes on the run's items, and the status the run ends with.
    Database reads become parameters. */
module Dispatch {
  import opened Wrappers
  import opened Domain
  import opened Sorting

  // ---------------------------------------------------------------------------------------
  // Dispatch order (_execute_run)
  // ---------------------------------------------------------------------------------------

  predicate OrderIndexLe(a: TestCase, b: TestCase) {
    a.orderIndex <= b.orderIndex
  }

  /** The suite's tests by ascending `order_index`; ties keep the order the rows are
      given in. */
  function OrderTests(tests: seq<TestCase>): (r: seq<TestCase>)
    ensures |r| == |tests|
    ensures multiset(r) == multiset(tests)
  {
    SortBy(tests, OrderIndexLe)
  }

  lemma OrderTestsSorted(tests: seq<TestCase>)
    ensures forall i, j :: 0 <= i < j < |OrderTests(tests)| ==> OrderTests(tests)[i].orderIndex <= OrderTests(tests)[j].orderIndex
  {
    SortByCorrect(tests, OrderIndexLe, if |tests| > 0 then tests[0] else TestCase(0, 0, 0, "", None, "", None, None));
  }

  /** The car row with this id (the last one, as a dict built from the rows keeps). */
  function FindCar(cars: seq<Car>, id: int): (r: Option<Car>)
    ensures r.Some? ==> r.value in cars && r.value.id == id
    ensures r.None? <==> forall k :: 0 <= k < |cars| ==> cars[k].id != id
  {
    if |cars| == 0 then None
    else if cars[|cars| - 1].id == id then Some(cars[|cars| - 1])
    else FindCar(cars[..|cars| - 1], id)
  }

  /** The selected ids that name an existing car, in selection order. */
  function KnownIds(selected: seq<int>, cars: seq<Car>): (r: seq<int>)
    ensures |r| <= |selected|
    ensures forall id :: id in r <==> id in selected && FindCar(cars, id).Some?
  {
    if |selected| == 0 then []
    else (if FindCar(cars, selected[0]).Some? then [selected[0]] else []) + KnownIds(selected[1..], cars)
  }

  /** The selected cars in selection order; ids without a car row are skipped. */
  function OrderedCars(selected: seq<int>, cars: seq<Car>): (r: seq<Car>)
    ensures |r| <= |selected|
    ensures forall k :: 0 <= k < |r| ==> r[k] in cars
  {
    if |selected| == 0 then []
    else
      match FindCar(cars, selected[0])
      case Some(car) => [car] + OrderedCars(selected[1..], cars)
      case None => OrderedCars(selected[1..], cars)
  }

  /** The cars visited are exactly the selected ids that exist, in selection order. */
  lemma {:induction false} OrderedCarsIds(selected: seq<int>, cars: seq<Car>)
    ensures |OrderedCars(selected, cars)| == |KnownIds(selected, cars)|
    ensures forall k :: 0 <= k < |OrderedCars(selected, cars)| ==> OrderedCars(selected, cars)[k].id == KnownIds(selected, cars)[k]
    decreases |selected|
  {
    if |selected| > 0 {
      OrderedCarsIds(selected[1..], cars);
    }
  }

  /** Test-major, car-minor visiting order. */
  function Visits(tests: seq<TestCase>, cars: seq<Car>): (r: seq<(TestCase, Car)>)
    ensures |r| == |tests| * |cars|
  {
    if |tests| == 0 then [] else Row(tests[0], cars) + Visits(tests[1..], cars)
  }

  function Row(t: TestCase, cars: seq<Car>): (r: seq<(TestCase, Car)>)
    ensures |r| == |cars|
    ensures forall j :: 0 <= j < |cars| ==> r[j] == (t, cars[j])
  {
    if |cars| == 0 then [] else [(t, cars[0])] + Row(t, cars[1..])
  }

  /** Where row `i` starts when every row holds `n` visits. */
  function RowStart(i: nat, n: nat): nat {
    if i == 0 then 0 else RowStart(i - 1, n) + n
  }

  lemma {:induction false} RowStartIsProduct(i: nat, n: nat)
    ensures RowStart(i, n) == i * n
  {
    if i > 0 {
      RowStartIsProduct(i - 1, n);
      assert i * n == (i - 1) * n + n;
    }
  }

  /** The visit at the start of row `i`, plus `j`, is test `i` with car `j`. */
  lemma {:induction false} VisitsAtRowStart(tests: seq<TestCase>, cars: seq<Car>, i: nat, j: nat)
    requires i < |tests| && j < |cars|
    ensures RowStart(i, |cars|) + j < |Visits(tests, cars)|
    ensures Visits(tests, cars)[RowStart(i, |cars|) + j] == (tests[i], cars[j])
    decreases i
  {
    var row := Row(tests[0], cars);
    var rest := Visits(tests[1..], cars);
    assert Visits(tests, cars) == row + rest;
    if i > 0 {
      VisitsAtRowStart(tests[1..], cars, i - 1, j);
      assert tests[1..][i - 1] == tests[i];
    }
  }

  /** The visit at position `i·|cars| + j` is test `i` with car `j`. */
  lemma VisitsAt(tests: seq<TestCase>, cars: seq<Car>, i: nat, j: nat)
    requires i < |tests| && j < |cars|
    ensures i * |cars| + j < |Visits(tests, cars)|
    ensures Visits(tests, cars)[i * |cars| + j] == (tests[i], cars[j])
  {
    RowStartIsProduct(i, |cars|);
    VisitsAtRowStart(tests, cars, i, j);
  }

  /** The whole visiting order of a run. */
  function DispatchOrder(tests: seq<TestCase>, selected: seq<int>, cars: seq<Car>): seq<(TestCase, Car)> {
    Visits(OrderTests(tests), OrderedCars(selected, cars))
  }

  // ---------------------------------------------------------------------------------------
  // Item lookup and the per-visit action
  // ---------------------------------------------------------------------------------------

  /** The first item of the run for this test and car (what `db.scalar` returns). */
  function FindItem(items: seq<RunItem>, runId: int, testId: int, carId: int): (r: Option<nat>)
    ensures r.Some? ==> r.value < |items| && items[r.value].runId == runId &&
                        items[r.value].testId == Some(testId) && items[r.value].carId == Some(carId)
    ensures r.Some? ==> forall k :: 0 <= k < r.value ==>
                          !(items[k].runId == runId && items[k].testId == Some(testId) && items[k].carId == Some(carId))
    ensures r.None? <==> forall k :: 0 <= k < |items| ==>
                          !(items[k].runId == runId && items[k].testId == Some(testId) && items[k].carId == Some(carId))
  {
    if |items| == 0 then None
    else if items[0].runId == runId && items[0].testId == Some(testId) && items[0].carId == Some(carId) then Some(0)
    else
      match FindItem(items[1..], runId, testId, carId)
      case None => None
      case Some(k) => Some(k + 1)
  }

  function FindConnection(conns: seq<Connection>, id: int): (r: Option<Connection>)
    ensures r.Some? ==> r.value in conns && r.value.id == id
    ensures r.None? <==> forall k :: 0 <= k < |conns| ==> conns[k].id != id
  {
    if |conns| == 0 then None
    else if conns[0].id == id then Some(conns[0])
    else FindConnection(conns[1..], id)
  }

  const ConnectionMissingError := "Connection missing"

  /** What one visit does to the item list. */
  datatype Action =
    | RunItemAt(index: nat, test: TestCase, car: Car, conn: Connection)
    | MissingConnection(index: nat)

  function ActionIndex(a: Action): nat {
    match a
    case RunItemAt(i, _, _, _) => i
    case MissingConnection(i) => i
  }

  /** The actions of the visits, in order: a visit without an item does nothing, one whose
      car's connection is gone fails its item, any other runs its item. */
  function Plan(items: seq<RunItem>, runId: int, visits: seq<(TestCase, Car)>, conns: seq<Connection>): (r: seq<Action>)
    ensures |r| <= |visits|
    ensures forall k :: 0 <= k < |r| ==> ActionIndex(r[k]) < |items|
  {
    if |visits| == 0 then []
    else
      var (t, car) := visits[0];
      var rest := Plan(items, runId, visits[1..], conns);
      match FindItem(items, runId, t.id, car.id)
      case None => rest
      case Some(i) =>
        match FindConnection(conns, car.connectionId)
        case None => [MissingConnection(i)] + rest
        case Some(c) => [RunItemAt(i, t, car, c)] + rest
  }

  /** A visit whose test and car have an item yields an action on the first such item. */
  lemma {:induction false} PlanCoversVisit(items: seq<RunItem>, runId: int, visits: seq<(TestCase, Car)>, conns: seq<Connection>, v: nat)
    requires v < |visits|
    requires FindItem(items, runId, visits[v].0.id, visits[v].1.id).Some?
    ensures exists k :: 0 <= k < |Plan(items, runId, visits, conns)| &&
                        ActionIndex(Plan(items, runId, visits, conns)[k]) == FindItem(items, runId, visits[v].0.id, visits[v].1.id).value
    decreases v
  {
    var p := Plan(items, runId, visits, conns);
    var rest := Plan(items, runId, visits[1..], conns);
    if v == 0 {
      assert ActionIndex(p[0]) == FindItem(items, runId, visits[0].0.id, visits[0].1.id).value;
    } else {
      PlanCoversVisit(items, runId, visits[1..], conns, v - 1);
      var k :| 0 <= k < |rest| && ActionIndex(rest[k]) == FindItem(items, runId, visits[v].0.id, visits[v].1.id).value;
      if |p| == |rest| + 1 {
        assert p[k + 1] == rest[k];
      } else {
        assert p == rest;
      }
    }
  }

  /** Apply the actions; `exec(k, item)` is what running the item of the `k`-th action
      leaves in its row. */
  function ApplyActions(items: seq<RunItem>, actions: seq<Action>, exec: (nat, RunItem) -> RunItem): (r: seq<RunItem>)
    ensures |r| == |items|
    ensures forall i :: 0 <= i < |items| && (forall k :: 0 <= k < |actions| ==> ActionIndex(actions[k]) != i) ==> r[i] == items[i]
    decreases |actions|
  {
    if |actions| == 0 then items
    else
      var a := actions[|actions| - 1];
      var before := ApplyActions(items, actions[..|actions| - 1], exec);
      var i := ActionIndex(a);
      if i >= |before| then before
      else
        match a
        case MissingConnection(_) =>
          before[i := before[i].(status := ItemFailed, errorMessage := Some(ConnectionMissingError))]
        case RunItemAt(_, _, _, _) => before[i := exec(|actions| - 1, before[i])]
  }

  // ---------------------------------------------------------------------------------------
  // Final run status
  // ---------------------------------------------------------------------------------------

  function CountRun(items: seq<RunItem>, runId: int): (n: nat)
    ensures n <= |items|
  {
    if |items| == 0 then 0 else (if items[0].runId == runId then 1 else 0) + CountRun(items[1..], runId)
  }

  function CountRunFailed(items: seq<RunItem>, runId: int): (n: nat)
    ensures n <= CountRun(items, runId)
  {
    if |items| == 0 then 0
    else (if items[0].runId == runId && items[0].status == ItemFailed then 1 else 0) + CountRunFailed(items[1..], runId)
  }

  predicate HasItems(items: seq<RunItem>, runId: int) {
    exists k :: 0 <= k < |items| && items[k].runId == runId
  }

  predicate AllFailed(items: seq<RunItem>, runId: int) {
    forall k :: 0 <= k < |items| && items[k].runId == runId ==> items[k].status == ItemFailed
  }

  lemma {:induction false} CountsMeaning(items: seq<RunItem>, runId: int)
    ensures CountRun(items, runId) > 0 <==> HasItems(items, runId)
    ensures CountRunFailed(items, runId) == CountRun(items, runId) <==> AllFailed(items, runId)
    decreases |items|
  {
    if |items| > 0 {
      CountsMeaning(items[1..], runId);
      assert forall k :: 1 <= k < |items| ==> items[k] == items[1..][k - 1];
      if HasItems(items[1..], runId) {
        var k :| 0 <= k < |items[1..]| && items[1..][k].runId == runId;
        assert items[k + 1].runId == runId;
      }
    }
  }

  /** The status the run ends with: FAILED when it has items and every one failed,
      COMPLETED otherwise (an empty run, or any item that did not fail). */
  function FinalRunStatus(items: seq<RunItem>, runId: int): (s: RunStatus)
    ensures s == RunFailed <==> HasItems(items, runId) && AllFailed(items, runId)
    ensures s != RunFailed ==> s == RunCompleted
  {
    CountsMeaning(items, runId);
    var total := CountRun(items, runId);
    var failed := CountRunFailed(items, runId);
    if total > 0 && failed == total then RunFailed else RunCompleted
  }
}
