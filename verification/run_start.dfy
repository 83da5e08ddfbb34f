/** Starting a run (`start_run` in proxy/app/api/runs.py): the request is checked against
    the suite and the car table, and one PENDING item is created per test and selected car,
    test-major in `order_index` order and car-minor in request order. The ids the database
    hands out are parameters: the run's id and the id of its first item. */
module RunStart {
  import opened Wrappers
  import opened Domain
  import opened Sorting
  import opened Dispatch

  datatype StartRequest = StartRequest(suiteId: int, carIds: seq<int>, judgeCarId: Option<int>)

  const SuiteNotFoundError := "Suite not found"
  const InvalidCarsError := "One or more car IDs are invalid"
  const NoTestsError := "Suite has no tests"

  /** The car table's ids are distinct, as its primary key guarantees. */
  predicate Keyed(cars: seq<Car>) {
    forall i, j :: 0 <= i < j < |cars| ==> cars[i].id != cars[j].id
  }

  /** How many car rows have an id among `ids` (`WHERE id IN ids`). */
  function Matching(cars: seq<Car>, ids: seq<int>): (n: nat)
    ensures n <= |cars|
  {
    if |cars| == 0 then 0
    else Matching(cars[..|cars| - 1], ids) + (if cars[|cars| - 1].id in ids then 1 else 0)
  }

  lemma {:induction false} MatchingSameMembers(cars: seq<Car>, a: seq<int>, b: seq<int>)
    requires forall x :: x in a <==> x in b
    ensures Matching(cars, a) == Matching(cars, b)
    decreases |cars|
  {
    if |cars| > 0 {
      MatchingSameMembers(cars[..|cars| - 1], a, b);
    }
  }

  lemma {:induction false} MatchingEmpty(cars: seq<Car>)
    ensures Matching(cars, []) == 0
    decreases |cars|
  {
    if |cars| > 0 {
      MatchingEmpty(cars[..|cars| - 1]);
    }
  }

  lemma {:induction false} MatchingAppend(cars: seq<Car>, d: seq<int>, x: int)
    requires x !in d
    ensures Matching(cars, d + [x]) == Matching(cars, d) + Matching(cars, [x])
    decreases |cars|
  {
    if |cars| > 0 {
      MatchingAppend(cars[..|cars| - 1], d, x);
    }
  }

  /** In a keyed table an id matches one row when a car has it and none otherwise. */
  lemma {:induction false} MatchingOne(cars: seq<Car>, x: int)
    requires Keyed(cars)
    ensures Matching(cars, [x]) == if FindCar(cars, x).Some? then 1 else 0
    decreases |cars|
  {
    if |cars| > 0 {
      var init := cars[..|cars| - 1];
      MatchingOne(init, x);
      if cars[|cars| - 1].id == x {
        assert forall k :: 0 <= k < |init| ==> init[k].id != x by {
          forall k | 0 <= k < |init| ensures init[k].id != x {
            assert cars[k] == init[k];
          }
        }
      }
    }
  }

  /** Distinct ids match as many rows as there are ids exactly when every id names a car. */
  lemma {:induction false} MatchingAll(cars: seq<Car>, d: seq<int>)
    requires Keyed(cars) && NoDuplicates(d)
    ensures Matching(cars, d) <= |d|
    ensures Matching(cars, d) == |d| <==> forall x :: x in d ==> FindCar(cars, x).Some?
    decreases |d|
  {
    if |d| > 0 {
      var init := d[..|d| - 1];
      var x := d[|d| - 1];
      assert d == init + [x];
      assert x !in init;
      MatchingAll(cars, init);
      MatchingAppend(cars, init, x);
      MatchingOne(cars, x);
    } else {
      MatchingEmpty(cars);
    }
  }

  /** The source compares the number of car rows found with the number of distinct
      requested ids: they agree exactly when every requested id names a car. */
  lemma CarCountCheck(cars: seq<Car>, ids: seq<int>)
    requires Keyed(cars)
    ensures Matching(cars, ids) == |Dedup(ids)| <==> forall x :: x in ids ==> FindCar(cars, x).Some?
  {
    MatchingSameMembers(cars, ids, Dedup(ids));
    MatchingAll(cars, Dedup(ids));
  }

  /** The (test id, car id) pairs of a run: test-major, car-minor. */
  function Pairs(tests: seq<TestCase>, carIds: seq<int>): (r: seq<(int, int)>)
    ensures |r| == |tests| * |carIds|
  {
    if |tests| == 0 then [] else PairRow(tests[0].id, carIds) + Pairs(tests[1..], carIds)
  }

  function PairRow(testId: int, carIds: seq<int>): (r: seq<(int, int)>)
    ensures |r| == |carIds|
    ensures forall j :: 0 <= j < |carIds| ==> r[j] == (testId, carIds[j])
  {
    if |carIds| == 0 then [] else [(testId, carIds[0])] + PairRow(testId, carIds[1..])
  }

  /** Pair `i·m + j` (`m` cars) is test `i` with car `j`. */
  lemma {:induction false} PairsAt(tests: seq<TestCase>, carIds: seq<int>, i: nat, j: nat)
    requires i < |tests| && j < |carIds|
    ensures i * |carIds| + j < |Pairs(tests, carIds)|
    ensures Pairs(tests, carIds)[i * |carIds| + j] == (tests[i].id, carIds[j])
    decreases i
  {
    var m := |carIds|;
    var rest := Pairs(tests[1..], carIds);
    assert Pairs(tests, carIds) == PairRow(tests[0].id, carIds) + rest;
    assert |tests| * m == m + (|tests| - 1) * m;
    if i > 0 {
      PairsAt(tests[1..], carIds, i - 1, j);
      ShiftRow(i, j, m);
    }
  }

  /** A fresh PENDING item of the run per pair, numbered from `nextId`. */
  function CreateItems(runId: int, nextId: int, tests: seq<TestCase>, carIds: seq<int>): (r: seq<RunItem>)
    ensures |r| == |tests| * |carIds|
  {
    var p := Pairs(tests, carIds);
    seq(|p|, k requires 0 <= k < |p| => RunItem(nextId + k, runId, Some(p[k].0), Some(p[k].1), ItemPending, 0, None))
  }

  lemma ShiftRow(i: nat, j: nat, m: nat)
    requires i > 0
    ensures i * m + j == m + ((i - 1) * m + j)
  {
  }

  /** Every position below `n·m` is `i·m + j` for exactly one test `i` and car `j`. */
  lemma {:induction false} Decompose(k: nat, n: nat, m: nat) returns (i: nat, j: nat)
    requires k < n * m
    ensures i < n && j < m && k == i * m + j
    decreases n
  {
    assert n * m == m + (n - 1) * m;
    if k < m {
      i, j := 0, k;
    } else {
      var i', j' := Decompose(k - m, n - 1, m);
      i, j := i' + 1, j';
    }
  }

  /** Item `k` is test `i` with car `j` for the `i`, `j` with `k == i·m + j`. */
  lemma ItemAt(runId: int, nextId: int, tests: seq<TestCase>, carIds: seq<int>, k: nat) returns (i: nat, j: nat)
    requires k < |tests| * |carIds|
    ensures i < |tests| && j < |carIds| && k == i * |carIds| + j
    ensures CreateItems(runId, nextId, tests, carIds)[k] ==
            RunItem(nextId + k, runId, Some(tests[i].id), Some(carIds[j]), ItemPending, 0, None)
  {
    i, j := Decompose(k, |tests|, |carIds|);
    PairsAt(tests, carIds, i, j);
  }

  /** With distinct test ids and car ids, the lookup for test `i` and car `j` finds item
      `i·m + j`. */
  lemma FindCreated(runId: int, nextId: int, tests: seq<TestCase>, carIds: seq<int>, i: nat, j: nat)
    requires DistinctTestIds(tests) && NoDuplicates(carIds)
    requires i < |tests| && j < |carIds|
    ensures FindItem(CreateItems(runId, nextId, tests, carIds), runId, tests[i].id, carIds[j]) == Some(i * |carIds| + j)
  {
    CreatedFound(runId, nextId, tests, carIds, i, j);
    var found := FindItem(CreateItems(runId, nextId, tests, carIds), runId, tests[i].id, carIds[j]).value;
    var i', j' := ItemAt(runId, nextId, tests, carIds, found);
    SamePair(tests, carIds, i, j, i', j');
  }

  /** The lookup for a created pair finds some item. */
  lemma CreatedFound(runId: int, nextId: int, tests: seq<TestCase>, carIds: seq<int>, i: nat, j: nat)
    requires i < |tests| && j < |carIds|
    ensures FindItem(CreateItems(runId, nextId, tests, carIds), runId, tests[i].id, carIds[j]).Some?
  {
    var items := CreateItems(runId, nextId, tests, carIds);
    var k := i * |carIds| + j;
    PairsAt(tests, carIds, i, j);
    assert items[k].runId == runId && items[k].testId == Some(tests[i].id) && items[k].carId == Some(carIds[j]);
  }

  /** Distinct ids name one test and one car. */
  lemma SamePair(tests: seq<TestCase>, carIds: seq<int>, i: nat, j: nat, i': nat, j': nat)
    requires DistinctTestIds(tests) && NoDuplicates(carIds)
    requires i < |tests| && i' < |tests| && j < |carIds| && j' < |carIds|
    requires tests[i].id == tests[i'].id && carIds[j] == carIds[j']
    ensures i == i' && j == j'
  {
  }

  /** `start_run`: a missing suite is reported first, then any requested id without a car
      row, then a suite without tests; otherwise a QUEUED run and its items. */
  function StartRunAsWritten(runId: int, firstItemId: int, suiteExists: bool, cars: seq<Car>, suiteTests: seq<TestCase>, req: StartRequest): (r: Result<(RunRecord, seq<RunItem>)>)
    ensures !suiteExists ==> r == Failure(SuiteNotFoundError)
    ensures r.Success? ==> r.value.0 == RunRecord(runId, req.suiteId, RunQueued, req.carIds, req.judgeCarId)
    ensures r.Success? ==> r.value.1 == CreateItems(runId, firstItemId, OrderTests(suiteTests), req.carIds)
  {
    if !suiteExists then Failure(SuiteNotFoundError)
    else if Matching(cars, req.carIds) != |Dedup(req.carIds)| then Failure(InvalidCarsError)
    else
      var tests := OrderTests(suiteTests);
      if |tests| == 0 then Failure(NoTestsError)
      else Success((RunRecord(runId, req.suiteId, RunQueued, req.carIds, req.judgeCarId),
                    CreateItems(runId, firstItemId, tests, req.carIds)))
  }

  /** A run starts exactly when the suite exists, every requested id names a car, and the
      suite has tests; each failure has its own message. */
  lemma StartRunAccepts(runId: int, firstItemId: int, suiteExists: bool, cars: seq<Car>, suiteTests: seq<TestCase>, req: StartRequest)
    requires Keyed(cars)
    ensures var r := StartRunAsWritten(runId, firstItemId, suiteExists, cars, suiteTests, req);
            (r.Success? <==> suiteExists && (forall id :: id in req.carIds ==> FindCar(cars, id).Some?) && |suiteTests| > 0) &&
            (suiteExists && !(forall id :: id in req.carIds ==> FindCar(cars, id).Some?) ==> r == Failure(InvalidCarsError)) &&
            (suiteExists && (forall id :: id in req.carIds ==> FindCar(cars, id).Some?) && |suiteTests| == 0 ==> r == Failure(NoTestsError))
  {
    CarCountCheck(cars, req.carIds);
  }

  /** The items of a started run (`StartRunAsWritten` creates `CreateItems` of the ordered
      tests): one PENDING item per test and requested car, test `i` with car `j` at
      position `i·m + j`. */
  lemma StartedItems(runId: int, firstItemId: int, tests: seq<TestCase>, carIds: seq<int>, i: nat, j: nat)
    requires i < |tests| && j < |carIds|
    ensures var items := CreateItems(runId, firstItemId, tests, carIds);
            |items| == |tests| * |carIds| &&
            i * |carIds| + j < |items| &&
            items[i * |carIds| + j] ==
              RunItem(firstItemId + i * |carIds| + j, runId, Some(tests[i].id), Some(carIds[j]), ItemPending, 0, None)
  {
    PairsAt(tests, carIds, i, j);
  }

  // ---------------------------------------------------------------------------------------
  // Repeated car ids
  // ---------------------------------------------------------------------------------------

  /** A request naming the same car twice passes the car-count validation (the distinct ids all exist), and
      the run gets two items for the test and that car. The executor visits the car twice
      but looks up the first matching item both times, so the second item is never run: it
      stays PENDING while the run ends COMPLETED. */
  lemma RepeatedCarLeavesItemPending(t: TestCase, car: Car, conn: Connection, runId: int, firstItemId: int,
                                     exec: (nat, RunItem) -> RunItem)
    requires car.connectionId == conn.id
    ensures var r := StartRunAsWritten(runId, firstItemId, true, [car], [t], StartRequest(t.suiteId, [car.id, car.id], None));
            r.Success? && |r.value.1| == 2 &&
            var plan := Plan(r.value.1, runId, DispatchOrder([t], r.value.0.selectedCarIds, [car]), [conn]);
            var after := ApplyActions(r.value.1, plan, exec);
            (forall k :: 0 <= k < |plan| ==> ActionIndex(plan[k]) == 0) &&
            after[1].status == ItemPending &&
            FinalRunStatus(after, runId) == RunCompleted
  {
    var ids := [car.id, car.id];
    var items := CreateItems(runId, firstItemId, [t], ids);
    RepeatedCarStarts(t, car, runId, firstItemId);
    RepeatedCarItems(t, car, runId, firstItemId);
    RepeatedCarPlan(t, car, conn, runId, firstItemId, items);
    var plan := [RunItemAt(0, t, car, conn), RunItemAt(0, t, car, conn)];
    var after := ApplyActions(items, plan, exec);
    assert after[1] == items[1];
    assert !AllFailed(after, runId);
  }

  /** The start of a run whose request names its one car twice: two items, both PENDING,
      for the one test and that car. */
  lemma RepeatedCarStarts(t: TestCase, car: Car, runId: int, firstItemId: int)
    ensures var ids := [car.id, car.id];
            StartRunAsWritten(runId, firstItemId, true, [car], [t], StartRequest(t.suiteId, ids, None)) ==
            Success((RunRecord(runId, t.suiteId, RunQueued, ids, None), CreateItems(runId, firstItemId, [t], ids)))
  {
    var ids := [car.id, car.id];
    assert Matching([car], ids) == 1 by {
      assert [car][..0] == [];
    }
    assert Dedup(ids) == [car.id] by {
      assert ids[..1] == [car.id];
      assert Dedup([car.id]) == [car.id] by {
        assert [car.id][..0] == [];
      }
    }
    assert OrderTests([t]) == [t] by {
      SortBySorted([t], OrderIndexLe);
    }
  }

  lemma RepeatedCarItems(t: TestCase, car: Car, runId: int, firstItemId: int)
    ensures CreateItems(runId, firstItemId, [t], [car.id, car.id]) ==
            [RunItem(firstItemId, runId, Some(t.id), Some(car.id), ItemPending, 0, None),
             RunItem(firstItemId + 1, runId, Some(t.id), Some(car.id), ItemPending, 0, None)]
  {
    assert Pairs([t], [car.id, car.id]) == [(t.id, car.id), (t.id, car.id)] by {
      assert [t][1..] == [];
    }
  }

  /** The executor's plan for those two items: the car is visited twice and both visits
      resolve to item 0. */
  lemma RepeatedCarPlan(t: TestCase, car: Car, conn: Connection, runId: int, firstItemId: int, items: seq<RunItem>)
    requires car.connectionId == conn.id
    requires items == [RunItem(firstItemId, runId, Some(t.id), Some(car.id), ItemPending, 0, None),
                       RunItem(firstItemId + 1, runId, Some(t.id), Some(car.id), ItemPending, 0, None)]
    ensures Plan(items, runId, DispatchOrder([t], [car.id, car.id], [car]), [conn]) ==
            [RunItemAt(0, t, car, conn), RunItemAt(0, t, car, conn)]
  {
    var ids := [car.id, car.id];
    assert OrderedCars(ids, [car]) == [car, car] by {
      assert ids[1..][1..] == [];
    }
    var visits := DispatchOrder([t], ids, [car]);
    assert visits == [(t, car), (t, car)] by {
      assert [t][1..] == [];
    }
    assert FindItem(items, runId, t.id, car.id) == Some(0);
    assert FindConnection([conn], car.connectionId) == Some(conn);
    assert visits[1..] == [(t, car)];
    assert Plan(items, runId, visits[1..][1..], [conn]) == [] by {
      assert visits[1..][1..] == [];
    }
    assert Plan(items, runId, visits[1..], [conn]) == [RunItemAt(0, t, car, conn)];
  }

  /** The corrected start: the requested ids are deduplicated, keeping their first
      appearance, before the run and its items are created. */
  function StartRun(runId: int, firstItemId: int, suiteExists: bool, cars: seq<Car>, suiteTests: seq<TestCase>, req: StartRequest): (r: Result<(RunRecord, seq<RunItem>)>)
    ensures r.Success? <==> StartRunAsWritten(runId, firstItemId, suiteExists, cars, suiteTests, req).Success?
    ensures r.Failure? ==> r == StartRunAsWritten(runId, firstItemId, suiteExists, cars, suiteTests, req)
    ensures r.Success? ==> NoDuplicates(r.value.0.selectedCarIds) &&
                           (forall x :: x in r.value.0.selectedCarIds <==> x in req.carIds)
  {
    var ids := Dedup(req.carIds);
    MatchingSameMembers(cars, ids, req.carIds);
    assert Dedup(ids) == ids by { DedupDistinct(ids); }
    StartRunAsWritten(runId, firstItemId, suiteExists, cars, suiteTests, req.(carIds := ids))
  }

  /** Test ids are distinct, as the test table's primary key guarantees. */
  predicate DistinctTestIds(tests: seq<TestCase>) {
    forall a, b :: 0 <= a < b < |tests| ==> tests[a].id != tests[b].id
  }

  lemma OrderTestsDistinct(tests: seq<TestCase>)
    requires DistinctTestIds(tests)
    ensures DistinctTestIds(OrderTests(tests))
  {
    var o := OrderTests(tests);
    assert NoDuplicates(tests);
    PermutationNoDuplicates(tests, o);
    forall a, b | 0 <= a < b < |o| ensures o[a].id != o[b].id {
      DistinctTestsDistinctIds(tests, o[a], o[b]);
    }
  }

  lemma DistinctTestsDistinctIds(tests: seq<TestCase>, x: TestCase, y: TestCase)
    requires DistinctTestIds(tests)
    requires x in multiset(tests) && y in multiset(tests) && x != y
    ensures x.id != y.id
  {
    var p :| 0 <= p < |tests| && tests[p] == x;
    var q :| 0 <= q < |tests| && tests[q] == y;
    assert p != q;
  }

  /** When every selected id names a car, the known ids are all of them. */
  lemma {:induction false} KnownIdsAll(selected: seq<int>, cars: seq<Car>)
    requires forall x :: x in selected ==> FindCar(cars, x).Some?
    ensures KnownIds(selected, cars) == selected
    decreases |selected|
  {
    if |selected| > 0 {
      KnownIdsAll(selected[1..], cars);
      assert selected == [selected[0]] + selected[1..];
    }
  }

  /** With the ids deduplicated, every item of a started run is the target of one of the
      executor's actions, so none is left behind. */
  lemma EveryItemDispatched(runId: int, firstItemId: int, cars: seq<Car>, suiteTests: seq<TestCase>, req: StartRequest,
                            conns: seq<Connection>, k: nat)
    requires Keyed(cars) && DistinctTestIds(suiteTests)
    requires StartRun(runId, firstItemId, true, cars, suiteTests, req).Success?
    requires k < |StartRun(runId, firstItemId, true, cars, suiteTests, req).value.1|
    ensures var r := StartRun(runId, firstItemId, true, cars, suiteTests, req).value;
            var plan := Plan(r.1, runId, DispatchOrder(suiteTests, r.0.selectedCarIds, cars), conns);
            exists a :: 0 <= a < |plan| && ActionIndex(plan[a]) == k
  {
    var ids := Dedup(req.carIds);
    var tests := OrderTests(suiteTests);
    var n, m := |tests|, |ids|;
    var items := CreateItems(runId, firstItemId, tests, ids);
    assert StartRun(runId, firstItemId, true, cars, suiteTests, req).value.1 == items;
    // every deduplicated id names a car
    StartRunAccepts(runId, firstItemId, true, cars, suiteTests, req.(carIds := ids));
    KnownIdsAll(ids, cars);
    OrderedCarsIds(ids, cars);
    var oc := OrderedCars(ids, cars);
    OrderTestsDistinct(suiteTests);
    // the visit at position k is test i with car j, and its lookup finds item k
    var i, j := ItemAt(runId, firstItemId, tests, ids, k);
    VisitsAt(tests, oc, i, j);
    var visits := DispatchOrder(suiteTests, ids, cars);
    assert visits[k] == (tests[i], oc[j]);
    FindCreated(runId, firstItemId, tests, ids, i, j);
    PlanCoversVisit(items, runId, visits, conns, k);
  }
}
