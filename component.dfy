/** The account-table component: its fields and the handlers that update them. Calls into
    the platform are not made here; what they return is a parameter of the handler, and what
    the component asks of the platform is appended to `effects`. */
module Component {
  import opened JsValues
  import opened Comparator
  import opened Sorting
  import opened RowShaper
  import opened SaveWorkflow

  /** What the wire adapter hands to `wiredAccounts`: `data` is `None` when it is falsy. */
  datatype WireResponse = WireResponse(data: Option<seq<Row>>, error: Value)

  /** How the Apex call made by the filter handler settled: a resolved result (`None` for a
      falsy one) or a rejection. */
  datatype FetchOutcome = Resolved(result: Option<seq<Row>>) | Rejected(reason: Value)

  /** `sortDirection === "asc" ? 1 : -1`. */
  function DirectionMultiplier(sortDirection: string): int {
    if sortDirection == "asc" then 1 else -1
  }

  /** Two rows used by the sort scenarios below. */
  const RowA: Row := map["Name" := Str("A"), "AnnualRevenue" := Num(100)]
  const RowB: Row := map["Name" := Str("B"), "AnnualRevenue" := Num(50)]

  /** Of the two orders of two distinct rows, exactly one is ordered when the first row's
      key is greater than the second's under the chosen direction. */
  lemma {:induction false} TwoRowsOrder(s: seq<Row>, x: Row, y: Row, field: string, reverse: int)
    requires x != y
    requires multiset(s) == multiset([x, y])
    requires Compare(field, reverse, None, x, y) > 0
    requires Ordered(s, field, reverse, None)
    ensures s == [y, x]
  {
    assert |s| == |multiset(s)| == 2;
    assert s == [s[0], s[1]];
    assert s[0] in multiset(s) && s[1] in multiset(s);
  }

  /** Sorting `[B, A]` by `Name` ascending can only give `[A, B]`. */
  lemma ScenarioSortByNameAscending(s: seq<Row>)
    requires multiset(s) == multiset([RowB, RowA])
    requires Ordered(s, "Name", DirectionMultiplier("asc"), None)
    ensures s == [RowA, RowB]
  {
    assert StrLess("A", "B");
    assert RowA["Name"] != RowB["Name"];
    TwoRowsOrder(s, RowB, RowA, "Name", 1);
  }

  /** Sorting `[B, A]` by `AnnualRevenue` descending can only give `[A, B]` (100 before
      50). */
  lemma ScenarioSortByRevenueDescending(s: seq<Row>)
    requires multiset(s) == multiset([RowB, RowA])
    requires Ordered(s, "AnnualRevenue", DirectionMultiplier("desc"), None)
    ensures s == [RowA, RowB]
  {
    assert RowA["Name"] != RowB["Name"];
    TwoRowsOrder(s, RowB, RowA, "AnnualRevenue", -1);
  }

  class CustomComponent {
    var data: Option<seq<Row>>
    var error: Value
    var searchText: string
    var fldsItemValues: seq<Row>
    var sortDirection: string
    var sortedBy: Option<string>
    const defaultSortDirection: string
    /** The calls made to the platform so far, oldest first. */
    var effects: seq<Effect>

    constructor ()
      ensures data == Some([]) && error == Undefined && searchText == ""
      ensures fldsItemValues == [] && sortDirection == "asc" && sortedBy == None
      ensures defaultSortDirection == "asc" && effects == []
    {
      data := Some([]);
      error := Undefined;
      searchText := "";
      fldsItemValues := [];
      sortDirection := "asc";
      sortedBy := None;
      defaultSortDirection := "asc";
      effects := [];
    }

    /** `mapFields(rows)`: stores the shaped rows and clears `error`; when a row has no
        owner the map throws before anything is assigned. */
    method MapFields(rows: seq<Row>) returns (thrown: bool)
      modifies this`data, this`error
      ensures thrown <==> ShapeAll(rows).Thrown?
      ensures !thrown ==> data == Some(ShapeAll(rows).value) && error == Undefined
      ensures thrown ==> data == old(data) && error == old(error)
    {
      match ShapeAll(rows)
      case Thrown(_) =>
        thrown := true;
      case Ok(shaped) =>
        data := Some(shaped);
        error := Undefined;
        thrown := false;
    }

    /** `wiredAccounts({ data, error })`: shapes truthy data, otherwise clears `data` and
        keeps the error. `thrown` reports an exception escaping to the wire adapter. */
    method WiredAccounts(response: WireResponse) returns (thrown: bool)
      modifies this`data, this`error
      ensures response.data.None? ==> !thrown && data == None && error == response.error
      ensures response.data.Some? ==>
        && (thrown <==> ShapeAll(response.data.value).Thrown?)
        && (!thrown ==> data == Some(ShapeAll(response.data.value).value) && error == Undefined)
        && (thrown ==> data == old(data) && error == old(error))
    {
      if response.data.Some? {
        thrown := MapFields(response.data.value);
      } else {
        data := None;
        error := response.error;
        thrown := false;
      }
    }

    /** `handleFilterChange(event)`: records the new search text and fetches with it; a
        truthy result is shaped and stored, while a falsy result, a rejection or an
        exception while shaping leaves `data` and `error` as they were. */
    method HandleFilterChange(value: string, fetch: FetchOutcome)
      modifies this`searchText, this`data, this`error, this`effects
      ensures searchText == value
      ensures effects == old(effects) + [FetchRecords(value)]
      ensures if fetch.Resolved? && fetch.result.Some? && ShapeAll(fetch.result.value).Ok?
              then data == Some(ShapeAll(fetch.result.value).value) && error == Undefined
              else data == old(data) && error == old(error)
    {
      searchText := value;
      effects := effects + [FetchRecords(searchText)];
      if fetch.Resolved? && fetch.result.Some? {
        var _ := MapFields(fetch.result.value);
      }
    }

    /** `onHandleSort(event)`: sorts a copy of `data` by `fieldName`, ascending for "asc"
        and descending for any other direction, then stores it with the event's direction
        and field. Spreading undefined `data` throws before any assignment. */
    method OnHandleSort(fieldName: string, direction: string) returns (thrown: bool)
      modifies this`data, this`sortDirection, this`sortedBy
      ensures thrown <==> old(data).None?
      ensures thrown ==> data == old(data) && sortDirection == old(sortDirection) && sortedBy == old(sortedBy)
      ensures !thrown ==>
        && data.Some?
        && multiset(data.value) == multiset(old(data).value)
        && Ordered(data.value, fieldName, DirectionMultiplier(direction), None)
        && (direction == "asc" ==>
              forall i :: 0 < i < |data.value| ==>
                !Greater(Key(fieldName, None, data.value[i - 1]), Key(fieldName, None, data.value[i])))
        && (direction != "asc" ==>
              forall i :: 0 < i < |data.value| ==>
                !Greater(Key(fieldName, None, data.value[i]), Key(fieldName, None, data.value[i - 1])))
        && sortDirection == direction
        && sortedBy == Some(fieldName)
    {
      if data.None? {
        return true;
      }
      var rows := data.value;
      var cloneData := new Row[|rows|](i requires 0 <= i < |rows| => rows[i]);
      assert cloneData[..] == rows;
      var cmp := SortBy(fieldName, DirectionMultiplier(direction), None);
      SortByAntisymmetric(fieldName, DirectionMultiplier(direction), None);
      Sort(cloneData, cmp);
      OrderedBySortBy(cloneData[..], fieldName, DirectionMultiplier(direction), None);
      OrderedMeansMonotoneKeys(cloneData[..], fieldName, DirectionMultiplier(direction), None);
      data := Some(cloneData[..]);
      sortDirection := direction;
      sortedBy := Some(fieldName);
      thrown := false;
    }

    /** `saveHandleAction(event)` once every update call and the refresh have settled with
        the given outcomes: one update per draft, then the outcome rule of `Settle`; the
        drafts are cleared in every case. */
    method SaveHandleAction(draftValues: seq<Row>, outcomes: seq<bool>, refreshOk: bool)
      requires |outcomes| == |draftValues|
      modifies this`fldsItemValues, this`effects
      ensures fldsItemValues == []
      ensures effects == old(effects) + SaveLog(draftValues, outcomes, refreshOk)
    {
      fldsItemValues := draftValues;
      var inputsItems := RecordInputs(fldsItemValues);
      effects := effects + UpdateCalls(inputsItems);
      if AllSucceeded(outcomes) {
        effects := effects + [SuccessToast];
        fldsItemValues := [];
        effects := effects + [Refresh];
        if !refreshOk {
          effects := effects + [ErrorToast];
        }
      } else {
        effects := effects + [ErrorToast];
      }
      fldsItemValues := [];
    }
  }
}
