/** The row transformation of `mapFields`: every fetched row keeps its own properties and
    gains `AccountOwner` (the owner's name) and `NameUrl` (`"/"` followed by the id). */
module RowShaper {
  import opened JsValues

  const AccountOwner := "AccountOwner"
  const NameUrl := "NameUrl"

  /** `{ ...row, AccountOwner: row.Owner.Name, NameUrl: "/" + row.Id }`. Reading `Name`
      throws when the row has no `Owner`. */
  function ShapeRow(row: Row): (r: Result<Row>)
    ensures r.Thrown? <==> Get(row, "Owner") == Undefined
    ensures r.Ok? ==>
      && r.value.Keys == row.Keys + {AccountOwner, NameUrl}
      && (forall k :: k in row && k != AccountOwner && k != NameUrl ==> r.value[k] == row[k])
      && Member(Get(row, "Owner"), "Name") == Ok(r.value[AccountOwner])
      && r.value[NameUrl] == Str("/" + ToJsString(Get(row, "Id")))
  {
    match Member(Get(row, "Owner"), "Name")
    case Thrown(e) => Thrown(e)
    case Ok(owner) => Ok(row[AccountOwner := owner][NameUrl := Str("/" + ToJsString(Get(row, "Id")))])
  }

  /** `data.map(...)` over the fetched rows: the first row without an owner makes the whole
      map throw; otherwise every row is shaped, in order. */
  function ShapeAll(rows: seq<Row>): (r: Result<seq<Row>>)
    ensures r.Thrown? <==> exists i :: 0 <= i < |rows| && ShapeRow(rows[i]).Thrown?
    ensures r.Ok? ==> |r.value| == |rows| && forall i :: 0 <= i < |rows| ==> ShapeRow(rows[i]) == Ok(r.value[i])
  {
    if rows == [] then Ok([])
    else
      match ShapeRow(rows[0])
      case Thrown(e) => Thrown(e)
      case Ok(head) =>
        match ShapeAll(rows[1..])
        case Thrown(e) => Thrown(e)
        case Ok(tail) => Ok([head] + tail)
  }

  /** Shaping an already shaped row changes nothing: the derived fields are recomputed from
      `Owner` and `Id`, which shaping leaves alone. */
  lemma ShapeRowIdempotent(row: Row, shaped: Row)
    requires ShapeRow(row) == Ok(shaped)
    ensures ShapeRow(shaped) == Ok(shaped)
  {
    assert Get(shaped, "Owner") == Get(row, "Owner");
    assert Get(shaped, "Id") == Get(row, "Id");
    var again := shaped[AccountOwner := shaped[AccountOwner]][NameUrl := shaped[NameUrl]];
    assert again == shaped;
  }

  /** Shaping a whole shaped result again gives it back unchanged. */
  lemma {:induction false} ShapeAllIdempotent(rows: seq<Row>, shaped: seq<Row>)
    requires ShapeAll(rows) == Ok(shaped)
    ensures ShapeAll(shaped) == Ok(shaped)
  {
    if rows != [] {
      ShapeRowIdempotent(rows[0], shaped[0]);
      ShapeAllIdempotent(rows[1..], shaped[1..]);
      assert shaped == [shaped[0]] + shaped[1..];
    }
  }
}
