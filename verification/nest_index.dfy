/**
 * `transformNestData`: every exported extractor applied to one document,
 * collected under the extractor's name.
 */
module NestIndex {
  import opened Wrappers
  import opened JsValue
  import opened Lodash
  import opened NestProcessor

  /** A plain object built field by field: names in insertion order, each holding a value or `undefined`. */
  type Record = seq<(string, Option<Json>)>

  /** `rec[name]`: `undefined` when no field has that name, and when the field holds `undefined`. */
  function Field(rec: Record, name: string): (r: Option<Json>)
    ensures (forall i :: 0 <= i < |rec| ==> rec[i].0 != name) ==> r.None?
    ensures r.Some? ==> exists i :: 0 <= i < |rec| && rec[i] == (name, r)
  {
    match Lookup(rec, name)
    case Some(v) => v
    case None => None
  }

  /**
   * lodash `mapValues(fields, f => f(body))`: the extractors run in order,
   * each result is stored under the extractor's name, and the first
   * exception escapes.
   */
  function MapValues(fields: seq<(string, Extractor)>, body: Json): (r: Result<Record, JsError>)
    ensures r.Success? <==> forall i :: 0 <= i < |fields| ==> Extract(fields[i].1, body).Success?
    ensures r.Success? ==> |r.value| == |fields|
    ensures r.Success? ==> forall i :: 0 <= i < |fields| ==>
              r.value[i].0 == fields[i].0 && Extract(fields[i].1, body) == Success(r.value[i].1)
    ensures r.Failure? ==> exists i :: 0 <= i < |fields| && Extract(fields[i].1, body) == Failure(r.error)
                                        && forall j :: 0 <= j < i ==> Extract(fields[j].1, body).Success?
  {
    if fields == [] then Success([])
    else match Extract(fields[0].1, body)
      case Failure(e) => Failure(e)
      case Success(v) =>
        assert forall i :: 1 <= i < |fields| ==> fields[i] == fields[1..][i - 1];
        match MapValues(fields[1..], body)
        case Failure(e) => Failure(e)
        case Success(rest) => Success([(fields[0].0, v)] + rest)
  }

  /** `transformNestData(body)`: a new record; `body` is a value and is left as it was. */
  function TransformNestData(body: Json): (r: Result<Record, JsError>)
    ensures r.Failure? <==> body.JNull?
    ensures r.Failure? ==> r.error == TypeError("structures")
    ensures r.Success? ==> |r.value| == |Fields|
  {
    MapValues(Fields, body)
  }

  /** A successful mapping has exactly the extractors' names, in their order. */
  lemma MapValuesNames(fields: seq<(string, Extractor)>, body: Json)
    requires MapValues(fields, body).Success?
    ensures Names(MapValues(fields, body).value) == Names(fields)
  {
  }

  /** With distinct names, the field of each extractor's name holds what that extractor extracts. */
  lemma MapValuesFieldByName(fields: seq<(string, Extractor)>, body: Json, i: nat)
    requires i < |fields| && Distinct(Names(fields)) && MapValues(fields, body).Success?
    ensures Extract(fields[i].1, body) == Success(Field(MapValues(fields, body).value, fields[i].0))
  {
    var out := MapValues(fields, body).value;
    assert forall j :: 0 <= j < i ==> Names(fields)[j] != Names(fields)[i];
    LookupAt(out, i);
  }

  /** The output has exactly the table's names, in the table's order, each once. */
  lemma TransformNames(body: Json)
    requires TransformNestData(body).Success?
    ensures Names(TransformNestData(body).value) == FieldNameList
    ensures Distinct(Names(TransformNestData(body).value))
    ensures UniqueNames(TransformNestData(body).value)
  {
    MapValuesNames(Fields, body);
    FieldNamesInOrder();
    FieldNameListDistinct();
    DistinctNamesUnique(TransformNestData(body).value);
  }

  /** For every extractor of the table, the output field of its name holds what it extracts. */
  lemma TransformFieldByName(body: Json, i: nat)
    requires i < |Fields| && TransformNestData(body).Success?
    ensures Extract(Fields[i].1, body) == Success(Field(TransformNestData(body).value, Fields[i].0))
  {
    FieldsTableNames();
    MapValuesFieldByName(Fields, body, i);
  }

  /** The transformation throws exactly when the document is null, with the structure extractor's error. */
  lemma TransformThrowsOnlyOnNull(body: Json)
    ensures TransformNestData(body).Failure? <==> body.JNull?
    ensures TransformNestData(body).Failure? ==> TransformNestData(body).error == TypeError("structures")
  {
  }

  /** With neither a thermostat nor a structure to select, every output field is `undefined`. */
  lemma TransformWithoutDevices(body: Json)
    requires !body.JNull?
    requires Keys(Get(Some(body), ThermostatsPath)) == []
    requires Keys(Member(body, "structures")) == []
    ensures TransformNestData(body).Success?
    ensures forall i :: 0 <= i < |Fields| ==> TransformNestData(body).value[i].1 == None
  {
    TransformThrowsOnlyOnNull(body);
    forall i | 0 <= i < |Fields| ensures Extract(Fields[i].1, body) == Success(None) {
      ThermostatPropertyWithoutThermostat(Fields[i].1.property, body);
      StructurePropertyWithoutStructure(Fields[i].1.property, body);
    }
  }

  /** On the recorded response, the record carries the stored values under the exported names. */
  lemma TransformNestResponse()
    ensures TransformNestData(NestResponse()).Success?
    ensures Field(TransformNestData(NestResponse()).value, "awayStatus") == Some(JStr("home"))
    ensures Field(TransformNestData(NestResponse()).value, "hasLeaf") == Some(JBool(false))
    ensures Field(TransformNestData(NestResponse()).value, "timeToTarget") == Some(JStr("~0"))
  {
    TransformThrowsOnlyOnNull(NestResponse());
    NestResponseFields();
    TransformFieldByName(NestResponse(), 4);
    TransformFieldByName(NestResponse(), 7);
    TransformFieldByName(NestResponse(), 9);
  }
}
