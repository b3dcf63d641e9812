/**
 * The field extractors of the thermostat collector: two extractor shapes,
 * one rooted at the first thermostat of `devices.thermostats` and one at the
 * first structure of `structures`, and the table of named fields built from
 * them.
 */
module NestProcessor {
  import opened Wrappers
  import opened JsValue
  import opened Lodash

  /** The exception JavaScript throws when a property of null is read. */
  datatype JsError = TypeError(property: string)

  const ThermostatsPath: seq<string> := ["devices", "thermostats"]

  /** `thermostatId(body)`: the first key of `devices.thermostats`, if any. */
  function ThermostatId(body: Json): (id: Option<string>)
    ensures id.Some? ==>
      var thermostats := Get(Some(body), ThermostatsPath);
      thermostats.Some? && !thermostats.value.JNull? && Member(thermostats.value, id.value).Some?
  {
    FirstKey(Get(Some(body), ThermostatsPath))
  }

  /** `thermostatProperty(property)(body)`: never throws. */
  function ThermostatProperty(property: string, body: Json): (r: Option<Json>)
    ensures ThermostatId(body).None? ==> r.None?
  {
    if ThermostatId(body).None? then
      assert ThermostatsPath + [UndefinedKey, property] == ThermostatsPath + ([UndefinedKey] + [property]);
      WalkAppend(Some(body), ThermostatsPath, [UndefinedKey] + [property]);
      NoKeysReadsNothing(Get(Some(body), ThermostatsPath), [property]);
      Get(Some(body), ThermostatsPath + [ToKey(ThermostatId(body)), property])
    else
      Get(Some(body), ThermostatsPath + [ToKey(ThermostatId(body)), property])
  }

  /**
   * `structureProperty(property)(body)`: reads `body.structures` directly,
   * so it throws when `body` is null.
   */
  function StructureProperty(property: string, body: Json): (r: Result<Option<Json>, JsError>)
    ensures r.Failure? <==> body.JNull?
    ensures r.Failure? ==> r.error == TypeError("structures")
  {
    if body.JNull? then Failure(TypeError("structures"))
    else
      var structureId := FirstKey(Member(body, "structures"));
      Success(Get(Some(body), ["structures", ToKey(structureId), property]))
  }

  /** The object an extractor starts from. */
  datatype Root = Thermostat | Structure

  /** One extractor shape applied to one property: `thermostatProperty(p)` or `structureProperty(p)`. */
  datatype Extractor = Extractor(root: Root, property: string)

  /** The exported object: output field names with their extractors, in the order the module lists them. */
  const Fields: seq<(string, Extractor)> := [
    ("humidity", Extractor(Thermostat, "humidity")),
    ("targetTemperature", Extractor(Thermostat, "target_temperature_c")),
    ("name", Extractor(Thermostat, "name")),
    ("ambientTemperature", Extractor(Thermostat, "ambient_temperature_c")),
    ("awayStatus", Extractor(Structure, "away")),
    ("structureId", Extractor(Structure, "structure_id")),
    ("thermostatId", Extractor(Thermostat, "device_id")),
    ("hasLeaf", Extractor(Thermostat, "has_leaf")),
    ("heatingState", Extractor(Thermostat, "hvac_state")),
    ("timeToTarget", Extractor(Thermostat, "time_to_target")),
    ("isUsingEmergencyHeat", Extractor(Thermostat, "is_using_emergency_heat"))
  ]

  /** Calling one exported extractor on a document. */
  function Extract(e: Extractor, body: Json): Result<Option<Json>, JsError> {
    match e.root
    case Thermostat => Success(ThermostatProperty(e.property, body))
    case Structure => StructureProperty(e.property, body)
  }

  /**
   * Whatever `devices.thermostats` holds, the extractor reads the property
   * of the entry at its first key, and that entry exists.
   */
  lemma ThermostatPropertyAtFirstKey(property: string, body: Json)
    requires ThermostatId(body).Some?
    ensures var thermostats := Get(Some(body), ThermostatsPath);
            var key := ThermostatId(body).value;
            && thermostats.Some? && !thermostats.value.JNull? && Member(thermostats.value, key).Some?
            && ThermostatProperty(property, body) == Get(Member(thermostats.value, key), [property])
  {
    var key := ThermostatId(body).value;
    var thermostats := Get(Some(body), ThermostatsPath);
    KeysAreReadable(thermostats, 0);
    assert ThermostatsPath + [ToKey(ThermostatId(body)), property] == ThermostatsPath + [key] + [property];
    GetAppend(Some(body), ThermostatsPath + [key], [property]);
    GetAppend(Some(body), ThermostatsPath, [key]);
    GetOne(thermostats.value, key);
  }

  /** The selected thermostat is the first entry of `devices.thermostats`, and its property is read unchanged. */
  lemma ThermostatPropertyReadsFirstEntry(property: string, body: Json, entries: seq<(string, Json)>)
    requires Get(Some(body), ThermostatsPath) == Some(JObj(entries)) && entries != []
    ensures ThermostatId(body) == Some(entries[0].0)
    ensures ThermostatProperty(property, body) == Get(Some(entries[0].1), [property])
    ensures entries[0].1.JObj? ==> ThermostatProperty(property, body) == Lookup(entries[0].1.props, property)
  {
    FirstKeyOfObject(entries);
    var key, thermostat := entries[0].0, entries[0].1;
    assert ThermostatsPath + [ToKey(ThermostatId(body)), property] == ThermostatsPath + [key] + [property];
    GetAppend(Some(body), ThermostatsPath + [key], [property]);
    GetAppend(Some(body), ThermostatsPath, [key]);
    GetOne(JObj(entries), key);
    if thermostat.JObj? {
      GetOne(thermostat, property);
    }
  }

  /** With exactly one thermostat `key`, the extractor returns `devices.thermostats[key][property]` as stored. */
  lemma SingleThermostat(property: string, body: Json, key: string, thermostat: Json)
    requires Get(Some(body), ThermostatsPath) == Some(JObj([(key, thermostat)]))
    ensures ThermostatId(body) == Some(key)
    ensures ThermostatProperty(property, body) == Get(Some(body), ["devices", "thermostats", key, property])
    ensures !thermostat.JNull? ==> ThermostatProperty(property, body) == Member(thermostat, property)
    ensures thermostat.JNull? ==> ThermostatProperty(property, body) == None
  {
    ThermostatPropertyReadsFirstEntry(property, body, [(key, thermostat)]);
    assert ThermostatsPath + [key, property] == ["devices", "thermostats", key, property];
    if !thermostat.JNull? {
      GetOne(thermostat, property);
    }
  }

  /** No `devices`, no `thermostats`, an empty map or a value without keys there: the extractor yields `undefined`. */
  lemma ThermostatPropertyWithoutThermostat(property: string, body: Json)
    requires Keys(Get(Some(body), ThermostatsPath)) == []
    ensures ThermostatId(body) == None
    ensures ThermostatProperty(property, body) == None
  {
  }

  /** A selected thermostat without the property yields `undefined`. */
  lemma ThermostatPropertyMissing(property: string, body: Json, entries: seq<(string, Json)>)
    requires Get(Some(body), ThermostatsPath) == Some(JObj(entries)) && entries != []
    requires entries[0].1.JObj?
    requires forall i :: 0 <= i < |entries[0].1.props| ==> entries[0].1.props[i].0 != property
    ensures ThermostatProperty(property, body) == None
  {
    ThermostatPropertyReadsFirstEntry(property, body, entries);
  }

  /** The structure extractor throws exactly when the document itself is null. */
  lemma StructurePropertyThrowsOnlyOnNull(property: string, body: Json)
    ensures StructureProperty(property, body).Failure? <==> body.JNull?
  {
  }

  /** The structure extractor reads the property of the first entry of `body.structures`. */
  lemma StructurePropertyReadsFirstEntry(property: string, body: Json, entries: seq<(string, Json)>)
    requires !body.JNull? && Member(body, "structures") == Some(JObj(entries)) && entries != []
    ensures StructureProperty(property, body) == Success(Get(Some(entries[0].1), [property]))
    ensures entries[0].1.JObj? ==> StructureProperty(property, body) == Success(Lookup(entries[0].1.props, property))
  {
    if entries[0].1.JObj? {
      GetOne(entries[0].1, property);
    }
    FirstKeyOfObject(entries);
    var key := entries[0].0;
    assert ["structures", key, property] == ["structures", key] + [property];
    GetAppend(Some(body), ["structures", key], [property]);
    GetStep(body, "structures", [key]);
  }

  /** A selected structure without the property yields `undefined`. */
  lemma StructurePropertyMissing(property: string, body: Json, entries: seq<(string, Json)>)
    requires !body.JNull? && Member(body, "structures") == Some(JObj(entries)) && entries != []
    requires entries[0].1.JObj?
    requires forall i :: 0 <= i < |entries[0].1.props| ==> entries[0].1.props[i].0 != property
    ensures StructureProperty(property, body) == Success(None)
  {
    StructurePropertyReadsFirstEntry(property, body, entries);
  }

  /** With `body.structures` missing, empty or without keys, the structure extractor yields `undefined`. */
  lemma StructurePropertyWithoutStructure(property: string, body: Json)
    requires !body.JNull? && Keys(Member(body, "structures")) == []
    ensures StructureProperty(property, body) == Success(None)
  {
    GetStep(body, "structures", [UndefinedKey, property]);
    NoKeysReadsNothing(Member(body, "structures"), [property]);
  }

  /** Only a structure-rooted extractor can throw, and only on a null document. */
  lemma ExtractThrowsOnlyOnNull(e: Extractor, body: Json)
    ensures Extract(e, body).Failure? <==> e.root == Structure && body.JNull?
  {
  }

  function CountRoot(fields: seq<(string, Extractor)>, root: Root): (n: nat)
    ensures n <= |fields|
  {
    if fields == [] then 0 else (if fields[0].1.root == root then 1 else 0) + CountRoot(fields[1..], root)
  }

  predicate Distinct(names: seq<string>) {
    forall i, j :: 0 <= i < j < |names| ==> names[i] != names[j]
  }

  lemma DistinctNamesUnique<V>(entries: seq<(string, V)>)
    requires Distinct(Names(entries))
    ensures UniqueNames(entries)
  {
    assert forall i :: 0 <= i < |entries| ==> entries[i].0 == Names(entries)[i];
  }

  /** From position `k` on, each name differs from every later one. */
  predicate NoRepeatsFrom(names: seq<string>, k: nat)
    decreases |names| - k
  {
    k >= |names| || (names[k] !in names[k + 1..] && NoRepeatsFrom(names, k + 1))
  }

  lemma {:induction false} NoRepeatsDistinct(names: seq<string>, k: nat)
    requires NoRepeatsFrom(names, k)
    ensures forall i, j :: k <= i < j < |names| ==> names[i] != names[j]
    decreases |names| - k
  {
    if k < |names| {
      NoRepeatsDistinct(names, k + 1);
      forall j | k < j < |names| ensures names[k] != names[j] {
        assert names[j] == names[k + 1..][j - k - 1];
      }
    }
  }

  /** The table: eleven extractors with distinct names, nine rooted at the thermostat and two at the structure. */
  lemma FieldsTableSize()
    ensures |Fields| == 11
    ensures CountRoot(Fields, Thermostat) == 9 && CountRoot(Fields, Structure) == 2
  {
  }

  /** The output names of the table, in order. */
  const FieldNameList: seq<string> := ["humidity", "targetTemperature", "name", "ambientTemperature", "awayStatus",
      "structureId", "thermostatId", "hasLeaf", "heatingState", "timeToTarget", "isUsingEmergencyHeat"]

  lemma FieldNamesInOrder()
    ensures Names(Fields) == FieldNameList
  {
  }

  lemma FieldNameListNoRepeats()
    ensures NoRepeatsFrom(FieldNameList, 0)
  {
  }

  lemma FieldNameListDistinct()
    ensures Distinct(FieldNameList)
  {
    FieldNameListNoRepeats();
    NoRepeatsDistinct(FieldNameList, 0);
  }

  lemma FieldsTableNames()
    ensures Distinct(Names(Fields))
    ensures UniqueNames(Fields)
  {
    FieldNamesInOrder();
    FieldNameListDistinct();
    DistinctNamesUnique(Fields);
  }

  /**
   * The exported `thermostatId` field reads the thermostat's `device_id`,
   * not its key: on a document where they differ, the two disagree.
   */
  lemma ThermostatIdFieldIsNotTheKey()
    ensures var body := JObj([("devices", JObj([("thermostats", JObj([("T1", JObj([("device_id", JStr("D9"))]))]))]))]);
            ThermostatId(body) == Some("T1") && Extract(Fields[6].1, body) == Success(Some(JStr("D9")))
  {
    var thermostat := JObj([("device_id", JStr("D9"))]);
    var body := JObj([("devices", JObj([("thermostats", JObj([("T1", thermostat)]))]))]);
    assert Get(Some(body), ThermostatsPath) == Some(JObj([("T1", thermostat)]));
    ThermostatPropertyReadsFirstEntry("device_id", body, [("T1", thermostat)]);
  }

  /** When the stored `device_id` equals the key, as in Nest's own documents, the field and the key agree. */
  lemma ThermostatIdFieldMatchesKey(body: Json, key: string, props: seq<(string, Json)>)
    requires Get(Some(body), ThermostatsPath) == Some(JObj([(key, JObj(props))]))
    requires Lookup(props, "device_id") == Some(JStr(key))
    ensures Extract(Fields[6].1, body) == Success(Some(JStr(ThermostatId(body).value)))
  {
    ThermostatPropertyReadsFirstEntry("device_id", body, [(key, JObj(props))]);
  }

  /** The test suite's one-thermostat document whose thermostat holds only `key: value`. */
  function StubResponse(key: string, value: Json): Json {
    JObj([("devices", JObj([("thermostats", JObj([("JZ-U65a4K6EKQmzsnTzFPbTE2K-T_Yco", JObj([(key, value)]))]))]))])
  }

  /** On the stub, the extractor for the stubbed property gives back the stored value, whatever its type. */
  lemma StubExtraction(property: string, value: Json)
    ensures ThermostatProperty(property, StubResponse(property, value)) == Some(value)
  {
    var thermostat := JObj([(property, value)]);
    var body := StubResponse(property, value);
    GetStep(body, "devices", ["thermostats"]);
    GetOne(JObj([("thermostats", JObj([("JZ-U65a4K6EKQmzsnTzFPbTE2K-T_Yco", thermostat)]))]), "thermostats");
    ThermostatPropertyReadsFirstEntry(property, body, [("JZ-U65a4K6EKQmzsnTzFPbTE2K-T_Yco", thermostat)]);
  }

  const FixtureThermostatKey: string := "JZ-U65a4K6EKQmzsnTzFPbTE2K-T_Yco"
  const FixtureStructureKey: string := "c-SEshyQhB7ft2mluyF3otVjI8WUnxDJpNaAd1gcaLCgvx8ogw5m-g"

  const FixtureThermostat: Json := JObj([
    ("device_id", JStr(FixtureThermostatKey)),
    ("has_leaf", JBool(false)),
    ("hvac_state", JStr("heating")),
    ("time_to_target", JStr("~0")),
    ("is_using_emergency_heat", JBool(false))])

  const FixtureStructure: Json := JObj([
    ("away", JStr("home")),
    ("structure_id", JStr(FixtureStructureKey))])

  /** The recorded Nest response of the test suite, cut down to the properties its tests read. */
  function NestResponse(): Json {
    JObj([
      ("devices", JObj([("thermostats", JObj([(FixtureThermostatKey, FixtureThermostat)]))])),
      ("structures", JObj([(FixtureStructureKey, FixtureStructure)]))])
  }

  lemma NestResponseThermostat(property: string)
    ensures ThermostatProperty(property, NestResponse()) == Lookup(FixtureThermostat.props, property)
  {
    var body := NestResponse();
    var devices := JObj([("thermostats", JObj([(FixtureThermostatKey, FixtureThermostat)]))]);
    GetStep(body, "devices", ["thermostats"]);
    GetOne(devices, "thermostats");
    ThermostatPropertyReadsFirstEntry(property, body, [(FixtureThermostatKey, FixtureThermostat)]);
  }

  lemma NestResponseStructure(property: string)
    ensures StructureProperty(property, NestResponse()) == Success(Lookup(FixtureStructure.props, property))
  {
    StructurePropertyReadsFirstEntry(property, NestResponse(), [(FixtureStructureKey, FixtureStructure)]);
    GetOne(FixtureStructure, property);
  }

  lemma NestResponseAwayStatus()
    ensures Extract(Fields[4].1, NestResponse()) == Success(Some(JStr("home")))
  {
  }

  lemma NestResponseStructureId()
    ensures Extract(Fields[5].1, NestResponse()) == Success(Some(JStr(FixtureStructureKey)))
  {
  }

  lemma NestResponseThermostatId()
    ensures Extract(Fields[6].1, NestResponse()) == Success(Some(JStr(FixtureThermostatKey)))
  {
    NestResponseThermostat("device_id");
  }

  lemma NestResponseHasLeaf()
    ensures Extract(Fields[7].1, NestResponse()) == Success(Some(JBool(false)))
  {
    NestResponseThermostat("has_leaf");
    LookupAt(FixtureThermostat.props, 1);
  }

  lemma NestResponseHeatingState()
    ensures Extract(Fields[8].1, NestResponse()) == Success(Some(JStr("heating")))
  {
    NestResponseThermostat("hvac_state");
    LookupAt(FixtureThermostat.props, 2);
  }

  lemma NestResponseTimeToTarget()
    ensures Extract(Fields[9].1, NestResponse()) == Success(Some(JStr("~0")))
  {
    NestResponseThermostat("time_to_target");
    LookupAt(FixtureThermostat.props, 3);
  }

  lemma NestResponseEmergencyHeat()
    ensures Extract(Fields[10].1, NestResponse()) == Success(Some(JBool(false)))
  {
    NestResponseThermostat("is_using_emergency_heat");
    LookupAt(FixtureThermostat.props, 4);
  }

  /** The recorded response's fields come back exactly as stored: `false` and `"~0"` are not filtered or coerced. */
  lemma NestResponseFields()
    ensures Extract(Fields[4].1, NestResponse()) == Success(Some(JStr("home")))
    ensures Extract(Fields[5].1, NestResponse()) == Success(Some(JStr(FixtureStructureKey)))
    ensures Extract(Fields[6].1, NestResponse()) == Success(Some(JStr(FixtureThermostatKey)))
    ensures Extract(Fields[7].1, NestResponse()) == Success(Some(JBool(false)))
    ensures Extract(Fields[8].1, NestResponse()) == Success(Some(JStr("heating")))
    ensures Extract(Fields[9].1, NestResponse()) == Success(Some(JStr("~0")))
    ensures Extract(Fields[10].1, NestResponse()) == Success(Some(JBool(false)))
  {
    NestResponseAwayStatus();
    NestResponseStructureId();
    NestResponseThermostatId();
    NestResponseHasLeaf();
    NestResponseHeatingState();
    NestResponseTimeToTarget();
    NestResponseEmergencyHeat();
  }
}
