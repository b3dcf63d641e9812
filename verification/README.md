# Nest thermostat field extractor

This project models the field-extraction layer of a scheduled collector for Nest
thermostat data. The collector fetches one JSON document from the Nest developer
API. The document holds `devices.thermostats`, a map from thermostat id to
thermostat object, and `structures`, a map from structure id to structure object.
The extraction layer turns that document into a flat record of eleven named fields.

- `nest_processor.js` defines two extractor shapes. `thermostatProperty(p)` reads
  property `p` of the entry at the first key of `devices.thermostats`.
  `structureProperty(p)` does the same over `body.structures`.
  The file exports a table of eleven named extractors built from these two shapes.
- `index.js` defines `transformNestData(body)`. It applies every extractor of the
  table to the document with lodash `mapValues` and keeps each result under the
  extractor's name.

The Dafny modules follow that structure:

- `wrappers.dfy` (`Wrappers`): `Option`, where `None` is JavaScript's `undefined`,
  and `Result`, where `Failure` is a thrown exception.
- `jsvalue.dfy` (`JsValue`): the parsed document as a `Json` datatype, and
  JavaScript's own-property read `v[key]` (`Member`). An object is an ordered list
  of properties, so "first key" is well defined. As in every JavaScript object,
  the property names of a document are distinct (`UniqueNames`); `Lookup`
  returns the first entry of a name, which under that condition is the only one.
  Arrays and strings answer their decimal index keys and `length`. `IndexKey`
  and `IndexOf` convert between positions and keys; the two round-trip lemmas prove they correspond one to one.
- `lodash.dfy` (`Lodash`): the observable behaviour of `lodash.get` and
  `lodash.keys`. `Get` is the null-safe path read: a missing or null step yields
  `undefined`, a null stored at the end comes back as null, and an empty path
  yields `undefined`. `Keys` is the ordered key list: property names for an
  object, index keys for an array or string, and nothing for other values.
  `ToKey` is lodash's conversion of an `undefined` path segment to the key
  `"undefined"`.
- `nest_processor.dfy` (`NestProcessor`): `ThermostatId`, `ThermostatProperty`,
  `StructureProperty`, the exported object `Fields` as a list of
  `(name, Extractor(root, property))` entries in the order the module lists
  them, and `Extract`, which runs one extractor.
  `StubResponse` and `NestResponse` are the documents the test suite reads.
- `nest_index.dfy` (`NestIndex`): `MapValues` and `TransformNestData`. The output
  is a `Record`: field names in insertion order, each holding a value or
  `undefined`. `Field` is the read `record[name]`, through the same `Lookup` as
  a property read.

Extraction is pure. Every operation is a Dafny function over values, so the same
document always gives the same record, and the document is never changed.

When `devices.thermostats` has no keys, `keys(...)[0]` is `undefined`, and lodash
then reads the key `"undefined"`. The model follows the code and reads that key.
`ThermostatPropertyWithoutThermostat` and `StructurePropertyWithoutStructure`
prove that this read always yields `undefined`.

`structureProperty` reads `body.structures` directly. In JavaScript that throws a
TypeError when `body` is null. The model returns `Failure(TypeError("structures"))`
in that case, and `transformNestData` lets the exception escape, as `mapValues`
does. The thermostat path goes through `get` and never throws.

The exported `thermostatId` field reads the thermostat's `device_id`. It does not
read the map key that the internal helper `thermostatId` returns.
`ThermostatIdFieldIsNotTheKey` exhibits a document on which the two differ.
`ThermostatIdFieldMatchesKey` shows that they agree when `device_id` equals the
key, as in Nest's own documents and in the test fixture.

## Model

| member | source | states |
|---|---|---|
| JsValue.Lookup | nest_processor.js:14 | A read of a named entry finds the first entry with that name, with its stored value. It yields `undefined` exactly when no entry has that name. Used for object properties and for record fields. |
| JsValue.LookupAt | nest_processor.js:14 | An entry that no earlier entry shadows is read back as stored, whatever its type. |
| JsValue.LookupUnique | nest_processor.js:14 | When names are unique, as in a JavaScript object, every entry is read back as stored. |
| JsValue.Member | nest_processor.js:14 | The property read `v[key]` inside `get`. Booleans and numbers have no own properties. Arrays and strings answer only `length` and index keys. Further specified by MemberAtIndex, LookupAt and LookupUnique. |
| JsValue.IndexKey | nest_processor.js:7 | The key of an element position is a decimal numeral without leading zeros, one character long exactly for positions below 10. |
| JsValue.IndexKeyRoundTrip | nest_processor.js:7 | The key of position n reads back as position n. |
| JsValue.IndexOfRoundTrip | nest_processor.js:14 | Every key that names a position is the key of that position, so keys and positions correspond one to one. |
| JsValue.MemberAtIndex | nest_processor.js:14 | The index key of position n reads element n of an array, or the one-character string at n of a string. Beyond the end it reads `undefined`. |
| Lodash.ToKey | nest_processor.js:14 | lodash's `toKey` on a path segment: a string stays itself, and `undefined` becomes the key `"undefined"`. Its effect is specified by NoKeysReadsNothing and ThermostatPropertyWithoutThermostat. |
| Lodash.Walk | nest_processor.js:14 | The `get` loop. From `undefined` every path reads `undefined`, and a non-empty path reads a value only from a start that is neither undefined nor null. Further specified by WalkAppend and AbsentStepPropagates. |
| Lodash.Get | nest_processor.js:5 | `get(v, path)`. An empty path yields `undefined`, and a value can only be read from a start that is neither undefined nor null. Further specified by GetAppend, AbsentStepPropagates and GetOne. |
| Lodash.WalkAppend | nest_processor.js:14 | Reading along `p + q` equals reading along `p`, then along `q` from the result. |
| Lodash.GetAppend | nest_processor.js:14 | For non-empty paths, `get(v, p + q)` equals `get(get(v, p), q)`. |
| Lodash.AbsentStepPropagates | nest_processor.js:5 | If a path prefix reads `undefined` or null, every longer path reads `undefined`, and nothing throws. |
| Lodash.GetOne | nest_processor.js:14 | A one-step `get` on a non-null value is the plain property read. |
| Lodash.Keys | nest_processor.js:7 | `keys(v)`: one key per property of an object, per element of an array, per character of a string, and none for undefined, null, booleans and numbers. Further specified by KeysAreReadable, FirstKeyOfObject and FirstKeyOfSequence. |
| Lodash.FirstKey | nest_processor.js:7 | `keys(v)[0]`: `undefined` exactly when there are no keys, and otherwise a key that reads an existing member of a non-null value. Further specified by FirstKeyOfObject, FirstKeyOfSequence and NoKeysReadsNothing. |
| Lodash.KeysAreReadable | nest_processor.js:7 | Every key that `keys` enumerates can be read back from the value, which is then neither undefined nor null. |
| Lodash.FirstKeyOfObject | nest_processor.js:4-8 | The first key of an object is the name of its first property, and reading that key gives that property's value. An empty object has no first key. |
| Lodash.FirstKeyOfSequence | nest_processor.js:7 | The first key of a non-empty array or string is `"0"`, and it reads element 0. An empty one has no first key. |
| Lodash.NoKeysReadsNothing | nest_processor.js:14 | When a value has no keys, reading the fallback key `"undefined"` from it, and any path below that key, yields `undefined`. |
| NestProcessor.ThermostatId | nest_processor.js:4-8 | The first key of `devices.thermostats`. A selected id always names an existing entry of that map. Further specified by ThermostatPropertyAtFirstKey, ThermostatPropertyReadsFirstEntry, SingleThermostat and ThermostatPropertyWithoutThermostat. |
| NestProcessor.ThermostatProperty | nest_processor.js:10-16 | `thermostatProperty(p)(body)`. With no thermostat id selected it yields `undefined`, through lodash's `"undefined"` key. Further specified by ThermostatPropertyAtFirstKey, ThermostatPropertyReadsFirstEntry, SingleThermostat, ThermostatPropertyWithoutThermostat and ThermostatPropertyMissing. |
| NestProcessor.StructureProperty | nest_processor.js:18-24 | `structureProperty(p)(body)`. It throws exactly when the document is null, with a TypeError on `structures`. Further specified by StructurePropertyThrowsOnlyOnNull, StructurePropertyReadsFirstEntry, StructurePropertyMissing and StructurePropertyWithoutStructure. |
| NestProcessor.Extract | index.js:28 | The call `f(body)` of one exported extractor. Specified by ExtractThrowsOnlyOnNull and, through its two shapes, by the thermostat and structure lemmas. |
| NestProcessor.ThermostatPropertyAtFirstKey | nest_processor.js:4-15 | Whenever a thermostat id exists, the entry at that id exists, and the extractor reads the property of that entry. |
| NestProcessor.ThermostatPropertyReadsFirstEntry | nest_processor.js:4-15 | For an object `devices.thermostats`, the selected id is its first key. The extractor returns `get(firstEntry, [p])`, which for an object entry is exactly the stored property. |
| NestProcessor.SingleThermostat | nest_processor.js:10-15 | With exactly one thermostat `k`, the id is `k`, and the result is the property read on that thermostat, returned as stored; a null thermostat yields `undefined`. |
| NestProcessor.ThermostatPropertyWithoutThermostat | nest_processor.js:4-15 | With no `devices`, no `thermostats`, an empty map or a keyless value there, there is no id and the extractor yields `undefined`. |
| NestProcessor.ThermostatPropertyMissing | nest_processor.js:14 | If the selected thermostat lacks the property, the extractor yields `undefined`. |
| NestProcessor.StructurePropertyThrowsOnlyOnNull | nest_processor.js:20 | The structure extractor throws exactly when the document itself is null. |
| NestProcessor.StructurePropertyReadsFirstEntry | nest_processor.js:18-23 | For a non-empty object `body.structures`, the structure extractor returns `get(firstEntry, [p])`, which for an object entry is exactly the stored property. |
| NestProcessor.StructurePropertyMissing | nest_processor.js:22 | If the selected structure lacks the property, the structure extractor yields `undefined` and does not throw. |
| NestProcessor.StructurePropertyWithoutStructure | nest_processor.js:18-23 | With `body.structures` missing, empty or keyless, the structure extractor yields `undefined` and does not throw. |
| NestProcessor.ExtractThrowsOnlyOnNull | nest_processor.js:10-23 | An extractor throws exactly when it is structure-rooted and the document is null. |
| NestProcessor.FieldsTableSize | nest_processor.js:26-38 | The exported table `Fields` has 11 rows: 9 rooted at the thermostat and 2 at the structure. |
| NestProcessor.NoRepeatsDistinct | nest_processor.js:26-38 | A list that passes the front-to-back repeat check has pairwise distinct names. |
| NestProcessor.DistinctNamesUnique | nest_processor.js:26-38 | Entries whose name list is pairwise distinct have unique names. |
| NestProcessor.FieldNamesInOrder | nest_processor.js:26-38 | The table's output names are, in order, humidity, targetTemperature, name, ambientTemperature, awayStatus, structureId, thermostatId, hasLeaf, heatingState, timeToTarget, isUsingEmergencyHeat. |
| NestProcessor.FieldsTableNames | nest_processor.js:26-38 | The table's output names are pairwise distinct, as the keys of an object are. |
| NestProcessor.ThermostatIdFieldIsNotTheKey | nest_processor.js:33 | On a document whose key `T1` differs from its `device_id` `D9`, the id helper gives `T1` and the exported `thermostatId` field gives `D9`. |
| NestProcessor.ThermostatIdFieldMatchesKey | nest_processor.js:33 | When the only thermostat's `device_id` equals its key, the `thermostatId` field equals the selected id. |
| NestProcessor.StubExtraction | test/nest_processor_test.js:7-39 | On the test's one-thermostat stub holding `key: value`, the extractor for `key` returns `value` unchanged. |
| NestProcessor.NestResponseFields | test/nest_processor_test.js:41-74 | On the recorded response, the fields come back as stored: away `"home"`, the structure and thermostat ids, `hasLeaf` false, `"heating"`, `"~0"` and emergency heat false. |
| NestIndex.Field | index.js:28 | The read `record[name]` on the output: `undefined` when no field has that name, and a value only when a field of that name holds it. Further specified by MapValuesFieldByName and TransformFieldByName. |
| NestIndex.MapValues | index.js:28 | The mapping succeeds exactly when every extractor succeeds. On success, row i holds entry i's name and its extractor's result. On failure, the error is the first failing extractor's. |
| NestIndex.TransformNestData | index.js:27-29 | `transformNestData(body)`. It throws exactly when the document is null, with the structure extractor's TypeError, and otherwise returns one field per table row. Further specified by TransformNames, TransformFieldByName, TransformThrowsOnlyOnNull, TransformWithoutDevices and TransformNestResponse. |
| NestIndex.MapValuesNames | index.js:28 | A successful mapping has exactly the extractors' names, in their order. |
| NestIndex.MapValuesFieldByName | index.js:28 | With distinct names, the field of each extractor's name holds that extractor's result. |
| NestIndex.TransformNames | index.js:27-29 | The output record's names are exactly the table's eleven names, in order and each once, so the record has unique names like any object. |
| NestIndex.TransformFieldByName | index.js:28 | For every row of the table, `record[name]` equals that extractor applied to the document. |
| NestIndex.TransformThrowsOnlyOnNull | index.js:27-29 | `transformNestData` throws exactly when the document is null, and then with the structure extractor's TypeError. |
| NestIndex.TransformWithoutDevices | index.js:27-29 | When neither a thermostat nor a structure has a key to select, the transformation succeeds and every field is `undefined`. |
| NestIndex.TransformNestResponse | index.js:27-29 | On the recorded response, the record holds awayStatus `"home"`, hasLeaf `false` and timeToTarget `"~0"`. |

## Left out

- `getNestData` (index.js:9-25): the authenticated HTTP request through the `request` library is I/O. The model starts from the parsed document it resolves with.
- `handler` (index.js:31-41): promise chaining, logging, `context.done()` and reading `process.env.ACCESS_TOKEN` are runtime wrapper behaviour.
- The `dotenv` configuration load (index.js:5) and the constant API URL (index.js:7).
- A response body that is not a JSON value (`undefined`) is not modelled. The document is always a `Json` value.
- Documents whose objects repeat a property name are outside the model's intended domain, since no JavaScript object has them; `Lookup` would read the first such entry where `JSON.parse` keeps the last value.
- Property reads see own properties only. Inherited properties such as `constructor` or `toString` are not modelled. No property name in the table is one of them.
- Object key order is taken as given by the ordered property list. JavaScript enumerates integer-like keys first, in ascending order. The list stands for the order after that rule has been applied.
- Numbers are carried as `real` values and never computed with. Double precision is not modelled. Array and string lengths are unbounded, so the 2^32 - 1 array index limit is not modelled.
- Strings are sequences of `char`. JavaScript's UTF-16 code units are not modelled separately.
- The test fixture file `testResponse.json` is not part of this model. `NestResponse` rebuilds only the properties the tests read, with the values the tests expect.
