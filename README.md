# A verified model of a declarative record validator

The repository is a small JavaScript record validator. It has two parts:

- a **validator registry** holding four per-type predicates: `string`, `number`, `boolean` and `array`;
- a **schema evaluator**, `validate(data, schema)`.

For each schema field, the evaluator applies these rules in order:
- A required key that is missing from the record is reported as `"Required field."`.
- A value that is `null` or `undefined` is skipped.
- An unknown type tag throws and aborts the whole call.
- A value the registered predicate rejects is reported as `"Invalid value for <key>."`.

The call returns `null` when nothing was reported, and the error map otherwise.

This project models that core in Dafny and proves what it promises. It has four modules:

- `Wrappers` (wrappers.dfy): an `Option` datatype.
- `Validators` (validators.dfy):
  - JavaScript values as the datatype `Value`, with `NaN` as a case of its own.
  - The options bag as `Options`, where every key may be missing.
  - A regular expression as `Regex`, which carries its `test` function.
  - The four predicates, written guard by guard as in the source.
  - The registry lookup `Lookup`, with its inverse `Name`.
  - A declarative reference, `Conforms`: a value is admitted exactly when it has the right kind and satisfies every constraint in `Enforced`, the list of constraints its options enforce. `Check` is proved equal to `Conforms` for every input.
  - The source applies a bound only when it is truthy, so a bound of `0` is silently ignored. The model keeps this: `Enforced` drops zero bounds, and `ZeroBoundIsAbsent` proves that a zero bound behaves exactly like a missing one.
- `Evaluator` (evaluator.dfy):
  - `CheckField` is what one loop iteration does to one field.
  - `Through` folds the fields of a schema prefix into the loop's state: either still collecting errors, or thrown.
  - `Validation` is the whole call.
  - `Validate` is the loop itself, as a method that updates a local error map and returns early on the throw. Its loop invariant ties it to `Through`.
  - Lemmas give the result's exact shape. Its keys are exactly the keys of the failing fields. Each message depends only on whether the key is in the record. The call throws exactly when some field reaches the lookup with an unknown tag, and then names the first such tag. It returns `null` exactly when no field fails.
- `Scenarios` (scenarios.dfy): boundary cases of the predicates, the sample record in a valid and an invalid version, and an unknown tag.

The record is a `map<string, Value>`. The schema is a sequence of `(key, rule)` pairs in the order `for...in` visits them. The properties are stated per key: a key's message depends only on the key and on whether it is in the record. So they hold without assuming that the schema's keys are distinct.

## Model

| member | source | states |
|---|---|---|
| `Validators.StringValidator` | src/index.js:4-18 | only strings pass; when a pattern is present, a passing string satisfies its test |
| `Validators.Truthy` | src/index.js:8-41 | the guard `options.<bound> &&` holds only for a present bound; a missing bound and a bound of `0` are falsy, and a negative bound is truthy |
| `Validators.NumberValidator` | src/index.js:19-30 | only numbers other than NaN pass |
| `Validators.BooleanValidator` | src/index.js:31-33 | a value passes exactly when it is a boolean, and the verdict equals the reference `Conforms` for every options bag, since the predicate takes none |
| `Validators.ArrayValidator` | src/index.js:34-45 | only arrays pass |
| `Validators.Lookup` | src/index.js:3-46 | the registry has an entry exactly for "string", "number", "boolean" and "array", and the entry found is the one registered under that tag |
| `Validators.Check` | src/index.js:3-46 | the registered predicate admits a value exactly when the value has the tag's kind and meets every constraint its options enforce (`Conforms`) |
| `Validators.StringConforms` | src/index.js:4-18 | the string predicate equals the reference: a string that meets every truthy length bound and the pattern |
| `Validators.NumberConforms` | src/index.js:19-30 | the number predicate equals the reference: a non-NaN number within every truthy `min`/`max` |
| `Validators.ArrayConforms` | src/index.js:34-45 | the array predicate equals the reference: an array whose element count is within every truthy length bound |
| `Validators.StringUnconstrained` | src/index.js:4-18 | with no options, or only zero bounds and no pattern, the string predicate accepts exactly the strings |
| `Validators.StringLengthBounds` | src/index.js:8-13 | a truthy `minLength` rejects shorter strings and a truthy `maxLength` rejects longer ones |
| `Validators.NumberRejectsNonNumbers` | src/index.js:20-22 | anything that is not a number (strings, booleans, arrays, NaN, ...) is rejected whatever the options |
| `Validators.NumberBounds` | src/index.js:23-29 | a truthy `min`/`max` rejects values outside it; without truthy bounds every number passes, so `min: 0` admits every number |
| `Validators.BooleanIgnoresOptions` | src/index.js:31-33 | the boolean predicate accepts exactly the booleans, whatever the options |
| `Validators.ArrayBounds` | src/index.js:38-44 | truthy length bounds limit the element count; without them every array passes |
| `Validators.DropZeroBounds` | src/index.js:8-41 | removing every zero bound from an options bag leaves the enforced constraints unchanged |
| `Validators.ZeroBoundIsAbsent` | src/index.js:8-41 | for every kind and value, the verdict with zero bounds equals the verdict with those keys missing |
| `Evaluator.CheckField` | src/index.js:52-71 | a missing key fails exactly when required, with "Required field."; a present null/undefined passes; the field aborts exactly when its value is not omitted and its tag is unknown, naming the tag; otherwise it fails, with "Invalid value for <key>.", exactly when the value does not conform |
| `Evaluator.Omitted` | src/index.js:59 | a key is skipped exactly when reading it gives `null` or `undefined`, a missing key reading as `undefined` |
| `Evaluator.Step` | src/index.js:52-71 | after a throw, a further field changes nothing; otherwise the field throws exactly when it aborts, with "Invalid validator type: <tag>", and a running pass records "Required field." or "Invalid value for <key>." under the key exactly when the field fails, keeping the other entries |
| `Evaluator.StepThrowsTypeError` | src/index.js:63-66 | a running pass that throws on a field throws "Invalid validator type: <tag>" with that field's own tag |
| `Evaluator.Through` | src/index.js:51-72 | the fold of `Step` over a schema prefix; it has no contract of its own, and what it computes is stated by `RunningIffNoAbort`, `ErrorsExactly`, `ThrownByFirstAbort` and `ThrownStays` |
| `Evaluator.ThrownStays` | src/index.js:63-67 | once a field throws, the rest of the schema changes nothing |
| `Evaluator.RunningIffNoAbort` | src/index.js:51-72 | the pass over a schema prefix is still running exactly when none of its fields aborted |
| `Evaluator.ErrorsExactly` | src/index.js:51-72 | while running, the error map's keys are exactly the keys of the failing fields, each with "Invalid value for <key>." when the key is in the record and "Required field." otherwise |
| `Evaluator.RunningExactly` | src/index.js:51-72 | the two facts above together |
| `Evaluator.ThrownByFirstAbort` | src/index.js:63-67 | a thrown pass carries the message "Invalid validator type: <tag>" of the first field that aborted |
| `Evaluator.ThrowsIff` | src/index.js:59-67 | the call throws exactly when some field holds a value that is not null/undefined and names a tag outside the registry |
| `Evaluator.ThrowsFirstUnknownTag` | src/index.js:63-66 | the thrown message names the tag of the first such field |
| `Evaluator.NullIffNoFailure` | src/index.js:74 | a returning call returns null exactly when no field failed |
| `Evaluator.ErrorKeys` | src/index.js:51-72 | every key of a returned error map is a schema key whose field failed, and its message is "Required field." or "Invalid value for <key>." |
| `Evaluator.Validation` | src/index.js:48-75 | a returned error map is never empty and maps each of its keys to that key's message; the full result is given by `ValidationExactly`, `ThrowsIff` and `NullIffNoFailure` |
| `Evaluator.ValidationExactly` | src/index.js:51-74 | when no field aborts, the call returns null if no key is flagged and otherwise exactly the map from each flagged schema key to its message |
| `Evaluator.RequiredMissing` | src/index.js:54-57 | a required key that is missing from the record is mapped to exactly "Required field." |
| `Evaluator.NullNeverReported` | src/index.js:54-61 | a key that is present but null or undefined never appears in the errors, even when it is required |
| `Evaluator.OptionalMissingNeverReported` | src/index.js:54-61 | a missing key whose fields are all optional never appears in the errors |
| `Evaluator.RejectedValueReported` | src/index.js:69-71 | a present, non-null value that its known predicate rejects is mapped to "Invalid value for <key>." |
| `Evaluator.EmptyDataNoRequired` | src/index.js:48-75 | with no required fields, an empty record yields null |
| `Evaluator.Validate` | src/index.js:48-75 | the loop, with its `continue`s, in-place error-map updates and early throw, returns exactly `Validation(data, schema)` |
| `Scenarios.StringMinLengthThree` | src/index.js:8-10 | with `minLength: 3`, "ab" fails and "abc" passes |
| `Scenarios.NumberMinimum` | src/index.js:23-25 | with `min: 18`, 17 fails and 18 passes; with `min: 0`, -5 passes |
| `Scenarios.ArrayMinLengthOne` | src/index.js:38-40 | with `minLength: 1`, the empty array fails and a one-element array passes |
| `Scenarios.PassesThrough` | src/index.js:51-74 | a schema whose every field passes yields null |
| `Scenarios.SampleRecordValid` | src/index.js:80-92 | the sample record passes the sample schema when the e-mail pattern accepts its address |
| `Scenarios.SampleRecordInvalid` | src/index.js:48-75 | a too-short name, an age of 16 and a rejected address give exactly three errors; the missing optional `hobbies` gives none |
| `Scenarios.UnknownTagThrows` | src/index.js:63-66 | a field tagged "date" makes the call throw "Invalid validator type: date" |

## Left out

- The driver at src/index.js:77-100 is not modelled. It covers `module.exports`, the `require`, the sample values and the `console.log` output. It is an external caller and does I/O. Its sample record and schema appear only as `Scenarios` cases.
- Regular-expression semantics are not modelled. A `Regex` carries its `test` function as a parameter, and the JavaScript RegExp engine is not part of this model.
- Numbers are `real`, and NaN is a `Value` of its own. Infinities, `-0` and floating-point rounding are not modelled.
- Bounds are numbers or missing. A bound that is not a number is not modelled: a string such as `"3"` would be truthy and compared after coercion, and a NaN bound would be falsy.
- String length counts Dafny characters (Unicode scalar values), whereas JavaScript counts UTF-16 code units. The two differ only for characters outside the Basic Multilingual Plane.
- Prototype-chain lookups are not modelled. `validators[type]` also finds inherited members such as `toString`. `key in data` also sees inherited keys. `for...in` at src/index.js:51 also visits inherited enumerable keys of the schema. `data[key]` at src/index.js:59 reads inherited members, so a key such as `constructor` is not `undefined` there. The model's registry has exactly the four entries, the schema is exactly its own fields, and the record is a plain map with no inherited members. The error map is a plain map too. In the source, `errors[key] = …` at src/index.js:55 and src/index.js:70 writes into an object literal, so for the key `__proto__` it calls the inherited setter, which ignores a string. That error is lost, and the call can return `null`. The model reports the failing `__proto__` field like any other key.
- `required` is a `bool`, so the truthiness of a non-boolean `required` is not modelled. The options are either absent or a bag, so a truthy non-object `options` is not modelled.
- Boxed strings, numbers and booleans (`new String(...)`) are modelled as `Other`, because `typeof` reports them as objects.
- The TypeError paths are not modelled, so `Threw` carries only the "Invalid validator type: <tag>" error thrown at src/index.js:66. A `null` or `undefined` rule makes the destructuring at src/index.js:52 throw. A `null` or `undefined` `data` makes `key in data` at src/index.js:54 or `data[key]` at src/index.js:59 throw. A truthy `pattern` that is not a RegExp makes `options.pattern.test` at src/index.js:14 throw "is not a function". In the model a rule is always a `Rule`, the record is always a map, and a pattern is always a `Regex`.
