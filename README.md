# Car codecs of a Jackson/Gson comparison, modelled in Dafny

The repository compares two Java JSON mapping libraries, Jackson and Gson. The only
mapping logic it writes itself is one custom codec pair per library for the `Car`
class (`Car{color, brand}`). This project models those four codecs and proves what
they promise:

- **Gson serializer.** It builds an object with `color_name` (the constant name in lower
  case), `brand_name` and `is_red`, in that order. `is_red` is true exactly for `RED`,
  and a null colour throws.
- **Jackson serializer.** It writes start-object, `brand_name`, `color_name` (the constant
  name unchanged, or null), `is_red`, end-object to a generator. The generator is an
  in-memory list of events, so no write can fail.
- **Both deserializers.** They read only `color_name` and `brand_name` into a car built
  with the no-argument constructor and filled through its setters. The colour lookup
  upper-cases the text and matches it exactly against a constant name. Missing members
  and unknown colours are errors, and `is_red` is never read.
- **Round trips and cross-engine reads.** For a car whose colour and brand are set, each
  engine reads back its own output and the other engine's output as the same car.
- **Where the engines differ.** They write the members in different orders. They report
  different errors when the colour is unknown and the brand is missing. They handle a
  null brand differently.

Modules follow the source: `GsonCarSerializer`, `GsonCarDeserializer`,
`JacksonCarSerializer` and `JacksonCarDeserializer` hold one codec each. The library
pieces they call are `GsonTree` (a mutable `JsonObject`, `getAsString`) and
`JacksonTree` (a `JsonGenerator` recording its events, a reader that rebuilds the
written object, `JsonNode.get`/`asText`). The shared data are `JsonValue` (the JSON
tree, objects as ordered member lists), `CarModel` (the `Car` class, its value, the
decode errors, the shared colour lookup), `Colors` (the enumeration), `AsciiCase` and
`Results`. `CrossEngine` relates the two engines and checks the demonstration's
fixtures.

State that Java changes in place is modelled as classes:
- `Car` has `color` and `brand` fields and setters.
- Gson's `JsonObject` is a member list that `AddProperty` updates with insertion-ordered
  map semantics.
- Jackson's `JsonGenerator` is a list of written events.

Each imperative method is proved against a pure function: `Serialize` against
`Encode`/`Tokens`, and `Deserialize` against `Decode`. The properties are proved as
lemmas about those functions. Java's `null` is `Option.None`. A thrown exception is an
`Err` result.

## Model

| member | source | states |
|---|---|---|
| `AsciiCase.ToUpper` | src/main/java/customization/gson/GsonCarDeserializer.java:17 | `toUpperCase` on ASCII: same length, each lower-case letter replaced by its upper-case letter, every other character kept |
| `AsciiCase.ToLower` | src/main/java/customization/gson/GsonCarSerializer.java:18 | `toLowerCase` on ASCII: same length, each upper-case letter replaced by its lower-case letter, every other character kept |
| `AsciiCase.UpperOfLower` | src/main/java/customization/gson/GsonCarDeserializer.java:14-17 | upper-casing a lower-cased text gives the text's upper case, for every text |
| `AsciiCase.UpperFixedPoint` | src/main/java/customization/jackson/JacksonCarDeserializer.java:23 | upper-casing is idempotent, and leaves a text unchanged exactly when it holds no lower-case letter |
| `Colors.Name` | src/main/java/customization/gson/GsonCarSerializer.java:18 | `name()` of a constant is non-empty upper-case ASCII |
| `Colors.ValueOf` | src/main/java/customization/gson/GsonCarDeserializer.java:17 | `Color.valueOf` gives constant `c` exactly when the text equals `c`'s name, and fails otherwise |
| `Colors.NameSurvivesCaseMapping` | src/main/java/customization/gson/GsonCarDeserializer.java:14-17 | a constant's name is its own upper case, and the upper case of its lower case |
| `JsonValue.Get` | src/main/java/customization/gson/GsonCarDeserializer.java:14 | `get(name)` finds a value exactly when the name is present, and that value is the named member's |
| `JsonValue.Put` | src/main/java/customization/gson/GsonCarSerializer.java:18-20 | insertion-ordered `put`: a new name is appended, a present name keeps its place, the name then maps to the new value, and every other name keeps its value |
| `JsonValue.DecimalText` | src/main/java/customization/gson/GsonCarDeserializer.java:14-16 | a number's text is non-empty, starts with '-' exactly for a negative number, and is digits after the sign |
| `JsonValue.NaturalTextDenotes` | src/main/java/customization/gson/GsonCarDeserializer.java:14-16 | the digits written for a natural number read back as that number |
| `JsonValue.DecimalTextDenotes` | src/main/java/customization/gson/GsonCarDeserializer.java:14-16 | the text written for any integer reads back as that integer, the sign included |
| `JsonValue.PutAgain` | src/main/java/customization/jackson/JacksonCarDeserializer.java:19 | putting a name, another name and the first name again leaves two members, the first name in its first place with its last value |
| `JsonValue.PutKeepsNamesUnique` | src/main/java/customization/gson/GsonCarSerializer.java:18-20 | `put` keeps member names unique |
| `CarModel.Car.constructor` | src/main/java/customization/jackson/JacksonCarDeserializer.java:18 | the no-argument constructor leaves colour and brand null |
| `CarModel.Car.Of` | src/main/java/customization/model/Car.java:8-12 | the all-arguments constructor stores both fields |
| `CarModel.Car.SetColor` | src/main/java/customization/model/Car.java:11 | the setter replaces the colour and keeps the brand |
| `CarModel.Car.SetBrand` | src/main/java/customization/model/Car.java:12 | the setter replaces the brand and keeps the colour |
| `CarModel.ColorFromText` | src/main/java/customization/jackson/JacksonCarDeserializer.java:23 | `valueOf(text.toUpperCase())` gives `c` exactly when `c`'s name is the upper-cased text; otherwise it fails with that upper-cased text |
| `CarModel.ColorFromTextIgnoresCase` | src/main/java/customization/gson/GsonCarDeserializer.java:17 | a text decodes to `c` exactly when it equals `c`'s name up to ASCII case; the name and the lower-cased name both decode to `c` |
| `GsonTree.JsonObject.constructor` | src/main/java/customization/gson/GsonCarSerializer.java:16 | a new `JsonObject` is empty |
| `GsonTree.JsonObject.AddProperty` | src/main/java/customization/gson/GsonCarSerializer.java:18-20 | `addProperty` updates the members by the map's `put` |
| `GsonCarSerializer.Encode` | src/main/java/customization/gson/GsonCarSerializer.java:16-21 | fails exactly for a null colour; otherwise exactly the unique names color_name, brand_name, is_red in that order; `color_name` is the lower-cased name, `brand_name` is the brand (null for a null brand), `is_red` is true iff the colour is RED |
| `GsonCarSerializer.AddsInOrder` | src/main/java/customization/gson/GsonCarSerializer.java:18-20 | three `addProperty` calls with distinct names on an empty object leave exactly those three members, in call order |
| `GsonCarSerializer.Serialize` | src/main/java/customization/gson/GsonCarSerializer.java:15-22 | returns a fresh object holding `Encode`'s members, or `Encode`'s failure; the car is unchanged |
| `GsonCarDeserializer.Decode` | src/main/java/customization/gson/GsonCarDeserializer.java:11-20 | a non-object is refused; a decoded car always has both fields set |
| `GsonCarDeserializer.Deserialize` | src/main/java/customization/gson/GsonCarDeserializer.java:11-20 | returns a fresh car whose value is `Decode`'s result, or `Decode`'s failure |
| `GsonCarDeserializer.DecodeSucceedsExactly` | src/main/java/customization/gson/GsonCarDeserializer.java:12-19 | decoding gives car (c, brand) iff the input is an object whose `color_name` has a string form equal to c's name up to case and whose `brand_name` has the string form brand |
| `GsonCarDeserializer.DecodeFailures` | src/main/java/customization/gson/GsonCarDeserializer.java:14-17 | a missing, then a non-string `color_name` fails first, then a missing, then a non-string `brand_name`, then an unknown colour, each with its own error |
| `GsonCarDeserializer.DecodeReadsOnlyTwoMembers` | src/main/java/customization/gson/GsonCarDeserializer.java:12-19 | objects agreeing on `color_name` and `brand_name` decode alike |
| `GsonCarDeserializer.DecodeIgnoresIsRed` | src/main/java/customization/gson/GsonCarDeserializer.java:12-19 | putting any `is_red` value never changes the result |
| `GsonCarDeserializer.RoundTrip` | src/main/java/customization/gson/GsonCarDeserializer.java:14-17 | decode(encode(car)) is the car when colour and brand are set |
| `GsonCarDeserializer.NullBrandDoesNotRoundTrip` | src/main/java/customization/gson/GsonCarDeserializer.java:16 | a null brand is written as JSON null and then refused by `getAsString` |
| `JacksonTree.JsonGenerator.constructor` | src/main/java/customization/jackson/JacksonCarSerializer.java:19 | a generator starts with no events |
| `JacksonTree.JsonGenerator.WriteStartObject` | src/main/java/customization/jackson/JacksonCarSerializer.java:20 | appends exactly one start-object event |
| `JacksonTree.JsonGenerator.WriteEndObject` | src/main/java/customization/jackson/JacksonCarSerializer.java:24 | appends exactly one end-object event |
| `JacksonTree.JsonGenerator.WriteStringField` | src/main/java/customization/jackson/JacksonCarSerializer.java:21 | appends the field name and the string, or a null for a null string |
| `JacksonTree.JsonGenerator.WriteObjectField` | src/main/java/customization/jackson/JacksonCarSerializer.java:22-23 | appends the field name and the converted value |
| `JacksonTree.MemberTokens` | src/main/java/customization/jackson/JacksonCarSerializer.java:21-23 | each field is written as two events, and none of them starts or ends an object |
| `JacksonTree.MemberTokensAt` | src/main/java/customization/jackson/JacksonCarSerializer.java:21-23 | the events of the i-th field are its name and then its value |
| `JacksonTree.ObjectTokens` | src/main/java/customization/jackson/JacksonCarSerializer.java:20-24 | an object's events are two more than twice its fields: start-object first, end-object last, neither in between |
| `JacksonTree.ReadMembers` | src/main/java/customization/jackson/JacksonCarDeserializer.java:19 | reading fields succeeds only on events that end with end-object, and keeps the collected member names unique, since a repeated name is put back in place rather than appended |
| `JacksonTree.ReadTree` | src/main/java/customization/jackson/JacksonCarDeserializer.java:19 | `readTree` succeeds only on events that start with start-object and end with end-object, and gives an object with unique names |
| `JacksonTree.ReadTreeRepeatedName` | src/main/java/customization/jackson/JacksonCarDeserializer.java:19 | a repeated field name keeps its first position and its last value |
| `JacksonTree.ReadMembersOfTokens` | src/main/java/customization/jackson/JacksonCarDeserializer.java:19 | reading the events of members with fresh, distinct names appends exactly those members |
| `JacksonTree.ReadTreeOfObjectTokens` | src/main/java/customization/jackson/JacksonCarDeserializer.java:19 | the reader rebuilds exactly the written object when its names are distinct |
| `JacksonCarSerializer.Fields` | src/main/java/customization/jackson/JacksonCarSerializer.java:20-24 | exactly the unique names brand_name, color_name, is_red in that order; brand unchanged (null if null); colour name or null; `is_red` true iff the colour is RED, false for a null colour |
| `JacksonCarSerializer.Tokens` | src/main/java/customization/jackson/JacksonCarSerializer.java:20-24 | one call writes eight events: start-object first, end-object last, neither in between |
| `JacksonCarSerializer.Serialize` | src/main/java/customization/jackson/JacksonCarSerializer.java:19-25 | appends exactly `Tokens(car)` to the generator's events; the car is unchanged |
| `JacksonCarSerializer.ThreeMemberTokens` | src/main/java/customization/jackson/JacksonCarSerializer.java:21-23 | three fields are written as six events: name, value, name, value, name, value |
| `JacksonCarSerializer.TokensReadBack` | src/main/java/customization/jackson/JacksonCarSerializer.java:20-24 | the written events read back as the object of `Fields` |
| `JacksonCarDeserializer.Decode` | src/main/java/customization/jackson/JacksonCarDeserializer.java:17-27 | a non-object fails as a missing `color_name`; a decoded car always has both fields set |
| `JacksonCarDeserializer.Deserialize` | src/main/java/customization/jackson/JacksonCarDeserializer.java:17-27 | returns a fresh car whose value is `Decode`'s result, or `Decode`'s failure |
| `JacksonCarDeserializer.DecodeSucceedsExactly` | src/main/java/customization/jackson/JacksonCarDeserializer.java:19-24 | decoding gives car (c, brand) iff the tree is an object with both members, `color_name`'s text equals c's name up to case, and `brand_name`'s text is brand |
| `JacksonCarDeserializer.DecodeFailures` | src/main/java/customization/jackson/JacksonCarDeserializer.java:20-24 | a missing `color_name` fails first, then an unknown colour, then a missing `brand_name` |
| `JacksonCarDeserializer.DecodeReadsOnlyTwoMembers` | src/main/java/customization/jackson/JacksonCarDeserializer.java:19-24 | objects agreeing on `color_name` and `brand_name` decode alike |
| `JacksonCarDeserializer.DecodeIgnoresIsRed` | src/main/java/customization/jackson/JacksonCarDeserializer.java:19-24 | putting any `is_red` value never changes the result |
| `JacksonCarDeserializer.RoundTrip` | src/main/java/customization/jackson/JacksonCarDeserializer.java:20-24 | the serializer's events read back and decode to the original car when colour and brand are set |
| `JacksonCarDeserializer.NullColorDoesNotRoundTrip` | src/main/java/customization/jackson/JacksonCarDeserializer.java:20-23 | a null colour is written as null, read as "null", and fails as the unknown constant "NULL" |
| `JacksonCarDeserializer.NullBrandReadsAsText` | src/main/java/customization/jackson/JacksonCarDeserializer.java:24 | a null brand is written as null and read back as the text "null" |
| `CrossEngine.JacksonReadsGsonOutput` | src/main/java/customization/jackson/JacksonCarDeserializer.java:23 | the Jackson deserializer reads the Gson serializer's lower-case object as the original car |
| `CrossEngine.GsonReadsJacksonOutput` | src/main/java/customization/gson/GsonCarDeserializer.java:14-17 | the Gson deserializer reads the Jackson serializer's object as the original car |
| `CrossEngine.SameMembersDifferentOrder` | src/main/java/customization/jackson/JacksonCarSerializer.java:20-24 | the two serializers write the same name set in different orders; brand and `is_red` agree, and the colour is lower case in one and unchanged in the other |
| `CrossEngine.TextConversionsAgree` | src/main/java/customization/jackson/JacksonCarDeserializer.java:20-24 | `getAsString` and `asText` give the same text for strings, numbers and booleans; on null, arrays and objects they part as stated |
| `CrossEngine.DecodersAgreeOnScalars` | src/main/java/customization/jackson/JacksonCarDeserializer.java:20-24 | on objects whose two members are strings, numbers or booleans, both deserializers give the same result or the same error |
| `CrossEngine.FailuresDifferInOrder` | src/main/java/customization/gson/GsonCarDeserializer.java:14-17 | unknown colour plus missing brand: Gson reports the missing `brand_name`, Jackson the unknown constant |
| `CrossEngine.NullBrandDiverges` | src/main/java/customization/gson/GsonCarDeserializer.java:16 | a JSON-null `brand_name` is an error for Gson and the text "null" for Jackson |
| `CrossEngine.FixtureEncodings` | src/main/java/customization/JsonCustomization.java:18 | the red "Gson Wheels" car encodes to exactly {color_name "red", brand_name, is_red true} with Gson, and to brand_name, "RED", true with Jackson |
| `CrossEngine.FixtureDecodings` | src/main/java/customization/JsonCustomization.java:19 | the "blue" input with `is_red` true decodes to a blue "Gson Wheels" car with both engines |
| `CrossEngine.SerializeFixture` | src/main/java/customization/JsonCustomization.java:43-62 | the red car built with both fields serializes through the Gson method to exactly its three lower-case members, and through the Jackson method to events that read back as its three members |
| `CrossEngine.DeserializeFixture` | src/main/java/customization/JsonCustomization.java:50-71 | both deserialize methods turn the demonstration's input into the same blue "Gson Wheels" car |

## Left out

- `Color.java` is not part of this model. Its constants are taken to be `RED`, `BLUE` and `GREEN`, all with upper-case ASCII names. The proofs that use the constants hold for any set of upper-case ASCII names that includes `RED` and `BLUE` and excludes `NULL`.
- Text parsing and printing of JSON, and pretty printing, belong to the libraries. The Gson codecs receive and return trees. Jackson's generator is modelled as the list of events written to it. `JacksonTree.ReadTree` stands in for `readTree` only for flat objects whose values are single events, the shape these codecs write.
- The library conversions are modelled from their documented behaviour, which the repository does not contain. They are definitions without contracts of their own: `JsonValue.StringOrNull`, `GsonTree.AsString`, `GsonCarDeserializer.StringMember`, `JacksonTree.FieldOf`, `JacksonTree.AsText` and `JacksonCarSerializer.EnumValue`. `CrossEngine.TextConversionsAgree` relates the two text conversions.
  - Gson `getAsString`: a string's text, "true"/"false" for booleans, a number's decimal text, and the single element of a one-element array; it throws on JSON null, objects and other arrays.
  - Jackson `asText`: "null" for a null node, "" for containers.
  - null strings: Gson's `addProperty(String, null)` stores JSON null, and Jackson's `writeString(null)` writes a null.
  - default serializers: Jackson writes an enum as its `name()` and a `Boolean` as a boolean.
- JSON numbers are integers in canonical decimal form. Floating-point numbers are left out, and the codecs never write a number.
- Case mapping is ASCII only. Java's locale-dependent `toUpperCase`/`toLowerCase` and Unicode case mapping are not modelled. This covers non-ASCII letters that upper-case to an ASCII letter.
- Exception types and messages are reduced to the kinds in `DecodeError` and `EncodeError`. Each thrown exception is returned as an `Err`.
- Library dispatch is not modelled: registering the codecs with the mappers, and Gson skipping a custom deserializer for JSON null.
- JsonCustomization.java is not modelled, apart from its fixtures and its four codec calls, which `CrossEngine` restates. That file, JsonComparison.java and JsonBenchmark.java are console demonstrations and a timing harness over the libraries' default reflection-based mapping. That covers null suppression, date formats, unknown properties, exclusion annotations, constructor requirements and benchmark iteration.
- I/O failures: the Jackson generator and parser are modelled as in-memory event lists, so writes and reads cannot fail. The `IOException` that `serialize` and `deserialize` declare (JacksonCarSerializer.java:19, JacksonCarDeserializer.java:17) is left out.
- Threads: the codecs share no mutable state beyond their arguments, and the model is sequential.
