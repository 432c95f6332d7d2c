/** How the two engines' car codecs relate: each reads the other's output, and where
    their results differ. */
module CrossEngine {
  import opened Results
  import opened AsciiCase
  import opened Colors
  import opened JsonValue
  import opened CarModel
  import opened JacksonTree
  import GsonTree
  import GsonCarSerializer
  import GsonCarDeserializer
  import JacksonCarSerializer
  import JacksonCarDeserializer

  /** The Jackson deserializer reads the Gson serializer's lower-case output back to the
      same car. */
  lemma JacksonReadsGsonOutput(car: CarValue)
    requires car.color.Some? && car.brand.Some?
    ensures GsonCarSerializer.Encode(car).Ok?
    ensures JacksonCarDeserializer.Decode(Object(GsonCarSerializer.Encode(car).value)) == Ok(car)
  {
    NameSurvivesCaseMapping(car.color.value);
  }

  /** The Gson deserializer reads back the object the Jackson serializer writes, with
      its upper-case colour, as the same car. */
  lemma GsonReadsJacksonOutput(car: CarValue)
    requires car.color.Some? && car.brand.Some?
    ensures ReadTree(JacksonCarSerializer.Tokens(car)).Some?
    ensures GsonCarDeserializer.Decode(ReadTree(JacksonCarSerializer.Tokens(car)).value) == Ok(car)
  {
    JacksonCarSerializer.TokensReadBack(car);
    NameSurvivesCaseMapping(car.color.value);
  }

  /** Both serializers write the same three names in different orders; the brand and
      `is_red` agree, and the colour texts agree up to case. */
  lemma SameMembersDifferentOrder(car: CarValue)
    requires car.color.Some?
    ensures var g := GsonCarSerializer.Encode(car).value;
      var j := JacksonCarSerializer.Fields(car);
      && Names(g) != Names(j)
      && (set n | n in Names(g)) == (set n | n in Names(j))
      && Get(g, "brand_name") == Get(j, "brand_name")
      && Get(g, "is_red") == Get(j, "is_red")
      && Get(g, "color_name") == Some(String(ToLower(Name(car.color.value))))
      && Get(j, "color_name") == Some(String(Name(car.color.value)))
  {
  }

  /** A JSON string, number or boolean: the values both engines turn into text alike. */
  predicate IsScalar(v: Value) {
    v.String? || v.Number? || v.Bool?
  }

  /** Gson's `getAsString` and Jackson's `asText` agree on strings, numbers and
      booleans; they part on null (no text against "null"), on a one-element array
      (Gson reads its element, Jackson gives "") and on other containers (no text
      against ""). */
  lemma TextConversionsAgree(e: Value)
    ensures IsScalar(e) ==> GsonTree.AsString(e) == Some(AsText(e))
    ensures e.Null? ==> GsonTree.AsString(e).None? && AsText(e) == "null"
    ensures e.Array? && |e.items| == 1 ==> GsonTree.AsString(e) == GsonTree.AsString(e.items[0]) && AsText(e) == ""
    ensures (e.Array? && |e.items| != 1) || e.Object? ==> GsonTree.AsString(e).None? && AsText(e) == ""
  {
  }

  /** On an object whose `color_name` and `brand_name` are strings, numbers or
      booleans the two deserializers agree, in success and in failure. */
  lemma DecodersAgreeOnScalars(ms: seq<Member>)
    requires Get(ms, "color_name").Some? && IsScalar(Get(ms, "color_name").value)
    requires Get(ms, "brand_name").Some? && IsScalar(Get(ms, "brand_name").value)
    ensures GsonCarDeserializer.Decode(Object(ms)) == JacksonCarDeserializer.Decode(Object(ms))
  {
    TextConversionsAgree(Get(ms, "color_name").value);
    TextConversionsAgree(Get(ms, "brand_name").value);
  }

  /** A colour naming no constant with `brand_name` missing: Gson reads the brand before
      the colour lookup and reports the missing member, Jackson looks the colour up
      first and reports the unknown constant. */
  lemma FailuresDifferInOrder(ms: seq<Member>, colorText: string)
    requires Get(ms, "color_name") == Some(String(colorText))
    requires Get(ms, "brand_name").None?
    requires ValueOf(ToUpper(colorText)).None?
    ensures GsonCarDeserializer.Decode(Object(ms)) == Err(MissingField("brand_name"))
    ensures JacksonCarDeserializer.Decode(Object(ms)) == Err(UnknownEnumValue(ToUpper(colorText)))
  {
  }

  /** A JSON-null `brand_name`: Gson's `getAsString` refuses it, Jackson's `asText`
      turns it into the text "null". */
  lemma NullBrandDiverges(ms: seq<Member>, c: Color)
    requires Get(ms, "color_name") == Some(String(Name(c)))
    requires Get(ms, "brand_name") == Some(Null)
    ensures GsonCarDeserializer.Decode(Object(ms)) == Err(NotAString("brand_name"))
    ensures JacksonCarDeserializer.Decode(Object(ms)) == Ok(CarValue(Some(c), Some("null")))
  {
    NameSurvivesCaseMapping(c);
  }

  /** The red car the demonstration serializes. */
  function FixtureCar(): CarValue {
    CarValue(Some(RED), Some("Gson Wheels"))
  }

  /** The demonstration's input text, as the tree either engine reads from it. */
  function FixtureTree(): Value {
    Object([Member("color_name", String("blue")),
            Member("brand_name", String("Gson Wheels")),
            Member("is_red", Bool(true))])
  }

  /** The red car serializes to exactly {color_name: "red", brand_name: "Gson Wheels",
      is_red: true} under Gson, and to brand, "RED", true under Jackson. */
  lemma FixtureEncodings()
    ensures GsonCarSerializer.Encode(FixtureCar()) ==
      Ok([Member("color_name", String("red")),
          Member("brand_name", String("Gson Wheels")),
          Member("is_red", Bool(true))])
    ensures JacksonCarSerializer.Fields(FixtureCar()) ==
      [Member("brand_name", String("Gson Wheels")),
       Member("color_name", String("RED")),
       Member("is_red", Bool(true))]
  {
    assert ToLower("RED") == "red";
  }

  /** "blue" with `is_red` true decodes to a blue car under both engines: the case is
      ignored and so is `is_red`. */
  lemma FixtureDecodings()
    ensures GsonCarDeserializer.Decode(FixtureTree()) == Ok(CarValue(Some(BLUE), Some("Gson Wheels")))
    ensures JacksonCarDeserializer.Decode(FixtureTree()) == Ok(CarValue(Some(BLUE), Some("Gson Wheels")))
  {
  }

  /** The demonstration's serializations: the red car built with both fields, written
      through the Gson serializer into a fresh object and through the Jackson
      serializer into a fresh generator. */
  method SerializeFixture() returns (gsonTree: Value, events: seq<Token>)
    ensures gsonTree == Object([Member("color_name", String("red")),
                                Member("brand_name", String("Gson Wheels")),
                                Member("is_red", Bool(true))])
    ensures ReadTree(events) == Some(Object([Member("brand_name", String("Gson Wheels")),
                                             Member("color_name", String("RED")),
                                             Member("is_red", Bool(true))]))
  {
    var car := new Car.Of(Some(RED), Some("Gson Wheels"));
    FixtureEncodings();
    var r := GsonCarSerializer.Serialize(car);
    gsonTree := r.value.Tree();
    var gen := new JsonGenerator();
    JacksonCarSerializer.Serialize(car, gen);
    events := gen.written;
    assert events == JacksonCarSerializer.Tokens(FixtureCar());
    JacksonCarSerializer.TokensReadBack(FixtureCar());
  }

  /** The demonstration's deserializations of its input text: both engines return a
      blue car with the brand "Gson Wheels". */
  method DeserializeFixture() returns (gsonCar: CarValue, jacksonCar: CarValue)
    ensures gsonCar == CarValue(Some(BLUE), Some("Gson Wheels"))
    ensures jacksonCar == gsonCar
  {
    FixtureDecodings();
    var g := GsonCarDeserializer.Deserialize(FixtureTree());
    gsonCar := g.value.Value();
    var j := JacksonCarDeserializer.Deserialize(FixtureTree());
    jacksonCar := j.value.Value();
  }
}
