/** `JacksonCarDeserializer`: reads the tree, then fills a new car from `color_name`
    and `brand_name`; every other member is ignored. */
module JacksonCarDeserializer {
  import opened Results
  import opened AsciiCase
  import opened Colors
  import opened JsonValue
  import opened CarModel
  import opened JacksonTree
  import JacksonCarSerializer

  /** The car the deserializer returns for a tree, or the failure it throws: `color_name`
      is read and looked up before `brand_name` is read. A tree that is not an object
      answers null to every `get`, so it fails as a missing `color_name`. */
  function Decode(node: Value): (r: Result<CarValue, DecodeError>)
    ensures !node.Object? ==> r == Err(MissingField("color_name"))
    ensures r.Ok? ==> r.value.color.Some? && r.value.brand.Some?
  {
    match FieldOf(node, "color_name")
    case None => Err(MissingField("color_name"))
    case Some(colorNode) =>
      var color :- ColorFromText(AsText(colorNode));
      match FieldOf(node, "brand_name")
      case None => Err(MissingField("brand_name"))
      case Some(brandNode) => Ok(CarValue(Some(color), Some(AsText(brandNode))))
  }

  /** `deserialize`: creates a car with the no-argument constructor, then sets the
      colour and the brand from the tree. */
  method Deserialize(node: Value) returns (r: Result<Car, DecodeError>)
    ensures r.Ok? ==> fresh(r.value) && Decode(node) == Ok(r.value.Value())
    ensures r.Err? ==> Decode(node) == Err(r.error)
  {
    var car := new Car();
    var colorNode := FieldOf(node, "color_name");
    if colorNode.None? {
      return Err(MissingField("color_name"));
    }
    var colorName := AsText(colorNode.value);
    var color :- ColorFromText(colorName);
    car.SetColor(Some(color));
    var brandNode := FieldOf(node, "brand_name");
    if brandNode.None? {
      return Err(MissingField("brand_name"));
    }
    car.SetBrand(Some(AsText(brandNode.value)));
    return Ok(car);
  }

  /** Decoding succeeds exactly when the tree is an object holding both members and the
      colour text names a constant up to case; the car then holds that constant and the
      brand's text. */
  lemma DecodeSucceedsExactly(node: Value, c: Color, brand: string)
    ensures Decode(node) == Ok(CarValue(Some(c), Some(brand))) <==>
      && node.Object?
      && Get(node.members, "color_name").Some?
      && ToUpper(AsText(Get(node.members, "color_name").value)) == ToUpper(Name(c))
      && Get(node.members, "brand_name").Some?
      && AsText(Get(node.members, "brand_name").value) == brand
  {
    NameSurvivesCaseMapping(c);
  }

  /** The failures, in the order the code meets them. */
  lemma DecodeFailures(node: Value)
    ensures FieldOf(node, "color_name").None? ==> Decode(node) == Err(MissingField("color_name"))
    ensures FieldOf(node, "color_name").Some? ==>
      var text := AsText(FieldOf(node, "color_name").value);
      ValueOf(ToUpper(text)).None? ==> Decode(node) == Err(UnknownEnumValue(ToUpper(text)))
    ensures (FieldOf(node, "color_name").Some? && FieldOf(node, "brand_name").None? &&
             ColorFromText(AsText(FieldOf(node, "color_name").value)).Ok?) ==>
      Decode(node) == Err(MissingField("brand_name"))
  {
  }

  /** Only `color_name` and `brand_name` are read: two objects that agree on those two
      members decode alike, whatever else (`is_red` included) they hold. */
  lemma DecodeReadsOnlyTwoMembers(a: seq<Member>, b: seq<Member>)
    requires Get(a, "color_name") == Get(b, "color_name")
    requires Get(a, "brand_name") == Get(b, "brand_name")
    ensures Decode(Object(a)) == Decode(Object(b))
  {
  }

  /** In particular, replacing or adding an `is_red` member never changes the result. */
  lemma DecodeIgnoresIsRed(members: seq<Member>, v: Value)
    ensures Decode(Object(Put(members, "is_red", v))) == Decode(Object(members))
  {
    DecodeReadsOnlyTwoMembers(Put(members, "is_red", v), members);
  }

  /** Reading back what the Jackson serializer wrote gives the original car, whenever
      the colour and the brand are set. */
  lemma RoundTrip(car: CarValue)
    requires car.color.Some? && car.brand.Some?
    ensures ReadTree(JacksonCarSerializer.Tokens(car)) == Some(Object(JacksonCarSerializer.Fields(car)))
    ensures Decode(ReadTree(JacksonCarSerializer.Tokens(car)).value) == Ok(car)
  {
    JacksonCarSerializer.TokensReadBack(car);
    NameSurvivesCaseMapping(car.color.value);
  }

  /** A null colour is written as JSON null, whose text "null" names no constant: such
      a car is written without error but cannot be read back. */
  lemma NullColorDoesNotRoundTrip(brand: Option<string>)
    ensures Decode(Object(JacksonCarSerializer.Fields(CarValue(None, brand)))) == Err(UnknownEnumValue("NULL"))
  {
    var ms := JacksonCarSerializer.Fields(CarValue(None, brand));
    assert Get(ms, "color_name") == Some(Null);
    assert ToUpper("null") == "NULL";
    assert ColorFromText("null") == Err(UnknownEnumValue("NULL"));
  }

  /** A null brand is written as JSON null and read back as the text "null". */
  lemma NullBrandReadsAsText(c: Color)
    ensures Decode(Object(JacksonCarSerializer.Fields(CarValue(Some(c), None)))) == Ok(CarValue(Some(c), Some("null")))
  {
    var ms := JacksonCarSerializer.Fields(CarValue(Some(c), None));
    assert Get(ms, "color_name") == Some(String(Name(c)));
    assert Get(ms, "brand_name") == Some(Null);
    DecodeSucceedsExactly(Object(ms), c, "null");
  }
}
