/** `GsonCarDeserializer`: reads `color_name` and `brand_name` from a JSON object into
    a new car; every other member is ignored. */
module GsonCarDeserializer {
  import opened Results
  import opened AsciiCase
  import opened Colors
  import opened JsonValue
  import opened CarModel
  import opened GsonTree
  import GsonCarSerializer

  /** `jsonObject.get(name).getAsString()`: a missing member is dereferenced as null;
      a member without a string form makes `getAsString` throw. */
  function StringMember(members: seq<Member>, name: string): Result<string, DecodeError>
  {
    match Get(members, name)
    case None => Err(MissingField(name))
    case Some(e) =>
      match AsString(e)
      case None => Err(NotAString(name))
      case Some(s) => Ok(s)
  }

  /** The car the deserializer returns, or the failure it throws: first the object
      check, then `color_name` is read, then `brand_name`, then the colour is looked up. */
  function Decode(e: Value): (r: Result<CarValue, DecodeError>)
    ensures !e.Object? ==> r == Err(NotAnObject)
    ensures r.Ok? ==> r.value.color.Some? && r.value.brand.Some?
  {
    if !e.Object? then Err(NotAnObject)
    else
      var colorName :- StringMember(e.members, "color_name");
      var brand :- StringMember(e.members, "brand_name");
      var color :- ColorFromText(colorName);
      Ok(CarValue(Some(color), Some(brand)))
  }

  /** `deserialize`: checks for an object, creates an empty car, and fills it through
      `setBrand` and `setColor`. */
  method Deserialize(e: Value) returns (r: Result<Car, DecodeError>)
    ensures r.Ok? ==> fresh(r.value) && Decode(e) == Ok(r.value.Value())
    ensures r.Err? ==> Decode(e) == Err(r.error)
  {
    if !e.Object? {
      return Err(NotAnObject);
    }
    var car := new Car();
    var colorName :- StringMember(e.members, "color_name");
    var brand :- StringMember(e.members, "brand_name");
    car.SetBrand(Some(brand));
    var color :- ColorFromText(colorName);
    car.SetColor(Some(color));
    return Ok(car);
  }

  /** Decoding succeeds exactly when the input is an object whose `color_name` and
      `brand_name` both have string forms and the colour text names a constant up to
      case; the car then holds that constant and the brand text. */
  lemma DecodeSucceedsExactly(e: Value, c: Color, brand: string)
    ensures Decode(e) == Ok(CarValue(Some(c), Some(brand))) <==>
      && e.Object?
      && Get(e.members, "color_name").Some?
      && AsString(Get(e.members, "color_name").value).Some?
      && ToUpper(AsString(Get(e.members, "color_name").value).value) == ToUpper(Name(c))
      && Get(e.members, "brand_name").Some?
      && AsString(Get(e.members, "brand_name").value) == Some(brand)
  {
    NameSurvivesCaseMapping(c);
  }

  /** The failures, in the order the code meets them: a missing member, then a member
      without a string form, first for `color_name`, then for `brand_name`, and last an
      unknown colour. */
  lemma DecodeFailures(e: Value)
    ensures e.Object? && Get(e.members, "color_name").None? ==>
      Decode(e) == Err(MissingField("color_name"))
    ensures e.Object? && Get(e.members, "color_name").Some? && AsString(Get(e.members, "color_name").value).None? ==>
      Decode(e) == Err(NotAString("color_name"))
    ensures e.Object? && Get(e.members, "color_name").Some? && AsString(Get(e.members, "color_name").value).Some? ==>
      && (Get(e.members, "brand_name").None? ==> Decode(e) == Err(MissingField("brand_name")))
      && (Get(e.members, "brand_name").Some? && AsString(Get(e.members, "brand_name").value).None? ==>
            Decode(e) == Err(NotAString("brand_name")))
      && (var colorText := AsString(Get(e.members, "color_name").value).value;
          (Get(e.members, "brand_name").Some? && AsString(Get(e.members, "brand_name").value).Some? &&
           ValueOf(ToUpper(colorText)).None?) ==> Decode(e) == Err(UnknownEnumValue(ToUpper(colorText))))
  {
  }

  /** Only `color_name` and `brand_name` are read: two objects that agree on those two
      members decode alike, whatever else (`is_red` included) they hold. */
  lemma DecodeReadsOnlyTwoMembers(a: seq<Member>, b: seq<Member>)
    requires Get(a, "color_name") == Get(b, "color_name")
    requires Get(a, "brand_name") == Get(b, "brand_name")
    ensures Decode(Object(a)) == Decode(Object(b))
  {
  }

  /** In particular, replacing or adding an `is_red` member never changes the result. */
  lemma DecodeIgnoresIsRed(members: seq<Member>, v: Value)
    ensures Decode(Object(Put(members, "is_red", v))) == Decode(Object(members))
  {
    DecodeReadsOnlyTwoMembers(Put(members, "is_red", v), members);
  }

  /** Decoding what the Gson serializer wrote gives back the car, whenever the colour
      and the brand are set: the lower-cased name upper-cases back to the constant. */
  lemma RoundTrip(car: CarValue)
    requires car.color.Some? && car.brand.Some?
    ensures GsonCarSerializer.Encode(car).Ok?
    ensures Decode(Object(GsonCarSerializer.Encode(car).value)) == Ok(car)
  {
    NameSurvivesCaseMapping(car.color.value);
  }

  /** A car with a null brand serializes, but its `brand_name` is JSON null, which
      `getAsString` refuses: the round trip fails for it. */
  lemma NullBrandDoesNotRoundTrip(c: Color)
    ensures GsonCarSerializer.Encode(CarValue(Some(c), None)).Ok?
    ensures Decode(Object(GsonCarSerializer.Encode(CarValue(Some(c), None)).value)) == Err(NotAString("brand_name"))
  {
  }
}
