/** `GsonCarSerializer`: a car becomes a fresh `JsonObject` with the members
    `color_name` (the lower-cased constant name), `brand_name` and the derived `is_red`. */
module GsonCarSerializer {
  import opened Results
  import opened AsciiCase
  import opened Colors
  import opened JsonValue
  import opened CarModel
  import opened GsonTree

  /** `car.getColor().name()` on a car whose colour is null throws
      `NullPointerException`. */
  datatype EncodeError = NullColor

  /** The members the serialized object holds, in the order the serializer adds them. */
  function Encode(car: CarValue): (r: Result<seq<Member>, EncodeError>)
    ensures r.Err? <==> car.color.None?
    ensures r.Ok? ==> Names(r.value) == ["color_name", "brand_name", "is_red"]
    ensures r.Ok? ==> UniqueNames(r.value)
    ensures r.Ok? ==> Get(r.value, "color_name") == Some(String(ToLower(Name(car.color.value))))
    ensures r.Ok? && car.brand.Some? ==> Get(r.value, "brand_name") == Some(String(car.brand.value))
    ensures r.Ok? && car.brand.None? ==> Get(r.value, "brand_name") == Some(Null)
    ensures r.Ok? ==> Get(r.value, "is_red") == Some(Bool(car.color == Some(RED)))
  {
    match car.color
    case None => Err(NullColor)
    case Some(c) =>
      Ok([Member("color_name", String(ToLower(Name(c)))),
          Member("brand_name", StringOrNull(car.brand)),
          Member("is_red", Bool(c == RED))])
  }

  /** Adding the three members to an empty object in turn appends each of them, since
      no name repeats. */
  lemma AddsInOrder(m1: Member, m2: Member, m3: Member)
    requires m1.name != m2.name && m1.name != m3.name && m2.name != m3.name
    ensures Put(Put(Put([], m1.name, m1.value), m2.name, m2.value), m3.name, m3.value) == [m1, m2, m3]
  {
    var s1 := Put([], m1.name, m1.value);
    assert s1 == [m1];
    assert Names(s1) == [m1.name];
    var s2 := Put(s1, m2.name, m2.value);
    assert s2 == [m1, m2];
    assert Names(s2) == [m1.name, m2.name];
  }

  /** `serialize`: creates an object and adds the three properties in sequence. It only
      reads the car (it modifies nothing). */
  method Serialize(car: Car) returns (r: Result<JsonObject, EncodeError>)
    ensures r.Ok? ==> fresh(r.value) && Encode(car.Value()) == Ok(r.value.members)
    ensures r.Err? ==> Encode(car.Value()) == Err(r.error)
    ensures unchanged(car)
  {
    var carJson := new JsonObject();
    if car.color.None? {
      return Err(NullColor);
    }
    carJson.AddProperty("color_name", String(ToLower(Name(car.color.value))));
    carJson.AddProperty("brand_name", StringOrNull(car.brand));
    carJson.AddProperty("is_red", Bool(car.color == Some(RED)));
    AddsInOrder(Member("color_name", String(ToLower(Name(car.color.value)))),
                Member("brand_name", StringOrNull(car.brand)),
                Member("is_red", Bool(car.color == Some(RED))));
    return Ok(carJson);
  }
}
