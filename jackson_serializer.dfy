/** `JacksonCarSerializer`: writes one object with `brand_name`, `color_name` (the
    constant as Jackson writes an enum: its name, unchanged) and the derived `is_red`. */
module JacksonCarSerializer {
  import opened Results
  import opened Colors
  import opened JsonValue
  import opened CarModel
  import opened JacksonTree

  /** What Jackson's default serializer writes for an enum reference: its name, or
      null for a null reference. */
  function EnumValue(c: Option<Color>): Value {
    match c
    case Some(color) => String(Name(color))
    case None => Null
  }

  /** The members of the written object, in the order they are written. */
  function Fields(car: CarValue): (ms: seq<Member>)
    ensures Names(ms) == ["brand_name", "color_name", "is_red"]
    ensures UniqueNames(ms)
    ensures car.brand.Some? ==> Get(ms, "brand_name") == Some(String(car.brand.value))
    ensures car.brand.None? ==> Get(ms, "brand_name") == Some(Null)
    ensures car.color.Some? ==> Get(ms, "color_name") == Some(String(Name(car.color.value)))
    ensures car.color.None? ==> Get(ms, "color_name") == Some(Null)
    ensures Get(ms, "is_red") == Some(Bool(car.color == Some(RED)))
  {
    [Member("brand_name", StringOrNull(car.brand)),
     Member("color_name", EnumValue(car.color)),
     Member("is_red", Bool(car.color == Some(RED)))]
  }

  /** The events one call writes: one object, opened by the only start event and
      closed by the only end event, with the three name/value pairs between. */
  function Tokens(car: CarValue): (ts: seq<Token>)
    ensures |ts| == 8
    ensures ts[0] == StartObject && ts[7] == EndObject
    ensures forall i :: 0 < i < 7 ==> ts[i] != StartObject && ts[i] != EndObject
  {
    ObjectTokens(Fields(car))
  }

  /** `serialize`: start object, three fields, end object, appended to whatever the
      generator already holds. A null colour is written as null rather than refused;
      the generator is an in-memory event list, so no write can fail. Only the car is
      read. */
  method Serialize(car: Car, gen: JsonGenerator)
    modifies gen
    ensures gen.written == old(gen.written) + Tokens(car.Value())
    ensures unchanged(car)
  {
    gen.WriteStartObject();
    gen.WriteStringField("brand_name", car.brand);
    gen.WriteObjectField("color_name", EnumValue(car.color));
    gen.WriteObjectField("is_red", Bool(car.color == Some(RED)));
    gen.WriteEndObject();
    var ms := Fields(car.Value());
    ThreeMemberTokens(ms[0], ms[1], ms[2]);
    assert ms == [ms[0], ms[1], ms[2]];
  }

  lemma ThreeMemberTokens(m1: Member, m2: Member, m3: Member)
    ensures MemberTokens([m1, m2, m3]) ==
      [FieldName(m1.name), ValueToken(m1.value), FieldName(m2.name), ValueToken(m2.value),
       FieldName(m3.name), ValueToken(m3.value)]
  {
    assert [m1, m2, m3][1..] == [m2, m3];
    assert [m2, m3][1..] == [m3];
    assert [m3][1..] == [];
    assert MemberTokens([m3]) == [FieldName(m3.name), ValueToken(m3.value)];
    assert MemberTokens([m2, m3]) == [FieldName(m2.name), ValueToken(m2.value)] + MemberTokens([m3]);
  }

  /** The events read back as the object of `Fields`. */
  lemma TokensReadBack(car: CarValue)
    ensures ReadTree(Tokens(car)) == Some(Object(Fields(car)))
  {
    ReadTreeOfObjectTokens(Fields(car));
  }
}
