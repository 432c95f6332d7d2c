/** The `Car` attribute bag, the failures of its decoders, and the colour lookup both
    decoders share. */
module CarModel {
  import opened Results
  import opened AsciiCase
  import opened Colors

  /** The value a `Car` holds; `None` is a field left `null`. */
  datatype CarValue = CarValue(color: Option<Color>, brand: Option<string>)

  /** Why a decoder throws instead of returning a car. */
  datatype DecodeError =
    | NotAnObject                 // getAsJsonObject on anything but an object
    | MissingField(name: string)  // get returned null and the result was dereferenced
    | NotAString(name: string)    // the member has no string form (getAsString throws)
    | UnknownEnumValue(text: string)  // Color.valueOf found no constant of that name

  /** The Lombok class: a no-argument constructor, an all-arguments constructor, and a
      setter per field. */
  class Car {
    var color: Option<Color>
    var brand: Option<string>

    constructor ()
      ensures color == None && brand == None
    {
      color := None;
      brand := None;
    }

    constructor Of(color: Option<Color>, brand: Option<string>)
      ensures this.color == color && this.brand == brand
    {
      this.color := color;
      this.brand := brand;
    }

    function Value(): CarValue
      reads this
    {
      CarValue(color, brand)
    }

    method SetColor(c: Option<Color>)
      modifies this
      ensures color == c && brand == old(brand)
    {
      color := c;
    }

    method SetBrand(b: Option<string>)
      modifies this
      ensures brand == b && color == old(color)
    {
      brand := b;
    }
  }

  /** `Color.valueOf(text.toUpperCase())`: the constant whose name is the text's upper
      case, or the failure `valueOf` throws, naming the upper-cased text. */
  function ColorFromText(text: string): (r: Result<Color, DecodeError>)
    ensures forall c :: r == Ok(c) <==> Name(c) == ToUpper(text)
    ensures r.Err? ==> r.error == UnknownEnumValue(ToUpper(text))
  {
    match ValueOf(ToUpper(text))
    case Some(c) => Ok(c)
    case None => Err(UnknownEnumValue(ToUpper(text)))
  }

  /** The lookup ignores case: a text names a constant exactly when it equals that
      constant's name up to ASCII case, so "blue", "Blue" and "BLUE" all give BLUE. */
  lemma ColorFromTextIgnoresCase(text: string, c: Color)
    ensures ColorFromText(text) == Ok(c) <==> ToUpper(text) == ToUpper(Name(c))
    ensures ColorFromText(Name(c)) == Ok(c)
    ensures ColorFromText(ToLower(Name(c))) == Ok(c)
  {
    NameSurvivesCaseMapping(c);
  }
}
