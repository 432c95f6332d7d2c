/** The part of Gson's tree model the codecs use: a mutable `JsonObject` and
    `JsonElement.getAsString`. */
module GsonTree {
  import opened Results
  import opened JsonValue

  /** `com.google.gson.JsonObject`: its members live in an insertion-ordered map. */
  class JsonObject {
    var members: seq<Member>

    constructor ()
      ensures members == []
    {
      members := [];
    }

    /** The object as a tree value, as a deserializer receives it back. */
    function Tree(): Value
      reads this
    {
      Object(members)
    }

    /** `addProperty`: the map's `put` of an already converted value. */
    method AddProperty(property: string, value: Value)
      modifies this
      ensures members == Put(old(members), property, value)
    {
      members := Put(members, property, value);
    }
  }

  /** `JsonElement.getAsString`: the text of a primitive, the text of the only element
      of a one-element array, and `None` where Gson throws (null, objects, other
      arrays). */
  function AsString(e: Value): Option<string> {
    match e
    case Null => None
    case Bool(b) => Some(if b then "true" else "false")
    case Number(n) => Some(DecimalText(n))
    case String(s) => Some(s)
    case Array(items) => if |items| == 1 then AsString(items[0]) else None
    case Object(_) => None
  }
}
