/** The part of Jackson the codecs use: a `JsonGenerator` that records the events it is
    given, a reader that rebuilds an object from such events, and `JsonNode.get` /
    `JsonNode.asText` on the resulting tree. */
module JacksonTree {
  import opened Results
  import opened JsonValue

  /** One event written to a generator. */
  datatype Token =
    | StartObject
    | EndObject
    | FieldName(name: string)
    | ValueToken(value: Value)

  /** `com.fasterxml.jackson.core.JsonGenerator`: its output is the events written so far. */
  class JsonGenerator {
    var written: seq<Token>

    constructor ()
      ensures written == []
    {
      written := [];
    }

    method WriteStartObject()
      modifies this
      ensures written == old(written) + [StartObject]
    {
      written := written + [StartObject];
    }

    method WriteEndObject()
      modifies this
      ensures written == old(written) + [EndObject]
    {
      written := written + [EndObject];
    }

    /** `writeStringField`: a field name and a string, or a null for a null string. */
    method WriteStringField(name: string, text: Option<string>)
      modifies this
      ensures written == old(written) + [FieldName(name), ValueToken(StringOrNull(text))]
    {
      written := written + [FieldName(name), ValueToken(StringOrNull(text))];
    }

    /** `writeObjectField`: a field name and the value the default serializer gives
        the object (passed here already converted). */
    method WriteObjectField(name: string, value: Value)
      modifies this
      ensures written == old(written) + [FieldName(name), ValueToken(value)]
    {
      written := written + [FieldName(name), ValueToken(value)];
    }
  }

  /** The events that write each member: its name, then its value. None of them opens
      or closes an object. */
  function MemberTokens(ms: seq<Member>): (ts: seq<Token>)
    ensures |ts| == 2 * |ms|
    ensures forall k :: 0 <= k < |ts| ==> ts[k] != StartObject && ts[k] != EndObject
  {
    if ms == [] then [] else [FieldName(ms[0].name), ValueToken(ms[0].value)] + MemberTokens(ms[1..])
  }

  /** Member `i` is written as the events at `2 * i` and `2 * i + 1`. */
  lemma {:induction false} MemberTokensAt(ms: seq<Member>, i: nat)
    requires i < |ms|
    ensures MemberTokens(ms)[2 * i] == FieldName(ms[i].name)
    ensures MemberTokens(ms)[2 * i + 1] == ValueToken(ms[i].value)
  {
    if i > 0 {
      MemberTokensAt(ms[1..], i - 1);
    }
  }

  /** The events that write one object: the only start event first, the only end event
      last, the members' events between. */
  function ObjectTokens(ms: seq<Member>): (ts: seq<Token>)
    ensures |ts| == 2 * |ms| + 2
    ensures ts[0] == StartObject && ts[|ts| - 1] == EndObject
    ensures forall k :: 0 < k < |ts| - 1 ==> ts[k] != StartObject && ts[k] != EndObject
  {
    var body := MemberTokens(ms);
    var ts := [StartObject] + body + [EndObject];
    assert forall k :: 0 < k < |ts| - 1 ==> ts[k] == body[k - 1];
    ts
  }

  /** `readTree` on the events inside an object: reads name/value pairs up to the
      closing event, which must end the input. A repeated name keeps its first place
      and takes the later value, as the node's insertion-ordered map does, so the names
      stay unique. */
  function ReadMembers(ts: seq<Token>, acc: seq<Member>): (r: Option<seq<Member>>)
    ensures r.Some? ==> |ts| > 0 && ts[|ts| - 1] == EndObject
    ensures r.Some? && UniqueNames(acc) ==> UniqueNames(r.value)
    decreases |ts|
  {
    if ts == [] then None
    else if ts[0] == EndObject then (if |ts| == 1 then Some(acc) else None)
    else if |ts| >= 2 && ts[0].FieldName? && ts[1].ValueToken? then
      PutKeepsNamesUnique(acc, ts[0].name, ts[1].value);
      var r := ReadMembers(ts[2..], Put(acc, ts[0].name, ts[1].value));
      assert r.Some? ==> ts[|ts| - 1] == ts[2..][|ts| - 3];
      r
    else None
  }

  /** `readTree` on an event stream holding one object whose member values are single
      events: an object node with unique names, read from a stream that opens and closes
      that object; `None` for any other stream. */
  function ReadTree(ts: seq<Token>): (r: Option<Value>)
    ensures r.Some? ==> |ts| >= 2 && ts[0] == StartObject && ts[|ts| - 1] == EndObject
    ensures r.Some? ==> r.value.Object? && UniqueNames(r.value.members)
  {
    if |ts| > 0 && ts[0] == StartObject then
      match ReadMembers(ts[1..], [])
      case Some(ms) =>
        assert ts[|ts| - 1] == ts[1..][|ts| - 2];
        Some(Object(ms))
      case None => None
    else None
  }

  /** Reading one name/value pair puts it into the members read so far. */
  lemma ReadMembersStep(ts: seq<Token>, acc: seq<Member>)
    requires |ts| >= 2 && ts[0].FieldName? && ts[1].ValueToken?
    ensures ReadMembers(ts, acc) == ReadMembers(ts[2..], Put(acc, ts[0].name, ts[1].value))
  {
  }

  /** A name written twice keeps the place of its first occurrence and the value of
      its last. */
  lemma ReadTreeRepeatedName(n: string, a: Value, b: Value, m: Member)
    requires m.name != n
    ensures ReadTree([StartObject, FieldName(n), ValueToken(a), FieldName(m.name), ValueToken(m.value),
                      FieldName(n), ValueToken(b), EndObject])
         == Some(Object([Member(n, b), m]))
  {
    var ts := [StartObject, FieldName(n), ValueToken(a), FieldName(m.name), ValueToken(m.value),
               FieldName(n), ValueToken(b), EndObject];
    var t1 := ts[1..];
    var t3 := t1[2..];
    var t5 := t3[2..];
    PutAgain(n, a, b, m);
    ReadMembersStep(t1, []);
    ReadMembersStep(t3, [Member(n, a)]);
    ReadMembersStep(t5, [Member(n, a), m]);
    assert ReadMembers(t5[2..], [Member(n, b), m]) == Some([Member(n, b), m]);
  }

  /** Reading back the events of members whose names are new to `acc` and distinct
      appends them to `acc`. */
  lemma {:induction false} ReadMembersOfTokens(ms: seq<Member>, acc: seq<Member>)
    requires UniqueNames(acc + ms)
    ensures ReadMembers(MemberTokens(ms) + [EndObject], acc) == Some(acc + ms)
  {
    if ms == [] {
      assert MemberTokens(ms) + [EndObject] == [EndObject];
      assert acc + ms == acc;
    } else {
      var ts := MemberTokens(ms) + [EndObject];
      assert ts[0] == FieldName(ms[0].name) && ts[1] == ValueToken(ms[0].value);
      assert ts[2..] == MemberTokens(ms[1..]) + [EndObject];
      assert ms[0].name !in Names(acc) by {
        forall i | 0 <= i < |acc| ensures Names(acc)[i] != ms[0].name {
          assert (acc + ms)[i] == acc[i] && (acc + ms)[|acc|] == ms[0];
        }
      }
      var acc' := Put(acc, ms[0].name, ms[0].value);
      assert acc' == acc + [ms[0]];
      assert acc' + ms[1..] == acc + ms;
      ReadMembersOfTokens(ms[1..], acc');
    }
  }

  /** The reader rebuilds exactly the object whose events were written, when its names
      are distinct. */
  lemma ReadTreeOfObjectTokens(ms: seq<Member>)
    requires UniqueNames(ms)
    ensures ReadTree(ObjectTokens(ms)) == Some(Object(ms))
  {
    var ts := ObjectTokens(ms);
    assert ts[1..] == MemberTokens(ms) + [EndObject];
    assert [] + ms == ms;
    ReadMembersOfTokens(ms, []);
  }

  /** `JsonNode.get(String)`: the member of an object node, and null for a missing
      member or for any node that is not an object. */
  function FieldOf(node: Value, name: string): Option<Value> {
    if node.Object? then Get(node.members, name) else None
  }

  /** `JsonNode.asText`: the text of a value node, "null" for a null node, and the
      empty text for arrays and objects. */
  function AsText(node: Value): string {
    match node
    case Null => "null"
    case Bool(b) => if b then "true" else "false"
    case Number(n) => DecimalText(n)
    case String(s) => s
    case Array(_) => ""
    case Object(_) => ""
  }
}
