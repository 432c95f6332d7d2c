/** The JSON tree both engines build and read: an object is an ordered list of named
    members, kept in insertion order. */
module JsonValue {
  import opened Results

  datatype Value =
    | Null
    | Bool(b: bool)
    | Number(n: int)
    | String(s: string)
    | Array(items: seq<Value>)
    | Object(members: seq<Member>)

  datatype Member = Member(name: string, value: Value)

  /** The member names, in order. */
  function Names(ms: seq<Member>): (ns: seq<string>)
    ensures |ns| == |ms|
  {
    seq(|ms|, i requires 0 <= i < |ms| => ms[i].name)
  }

  /** No name is used twice in an object. */
  predicate UniqueNames(ms: seq<Member>) {
    forall i, j :: 0 <= i < j < |ms| ==> ms[i].name != ms[j].name
  }

  /** The names of a member list with one member in front. */
  lemma NamesOfCons(m: Member, ms: seq<Member>)
    ensures Names([m] + ms) == [m.name] + Names(ms)
  {
  }

  /** The value of the member called `name`, or `None` (Java's `null`) when there is
      none; the first one if a name were used twice. */
  function Get(ms: seq<Member>, name: string): (r: Option<Value>)
    ensures r.Some? <==> name in Names(ms)
    ensures r.Some? ==> Member(name, r.value) in ms
  {
    if ms == [] then None
    else
      assert ms == [ms[0]] + ms[1..];
      NamesOfCons(ms[0], ms[1..]);
      if ms[0].name == name then Some(ms[0].value) else Get(ms[1..], name)
  }

  /** An insertion-ordered map's `put`: a present name keeps its place and gets the new
      value, a new name is appended. */
  function Put(ms: seq<Member>, name: string, v: Value): (r: seq<Member>)
    ensures name in Names(ms) ==> Names(r) == Names(ms)
    ensures name !in Names(ms) ==> r == ms + [Member(name, v)]
    ensures Get(r, name) == Some(v)
    ensures forall n :: n != name ==> Get(r, n) == Get(ms, n)
  {
    if ms == [] then [Member(name, v)]
    else
      assert ms == [ms[0]] + ms[1..];
      NamesOfCons(ms[0], ms[1..]);
      if ms[0].name == name then
        var r := [Member(name, v)] + ms[1..];
        NamesOfCons(Member(name, v), ms[1..]);
        r
      else
        var tail := Put(ms[1..], name, v);
        var r := [ms[0]] + tail;
        NamesOfCons(ms[0], tail);
        assert r[1..] == tail;
        r
  }

  /** Putting a name, another name and the first name again leaves the first name in
      its place with its last value. */
  lemma PutAgain(n: string, a: Value, b: Value, m: Member)
    requires m.name != n
    ensures Put([], n, a) == [Member(n, a)]
    ensures Put([Member(n, a)], m.name, m.value) == [Member(n, a), m]
    ensures Put([Member(n, a), m], n, b) == [Member(n, b), m]
  {
    assert Put([Member(n, a)], m.name, m.value) == [Member(n, a)] + Put([], m.name, m.value);
    assert Put([Member(n, a), m], n, b) == [Member(n, b)] + [Member(n, a), m][1..];
  }

  /** Putting into an object whose names are unique keeps them unique. */
  lemma PutKeepsNamesUnique(ms: seq<Member>, name: string, v: Value)
    ensures UniqueNames(ms) ==> UniqueNames(Put(ms, name, v))
  {
    if !UniqueNames(ms) {
      return;
    }
    var r := Put(ms, name, v);
    forall i, j | 0 <= i < j < |r| ensures r[i].name != r[j].name {
      if name in Names(ms) {
        assert Names(r)[i] == Names(ms)[i] && Names(r)[j] == Names(ms)[j];
      } else if j == |ms| {
        assert Names(ms)[i] == ms[i].name;
      }
    }
  }

  /** A Java string as a JSON value, as both libraries store or write it: a string,
      or null for a null string. */
  function StringOrNull(text: Option<string>): Value {
    match text
    case Some(s) => String(s)
    case None => Null
  }

  predicate IsDigit(ch: char) {
    '0' <= ch <= '9'
  }

  function DigitChar(d: nat): (ch: char)
    requires d < 10
    ensures IsDigit(ch) && ch as int - '0' as int == d
  {
    "0123456789"[d]
  }

  /** The decimal digits of a natural number, most significant first, without
      leading zeros. */
  function NaturalText(n: nat): (s: string)
    ensures |s| > 0 && (|s| > 1 ==> s[0] != '0')
    ensures forall i :: 0 <= i < |s| ==> IsDigit(s[i])
  {
    if n < 10 then [DigitChar(n)] else NaturalText(n / 10) + [DigitChar(n % 10)]
  }

  /** The number a string of decimal digits denotes. */
  function DigitsValue(s: string): nat
    requires forall i :: 0 <= i < |s| ==> IsDigit(s[i])
  {
    if s == [] then 0
    else
      assert IsDigit(s[|s| - 1]);
      DigitsValue(s[..|s| - 1]) * 10 + (s[|s| - 1] as int - '0' as int)
  }

  /** The decimal text of an integer (`Integer.toString`, and the text of an integer
      literal): an optional '-' for a negative number, then the digits. */
  function DecimalText(n: int): (s: string)
    ensures |s| > 0
    ensures s[0] == '-' <==> n < 0
    ensures forall i :: (if n < 0 then 1 else 0) <= i < |s| ==> IsDigit(s[i])
  {
    if n < 0 then "-" + NaturalText(-n) else NaturalText(n)
  }

  /** The digits denote the number: reading the text back gives the integer. */
  lemma {:induction false} NaturalTextDenotes(n: nat)
    ensures DigitsValue(NaturalText(n)) == n
  {
    var s := NaturalText(n);
    if n >= 10 {
      NaturalTextDenotes(n / 10);
      assert s[..|s| - 1] == NaturalText(n / 10);
    }
  }

  lemma DecimalTextDenotes(n: int)
    ensures n < 0 ==> DigitsValue(DecimalText(n)[1..]) == -n
    ensures n >= 0 ==> DigitsValue(DecimalText(n)) == n
  {
    if n < 0 {
      NaturalTextDenotes(-n);
      assert DecimalText(n)[1..] == NaturalText(-n);
    } else {
      NaturalTextDenotes(n);
    }
  }
}
