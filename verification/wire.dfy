/**
 * The text carried by the attendance QR code. The application writes the
 * payload with `JSON.stringify` and reads a scan with `JSON.parse`
 * (src/components/dashboard/QRAttendance.tsx:60, :78). This model keeps what
 * those two calls matter for here, and not JSON's grammar: a text reads as an
 * object of string-valued fields, as `null`, or as some other value (a
 * number, a string, a boolean or an array), or the reader fails; fields are
 * looked up by name whatever their order, a missing field reads as absent,
 * and of two fields with the same name the later one wins. The concrete
 * format of an object is `{` + frames + `}`, where each key and each value is
 * framed as its length in decimal, a colon, and the characters themselves.
 * The other values are `null`, `true`, `false`, a decimal numeral with an
 * optional `-`, a quoted text without inner quotes, and `[` + frames + `]`.
 */
module Wire {
  import opened Wrappers
  import Decimal

  type Fields = seq<(string, string)>

  /**
   * What the reader yields: an object, `null`, or a value of another kind.
   * Reading a property of `Other` gives `undefined`; reading one of `Null` throws.
   */
  datatype Value = Object(fields: Fields) | Null | Other

  /** One length-prefixed string. */
  function Frame(s: string): string
  {
    Decimal.FromNat(|s|) + ":" + s
  }

  function EncodeStrings(ss: seq<string>): string
  {
    if ss == [] then "" else Frame(ss[0]) + EncodeStrings(ss[1..])
  }

  /** Position of the first colon, or the length of the text when there is none. */
  function ColonIndex(text: string): (i: nat)
    ensures i <= |text|
    ensures i < |text| ==> text[i] == ':'
    ensures forall j :: 0 <= j < i ==> text[j] != ':'
  {
    if text == [] || text[0] == ':' then 0 else 1 + ColonIndex(text[1..])
  }

  /** Splits a text back into the strings whose frames it concatenates. */
  function DecodeStrings(text: string): (r: Result<seq<string>>)
    ensures r.Err? ==> r.message != ""
    decreases |text|
  {
    if text == [] then Ok([])
    else
      var i := ColonIndex(text);
      if i == |text| then Err("Unexpected end of input")
      else match Decimal.ParseNat(text[..i])
        case None => Err("Unexpected token in field length")
        case Some(n) =>
          if i + 1 + n > |text| then Err("Unterminated string")
          else match DecodeStrings(text[i + 1 + n..])
            case Err(m) => Err(m)
            case Ok(rest) => Ok([text[i + 1..i + 1 + n]] + rest)
  }

  /** Keys and values in one list: key, value, key, value, ... */
  function Flatten(fields: Fields): seq<string>
  {
    if fields == [] then [] else [fields[0].0, fields[0].1] + Flatten(fields[1..])
  }

  /** Groups keys with the values that follow them; fails when a key has no value. */
  function Pair(ss: seq<string>): Option<Fields>
  {
    if ss == [] then Some([])
    else if |ss| == 1 then None
    else match Pair(ss[2..])
      case None => None
      case Some(rest) => Some([(ss[0], ss[1])] + rest)
  }

  /** Writes an object (the role of `JSON.stringify`). */
  function Serialise(fields: Fields): (text: string)
    ensures |text| >= 2 && text[0] == '{' && text[|text| - 1] == '}'
  {
    "{" + EncodeStrings(Flatten(fields)) + "}"
  }

  /** `{` ... `}`: the text has the outer shape of an object. */
  predicate Braced(text: string)
  {
    |text| >= 2 && text[0] == '{' && text[|text| - 1] == '}'
  }

  /** A number, a string, a boolean or an array of strings: a value that is neither an object nor `null`. */
  predicate IsOtherValue(text: string)
  {
    text == "true" || text == "false"
    || Decimal.ParseNat(text).Some?
    || (|text| >= 2 && text[0] == '-' && Decimal.ParseNat(text[1..]).Some?)
    || (|text| >= 2 && text[0] == '"' && text[|text| - 1] == '"'
        && forall i :: 0 < i < |text| - 1 ==> text[i] != '"')
    || (|text| >= 2 && text[0] == '[' && text[|text| - 1] == ']' && DecodeStrings(text[1..|text| - 1]).Ok?)
  }

  /**
   * Reads a text (the role of `JSON.parse`): an object, `null`, or another
   * value; fails with a non-empty message on anything else.
   */
  function Parse(text: string): (r: Result<Value>)
    ensures r.Err? ==> r.message != ""
    ensures text == "" ==> r.Err?
    ensures r.Ok? && r.value.Object? ==> Braced(text)
    ensures r == Ok(Null) <==> text == "null"
    ensures r == Ok(Other) <==> !Braced(text) && text != "null" && IsOtherValue(text)
  {
    if Braced(text) then
      match ParseFields(text[1..|text| - 1])
      case Err(m) => Err(m)
      case Ok(fields) => Ok(Object(fields))
    else if text == "null" then Ok(Null)
    else if IsOtherValue(text) then Ok(Other)
    else Err("Unexpected token")
  }

  /** Reads the fields between the braces of an object. */
  function ParseFields(inner: string): (r: Result<Fields>)
    ensures r.Err? ==> r.message != ""
  {
    match DecodeStrings(inner)
    case Err(m) => Err(m)
    case Ok(ss) =>
      match Pair(ss)
      case None => Err("Missing field value")
      case Some(fields) => Ok(fields)
  }

  /** The value of the last field called `key`, or `None` when there is none (`undefined`). */
  function Lookup(fields: Fields, key: string): (r: Option<string>)
    ensures r.None? <==> forall i :: 0 <= i < |fields| ==> fields[i].0 != key
    ensures r.Some? ==> exists i :: 0 <= i < |fields| && fields[i] == (key, r.value)
  {
    if fields == [] then None
    else if fields[|fields| - 1].0 == key then Some(fields[|fields| - 1].1)
    else
      var r := Lookup(fields[..|fields| - 1], key);
      assert forall i :: 0 <= i < |fields| - 1 ==> fields[..|fields| - 1][i] == fields[i];
      r
  }

  /** Appending a field shadows earlier fields of the same name and leaves other names alone. */
  lemma LookupAppend(fields: Fields, field: (string, string), key: string)
    ensures Lookup(fields + [field], key) == if field.0 == key then Some(field.1) else Lookup(fields, key)
  {
    assert (fields + [field])[..|fields|] == fields;
  }

  lemma {:induction false} ColonIndexAfter(p: string, rest: string)
    requires forall j :: 0 <= j < |p| ==> p[j] != ':'
    requires rest != [] && rest[0] == ':'
    ensures ColonIndex(p + rest) == |p|
    decreases |p|
  {
    if p != [] {
      assert (p + rest)[1..] == p[1..] + rest;
      ColonIndexAfter(p[1..], rest);
    } else {
      assert p + rest == rest;
    }
  }

  lemma {:induction false} DecodeEncodeStrings(ss: seq<string>)
    ensures DecodeStrings(EncodeStrings(ss)) == Ok(ss)
  {
    if ss != [] {
      var s := ss[0];
      var digits := Decimal.FromNat(|s|);
      var tail := EncodeStrings(ss[1..]);
      var text := EncodeStrings(ss);
      assert text == digits + (":" + s + tail);
      ColonIndexAfter(digits, ":" + s + tail);
      var i := |digits|;
      assert text[..i] == digits;
      Decimal.ParseFromNat(|s|);
      assert text[i + 1..i + 1 + |s|] == s;
      assert text[i + 1 + |s|..] == tail;
      DecodeEncodeStrings(ss[1..]);
      assert [s] + ss[1..] == ss;
    }
  }

  lemma {:induction false} PairFlatten(fields: Fields)
    ensures Pair(Flatten(fields)) == Some(fields)
  {
    if fields != [] {
      var ss := Flatten(fields);
      assert ss[2..] == Flatten(fields[1..]);
      PairFlatten(fields[1..]);
      assert [fields[0]] + fields[1..] == fields;
    }
  }

  /** Whatever is written is read back unchanged. */
  lemma ParseSerialise(fields: Fields)
    ensures Parse(Serialise(fields)) == Ok(Object(fields))
  {
    SerialiseInner(fields);
    ParseFieldsOfFrames(fields);
  }

  lemma ParseFieldsOfFrames(fields: Fields)
    ensures ParseFields(EncodeStrings(Flatten(fields))) == Ok(fields)
  {
    DecodeEncodeStrings(Flatten(fields));
    PairFlatten(fields);
  }

  /** Between the braces of a serialised object are the frames of its keys and values. */
  lemma SerialiseInner(fields: Fields)
    ensures var text := Serialise(fields);
      text[1..|text| - 1] == EncodeStrings(Flatten(fields))
  {
    var inner := EncodeStrings(Flatten(fields));
    var text := Serialise(fields);
    assert text == "{" + inner + "}";
  }
}
