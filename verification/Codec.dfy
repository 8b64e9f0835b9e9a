/** The codec every recorded value passes through: dates, bigints and buffers become tagged objects, and tagged
    objects are revived bottom-up. */
module Codec {
  import opened Options
  import opened Decimals

  newtype byte = b: int | 0 <= b < 256

  /** A value of the application: a date may be invalid, numbers are finite. */
  datatype Js =
    | Null
    | Bool(b: bool)
    | Num(n: real)
    | Str(s: string)
    | Arr(items: seq<Js>)
    | Obj(fields: map<string, Js>)
    | Date(ms: Option<int>)
    | BigInt(i: int)
    | Buffer(bytes: seq<byte>)

  datatype Json =
    | JNull
    | JBool(b: bool)
    | JNum(n: real)
    | JStr(s: string)
    | JArr(items: seq<Json>)
    | JObj(fields: map<string, Json>)

  /** The text of a date and how it is read; `Date.parse` may not understand a text. */
  datatype Clock = Clock(iso: int -> string, parse: string -> Option<int>)

  ghost predicate Inverse(c: Clock) {
    forall ms :: c.parse(c.iso(ms)) == Some(ms)
  }

  const DATE := "dbos_Date"
  const BIGINT := "dbos_BigInt"
  const BUFFER := "Buffer"

  predicate HasTag(fields: map<string, Js>, key: string, tag: string) {
    key in fields && fields[key] == Str(tag)
  }

  /** A plain object that the reviver takes for something else. */
  predicate Tagged(fields: map<string, Js>) {
    HasTag(fields, "type", BUFFER) || HasTag(fields, "dbos_type", DATE) || HasTag(fields, "dbos_type", BIGINT)
  }

  // ---- encoding ---------------------------------------------------------------------------------

  function Serialized(tag: string, data: string): Json {
    JObj(map["dbos_type" := JStr(tag), "dbos_data" := JStr(data)])
  }

  function ByteList(bytes: seq<byte>): seq<Json> {
    seq(|bytes|, i requires 0 <= i < |bytes| => JNum(bytes[i] as int as real))
  }

  /** The replaced tree; an invalid date has no text and throws. */
  function Encode(c: Clock, v: Js): Option<Json>
    decreases v, 1
  {
    match v
    case Null => Some(JNull)
    case Bool(b) => Some(JBool(b))
    case Num(n) => Some(JNum(n))
    case Str(s) => Some(JStr(s))
    case Date(ms) => if ms.Some? then Some(Serialized(DATE, c.iso(ms.value))) else None
    case BigInt(i) => Some(Serialized(BIGINT, IntToString(i)))
    case Buffer(bytes) => Some(JObj(map["type" := JStr(BUFFER), "data" := JArr(ByteList(bytes))]))
    case Arr(items) =>
      if forall i :: 0 <= i < |items| ==> Encode(c, items[i]).Some?
      then Some(JArr(EncodeItems(c, v)))
      else None
    case Obj(fields) =>
      if forall k :: k in fields ==> Encode(c, fields[k]).Some?
      then Some(JObj(EncodeFields(c, v)))
      else None
  }

  function EncodeItems(c: Clock, v: Js): (r: seq<Json>)
    requires v.Arr? && forall i :: 0 <= i < |v.items| ==> Encode(c, v.items[i]).Some?
    ensures |r| == |v.items| && forall i :: 0 <= i < |r| ==> Encode(c, v.items[i]) == Some(r[i])
    decreases v, 0
  {
    seq(|v.items|, i requires 0 <= i < |v.items| && Encode(c, v.items[i]).Some? => Encode(c, v.items[i]).value)
  }

  function EncodeFields(c: Clock, v: Js): (r: map<string, Json>)
    requires v.Obj? && forall k :: k in v.fields ==> Encode(c, v.fields[k]).Some?
    ensures r.Keys == v.fields.Keys && forall k :: k in r ==> Encode(c, v.fields[k]) == Some(r[k])
    decreases v, 0
  {
    map k | k in v.fields :: Encode(c, v.fields[k]).value
  }

  // ---- reviving ---------------------------------------------------------------------------------

  /** A bigint from its text: a sign and digits. */
  function ReadBigInt(s: string): Option<int> {
    if s != "" && s[0] == '-' then
      if |s| > 1 && AllDigits(s[1..]) then Some(0 - Value(s[1..])) else None
    else if s != "" && AllDigits(s) then Some(Value(s))
    else None
  }

  function Byte(v: Js): byte {
    if v.Num? then (v.n.Floor % 256) as byte else 0
  }

  function Bytes(items: seq<Js>): seq<byte> {
    seq(|items|, i requires 0 <= i < |items| => Byte(items[i]))
  }

  /** The reviver, on an object whose fields are revived already. */
  function Revive(c: Clock, fields: map<string, Js>): Option<Js> {
    if HasTag(fields, "type", BUFFER) then
      if "data" in fields && fields["data"].Arr?
      then Some(Buffer(Bytes(fields["data"].items)))
      else None
    else if HasTag(fields, "dbos_type", DATE) then
      Some(Date(if "dbos_data" in fields && fields["dbos_data"].Str? then c.parse(fields["dbos_data"].s) else None))
    else if HasTag(fields, "dbos_type", BIGINT) then
      if "dbos_data" in fields && fields["dbos_data"].Str? && ReadBigInt(fields["dbos_data"].s).Some?
      then Some(BigInt(ReadBigInt(fields["dbos_data"].s).value))
      else None
    else Some(Obj(fields))
  }

  function Decode(c: Clock, j: Json): Option<Js>
    decreases j, 1
  {
    match j
    case JNull => Some(Null)
    case JBool(b) => Some(Bool(b))
    case JNum(n) => Some(Num(n))
    case JStr(s) => Some(Str(s))
    case JArr(items) =>
      if forall i :: 0 <= i < |items| ==> Decode(c, items[i]).Some?
      then Some(Arr(DecodeItems(c, j)))
      else None
    case JObj(fields) =>
      if forall k :: k in fields ==> Decode(c, fields[k]).Some?
      then Revive(c, DecodeFields(c, j))
      else None
  }

  function DecodeItems(c: Clock, j: Json): (r: seq<Js>)
    requires j.JArr? && forall i :: 0 <= i < |j.items| ==> Decode(c, j.items[i]).Some?
    ensures |r| == |j.items| && forall i :: 0 <= i < |r| ==> Decode(c, j.items[i]) == Some(r[i])
    decreases j, 0
  {
    seq(|j.items|, i requires 0 <= i < |j.items| && Decode(c, j.items[i]).Some? => Decode(c, j.items[i]).value)
  }

  function DecodeFields(c: Clock, j: Json): (r: map<string, Js>)
    requires j.JObj? && forall k :: k in j.fields ==> Decode(c, j.fields[k]).Some?
    ensures r.Keys == j.fields.Keys && forall k :: k in r ==> Decode(c, j.fields[k]) == Some(r[k])
    decreases j, 0
  {
    map k | k in j.fields :: Decode(c, j.fields[k]).value
  }

  function RoundTrip(c: Clock, v: Js): Option<Js> {
    match Encode(c, v)
    case None => None
    case Some(j) => Decode(c, j)
  }

  // ---- the format -------------------------------------------------------------------------------

  /** What recorded values look like in the database, where other versions of the program find them. */
  lemma Format(c: Clock, ms: int, i: int, bytes: seq<byte>)
    ensures Encode(c, Date(Some(ms)))
            == Some(JObj(map["dbos_type" := JStr("dbos_Date"), "dbos_data" := JStr(c.iso(ms))]))
    ensures Encode(c, BigInt(i))
            == Some(JObj(map["dbos_type" := JStr("dbos_BigInt"), "dbos_data" := JStr(IntToString(i))]))
    ensures Encode(c, Buffer(bytes)) == Some(JObj(map["type" := JStr("Buffer"), "data" := JArr(ByteList(bytes))]))
    ensures Encode(c, Date(None)) == None
  {
  }

  // ---- the round trip ---------------------------------------------------------------------------

  /** No object anywhere in the value is tagged, and no date is invalid. */
  predicate Plain(v: Js) {
    match v
    case Arr(items) => forall i :: 0 <= i < |items| ==> Plain(items[i])
    case Obj(fields) => !Tagged(fields) && forall k :: k in fields ==> Plain(fields[k])
    case Date(ms) => ms.Some?
    case _ => true
  }

  lemma BigIntText(i: int)
    ensures ReadBigInt(IntToString(i)) == Some(i)
  {
    var n := if i < 0 then 0 - i else i;
    var s := ToString(n);
    ToStringDigits(n);
    if i < 0 {
      assert ("-" + s)[1..] == s;
    } else {
      assert IsDigit(s[0]);
    }
  }

  lemma TagKeysDiffer()
    ensures "dbos_type" != "dbos_data" && "dbos_type" != "type" && "dbos_data" != "type" && "type" != "data"
    ensures DATE != BIGINT && DATE != BUFFER && BIGINT != BUFFER
  {
    assert "dbos_type"[5] != "dbos_data"[5];
    assert |"dbos_type"| != |"type"| && |"dbos_data"| != |"type"| && "type"[0] != "data"[0];
    assert |DATE| != |BIGINT| && |DATE| != |BUFFER| && |BIGINT| != |BUFFER|;
  }

  /** A two-field object of texts that decode to themselves. */
  lemma DecodePair(c: Clock, k1: string, j1: Json, v1: Js, k2: string, j2: Json, v2: Js)
    requires k1 != k2 && Decode(c, j1) == Some(v1) && Decode(c, j2) == Some(v2)
    ensures Decode(c, JObj(map[k1 := j1, k2 := j2])) == Revive(c, map[k1 := v1, k2 := v2])
  {
    assert DecodeFields(c, JObj(map[k1 := j1, k2 := j2])) == map[k1 := v1, k2 := v2];
  }

  lemma DateTrips(c: Clock, ms: int)
    requires Inverse(c)
    ensures RoundTrip(c, Date(Some(ms))) == Some(Date(Some(ms)))
  {
    TagKeysDiffer();
    DecodePair(c, "dbos_type", JStr(DATE), Str(DATE), "dbos_data", JStr(c.iso(ms)), Str(c.iso(ms)));
    assert c.parse(c.iso(ms)) == Some(ms);
  }

  lemma {:induction false} BigIntTrips(c: Clock, i: int)
    ensures RoundTrip(c, BigInt(i)) == Some(BigInt(i))
  {
    TagKeysDiffer();
    BigIntText(i);
    DecodePair(c, "dbos_type", JStr(BIGINT), Str(BIGINT), "dbos_data", JStr(IntToString(i)), Str(IntToString(i)));
  }

  lemma ByteTrips(b: byte)
    ensures Byte(Num(b as int as real)) == b
  {
  }

  lemma BytesDecode(c: Clock, bytes: seq<byte>)
    ensures
      Decode(c, JArr(ByteList(bytes)))
      == Some(Arr(seq(|bytes|, i requires 0 <= i < |bytes| => Num(bytes[i] as int as real))))
  {
    assert DecodeItems(c, JArr(ByteList(bytes)))
           == seq(|bytes|, i requires 0 <= i < |bytes| => Num(bytes[i] as int as real));
  }

  lemma BufferTrips(c: Clock, bytes: seq<byte>)
    ensures RoundTrip(c, Buffer(bytes)) == Some(Buffer(bytes))
  {
    var items := seq(|bytes|, i requires 0 <= i < |bytes| => Num(bytes[i] as int as real));
    TagKeysDiffer();
    BytesDecode(c, bytes);
    DecodePair(c, "type", JStr(BUFFER), Str(BUFFER), "data", JArr(ByteList(bytes)), Arr(items));
    var revived := Bytes(items);
    forall i | 0 <= i < |bytes| ensures revived[i] == bytes[i] {
      ByteTrips(bytes[i]);
    }
    assert revived == bytes;
  }

  /** An array round-trips if and only if every element does. */
  lemma ArrayTrips(c: Clock, items: seq<Js>)
    ensures RoundTrip(c, Arr(items)) == Some(Arr(items)) <==>
            forall i :: 0 <= i < |items| ==> RoundTrip(c, items[i]) == Some(items[i])
  {
    if forall i :: 0 <= i < |items| ==> Encode(c, items[i]).Some? {
      var j := JArr(EncodeItems(c, Arr(items)));
      if forall i :: 0 <= i < |items| ==> Decode(c, j.items[i]).Some? {
        assert RoundTrip(c, Arr(items)) == Some(Arr(DecodeItems(c, j)));
        if forall i :: 0 <= i < |items| ==> RoundTrip(c, items[i]) == Some(items[i]) {
          assert DecodeItems(c, j) == items;
        }
      }
    }
  }

  /** An object round-trips if and only if every field does and none of its fields makes it a tagged one. */
  lemma ObjectTrips(c: Clock, fields: map<string, Js>)
    ensures RoundTrip(c, Obj(fields)) == Some(Obj(fields)) <==>
            !Tagged(fields) && forall k :: k in fields ==> RoundTrip(c, fields[k]) == Some(fields[k])
  {
    if forall k :: k in fields ==> Encode(c, fields[k]).Some? {
      var j := JObj(EncodeFields(c, Obj(fields)));
      if forall k :: k in fields ==> Decode(c, j.fields[k]).Some? {
        var decoded := DecodeFields(c, j);
        assert RoundTrip(c, Obj(fields)) == Revive(c, decoded);
        assert Revive(c, decoded) == Some(Obj(fields)) <==> !Tagged(decoded) && decoded == fields;
        if forall k :: k in fields ==> RoundTrip(c, fields[k]) == Some(fields[k]) {
          assert decoded == fields;
        }
      }
    }
  }

  /** ROUND TRIP: a value comes back from the codec unchanged if and only if none of its objects is tagged and
      none of its dates is invalid. */
  lemma {:induction false} RoundTripIffPlain(c: Clock, v: Js)
    requires Inverse(c)
    ensures RoundTrip(c, v) == Some(v) <==> Plain(v)
  {
    match v
    case Date(ms) => if ms.Some? { DateTrips(c, ms.value); }
    case BigInt(i) => BigIntTrips(c, i);
    case Buffer(bytes) => BufferTrips(c, bytes);
    case Arr(items) =>
      forall i | 0 <= i < |items| ensures RoundTrip(c, items[i]) == Some(items[i]) <==> Plain(items[i]) {
        RoundTripIffPlain(c, items[i]);
      }
      ArrayTrips(c, items);
    case Obj(fields) =>
      forall k | k in fields ensures RoundTrip(c, fields[k]) == Some(fields[k]) <==> Plain(fields[k]) {
        RoundTripIffPlain(c, fields[k]);
      }
      ObjectTrips(c, fields);
    case _ =>
  }
}
