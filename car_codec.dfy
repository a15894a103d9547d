/** The Car record and its JSON form: the marshalling the chaincode applies
    before every write and the unmarshalling it applies after every read,
    both strict (the manufacture payload) and lenient (stored values). */
module CarCodec {
  import opened Results
  import opened JsonText

  /** One vehicle; every attribute is free text, status included. */
  datatype Car = Car(
    carId: string,
    carType: string,
    make: string,
    model: string,
    colour: string,
    dealer: string,
    owner: string,
    status: string)

  /** The zero value a fresh record starts from before unmarshalling. */
  const EmptyCar := Car("", "", "", "", "", "", "", "")

  /** The JSON member names and values, in declaration order. */
  function Fields(c: Car): seq<(string, string)> {
    [("carId", c.carId), ("cartype", c.carType), ("make", c.make), ("model", c.model),
     ("colour", c.colour), ("dealer", c.dealer), ("owner", c.owner), ("status", c.status)]
  }

  function EncodeMember(m: (string, string)): string {
    Quote(m.0) + ":" + Quote(m.1)
  }

  function EncodeMembers(ms: seq<(string, string)>): string
    requires |ms| > 0
  {
    if |ms| == 1 then EncodeMember(ms[0]) else EncodeMember(ms[0]) + "," + EncodeMembers(ms[1..])
  }

  /** json.Marshal of a Car: a compact object with the eight members. */
  function Encode(c: Car): (b: string)
    ensures |b| > 0 && b[0] == '{' && b[|b| - 1] == '}'
  {
    "{" + EncodeMembers(Fields(c)) + "}"
  }

  /** Case folding as Go applies it when it matches a JSON key against a
      field name: against an all-ASCII name, the only characters that fold
      to one of its letters are the ASCII letters themselves, U+017F (long s)
      and U+212A (Kelvin sign). */
  function FoldChar(c: char): char {
    if 'a' <= c <= 'z' then (c as int - 32) as char
    else if c == '\U{17F}' then 'S'
    else if c == '\U{212A}' then 'K'
    else c
  }

  function Fold(s: string): string {
    if s == [] then [] else [FoldChar(s[0])] + Fold(s[1..])
  }

  predicate KeyMatches(key: string, name: string) {
    Fold(key) == Fold(name)
  }

  /** Stores a string member into the field its key names; an unknown key
      leaves the record as it is. */
  function SetField(car: Car, key: string, v: string): Car {
    if KeyMatches(key, "carId") then car.(carId := v)
    else if KeyMatches(key, "cartype") then car.(carType := v)
    else if KeyMatches(key, "make") then car.(make := v)
    else if KeyMatches(key, "model") then car.(model := v)
    else if KeyMatches(key, "colour") then car.(colour := v)
    else if KeyMatches(key, "dealer") then car.(dealer := v)
    else if KeyMatches(key, "owner") then car.(owner := v)
    else if KeyMatches(key, "status") then car.(status := v)
    else car
  }

  /** A member value: a string, or null (None), which leaves a field as it is. */
  function ParseMemberValue(s: string): (r: Option<(Option<string>, string)>)
    ensures r.Some? ==> |r.value.1| < |s|
  {
    if |s| >= 4 && s[..4] == "null" then Some((None, s[4..]))
    else match ParseString(s)
      case None => None
      case Some((v, rest)) => Some((Some(v), rest))
  }

  /** Reads one `key : value` member into car; the result is the updated
      record and what follows the value. */
  function ParseMember(s: string, car: Car): (r: Option<(Car, string)>)
    ensures r.Some? ==> |r.value.1| < |s|
  {
    match ParseString(s)
    case None => None
    case Some((key, s1)) =>
      var s2 := SkipSpace(s1);
      if |s2| == 0 || s2[0] != ':' then None
      else match ParseMemberValue(SkipSpace(s2[1..]))
        case None => None
        case Some((v, s3)) => Some((if v.Some? then SetField(car, key, v.value) else car, s3))
  }

  /** Reads `member (, member)* }` into car, members applied left to right
      (so a repeated key keeps its last value). */
  function ParseMembers(s: string, car: Car): (r: Option<(Car, string)>)
    ensures r.Some? ==> |r.value.1| < |s|
    decreases |s|
  {
    match ParseMember(s, car)
    case None => None
    case Some((car', s3)) =>
      var s4 := SkipSpace(s3);
      if |s4| == 0 then None
      else if s4[0] == ',' then ParseMembers(SkipSpace(s4[1..]), car')
      else if s4[0] == '}' then Some((car', s4[1..]))
      else None
  }

  /** json.Unmarshal into a zero Car, for documents that are null or an
      object whose member values are strings or null. None is an
      unmarshalling error. */
  function Decode(b: string): (r: Option<Car>)
    ensures SkipSpace(b) == [] ==> r.None?
  {
    var s := SkipSpace(b);
    if |s| >= 4 && s[..4] == "null" then
      if SkipSpace(s[4..]) == [] then Some(EmptyCar) else None
    else if |s| > 0 && s[0] == '{' then
      var t := SkipSpace(s[1..]);
      var parsed: Option<(Car, string)> := if |t| > 0 && t[0] == '}' then Some((EmptyCar, t[1..])) else ParseMembers(t, EmptyCar);
      match parsed
      case None => None
      case Some((car, rest)) => if SkipSpace(rest) == [] then Some(car) else None
    else None
  }

  /** Go's scanner refuses the escape \' inside a string, so a payload
      carrying it does not unmarshal. */
  lemma QuoteEscapeUndecodable()
    ensures Decode("{\"carId\":\"\\'\"}") == None
  {
    var t := Quote("carId") + (":" + (BadEscape + "\"}"));
    BadEscapeMember("carId", "\"}", EmptyCar);
    QuotedCarId();
    assert "{\"carId\":\"\\'\"}" == "{" + t;
    MembersRefused(t);
  }

  lemma QuotedCarId()
    ensures Quote("carId") == "\"carId\""
  {
    EscapeLetters("carId");
  }

  /** Letters are written as they are. */
  lemma {:induction false} EscapeLetters(s: string)
    requires forall i :: 0 <= i < |s| ==> 'A' <= s[i] <= 'Z' || 'a' <= s[i] <= 'z'
    ensures Escape(s) == s
  {
    if s != [] {
      EscapeLetters(s[1..]);
      assert EscapeChar(s[0]) == [s[0]];
    }
  }

  /** An object whose first member does not parse does not unmarshal. */
  lemma MembersRefused(t: string)
    requires |t| > 0 && t[0] == '"' && ParseMembers(t, EmptyCar) == None
    ensures Decode("{" + t) == None
  {
    var payload := "{" + t;
    SkipSpaceNone(payload);
    assert payload[1..] == t;
    SkipSpaceNone(t);
  }

  /** A string value that opens with the escape \'. */
  const BadEscape: string := "\"\\'"

  /** A member whose value opens with \' stops the object. */
  lemma BadEscapeMember(k: string, tail: string, car: Car)
    ensures ParseMembers(Quote(k) + (":" + (BadEscape + tail)), car) == None
  {
    var value := BadEscape + tail;
    var member := ":" + value;
    ShortEscapes('\'', tail);
    assert value[0] == '"' && value[1..] == ['\\', '\''] + tail;
    assert ParseString(value) == None;
    assert |value| >= 4 ==> value[..4][0] == '"';
    SkipSpaceNone(value);
    assert member[1..] == value;
    SkipSpaceNone(member);
    ParseQuoted(k, member);
    assert ParseMember(Quote(k) + member, car) == None;
  }

  /** Unmarshalling with the error discarded: a value that does not decode
      yields the zero record. */
  function DecodeLenient(b: string): Car {
    match Decode(b)
    case Some(car) => car
    case None => EmptyCar
  }

  /** Applies a list of members to a record, as ParseMembers does. */
  function ApplyAll(car: Car, ms: seq<(string, string)>): Car
    decreases |ms|
  {
    if |ms| == 0 then car else ApplyAll(SetField(car, ms[0].0, ms[0].1), ms[1..])
  }

  lemma ParseMemberSteps(s: string, k: string, afterKey: string, v: string, tail: string, car: Car)
    requires ParseString(s) == Some((k, afterKey))
    requires SkipSpace(afterKey) == afterKey && |afterKey| > 0 && afterKey[0] == ':'
    requires ParseMemberValue(SkipSpace(afterKey[1..])) == Some((Some(v), tail))
    ensures ParseMember(s, car) == Some((SetField(car, k, v), tail))
  {
  }

  lemma ParseEncodedKey(k: string, v: string, tail: string)
    ensures ParseString(EncodeMember((k, v)) + tail) == Some((k, ":" + Quote(v) + tail))
  {
    var qk, qv := Quote(k), Quote(v);
    Assoc(qk + ":", qv, tail);
    Assoc(qk, ":", qv + tail);
    Assoc(":", qv, tail);
    assert EncodeMember((k, v)) + tail == qk + (":" + qv + tail);
    ParseQuoted(k, ":" + qv + tail);
  }

  lemma ParseEncodedValue(v: string, tail: string)
    ensures ParseMemberValue(SkipSpace((":" + Quote(v) + tail)[1..])) == Some((Some(v), tail))
  {
    var w := Quote(v) + tail;
    assert (":" + Quote(v) + tail)[1..] == w;
    ParseQuoted(v, tail);
    assert w[0] == '"';
    assert |w| >= 4 ==> w[..4][0] == '"';
    assert SkipSpace(w) == w;
  }

  /** One encoded member reads back into its field. */
  lemma ParseEncodedMember(k: string, v: string, tail: string, car: Car)
    ensures ParseMember(EncodeMember((k, v)) + tail, car) == Some((SetField(car, k, v), tail))
  {
    ParseEncodedKey(k, v, tail);
    ParseEncodedValue(v, tail);
    ParseMemberSteps(EncodeMember((k, v)) + tail, k, ":" + Quote(v) + tail, v, tail, car);
  }

  lemma ParseMembersNext(s: string, car: Car, car': Car, s3: string)
    requires ParseMember(s, car) == Some((car', s3))
    requires |s3| > 0 && s3[0] == ','
    ensures ParseMembers(s, car) == ParseMembers(SkipSpace(s3[1..]), car')
  {
    SkipSpaceNone(s3);
  }

  lemma ParseMembersLast(s: string, car: Car, car': Car, s3: string)
    requires ParseMember(s, car) == Some((car', s3))
    requires |s3| > 0 && s3[0] == '}'
    ensures ParseMembers(s, car) == Some((car', s3[1..]))
  {
    SkipSpaceNone(s3);
  }

  lemma EncodeMembersSplit(ms: seq<(string, string)>, rest: string)
    requires |ms| > 1
    ensures EncodeMembers(ms) + "}" + rest == EncodeMember(ms[0]) + ("," + (EncodeMembers(ms[1..]) + "}" + rest))
  {
    var a, b := EncodeMember(ms[0]), EncodeMembers(ms[1..]);
    assert EncodeMembers(ms) == a + "," + b;
    Assoc(a + "," + b, "}", rest);
    Assoc(a + ",", b, "}" + rest);
    Assoc(a, ",", b + ("}" + rest));
    Assoc(b, "}", rest);
  }

  lemma EncodeMembersStart(ms: seq<(string, string)>, rest: string)
    requires |ms| > 0
    ensures SkipSpace((EncodeMembers(ms) + "}" + rest)) == EncodeMembers(ms) + "}" + rest
  {
    SkipSpaceNone(EncodeMembers(ms) + "}" + rest);
  }

  /** An encoded member list reads back as those members, whatever follows. */
  lemma {:induction false} ParseEncodedMembers(ms: seq<(string, string)>, car: Car, rest: string)
    requires |ms| > 0
    ensures ParseMembers(EncodeMembers(ms) + "}" + rest, car) == Some((ApplyAll(car, ms), rest))
  {
    var car' := SetField(car, ms[0].0, ms[0].1);
    assert ApplyAll(car, ms) == ApplyAll(car', ms[1..]);
    if |ms| == 1 {
      var tail := "}" + rest;
      Assoc(EncodeMembers(ms), "}", rest);
      ParseEncodedMember(ms[0].0, ms[0].1, tail, car);
      ParseMembersLast(EncodeMember(ms[0]) + tail, car, car', tail);
      assert tail[1..] == rest;
    } else {
      var next := EncodeMembers(ms[1..]) + "}" + rest;
      var tail := "," + next;
      EncodeMembersSplit(ms, rest);
      ParseEncodedMember(ms[0].0, ms[0].1, tail, car);
      ParseMembersNext(EncodeMember(ms[0]) + tail, car, car', tail);
      assert tail[1..] == next;
      EncodeMembersStart(ms[1..], rest);
      ParseEncodedMembers(ms[1..], car', rest);
    }
  }

  lemma FoldHead(s: string)
    requires |s| > 0
    ensures Fold(s)[0] == FoldChar(s[0])
  {
  }

  /** Each member name selects its own field: no earlier name in SetField's
      list matches it. The folded names differ in length or in their first
      letter. */
  lemma SetNamedField(car: Car, v: string)
    ensures SetField(car, "carId", v) == car.(carId := v)
    ensures SetField(car, "cartype", v) == car.(carType := v)
    ensures SetField(car, "make", v) == car.(make := v)
    ensures SetField(car, "model", v) == car.(model := v)
    ensures SetField(car, "colour", v) == car.(colour := v)
    ensures SetField(car, "dealer", v) == car.(dealer := v)
    ensures SetField(car, "owner", v) == car.(owner := v)
    ensures SetField(car, "status", v) == car.(status := v)
  {
    SetIdAndType(car, v);
    SetMakeAndModel(car, v);
    SetColourAndDealer(car, v);
    SetOwnerAndStatus(car, v);
  }

  lemma SetIdAndType(car: Car, v: string)
    ensures SetField(car, "carId", v) == car.(carId := v)
    ensures SetField(car, "cartype", v) == car.(carType := v)
  {
    FoldLength("carId"); FoldLength("cartype");
  }

  lemma SetMakeAndModel(car: Car, v: string)
    ensures SetField(car, "make", v) == car.(make := v)
    ensures SetField(car, "model", v) == car.(model := v)
  {
    FoldLength("carId"); FoldLength("cartype"); FoldLength("make"); FoldLength("model");
    FoldHead("carId"); FoldHead("model");
  }

  lemma SetColourAndDealer(car: Car, v: string)
    ensures SetField(car, "colour", v) == car.(colour := v)
    ensures SetField(car, "dealer", v) == car.(dealer := v)
  {
    FoldLength("carId"); FoldLength("cartype"); FoldLength("make"); FoldLength("model");
    FoldLength("colour"); FoldLength("dealer");
    FoldHead("colour"); FoldHead("dealer");
  }

  lemma SetOwnerAndStatus(car: Car, v: string)
    ensures SetField(car, "owner", v) == car.(owner := v)
    ensures SetField(car, "status", v) == car.(status := v)
  {
    FoldLength("carId"); FoldLength("cartype"); FoldLength("make"); FoldLength("model");
    FoldLength("colour"); FoldLength("dealer"); FoldLength("owner"); FoldLength("status");
    FoldHead("carId"); FoldHead("model"); FoldHead("owner");
    FoldHead("colour"); FoldHead("dealer"); FoldHead("status");
    assert Fold("owner") != Fold("carId") && Fold("owner") != Fold("model");
    assert Fold("status") != Fold("colour") && Fold("status") != Fold("dealer");
  }

  lemma {:induction false} FoldLength(s: string)
    ensures |Fold(s)| == |s|
  {
    if s != [] {
      FoldLength(s[1..]);
    }
  }

  lemma ApplyAllCons(car: Car, ms: seq<(string, string)>)
    requires |ms| > 0
    ensures ApplyAll(car, ms) == ApplyAll(SetField(car, ms[0].0, ms[0].1), ms[1..])
  {
  }

  lemma FieldsApply(c: Car)
    ensures ApplyAll(EmptyCar, Fields(c)) == c
  {
    var c4 := EmptyCar.(carId := c.carId, carType := c.carType, make := c.make, model := c.model);
    FirstFieldsApply(c);
    LastFieldsApply(c, c4);
  }

  /** The first four members fill carId, cartype, make and model. */
  lemma FirstFieldsApply(c: Car)
    ensures ApplyAll(EmptyCar, Fields(c))
         == ApplyAll(EmptyCar.(carId := c.carId, carType := c.carType, make := c.make, model := c.model), Fields(c)[4..])
  {
    var ms := Fields(c);
    var c1 := EmptyCar.(carId := c.carId);
    var c2 := c1.(carType := c.carType);
    var c3 := c2.(make := c.make);
    SetNamedField(EmptyCar, c.carId);
    SetNamedField(c1, c.carType);
    SetNamedField(c2, c.make);
    SetNamedField(c3, c.model);
    ApplyAllCons(EmptyCar, ms);
    ApplyAllCons(c1, ms[1..]);
    ApplyAllCons(c2, ms[2..]);
    ApplyAllCons(c3, ms[3..]);
    assert ms[1..][1..] == ms[2..] && ms[2..][1..] == ms[3..] && ms[3..][1..] == ms[4..];
  }

  /** The last four members fill colour, dealer, owner and status. */
  lemma LastFieldsApply(c: Car, c4: Car)
    requires c4 == EmptyCar.(carId := c.carId, carType := c.carType, make := c.make, model := c.model)
    ensures ApplyAll(c4, Fields(c)[4..]) == c
  {
    var ms := Fields(c)[4..];
    assert ms == [("colour", c.colour), ("dealer", c.dealer), ("owner", c.owner), ("status", c.status)];
    var c5 := c4.(colour := c.colour);
    var c6 := c5.(dealer := c.dealer);
    var c7 := c6.(owner := c.owner);
    SetNamedField(c4, c.colour);
    SetNamedField(c5, c.dealer);
    SetNamedField(c6, c.owner);
    SetNamedField(c7, c.status);
    ApplyAllCons(c4, ms);
    ApplyAllCons(c5, ms[1..]);
    ApplyAllCons(c6, ms[2..]);
    ApplyAllCons(c7, ms[3..]);
    assert ms[1..][1..] == ms[2..] && ms[2..][1..] == ms[3..] && ms[3..][1..] == [];
    assert c7.(status := c.status) == c;
  }

  lemma DecodeObject(b: string, car: Car)
    requires |b| > 1 && b[0] == '{' && b[1] == '"'
    requires ParseMembers(b[1..], EmptyCar) == Some((car, ""))
    ensures Decode(b) == Some(car)
  {
    SkipSpaceNone(b);
    SkipSpaceNone(b[1..]);
    assert |b| >= 4 ==> b[..4][0] == '{';
  }

  /** Unmarshalling undoes marshalling: every Car survives a write and a
      read unchanged. */
  lemma DecodeEncode(c: Car)
    ensures Decode(Encode(c)) == Some(c)
  {
    var members := EncodeMembers(Fields(c));
    Assoc("{", members, "}");
    assert Encode(c)[1..] == members + "}";
    ParseEncodedMembers(Fields(c), EmptyCar, "");
    assert members + "}" + "" == members + "}";
    FieldsApply(c);
    DecodeObject(Encode(c), c);
  }

  /** The lenient read of a written value is the Car that was written. */
  lemma DecodeLenientEncode(c: Car)
    ensures DecodeLenient(Encode(c)) == c
  {
    DecodeEncode(c);
  }

  /** Marshalling is injective: distinct cars are stored as distinct values. */
  lemma EncodeInjective(c: Car, d: Car)
    ensures Encode(c) == Encode(d) ==> c == d
  {
    DecodeEncode(c);
    DecodeEncode(d);
  }
}
