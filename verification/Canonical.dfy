/**
 canonicalAuditMetadata (server/src/lib/audit-chain.ts): a JavaScript value goes through JSON.stringify
 and JSON.parse, so that what is hashed is what the database will give back.
 */
module Canonical {
  import opened Prelude
  import opened Json

  /** JavaScript values as JSON.stringify sees them. Unserializable stands for a BigInt or a cycle. */
  datatype Js =
    | Undefined
    | Function
    | JsNull
    | JsBool(value: bool)
    | JsNumber(text: Text)
    | NotFinite
    | JsString(chars: Text)
    | JsArray(items: seq<Js>)
    | JsObject(props: seq<Prop>)
    | Date(iso: Option<Text>)
    | Unserializable

  datatype Prop = Prop(key: Text, value: Js)

  /** JSON.stringify then JSON.parse: no text at all, an exception, or a JSON value. */
  datatype Outcome = Absent | Throws | Gives(json: Json)

  function ToJson(v: Js): (r: Outcome)
    decreases v
  {
    match v
    case Undefined => Absent
    case Function => Absent
    case JsNull => Gives(Null)
    case JsBool(b) => Gives(Bool(b))
    case JsNumber(text) => Gives(Num(text))
    case NotFinite => Gives(Null)
    case JsString(chars) => Gives(Str(chars))
    case Date(iso) => Gives(if iso.Some? then Str(iso.value) else Null)
    case Unserializable => Throws
    case JsArray(items) =>
      var outs := seq(|items|, i requires 0 <= i < |items| => ToJson(items[i]));
      if Throws in outs then Throws
      else Gives(Arr(seq(|outs|, i requires 0 <= i < |outs| => if outs[i].Gives? then outs[i].json else Null)))
    case JsObject(props) =>
      var outs := seq(|props|, i requires 0 <= i < |props| => ToJson(props[i].value));
      if Throws in outs then Throws else Gives(Obj(Present(props, outs)))
  }

  /** The properties that have a text, in their order. */
  function Present(props: seq<Prop>, outs: seq<Outcome>): (members: seq<Member>)
    requires |props| == |outs|
    ensures forall m :: m in members <==>
              exists i :: 0 <= i < |props| && outs[i].Gives? && m == Member(props[i].key, outs[i].json)
  {
    if |props| == 0 then []
    else
      var n := |props| - 1;
      var before := Present(props[..n], outs[..n]);
      var members := if outs[n].Gives? then before + [Member(props[n].key, outs[n].json)] else before;
      assert forall m :: m in members <==> m in before || (outs[n].Gives? && m == Member(props[n].key, outs[n].json));
      members
  }

  const UNSERIALIZABLE: Json := Obj([Member(Ascii("unserializable"), Bool(true))])

  function Ascii(s: string): Text {
    seq(|s|, i requires 0 <= i < |s| => s[i] as int % 0x1_0000)
  }

  function Canon(v: Js): Json {
    if v.Undefined? || v.JsNull? then Obj([])
    else
      match ToJson(v)
      case Absent => Obj([])
      case Throws => UNSERIALIZABLE
      case Gives(json) => json
  }

  /** The same function on what was read back from the database. */
  function CanonJson(m: Json): Json {
    if m.Null? then Obj([]) else m
  }

  predicate DistinctProps(props: seq<Prop>) {
    forall i, j | 0 <= i < j < |props| :: props[i].key != props[j].key
  }

  predicate IsJs(v: Js) {
    match v
    case JsNumber(text) => WellFormed(Num(text))
    case JsArray(items) => forall i | 0 <= i < |items| :: IsJs(items[i])
    case JsObject(props) => DistinctProps(props) && forall i | 0 <= i < |props| :: IsJs(props[i].value)
    case _ => true
  }

  function Outcomes(props: seq<Prop>): (outs: seq<Outcome>)
    ensures |outs| == |props|
  {
    seq(|props|, i requires 0 <= i < |props| => ToJson(props[i].value))
  }

  lemma {:induction false} PresentDistinct(props: seq<Prop>, outs: seq<Outcome>)
    requires |props| == |outs| && DistinctProps(props)
    ensures Distinct(Present(props, outs))
  {
    if |props| > 0 {
      var n := |props| - 1;
      PresentDistinct(props[..n], outs[..n]);
      var before := Present(props[..n], outs[..n]);
      forall i | 0 <= i < |before|
        ensures before[i].key != props[n].key
      {
        assert before[i] in before;
      }
    }
  }

  /** The canonical form is a JSON value: no key twice, numbers that are numbers. */
  lemma {:induction false} ToJsonWellFormed(v: Js)
    requires IsJs(v) && ToJson(v).Gives?
    ensures WellFormed(ToJson(v).json)
    decreases v
  {
    match v
    case JsArray(items) =>
      var json := ToJson(v).json;
      forall i | 0 <= i < |items|
        ensures WellFormed(json.items[i])
      {
        if ToJson(items[i]).Gives? {
          ToJsonWellFormed(items[i]);
        }
      }
    case JsObject(props) =>
      var members := ToJson(v).json.members;
      assert members == Present(props, Outcomes(props));
      PresentDistinct(props, Outcomes(props));
      forall k | 0 <= k < |members|
        ensures WellFormed(members[k].value)
      {
        assert members[k] in members;
        var i :| 0 <= i < |props| && Outcomes(props)[i].Gives? && members[k] == Member(props[i].key, Outcomes(props)[i].json);
        ToJsonWellFormed(props[i].value);
      }
    case _ =>
  }

  lemma CanonWellFormed(v: Js)
    requires IsJs(v)
    ensures WellFormed(Canon(v))
  {
    if ToJson(v).Gives? {
      ToJsonWellFormed(v);
    }
  }

  /** A JSON value read back, as a JavaScript value. */
  function Embed(j: Json): (v: Js)
    decreases j
  {
    match j
    case Null => JsNull
    case Bool(b) => JsBool(b)
    case Num(text) => JsNumber(text)
    case Str(chars) => JsString(chars)
    case Arr(items) => JsArray(seq(|items|, i requires 0 <= i < |items| => Embed(items[i])))
    case Obj(members) => JsObject(seq(|members|, i requires 0 <= i < |members| => Prop(members[i].key, Embed(members[i].value))))
  }

  lemma {:induction false} AllPresent(props: seq<Prop>, outs: seq<Outcome>, members: seq<Member>)
    requires |props| == |outs| == |members|
    requires forall i :: 0 <= i < |props| ==> props[i].key == members[i].key && outs[i] == Gives(members[i].value)
    ensures Present(props, outs) == members
  {
    if |props| > 0 {
      var n := |props| - 1;
      AllPresent(props[..n], outs[..n], members[..n]);
      assert members == members[..n] + [members[n]];
    }
  }

  /** JSON values go through unchanged. */
  lemma {:induction false} JsonRoundTrip(j: Json)
    ensures ToJson(Embed(j)) == Gives(j)
    decreases j
  {
    match j
    case Arr(items) =>
      forall i | 0 <= i < |items| ensures ToJson(Embed(items[i])) == Gives(items[i]) { JsonRoundTrip(items[i]); }
      assert ToJson(Embed(j)).json.items == items;
    case Obj(members) =>
      forall i | 0 <= i < |members| ensures ToJson(Embed(members[i].value)) == Gives(members[i].value) {
        JsonRoundTrip(members[i].value);
      }
      var props := Embed(j).props;
      AllPresent(props, Outcomes(props), members);
      assert ToJson(Embed(j)) == Gives(Obj(Present(props, Outcomes(props))));
    case _ =>
  }

  /** Hashing again what was read back hashes the same value; the canonical form itself is a fixed
      point unless it is a bare null, which only a bare NaN, infinity or invalid date can give. */
  lemma CanonIdempotent(v: Js)
    ensures CanonJson(Canon(Embed(Canon(v)))) == CanonJson(Canon(v))
    ensures Canon(Embed(Canon(v))) == Canon(v) <==> Canon(v) != Null
    ensures Canon(v) == Null <==> v.NotFinite? || v == Date(None)
  {
    JsonRoundTrip(Canon(v));
  }

  /** Of an object whose values can all be serialised, exactly the properties that have a text remain. */
  lemma CanonKeeps(props: seq<Prop>, k: Text, i: nat)
    requires DistinctProps(props) && i < |props| && props[i].key == k && Throws !in Outcomes(props)
    ensures Canon(JsObject(props)).Obj?
    ensures k in Keys(Canon(JsObject(props)).members) <==> ToJson(props[i].value) != Absent
    ensures k in Keys(Canon(JsObject(props)).members) ==>
              Gives(Field(Canon(JsObject(props)).members, k)) == ToJson(props[i].value)
  {
    var outs := Outcomes(props);
    var members := Present(props, outs);
    assert Canon(JsObject(props)) == Obj(members);
    assert outs[i] in outs;
    if k in Keys(members) {
      var m := members[IndexOf(members, k)];
      assert m in members;
      var j :| 0 <= j < |props| && outs[j].Gives? && m == Member(props[j].key, outs[j].json);
      assert i == j;
    }
    if outs[i].Gives? {
      var m := Member(k, outs[i].json);
      assert m in members;
      var j :| 0 <= j < |members| && members[j] == m;
      assert Keys(members)[j] == k;
    }
  }
}
