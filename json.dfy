/**
 * JSON values as the handlers see them after `JSON.parse`, and JavaScript
 * truthiness on them.
 */
module Json {

  /** A parsed JSON value; numbers are integers in this model. */
  datatype Json =
    | JNull
    | JBool(b: bool)
    | JNum(n: int)
    | JStr(s: string)
    | JArr(items: seq<Json>)
    | JObj(fields: map<string, Json>)

  /** `Boolean(v)`: false, 0, "" and null are falsy; arrays and objects are truthy. */
  predicate Truthy(v: Json) {
    match v
    case JNull => false
    case JBool(b) => b
    case JNum(n) => n != 0
    case JStr(s) => s != []
    case _ => true
  }

  /**
   * A request body after `JSON.parse(event.body || "{}")` and destructuring
   * of the named properties. `Malformed` is a text `JSON.parse` rejects or the
   * text "null" (destructuring null throws); an absent or empty body and any
   * other non-object value give `Fields(map[])`, since every property read
   * from them is undefined. A key missing from `fields` is `undefined`.
   */
  datatype Body = Malformed | Fields(fields: map<string, Json>)

  /** The property `key` is a string. */
  predicate StringField(fields: map<string, Json>, key: string) {
    key in fields && fields[key].JStr?
  }

  /** The property `key` is absent (undefined) or a string. */
  predicate OptionalString(fields: map<string, Json>, key: string) {
    key !in fields || fields[key].JStr?
  }

  /** Every element is a JSON string. */
  predicate AllStrings(items: seq<Json>) {
    forall i :: 0 <= i < |items| ==> items[i].JStr?
  }

  /** Every element is a JSON number. */
  predicate AllNumbers(items: seq<Json>) {
    forall i :: 0 <= i < |items| ==> items[i].JNum?
  }

  /** The strings of an array of JSON strings. */
  function Strings(items: seq<Json>): (r: seq<string>)
    requires AllStrings(items)
    ensures |r| == |items|
    ensures forall i :: 0 <= i < |items| ==> items[i] == JStr(r[i])
  {
    if items == [] then [] else [items[0].s] + Strings(items[1..])
  }

  /** The numbers of an array of JSON numbers. */
  function Numbers(items: seq<Json>): (r: seq<int>)
    requires AllNumbers(items)
    ensures |r| == |items|
    ensures forall i :: 0 <= i < |items| ==> items[i] == JNum(r[i])
  {
    if items == [] then [] else [items[0].n] + Numbers(items[1..])
  }
}
