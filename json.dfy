/**
 * JSON values as the program holds them (`QJsonValue`, `QJsonObject`, `QJsonArray`),
 * and the lenient accessors it reads documents with.
 */
module Json {
  import opened Wrappers
  import Decimal

  /** A JSON value. Numbers are integers here: no value the program writes has a fraction. */
  datatype Json =
    | Null
    | Bool(b: bool)
    | Number(n: int)
    | Str(s: string)
    | Array(items: seq<Json>)
    | Object(fields: map<string, Json>)

  /** A `QJsonObject`: keys to values. */
  type JsonObject = map<string, Json>

  /** `obj.value(key)`: the value under `key`, or `Null` (Qt's Undefined) when absent. */
  function Get(obj: JsonObject, key: string): (v: Json)
    ensures key !in obj ==> v == Null
  {
    if key in obj then obj[key] else Null
  }

  /** `obj.value(key).toString()`: the string under `key`, or "" for anything that is not a string. */
  function StringValue(obj: JsonObject, key: string): (s: string)
    ensures s != "" ==> key in obj && obj[key] == Str(s)
    ensures key in obj && obj[key].Str? ==> s == obj[key].s
  {
    match Get(obj, key)
    case Str(s) => s
    case _ => ""
  }

  /** `obj.value(key).toArray()`: the array under `key`, or the empty array. */
  function ArrayValue(obj: JsonObject, key: string): (a: seq<Json>)
    ensures a != [] ==> key in obj && obj[key] == Array(a)
    ensures key in obj && obj[key].Array? ==> a == obj[key].items
  {
    match Get(obj, key)
    case Array(items) => items
    case _ => []
  }

  /**
   * `obj.value(key).toVariant().toLongLong()`: a number as is, a boolean as 0 or 1,
   * a string through decimal parsing (0 when that fails), anything else 0.
   */
  function LongLongValue(obj: JsonObject, key: string): (n: int)
    ensures key !in obj ==> n == 0
    ensures key in obj && obj[key].Number? ==> n == obj[key].n
  {
    match Get(obj, key)
    case Number(n) => n
    case Bool(b) => if b then 1 else 0
    case Str(s) => Decimal.ParseLongLong(s).GetOr(0)
    case _ => 0
  }
  /** A number written as a string, with white space around it, reads as that number. */
  lemma PaddedNumberStringReads(obj: JsonObject, key: string, before: string, x: int, after: string)
    requires key in obj && obj[key] == Str(before + Decimal.IntToString(x) + after)
    requires Decimal.IsInt64(x)
    requires forall i :: 0 <= i < |before| ==> Decimal.IsSpace(before[i])
    requires forall i :: 0 <= i < |after| ==> Decimal.IsSpace(after[i])
    ensures LongLongValue(obj, key) == x
  {
    Decimal.ParsePadded(before, x, after);
  }
}
