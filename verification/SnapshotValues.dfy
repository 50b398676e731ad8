/** Value helpers for snapshot payloads: the first usable value under candidate keys. */
module SnapshotValues {
  import opened Prelude
  import opened Json
  import T = Text

  /** `str(value)`; a list or object has a fixed non-empty text here. */
  function ValueText(j: Json): string {
    match j
    case Null => "None"
    case Bool(b) => if b then "True" else "False"
    case Num(n) => T.IntText(n)
    case Str(s) => s
    case List(_) => "[...]"
    case Obj(_) => "{...}"
  }

  /** Python's truth value. */
  predicate Truthy(j: Json) {
    match j
    case Null => false
    case Bool(b) => b
    case Num(n) => n != 0
    case Str(s) => s != ""
    case List(items) => items != []
    case Obj(fields) => fields != map[]
  }

  /** Neither null nor the empty string. */
  predicate Given(j: Json) {
    j != Null && j != Str("")
  }

  /** `_value_from_dict` */
  function ValueFrom(fields: Fields, keys: seq<string>): Option<string> {
    if keys == [] then None
    else if Given(Get(fields, keys[0])) then Some(ValueText(Get(fields, keys[0])))
    else ValueFrom(fields, keys[1..])
  }

  /** `_dict_from_item` */
  function DictFrom(fields: Fields, keys: seq<string>): Fields {
    if keys == [] then map[]
    else
      match Get(fields, keys[0])
      case Obj(inner) => inner
      case _ => DictFrom(fields, keys[1..])
  }

  /** `_int_value` */
  function IntOf(j: Json): Option<int> {
    match j
    case Num(n) => Some(n)
    case Str(s) => T.ParseInt(s)
    case _ => None
  }

  /** `_first_int_value` */
  function FirstInt(fields: Fields, keys: seq<string>): Option<int> {
    if keys == [] then None
    else
      match IntOf(Get(fields, keys[0]))
      case Some(n) => Some(n)
      case None => FirstInt(fields, keys[1..])
  }

  /** `_bool_value` */
  function BoolOf(j: Json): Option<bool> {
    match j
    case Bool(b) => Some(b)
    case Num(n) => Some(n != 0)
    case Str(s) =>
      var word := T.Lower(T.Strip(s));
      if word in ["true", "1", "yes", "on", "enabled"] then Some(true)
      else if word in ["false", "0", "no", "off", "disabled"] then Some(false)
      else None
    case _ => None
  }

  /** `_first_bool_value` */
  function FirstBool(fields: Fields, keys: seq<string>): Option<bool> {
    if keys == [] then None
    else
      match BoolOf(Get(fields, keys[0]))
      case Some(b) => Some(b)
      case None => FirstBool(fields, keys[1..])
  }

  /** `a or b` on optional texts: the first non-empty one. */
  function Or(a: Option<string>, b: Option<string>): Option<string> {
    if a.Some? && a.value != "" then a else b
  }

  /** `value or default` */
  function OrElse(a: Option<string>, default: string): string {
    if a.Some? && a.value != "" then a.value else default
  }

  // ---------------------------------------------------------------- the first usable value

  /** Each search returns what the first usable value under the keys gives, and nothing if none is
      usable: a value that is given, a number, a truth value. */
  ghost predicate FirstUsable<T>(fields: Fields, keys: seq<string>, use: Json -> Option<T>, r: Option<T>) {
    if r.None? then forall i :: 0 <= i < |keys| ==> use(Get(fields, keys[i])).None?
    else
      exists i :: 0 <= i < |keys| && use(Get(fields, keys[i])) == r
                  && forall k :: 0 <= k < i ==> use(Get(fields, keys[k])).None?
  }

  function GivenText(j: Json): Option<string> {
    if j == Null || j == Str("") then None else Some(ValueText(j))
  }

  lemma LaterUsable<T>(fields: Fields, keys: seq<string>, use: Json -> Option<T>, r: Option<T>)
    requires keys != [] && use(Get(fields, keys[0])).None? && FirstUsable(fields, keys[1..], use, r)
    ensures FirstUsable(fields, keys, use, r)
  {
    assert forall i :: 0 < i < |keys| ==> keys[i] == keys[1..][i - 1];
    if r.Some? {
      var i :| 0 <= i < |keys[1..]| && use(Get(fields, keys[1..][i])) == r
          && forall k :: 0 <= k < i ==> use(Get(fields, keys[1..][k])).None?;
      assert use(Get(fields, keys[i + 1])) == r;
    }
  }

  lemma {:induction false} SearchesFindFirst(fields: Fields, keys: seq<string>)
    ensures FirstUsable(fields, keys, GivenText, ValueFrom(fields, keys))
    ensures FirstUsable(fields, keys, IntOf, FirstInt(fields, keys))
    ensures FirstUsable(fields, keys, BoolOf, FirstBool(fields, keys))
  {
    if keys != [] {
      SearchesFindFirst(fields, keys[1..]);
      if GivenText(Get(fields, keys[0])).None? {
        LaterUsable(fields, keys, GivenText, ValueFrom(fields, keys));
      }
      if IntOf(Get(fields, keys[0])).None? {
        LaterUsable(fields, keys, IntOf, FirstInt(fields, keys));
      }
      if BoolOf(Get(fields, keys[0])).None? {
        LaterUsable(fields, keys, BoolOf, FirstBool(fields, keys));
      }
    }
  }
}
