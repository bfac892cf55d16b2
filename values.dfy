/**
 * The JavaScript values the bridge handles: whatever `JSON.parse` yields for
 * a frame, plus `undefined`, which is what reading an absent property gives.
 * Numbers are integers here (the only numbers the bridge itself creates are
 * millisecond timestamps).
 */
module Values {
  import opened Wrappers

  datatype Value =
    | Undefined
    | Null
    | Bool(b: bool)
    | Num(n: int)
    | Str(s: string)
    | Arr(items: seq<Value>)
    | Obj(fields: map<string, Value>)

  /** Property access `o.k` on a parsed object. */
  function Get(fields: map<string, Value>, k: string): (v: Value)
  {
    if k in fields then fields[k] else Undefined
  }

  function Digit(d: nat): (c: char)
    requires d < 10
  {
    "0123456789"[d]
  }

  /** Decimal digits of a natural number, most significant first. */
  function NatText(n: nat): (s: string)
    ensures |s| >= 1
    ensures forall i | 0 <= i < |s| :: '0' <= s[i] <= '9'
    decreases n
  {
    if n < 10 then [Digit(n)] else NatText(n / 10) + [Digit(n % 10)]
  }

  /** `parts.join(sep)`. */
  function Join(parts: seq<string>, sep: string): (s: string)
  {
    if |parts| == 0 then ""
    else if |parts| == 1 then parts[0]
    else parts[0] + sep + Join(parts[1..], sep)
  }

  /** The texts of all elements, or None as soon as one of them has none. */
  function AllPresent(texts: seq<Option<string>>): (r: Option<seq<string>>)
    ensures r.Some? <==> forall i | 0 <= i < |texts| :: texts[i].Some?
    ensures r.Some? ==> |r.value| == |texts| && forall i | 0 <= i < |texts| :: r.value[i] == texts[i].value
  {
    if texts == [] then Some([])
    else if texts[0].None? then None
    else
      var rest := AllPresent(texts[1..]);
      assert forall i | 1 <= i < |texts| :: texts[i] == texts[1..][i - 1];
      if rest.None? then None else Some([texts[0].value] + rest.value)
  }

  /**
   * The text a value becomes inside a template literal `${v}`, or None when
   * the conversion throws. Strings stay as they are; arrays are joined by
   * commas, with `null` and `undefined` elements empty; an object becomes
   * "[object Object]" unless it has a `toString` property of its own. A
   * parsed `toString` is never callable, and neither is a parsed `valueOf`,
   * while the inherited `valueOf` returns the object itself, so the
   * conversion finds no primitive and throws a TypeError.
   */
  function JsText(v: Value): (r: Option<string>)
    ensures v.Str? ==> r == Some(v.s)
    ensures v.Undefined? || v.Null? || v.Bool? || v.Num? ==> r.Some?
    ensures v.Obj? ==> (r.None? <==> "toString" in v.fields)
    ensures v.Arr? ==>
              (r.None? <==> exists i | 0 <= i < |v.items| ::
                              !v.items[i].Undefined? && !v.items[i].Null? && JsText(v.items[i]).None?)
    decreases v
  {
    match v
    case Undefined => Some("undefined")
    case Null => Some("null")
    case Bool(b) => Some(if b then "true" else "false")
    case Num(n) => Some(if n < 0 then "-" + NatText(-n) else NatText(n))
    case Str(s) => Some(s)
    case Arr(items) =>
      var texts := seq(|items|, i requires 0 <= i < |items| =>
                         if items[i].Undefined? || items[i].Null? then Some("") else JsText(items[i]));
      assert forall i | 0 <= i < |items| && !items[i].Undefined? && !items[i].Null? :: texts[i] == JsText(items[i]);
      var parts := AllPresent(texts);
      if parts.Some? then Some(Join(parts.value, ",")) else None
    case Obj(fields) => if "toString" in fields then None else Some("[object Object]")
  }
}
