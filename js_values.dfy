/**
 * The fragment of JavaScript value semantics that the AI service relies on:
 * truthiness, the `||`, `&&` and `??` operators, optional-chaining property
 * access, `String(v)` and `JSON.stringify(v)`.
 *
 * Numbers are integers (the service only ever looks at HTTP status codes and
 * lengths), objects are ordered lists of fields, and there are no functions,
 * symbols or prototypes.
 */
module JsValues {
  import opened Wrappers

  datatype Value =
    | Undefined
    | Null
    | Bool(b: bool)
    | Num(n: int)
    | Str(s: string)
    | Arr(items: seq<Value>)
    | Obj(fields: seq<Field>)

  datatype Field = Field(key: string, value: Value)

  /**
   * JavaScript truthiness: `undefined`, `null`, `false`, `0` and `""` are
   * falsy; every array and object, even an empty one, is truthy.
   */
  predicate Truthy(v: Value)
    ensures v.Arr? || v.Obj? ==> Truthy(v)
  {
    match v
    case Undefined => false
    case Null => false
    case Bool(b) => b
    case Num(n) => n != 0
    case Str(s) => s != ""
    case Arr(_) => true
    case Obj(_) => true
  }

  /** The values that `??` and `?.` treat as missing; all of them are falsy. */
  predicate Nullish(v: Value)
    ensures Nullish(v) ==> !Truthy(v)
  {
    v.Undefined? || v.Null?
  }

  /** `a || b`: the left operand when it is truthy, the right one otherwise. */
  function Or(a: Value, b: Value): (r: Value)
    ensures Truthy(r) <==> Truthy(a) || Truthy(b)
    ensures r == a || r == b
  {
    if Truthy(a) then a else b
  }

  /** `a && b`: the left operand when it is falsy, the right one otherwise. */
  function And(a: Value, b: Value): (r: Value)
    ensures Truthy(r) <==> Truthy(a) && Truthy(b)
    ensures r == a || r == b
  {
    if Truthy(a) then b else a
  }

  /** `a ?? b`: the left operand unless it is `null` or `undefined`. */
  function Coalesce(a: Value, b: Value): (r: Value)
    ensures Nullish(r) <==> Nullish(a) && Nullish(b)
    ensures !Nullish(a) ==> r == a
  {
    if Nullish(a) then b else a
  }

  /** The value of the first field named `key`, or `undefined`. */
  function Lookup(fields: seq<Field>, key: string): (r: Value)
    ensures r.Undefined? || exists i :: 0 <= i < |fields| && fields[i] == Field(key, r)
  {
    if fields == [] then Undefined
    else if fields[0].key == key then fields[0].value
    else Lookup(fields[1..], key)
  }

  /**
   * `v?.key`: an object's field, the `length` of an array or a string, and
   * `undefined` for every other value, `null` and `undefined` included.
   */
  function Prop(v: Value, key: string): (r: Value)
    ensures Nullish(v) ==> r == Undefined
  {
    match v
    case Obj(fields) => Lookup(fields, key)
    case Arr(items) => if key == "length" then Num(|items|) else Undefined
    case Str(s) => if key == "length" then Num(|s|) else Undefined
    case _ => Undefined
  }

  /** `v?.[0]`: the first element of an array or string, an object's field "0". */
  function Index0(v: Value): (r: Value)
    ensures !Truthy(v) ==> r == Undefined
  {
    match v
    case Arr(items) => if |items| > 0 then items[0] else Undefined
    case Str(s) => if |s| > 0 then Str([s[0]]) else Undefined
    case Obj(fields) => Lookup(fields, "0")
    case _ => Undefined
  }

  function Digit(d: nat): (c: char)
    requires d < 10
  {
    "0123456789"[d]
  }

  /** The decimal numeral of `n`, without leading zeros. */
  function NatToDecimal(n: nat): (s: string)
    ensures 1 <= |s|
    ensures forall i :: 0 <= i < |s| ==> '0' <= s[i] <= '9'
    ensures n < 10 <==> |s| == 1
    decreases n
  {
    if n < 10 then [Digit(n)] else NatToDecimal(n / 10) + [Digit(n % 10)]
  }

  /** `String(n)` for an integer `n`. */
  function IntToDecimal(n: int): (s: string)
    ensures 1 <= |s|
    ensures s[0] == '-' <==> n < 0
  {
    if n < 0 then "-" + NatToDecimal(-n) else NatToDecimal(n)
  }

  /** `parts.join(sep)`. */
  function JoinSep(parts: seq<string>, sep: string): (r: string)
    ensures |parts| == 1 ==> r == parts[0]
    ensures parts == [] ==> r == ""
  {
    if |parts| == 0 then ""
    else if |parts| == 1 then parts[0]
    else parts[0] + sep + JoinSep(parts[1..], sep)
  }

  /** The string an array element contributes to `join`: empty for `null` and `undefined`. */
  function JoinElement(v: Value): string {
    if Nullish(v) then "" else ToStr(v)
  }

  /** `String(v)`. */
  function ToStr(v: Value): (s: string)
    ensures v.Str? ==> s == v.s
    ensures !v.Str? && !v.Arr? ==> s != ""
    decreases v, 1
  {
    match v
    case Undefined => "undefined"
    case Null => "null"
    case Bool(b) => if b then "true" else "false"
    case Num(n) => IntToDecimal(n)
    case Str(s) => s
    case Arr(items) => JoinSep(seq(|items|, i requires 0 <= i < |items| => JoinElement(items[i])), ",")
    case Obj(_) => "[object Object]"
  }

  function HexDigit(d: nat): char
    requires d < 16
  {
    "0123456789abcdef"[d]
  }

  /** How `JSON.stringify` writes one character inside a string literal. */
  function EscapeChar(c: char): (r: string)
    ensures 1 <= |r|
  {
    if c == '"' then "\\\""
    else if c == '\\' then "\\\\"
    else if c == '\n' then "\\n"
    else if c == '\r' then "\\r"
    else if c == '\t' then "\\t"
    else if c as int == 8 then "\\b"
    else if c as int == 12 then "\\f"
    else if c as int < 32 then "\\u00" + [HexDigit(c as int / 16), HexDigit(c as int % 16)]
    else [c]
  }

  function Escape(s: string): (r: string)
    ensures |s| <= |r|
  {
    if s == [] then "" else EscapeChar(s[0]) + Escape(s[1..])
  }

  /** A JSON string literal. */
  function Quote(s: string): (r: string)
    ensures 2 + |s| <= |r| && r[0] == '"' && r[|r| - 1] == '"'
  {
    "\"" + Escape(s) + "\""
  }

  /** The `Some` entries of `xs`, in order. */
  function Present(xs: seq<Option<string>>): (r: seq<string>)
    ensures |r| <= |xs|
  {
    if xs == [] then []
    else if xs[0].Some? then [xs[0].value] + Present(xs[1..])
    else Present(xs[1..])
  }

  /** One `"key":value` member of an object literal; members whose value is `undefined` are dropped. */
  function MemberText(key: string, value: Option<string>): (r: Option<string>)
    ensures r.Some? <==> value.Some?
  {
    match value
    case None => None
    case Some(text) => Some(Quote(key) + ":" + text)
  }

  /**
   * `JSON.stringify(v)`: `None` stands for the `undefined` it returns for
   * `undefined`; every other value gives non-empty JSON text.
   */
  function Stringify(v: Value): (r: Option<string>)
    ensures r.None? <==> v.Undefined?
    ensures r.Some? ==> r.value != ""
    ensures v.Obj? ==> r.Some? && r.value[0] == '{'
    decreases v, 0
  {
    match v
    case Undefined => None
    case Null => Some("null")
    case Bool(b) => Some(if b then "true" else "false")
    case Num(n) => Some(IntToDecimal(n))
    case Str(s) => Some(Quote(s))
    case Arr(items) =>
      Some("[" + JoinSep(seq(|items|, i requires 0 <= i < |items| => ArrayElementJson(items[i])), ",") + "]")
    case Obj(fields) =>
      Some("{" + JoinSep(Present(seq(|fields|, i requires 0 <= i < |fields| =>
                                       MemberText(fields[i].key, Stringify(fields[i].value)))), ",") + "}")
  }

  /** An array element in JSON: `undefined` is written as `null`. */
  function ArrayElementJson(v: Value): (r: string)
    decreases v, 1
  {
    match Stringify(v)
    case None => "null"
    case Some(text) => text
  }

  /** The JavaScript value of a `JSON.stringify` result: a string, or `undefined`. */
  function JsonValue(r: Option<string>): (v: Value)
    ensures v.Undefined? <==> r.None?
  {
    match r
    case None => Undefined
    case Some(text) => Str(text)
  }

  /** An object with one numeric member: `JSON.stringify({foo: 1})` is `{"foo":1}`. */
  lemma StringifyExample()
    ensures Stringify(Obj([Field("foo", Num(1))])) == Some("{\"foo\":1}")
  {
    var v := Obj([Field("foo", Num(1))]);
    assert Escape("foo") == "foo" by {
      assert Escape("") == "";
      assert Escape("o") == "o";
      assert Escape("oo") == "oo";
    }
    var member := "\"foo\":1";
    assert Quote("foo") + ":" + "1" == member;
    assert Stringify(Num(1)) == Some("1");
    var members := seq(1, i requires 0 <= i < 1 => MemberText(v.fields[i].key, Stringify(v.fields[i].value)));
    assert members[0] == Some(member);
    assert members == [Some(member)];
    assert Present(members) == [member];
    assert "{" + member + "}" == "{\"foo\":1}";
  }
}
