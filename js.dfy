/** The slice of JavaScript semantics the relays and the page rely on: JSON values,
    truthiness, property access that throws on `null`/`undefined`, optional chaining,
    `??`, `String(v)`, `String.prototype.trim` and the description of a caught error. */
module Js {

  datatype Option<T> = None | Some(value: T)

  /** A JSON value as JavaScript sees it after parsing, plus `undefined` for a missing
      property. A number is kept as its `String()` rendering ("42", "1.5", "NaN"). */
  datatype JsValue =
    | Undefined
    | Null
    | Bool(b: bool)
    | Num(text: string)
    | Str(s: string)
    | Arr(items: seq<JsValue>)
    | Obj(fields: map<string, JsValue>)

  /** One property access: `.name` or `[i]`. */
  datatype Step = Key(name: string) | Index(i: nat)

  /** A thrown value: an `Error` object (name and message) or any other value. */
  datatype Thrown = ErrorObject(name: string, message: string) | ThrownValue(v: JsValue)

  predicate IsNullish(v: JsValue) {
    v.Undefined? || v.Null?
  }

  /** JavaScript truthiness: `undefined`, `null`, `false`, `""`, `0`, `-0` (rendered "0")
      and `NaN` are falsy; every array and object is truthy. */
  predicate Truthy(v: JsValue) {
    match v
    case Undefined => false
    case Null => false
    case Bool(b) => b
    case Num(t) => t != "0" && t != "NaN"
    case Str(s) => s != ""
    case Arr(_) => true
    case Obj(_) => true
  }

  /** Decimal digits of a natural number, as JavaScript renders an array index key. */
  function NatToString(n: nat): (r: string)
    ensures |r| > 0
    ensures forall k :: 0 <= k < |r| ==> '0' <= r[k] <= '9'
    decreases n
  {
    var d := ['0' + (n % 10) as char];
    if n < 10 then d else NatToString(n / 10) + d
  }

  /** `v.name` or `v[i]`: `None` when the access throws a TypeError (the receiver is
      `null` or `undefined`); a missing property reads as `Undefined`. Properties that
      JavaScript inherits from prototypes (`length`, methods) are not modelled. */
  function Member(v: JsValue, step: Step): (r: Option<JsValue>)
    ensures r.None? <==> IsNullish(v)
    ensures v.Obj? && step.Key? ==>
      r == Some(if step.name in v.fields then v.fields[step.name] else Undefined)
    ensures v.Arr? && step.Index? ==>
      r == Some(if step.i < |v.items| then v.items[step.i] else Undefined)
  {
    match v
    case Undefined => None
    case Null => None
    case Obj(m) =>
      var k := if step.Key? then step.name else NatToString(step.i);
      Some(if k in m then m[k] else Undefined)
    case Arr(items) =>
      Some(if step.Index? && step.i < |items| then items[step.i] else Undefined)
    case Str(s) =>
      Some(if step.Index? && step.i < |s| then Str([s[step.i]]) else Undefined)
    case Bool(_) => Some(Undefined)
    case Num(_) => Some(Undefined)
  }

  /** `v.name` or `v[i]` on a receiver known not to be `null` or `undefined`. */
  function Get(v: JsValue, step: Step): (r: JsValue)
    requires !IsNullish(v)
    ensures Member(v, step) == Some(r)
  {
    Member(v, step).value
  }

  /** `v?.name`: a nullish receiver yields `undefined` instead of throwing. */
  function OptionalMember(v: JsValue, step: Step): (r: JsValue)
    ensures IsNullish(v) ==> r == Undefined
    ensures !IsNullish(v) ==> Some(r) == Member(v, step)
  {
    match Member(v, step)
    case None => Undefined
    case Some(w) => w
  }

  /** Plain chained access `v.a[0].b…`: `None` as soon as one access throws. */
  function Path(v: JsValue, steps: seq<Step>): (r: Option<JsValue>)
    decreases |steps|
  {
    if steps == [] then Some(v)
    else match Member(v, steps[0])
      case None => None
      case Some(w) => Path(w, steps[1..])
  }

  /** `a ?? b` */
  function Coalesce(a: JsValue, b: JsValue): (r: JsValue)
    ensures !IsNullish(a) ==> r == a
    ensures IsNullish(a) ==> r == b
  {
    if IsNullish(a) then b else a
  }

  /** `String(v)`, or `None` when the conversion throws. JSON data holds no function, so
      a record with an own `toString` key has no callable `toString`; its `valueOf` returns
      the record itself, and the conversion throws a TypeError. Any other record renders
      as "[object Object]". An array renders its elements joined by commas, `null` and
      `undefined` rendered empty, and throws when one of its elements does. */
  function ToJsString(v: JsValue): (r: Option<string>)
    ensures v.Str? ==> r == Some(v.s)
    ensures v.Obj? ==> r == if "toString" in v.fields then None else Some("[object Object]")
    ensures IsNullish(v) ==> r == Some(if v.Null? then "null" else "undefined")
    ensures !v.Obj? && !v.Arr? ==> r.Some?
    ensures v.Arr? && v.items == [] ==> r == Some("")
    decreases v
  {
    match v
    case Undefined => Some("undefined")
    case Null => Some("null")
    case Bool(b) => Some(if b then "true" else "false")
    case Num(t) => Some(t)
    case Str(s) => Some(s)
    case Obj(m) => if "toString" in m then None else Some("[object Object]")
    case Arr(items) => JoinElements(items)
  }

  function JoinElements(items: seq<JsValue>): Option<string>
    decreases items
  {
    if items == [] then Some("")
    else
      var first := if IsNullish(items[0]) then Some("") else ToJsString(items[0]);
      if |items| == 1 then first
      else
        var rest := JoinElements(items[1..]);
        if first.None? || rest.None? then None else Some(first.value + "," + rest.value)
  }

  /** `String` of an array throws exactly when one of its elements that is neither `null`
      nor `undefined` throws. */
  lemma {:induction false} ArrayStringThrows(items: seq<JsValue>)
    ensures ToJsString(Arr(items)).None? <==>
      exists k :: 0 <= k < |items| && !IsNullish(items[k]) && ToJsString(items[k]).None?
    decreases |items|
  {
    if items != [] {
      var tail := items[1..];
      ArrayStringThrows(tail);
      assert ToJsString(Arr(tail)) == JoinElements(tail);
      assert forall k :: 0 <= k < |tail| ==> tail[k] == items[k + 1];
      if exists k :: 0 <= k < |items| && !IsNullish(items[k]) && ToJsString(items[k]).None? {
        var k :| 0 <= k < |items| && !IsNullish(items[k]) && ToJsString(items[k]).None?;
        if k > 0 {
          assert !IsNullish(tail[k - 1]) && ToJsString(tail[k - 1]).None?;
        }
      }
    }
  }

  /** The characters `String.prototype.trim` removes: ECMAScript WhiteSpace and
      LineTerminator code points. */
  predicate IsJsWhitespace(c: char) {
    c == '\t' || c == '\n' || c == '\r' || c == ' '
    || c == 0x0B as char || c == 0x0C as char
    || c == 0xA0 as char || c == 0x1680 as char
    || (0x2000 <= c as int <= 0x200A)
    || c == 0x2028 as char || c == 0x2029 as char
    || c == 0x202F as char || c == 0x205F as char
    || c == 0x3000 as char || c == 0xFEFF as char
  }

  predicate IsBlank(s: string) {
    forall k :: 0 <= k < |s| ==> IsJsWhitespace(s[k])
  }

  function TrimStart(s: string): (r: string)
    ensures |r| <= |s| && r == s[|s| - |r|..]
    ensures IsBlank(s[..|s| - |r|])
    ensures r == [] || !IsJsWhitespace(r[0])
    decreases |s|
  {
    if s != [] && IsJsWhitespace(s[0]) then
      var r := TrimStart(s[1..]);
      assert s[..|s| - |r|] == [s[0]] + s[1..][..|s| - 1 - |r|];
      r
    else s
  }

  function TrimEnd(s: string): (r: string)
    ensures |r| <= |s| && r == s[..|r|]
    ensures IsBlank(s[|r|..])
    ensures r == [] || !IsJsWhitespace(r[|r| - 1])
    decreases |s|
  {
    if s != [] && IsJsWhitespace(s[|s| - 1]) then
      var r := TrimEnd(s[..|s| - 1]);
      assert s[|r|..] == s[..|s| - 1][|r|..] + [s[|s| - 1]];
      r
    else s
  }

  /** `s[..i]` and `s[j..]` are blank: what `trim` may cut away. */
  predicate BlankMargins(s: string, i: int, j: int) {
    0 <= i <= j <= |s| && IsBlank(s[..i]) && IsBlank(s[j..])
  }

  /** `s.trim()`: the result neither begins nor ends with whitespace. */
  function Trim(s: string): (r: string)
    ensures r == [] || (!IsJsWhitespace(r[0]) && !IsJsWhitespace(r[|r| - 1]))
  {
    var l := TrimStart(s);
    var r := TrimEnd(l);
    assert r != [] ==> r[0] == l[0];
    r
  }

  /** What `trim` returns is the infix of `s` between blank margins. */
  lemma TrimSpec(s: string)
    ensures exists i, j :: BlankMargins(s, i, j) && Trim(s) == s[i..j]
  {
    var l := TrimStart(s);
    var r := TrimEnd(l);
    var i := |s| - |l|;
    assert s[i..i + |r|] == r && s[i + |r|..] == l[|r|..];
    assert BlankMargins(s, i, i + |r|);
  }

  /** `!s.trim()` holds exactly for the all-whitespace strings. */
  lemma TrimEmptyIffBlank(s: string)
    ensures Trim(s) == [] <==> IsBlank(s)
  {
    var l := TrimStart(s);
    if l != [] {
      assert l[0] == s[|s| - |l|];
      assert IsBlank(l[|TrimEnd(l)|..]);
    }
  }

  /** Trimming removes exactly the surrounding whitespace: text that does not begin or
      end with whitespace comes back unchanged from between any blank margins. */
  lemma {:induction false} TrimBetweenBlanks(pre: string, body: string, post: string)
    requires IsBlank(pre) && IsBlank(post)
    requires body != [] && !IsJsWhitespace(body[0]) && !IsJsWhitespace(body[|body| - 1])
    ensures Trim(pre + body + post) == body
  {
    TrimStartBlank(pre, body + post);
    assert pre + body + post == pre + (body + post);
    TrimEndBlank(body, post);
  }

  lemma {:induction false} TrimStartBlank(pre: string, rest: string)
    requires IsBlank(pre)
    requires rest != [] && !IsJsWhitespace(rest[0])
    ensures TrimStart(pre + rest) == rest
    decreases |pre|
  {
    var s := pre + rest;
    if pre == [] {
      assert s == rest;
    } else {
      assert s[0] == pre[0] && IsJsWhitespace(s[0]);
      assert s[1..] == pre[1..] + rest;
      TrimStartBlank(pre[1..], rest);
    }
  }

  lemma {:induction false} TrimEndBlank(rest: string, post: string)
    requires IsBlank(post)
    requires rest != [] && !IsJsWhitespace(rest[|rest| - 1])
    ensures TrimEnd(rest + post) == rest
    decreases |post|
  {
    if post == [] {
      assert rest + post == rest;
    } else {
      var s := rest + post;
      assert s[|s| - 1] == post[|post| - 1] && IsJsWhitespace(s[|s| - 1]);
      assert s[..|s| - 1] == rest + post[..|post| - 1];
      TrimEndBlank(rest, post[..|post| - 1]);
    }
  }

  /** `String(err?.message || err)`: the message of a caught error when it is truthy,
      otherwise the error itself rendered as a string; `None` when that `String` throws.
      For an `Error` object with an empty message, `Error.prototype.toString` renders the
      error's name. */
  function Describe(err: Thrown): (r: Option<string>)
    ensures err.ErrorObject? && err.message != "" ==> r == Some(err.message)
    ensures err.ErrorObject? && err.message == "" ==> r == Some(err.name)
    ensures err.ThrownValue? && Truthy(OptionalMember(err.v, Key("message"))) ==>
      r == ToJsString(OptionalMember(err.v, Key("message")))
    ensures err.ThrownValue? && !Truthy(OptionalMember(err.v, Key("message"))) ==>
      r == ToJsString(err.v)
  {
    match err
    case ErrorObject(name, message) => Some(if message != "" then message else name)
    case ThrownValue(v) =>
      var m := OptionalMember(v, Key("message"));
      if Truthy(m) then ToJsString(m) else ToJsString(v)
  }
}
