/** JavaScript values as the server receives them (parsed JSON bodies, parsed query strings)
    and the parts of the language's semantics that the handlers depend on: truthiness,
    property access, optional chaining and conversion to a string. */
module JsValues {
  import opened Wrappers

  /** A value produced by JSON.parse or by the query-string parser, plus `undefined`,
      which is what reading an absent property yields. JSON numbers are modelled as integers. */
  datatype JsValue =
    | Undefined
    | Null
    | Bool(b: bool)
    | Num(n: int)
    | Str(s: string)
    | Arr(items: seq<JsValue>)
    | Obj(props: map<string, JsValue>)

  /** A thrown error: a TypeError raised by the engine (its message never matters to the
      handlers), or an Error constructed with an explicit message. */
  datatype JsError = TypeError | Error(message: string)

  /** `e.message === m` */
  predicate HasMessage(e: JsError, m: string) {
    e.Error? && e.message == m
  }

  /** `null` or `undefined`: the values on which a property read throws a TypeError. */
  predicate Nullish(v: JsValue) {
    v.Undefined? || v.Null?
  }

  /** JavaScript truthiness, as `!v` tests it: the falsy values are `undefined`, `null`,
      `false`, `0` and the empty string. NaN is not a JSON value, and a parsed `-0` is
      folded into `Num(0)`, which is falsy and prints as `0` just as `-0` does. */
  predicate Truthy(v: JsValue)
    ensures !Truthy(v) <==> v in {Undefined, Null, Bool(false), Num(0), Str("")}
  {
    match v
    case Undefined => false
    case Null => false
    case Bool(b) => b
    case Num(n) => n != 0
    case Str(s) => s != ""
    case Arr(_) => true
    case Obj(_) => true
  }

  /** One step of a property path: `.name` or `[i]`. */
  datatype Step = Key(name: string) | Index(i: nat)

  /** The decimal numeral of a natural number, as `String(n)` writes it. */
  function NatString(n: nat): (s: string)
    ensures |s| > 0
    decreases n
  {
    var digit := ["0123456789"[n % 10]];
    if n < 10 then digit else NatString(n / 10) + digit
  }

  function IntString(n: int): string {
    if n < 0 then "-" + NatString(-n) else NatString(n)
  }

  /** The property key a step reads: `[i]` reads the property named by the numeral of `i`. */
  function StepKey(step: Step): string {
    match step
    case Key(name) => name
    case Index(i) => NatString(i)
  }

  /** The value of one property read on `v`. On `null` or `undefined` it is `undefined`,
      which is what the optional read `v?.name` gives; a plain read there throws, see Access.
      Named steps are taken to be identifiers, never array indices; only own data properties
      and `length` are modelled, no inherited prototype members. */
  function Get(v: JsValue, step: Step): (r: JsValue)
    ensures Nullish(v) || v.Bool? || v.Num? ==> r == Undefined
    ensures v.Obj? && StepKey(step) !in v.props ==> r == Undefined
  {
    match v
    case Obj(props) =>
      var key := StepKey(step);
      if key in props then props[key] else Undefined
    case Arr(items) =>
      (match step
       case Index(i) => if i < |items| then items[i] else Undefined
       case Key(name) => if name == "length" then Num(|items|) else Undefined)
    case Str(s) =>
      (match step
       case Index(i) => if i < |s| then Str([s[i]]) else Undefined
       case Key(name) => if name == "length" then Num(|s|) else Undefined)
    case _ => Undefined
  }

  /** An optional chain `v?.p0?.p1 ...`: once a step meets `null` or `undefined` the
      whole chain is `undefined`. */
  function Chain(v: JsValue, path: seq<Step>): (r: JsValue)
    ensures path == [] ==> r == v
    ensures path != [] && Nullish(v) ==> r == Undefined
    decreases |path|
  {
    if path == [] then v else Chain(Get(v, path[0]), path[1..])
  }

  /** A plain chain `v.p0.p1 ...`: a step taken on `null` or `undefined` throws a TypeError. */
  function Access(v: JsValue, path: seq<Step>): (r: Result<JsValue, JsError>)
    ensures r.Success? ==> r.value == Chain(v, path)
    ensures r.Failure? ==> r.error == TypeError
    decreases |path|
  {
    if path == [] then Success(v)
    else if Nullish(v) then Failure(TypeError)
    else Access(Get(v, path[0]), path[1..])
  }

  /** Reading a longer optional chain is reading its prefix and then the rest. */
  lemma {:induction false} ChainAppend(v: JsValue, p: seq<Step>, q: seq<Step>)
    ensures Chain(v, p + q) == Chain(Chain(v, p), q)
    decreases |p|
  {
    if p == [] {
      assert p + q == q;
    } else {
      assert (p + q)[0] == p[0];
      assert (p + q)[1..] == p[1..] + q;
      ChainAppend(Get(v, p[0]), p[1..], q);
    }
  }

  /** One more optional step reads one more property of where the chain got to. */
  lemma ChainSnoc(v: JsValue, p: seq<Step>, step: Step)
    ensures Chain(v, p + [step]) == Get(Chain(v, p), step)
  {
    ChainAppend(v, p, [step]);
  }

  /** A chain of one step is that step. */
  lemma ChainOne(v: JsValue, step: Step)
    ensures Chain(v, [step]) == Get(v, step)
  {
    assert [step][1..] == [];
  }

  /** When the optional chain along `p + q` ends on a non-nullish value, the plain chain
      along `p` cannot throw and reads the same value as the optional one. */
  lemma {:induction false} AccessOfLiveChain(v: JsValue, p: seq<Step>, q: seq<Step>)
    requires !Nullish(Chain(v, p + q))
    ensures Access(v, p) == Success(Chain(v, p))
    decreases |p|
  {
    if p != [] {
      assert (p + q)[0] == p[0];
      assert (p + q)[1..] == p[1..] + q;
      AccessOfLiveChain(Get(v, p[0]), p[1..], q);
    }
  }

  /** A plain chain throws exactly when one of its steps is taken on a nullish value, that is,
      when the optional chain of some proper prefix is nullish; otherwise the two agree. */
  lemma {:induction false} AccessSucceedsIff(v: JsValue, path: seq<Step>)
    ensures Access(v, path).Success? <==>
              forall k :: 0 <= k < |path| ==> !Nullish(Chain(v, path[..k]))
    decreases |path|
  {
    if path != [] {
      var rest := path[1..];
      AccessSucceedsIff(Get(v, path[0]), rest);
      forall k | 0 < k <= |rest|
        ensures Chain(v, path[..k]) == Chain(Get(v, path[0]), rest[..k - 1])
      {
        assert path[..k][0] == path[0];
        assert path[..k][1..] == rest[..k - 1];
      }
      assert path[..0] == [];
      if Access(v, path).Success? {
        forall k | 0 <= k < |path|
          ensures !Nullish(Chain(v, path[..k]))
        {
          if k > 0 {
            assert Chain(v, path[..k]) == Chain(Get(v, path[0]), rest[..k - 1]);
          }
        }
      } else if !Nullish(v) {
        var k :| 0 <= k < |rest| && Nullish(Chain(Get(v, path[0]), rest[..k]));
        assert Chain(v, path[..k + 1]) == Chain(Get(v, path[0]), rest[..k]);
      }
    }
  }

  /** ToString as a template literal `${v}` applies it. An array is joined with ",", its
      `null` and `undefined` elements written as empty strings. A plain object becomes
      "[object Object]", unless it has an own `toString` property: parsed JSON holds no
      functions, so neither `toString` nor the inherited `valueOf` yields a primitive and
      the conversion throws a TypeError. */
  function ToJsString(v: JsValue): (r: Result<string, JsError>)
    ensures r.Failure? ==> r.error == TypeError
    ensures !v.Arr? && !v.Obj? ==> r.Success?
    decreases v
  {
    match v
    case Undefined => Success("undefined")
    case Null => Success("null")
    case Bool(b) => Success(if b then "true" else "false")
    case Num(n) => Success(IntString(n))
    case Str(s) => Success(s)
    case Arr(items) => JoinElements(items)
    case Obj(props) => if "toString" in props then Failure(TypeError) else Success("[object Object]")
  }

  /** `items.join(",")` */
  function JoinElements(items: seq<JsValue>): (r: Result<string, JsError>)
    ensures r.Failure? ==> r.error == TypeError
    decreases items
  {
    if items == [] then Success("")
    else
      var first :- if Nullish(items[0]) then Success("") else ToJsString(items[0]);
      if |items| == 1 then Success(first)
      else
        var rest :- JoinElements(items[1..]);
        Success(first + "," + rest)
  }
}
