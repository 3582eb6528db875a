/**
 * The shapes of JavaScript values that the orchestrator dispatches on,
 * JavaScript truthiness, property reads, and the shallow merge `_.extend`.
 */
module Js {
  import opened Wrappers

  /**
   * A JavaScript value, by the shape the source tests for
   * (`_.isArray`, `_.isPlainObject`, `_.isString`, `_.isRegExp`, `_.isFunction`).
   * Numbers are integers. A function is known by an identity the host uses
   * to call it, and by its own enumerable properties; a regular expression
   * by its source. `Other` is any other object (a class instance, a Date,
   * ...) with its own enumerable properties.
   */
  datatype Value =
    | Undef
    | Null
    | Bool(b: bool)
    | Num(n: int)
    | Str(s: string)
    | Arr(elems: seq<Value>)
    | PlainObj(fields: map<string, Value>)
    | RegExp(source: string)
    | Func(id: nat, props: map<string, Value>)
    | Other(props: map<string, Value>)

  /** JavaScript's `!!v`. */
  predicate Truthy(v: Value) {
    match v
    case Undef => false
    case Null => false
    case Bool(b) => b
    case Num(n) => n != 0
    case Str(s) => s != ""
    case _ => true
  }

  /** `v == null` with loose equality: null or undefined. */
  predicate IsNullish(v: Value) {
    v.Null? || v.Undef?
  }

  /** The errors a read `v.key` can raise. */
  datatype ReadError = ReadOfNullish

  /**
   * The own enumerable properties of an object value; the primitives, the
   * arrays and the regular expressions carry none this model reads.
   */
  function OwnProps(v: Value): map<string, Value> {
    match v
    case PlainObj(fields) => fields
    case Func(_, props) => props
    case Other(props) => props
    case _ => map[]
  }

  /**
   * The property read `v.key`: a TypeError on null or undefined, the own
   * property of a plain object, a function or another object, and
   * undefined when the value has no such property.
   */
  function Get(v: Value, key: string): (r: Result<Value, ReadError>)
    ensures r.Err? <==> IsNullish(v)
    ensures v.PlainObj? && key in v.fields ==> r == Ok(v.fields[key])
    ensures (v.Func? || v.Other?) && key in v.props ==> r == Ok(v.props[key])
    ensures r.Ok? && key !in OwnProps(v) ==> r.value == Undef
  {
    if IsNullish(v) then Err(ReadOfNullish)
    else Ok(if key in OwnProps(v) then OwnProps(v)[key] else Undef)
  }

  /** The members every object literal `{}` inherits from `Object.prototype`. */
  const ObjectPrototypeMembers: set<string> :=
    {"constructor", "hasOwnProperty", "isPrototypeOf", "propertyIsEnumerable",
     "toLocaleString", "toString", "valueOf", "__proto__",
     "__defineGetter__", "__defineSetter__", "__lookupGetter__", "__lookupSetter__"}

  /**
   * `obj[key]` for an object created as `{}`: an own key gives its value,
   * an inherited member of `Object.prototype` gives a (truthy) function or
   * object, and anything else is undefined.
   */
  function Lookup(obj: map<string, Value>, key: string): (v: Value)
    ensures key in obj ==> v == obj[key]
    ensures key !in obj ==> (Truthy(v) <==> key in ObjectPrototypeMembers)
  {
    if key in obj then obj[key]
    else if key in ObjectPrototypeMembers then Other(map[])
    else Undef
  }

  /**
   * `_.extend(target, source)` with a plain-object source: every key of the
   * source takes the source's value, every other key of the target keeps its
   * value, and no other key appears.
   */
  function Extend(target: map<string, Value>, source: map<string, Value>): (r: map<string, Value>)
    ensures r.Keys == target.Keys + source.Keys
    ensures forall k :: k in source ==> r[k] == source[k]
    ensures forall k :: k in target && k !in source ==> r[k] == target[k]
  {
    target + source
  }
}
