/**
 * `item_t`, the value tree of tomload/tomload.h (and of the legacy
 * tomload.hpp, which has the same layout), and its read accessors:
 * the `is_*` tests, the throwing `get_*`, `size`, the two
 * `operator[]`, `contains`, the ranges and `get<PARAM>`.
 *
 * The C++ struct keeps a type tag beside one field per kind and shares
 * arrays and tables through `shared_ptr`; here an item is a value whose
 * constructor is its tag.  A floating-point payload is an abstract
 * `FloatTag`.  The current accessors throw `type_error` on the wrong
 * kind, the legacy ones `parse_error`; `Version` says which.
 */
module Items {
  import opened Errors
  import DetailNumber

  type Int64 = DetailNumber.Int64

  /** What a `double` payload is, as far as the parser and the generators tell floats apart. */
  datatype FloatTag = PosInf | NegInf | NaN(negative: bool) | Finite(text: string)

  /** `item_t`; `None` is the tag `TYPE_NONE` a default-constructed item has. */
  datatype Item =
    | None
    | Boolean(b: bool)
    | Integer(i: Int64)
    | Float(d: FloatTag)
    | String(s: string)
    | Array(v: seq<Item>)
    | Table(m: map<string, Item>)

  /** `type_t`, the tag of an item. */
  datatype Type = TypeBoolean | TypeInteger | TypeFloat | TypeString | TypeArray | TypeTable | TypeNone

  /** Which library an accessor belongs to: tomload/tomload.cpp or the legacy tomload.hpp. */
  datatype Version = Current | Legacy

  /** The tag each constructor sets. */
  function TypeOf(item: Item): Type
  {
    match item
    case None => TypeNone
    case Boolean(_) => TypeBoolean
    case Integer(_) => TypeInteger
    case Float(_) => TypeFloat
    case String(_) => TypeString
    case Array(_) => TypeArray
    case Table(_) => TypeTable
  }

  /** `item_t(void) = default`: the tag is TYPE_NONE. */
  const DEFAULT: Item := None

  predicate IsBoolean(item: Item) { TypeOf(item) == TypeBoolean }
  predicate IsInteger(item: Item) { TypeOf(item) == TypeInteger }
  predicate IsFloat(item: Item) { TypeOf(item) == TypeFloat }
  predicate IsString(item: Item) { TypeOf(item) == TypeString }
  predicate IsArray(item: Item) { TypeOf(item) == TypeArray }
  predicate IsTable(item: Item) { TypeOf(item) == TypeTable }

  /** How many of the six `is_*` tests hold. */
  function KindsHeld(item: Item): nat
  {
    (if IsBoolean(item) then 1 else 0) + (if IsInteger(item) then 1 else 0) +
    (if IsFloat(item) then 1 else 0) + (if IsString(item) then 1 else 0) +
    (if IsArray(item) then 1 else 0) + (if IsTable(item) then 1 else 0)
  }

  /** A default item passes none of the `is_*` tests; every other item passes exactly one. */
  lemma ExactlyOneKind(item: Item)
    ensures KindsHeld(DEFAULT) == 0
    ensures item != None ==> KindsHeld(item) == 1
    ensures item == None <==> KindsHeld(item) == 0
  {
  }

  /** The exception an accessor throws on the wrong kind. */
  function Mismatch(version: Version, msg: string): (e: Error)
    ensures version == Current ==> e == TypeError(msg)
    ensures version == Legacy ==> e == ParseError(msg)
  {
    match version
    case Current => TypeError(msg)
    case Legacy => ParseError(msg)
  }

  /** `get_boolean` (`get_bool` in tomload.hpp). */
  function GetBoolean(item: Item, version: Version): (r: Result<bool>)
    ensures r.Ok? <==> IsBoolean(item)
    ensures r.Ok? ==> item == Boolean(r.value)
    ensures r.Err? ==> r.error == Mismatch(version, "type mismatch")
  {
    if item.Boolean? then Ok(item.b) else Err(Mismatch(version, "type mismatch"))
  }

  function GetInteger(item: Item, version: Version): (r: Result<Int64>)
    ensures r.Ok? <==> IsInteger(item)
    ensures r.Ok? ==> item == Integer(r.value)
    ensures r.Err? ==> r.error == Mismatch(version, "type mismatch")
  {
    if item.Integer? then Ok(item.i) else Err(Mismatch(version, "type mismatch"))
  }

  function GetFloat(item: Item, version: Version): (r: Result<FloatTag>)
    ensures r.Ok? <==> IsFloat(item)
    ensures r.Ok? ==> item == Float(r.value)
    ensures r.Err? ==> r.error == Mismatch(version, "type mismatch")
  {
    if item.Float? then Ok(item.d) else Err(Mismatch(version, "type mismatch"))
  }

  function GetString(item: Item, version: Version): (r: Result<string>)
    ensures r.Ok? <==> IsString(item)
    ensures r.Ok? ==> item == String(r.value)
    ensures r.Err? ==> r.error == Mismatch(version, "type mismatch")
  {
    if item.String? then Ok(item.s) else Err(Mismatch(version, "type mismatch"))
  }

  /** Each scalar constructor is undone by its getter, and no other getter accepts the item. */
  lemma ConstructorsRoundTrip(b: bool, i: Int64, d: FloatTag, s: string, version: Version)
    ensures GetBoolean(Boolean(b), version) == Ok(b) && GetInteger(Boolean(b), version).Err?
    ensures GetInteger(Integer(i), version) == Ok(i) && GetFloat(Integer(i), version).Err?
    ensures GetFloat(Float(d), version) == Ok(d) && GetString(Float(d), version).Err?
    ensures GetString(String(s), version) == Ok(s) && GetBoolean(String(s), version).Err?
  {
  }

  /** `size`: the element count of an array or a table. */
  function Size(item: Item, version: Version): (r: Result<nat>)
    ensures r.Ok? <==> IsArray(item) || IsTable(item)
    ensures IsArray(item) ==> r == Ok(|item.v|)
    ensures IsTable(item) ==> r == Ok(|item.m|)
    ensures r.Err? ==> r.error == Mismatch(version, "neither array nor table")
  {
    match item
    case Array(v) => Ok(|v|)
    case Table(m) => Ok(|m|)
    case _ => Err(Mismatch(version, "neither array nor table"))
  }

  /** `operator[](size_t)`: `v->at(index)`, so an index past the end is `std::out_of_range`. */
  function AtIndex(item: Item, index: nat, version: Version): (r: Result<Item>)
    ensures r.Ok? <==> IsArray(item) && index < |item.v|
    ensures r.Ok? ==> r.value == item.v[index]
    ensures !IsArray(item) ==> r == Err(Mismatch(version, "not array"))
    ensures IsArray(item) && index >= |item.v| ==> r.Err? && r.error.OutOfRange?
  {
    match item
    case Array(v) => if index < |v| then Ok(v[index]) else Err(OutOfRange("vector::_M_range_check"))
    case _ => Err(Mismatch(version, "not array"))
  }

  /** `operator[](const key_t&)`: `m->at(key)`, so a missing key is `std::out_of_range`. */
  function AtKey(item: Item, key: string, version: Version): (r: Result<Item>)
    ensures r.Ok? <==> IsTable(item) && key in item.m
    ensures r.Ok? ==> r.value == item.m[key]
    ensures !IsTable(item) ==> r == Err(Mismatch(version, "not table"))
    ensures IsTable(item) && key !in item.m ==> r.Err? && r.error.OutOfRange?
  {
    match item
    case Table(m) => if key in m then Ok(m[key]) else Err(OutOfRange("map::at"))
    case _ => Err(Mismatch(version, "not table"))
  }

  /** `contains` of tomload/tomload.cpp: type_error on anything but a table. */
  function Contains(item: Item, key: string): (r: Result<bool>)
    ensures r.Ok? <==> IsTable(item)
    ensures r.Ok? ==> (r.value <==> AtKey(item, key, Current).Ok?)
    ensures r.Err? ==> r.error == TypeError("not table")
  {
    match item
    case Table(m) => Ok(key in m)
    case _ => Err(TypeError("not table"))
  }

  /** `contains` of tomload.hpp: false on anything but a table. */
  function ContainsLegacy(item: Item, key: string): (r: bool)
    ensures r <==> Contains(item, key) == Ok(true)
  {
    item.Table? && key in item.m
  }

  /** `array_range` (and `array_begin`/`array_end`) of tomload/tomload.cpp: the elements, and type_error on anything but an array. */
  function ArrayRange(item: Item): (r: Result<seq<Item>>)
    ensures r.Ok? <==> IsArray(item)
    ensures r.Ok? ==> r.value == item.v
    ensures r.Err? ==> r.error == TypeError("not array")
  {
    match item
    case Array(v) => Ok(v)
    case _ => Err(TypeError("not array"))
  }

  /** `table_range` (and `table_begin`/`table_end`) of tomload/tomload.cpp: the entries, and type_error on anything but a table. */
  function TableRange(item: Item): (r: Result<map<string, Item>>)
    ensures r.Ok? <==> IsTable(item)
    ensures r.Ok? ==> r.value == item.m
    ensures r.Err? ==> r.error == TypeError("not table")
  {
    match item
    case Table(m) => Ok(m)
    case _ => Err(TypeError("not table"))
  }

  /** `array_range` of tomload.hpp: the elements, and an empty range on anything but an array. */
  function ArrayRangeLegacy(item: Item): (r: seq<Item>)
    ensures IsArray(item) ==> r == item.v
    ensures !IsArray(item) ==> r == []
  {
    if item.Array? then item.v else []
  }

  /** `table_range` of tomload.hpp: the entries, and an empty range on anything but a table. */
  function TableRangeLegacy(item: Item): (r: map<string, Item>)
    ensures IsTable(item) ==> r == item.m
    ensures !IsTable(item) ==> r == map[]
  {
    if item.Table? then item.m else map[]
  }

  /** Where tomload/tomload.cpp throws, tomload.hpp hands out an empty range; elsewhere both ranges are the same. */
  lemma RangesAgree(item: Item)
    ensures ArrayRangeLegacy(item) == (if ArrayRange(item).Ok? then ArrayRange(item).value else [])
    ensures TableRangeLegacy(item) == (if TableRange(item).Ok? then TableRange(item).value else map[])
  {
  }

  // ---------------------------------------------------------------------
  // get<PARAM>
  // ---------------------------------------------------------------------

  /**
   * The kinds of PARAM the `get<PARAM>` if-chain tells apart:
   * `boolean_t`, `integer_t`, another integral type, `float_t`, another
   * floating-point type, `string_t`, or anything else.
   */
  datatype Param = BoolParam | Int64Param | OtherIntegralParam | DoubleParam | OtherFloatingParam | StringParam | OtherParam

  /** The payload `get` reads into `val`, before any `static_cast` to PARAM. */
  datatype Payload = BoolPayload(b: bool) | IntPayload(i: Int64) | FloatPayload(d: FloatTag) | StringPayload(s: string)

  /** The item kinds a PARAM accepts: bool only bool, a string only a string, a number both numbers. */
  predicate Accepts(param: Param, t: Type)
  {
    match param
    case BoolParam => t == TypeBoolean
    case StringParam => t == TypeString
    case OtherParam => false
    case _ => t == TypeInteger || t == TypeFloat
  }

  /**
   * `get<PARAM>(val)`: walks the if-chain, assigns `val` in the first
   * branch that matches and returns true; returns false and leaves `val`
   * as it was when no branch matches.
   */
  method Get(item: Item, param: Param, val: Payload) returns (ok: bool, out: Payload)
    ensures ok <==> Accepts(param, TypeOf(item))
    ensures !ok ==> out == val
    ensures ok ==> out == (match item
                           case Boolean(b) => BoolPayload(b)
                           case Integer(i) => IntPayload(i)
                           case Float(d) => FloatPayload(d)
                           case String(s) => StringPayload(s)
                           case _ => val)
  {
    out := val;
    var t := TypeOf(item);
    if param == BoolParam && t == TypeBoolean {
      out := BoolPayload(item.b);
    } else if param == Int64Param && t == TypeInteger {
      out := IntPayload(item.i);
    } else if param == DoubleParam && t == TypeFloat {
      out := FloatPayload(item.d);
    } else if param == StringParam && t == TypeString {
      out := StringPayload(item.s);
    } else if (param == Int64Param || param == OtherIntegralParam) && t == TypeInteger {
      out := IntPayload(item.i);
    } else if (param == Int64Param || param == OtherIntegralParam) && t == TypeFloat {
      out := FloatPayload(item.d);
    } else if (param == DoubleParam || param == OtherFloatingParam) && t == TypeInteger {
      out := IntPayload(item.i);
    } else if (param == DoubleParam || param == OtherFloatingParam) && t == TypeFloat {
      out := FloatPayload(item.d);
    } else {
      return false, val;
    }
    return true, out;
  }

  /** A bool is never read as a number and a number never as a bool. */
  lemma BoolIsNotNumeric(b: bool, i: Int64)
    ensures !Accepts(Int64Param, TypeOf(Boolean(b))) && !Accepts(DoubleParam, TypeOf(Boolean(b)))
    ensures !Accepts(BoolParam, TypeOf(Integer(i))) && Accepts(DoubleParam, TypeOf(Integer(i)))
  {
  }
}
