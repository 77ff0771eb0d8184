/**
 * `qt/preferences.py`: how preference values are made storable before they
 * go into the settings store and how strings read back from it are turned
 * again into booleans and integers; the default rule of `get_value`; and
 * the five-element list a window geometry is saved as.
 */
module Preferences {
  import opened Wrappers
  import opened Decimal

  /**
   * The Python values a preference can hold. A set is given by the order
   * `list()` iterates it in; `Opaque` is any other object.
   */
  datatype Value =
    | NoneValue
    | Bool(b: bool)
    | Int(n: int)
    | Str(s: string)
    | List(items: seq<Value>)
    | Tuple(items: seq<Value>)
    | Set(items: seq<Value>)
    | Opaque(id: nat)

  /** No set or tuple anywhere inside the value, at any depth of lists. */
  predicate NoSetOrTuple(v: Value)
  {
    match v
    case Set(_) => false
    case Tuple(_) => false
    case List(items) => forall i :: 0 <= i < |items| ==> NoSetOrTuple(items[i])
    case _ => true
  }

  /**
   * `normalize_for_serialization`: sets and tuples become lists, lists have
   * their items normalized, everything else is kept.
   */
  function Normalize(v: Value): (r: Value)
    ensures NoSetOrTuple(r)
    ensures (v.List? || v.Tuple? || v.Set?) ==> r.List? && |r.items| == |v.items|
    ensures !(v.List? || v.Tuple? || v.Set?) ==> r == v
    decreases v, 1
  {
    match v
    case List(items) => List(NormalizeItems(items))
    case Tuple(items) => List(NormalizeItems(items))
    case Set(items) => List(NormalizeItems(items))
    case _ => v
  }

  /** The comprehension `[normalize_for_serialization(item) for item in v]`. */
  function NormalizeItems(items: seq<Value>): (r: seq<Value>)
    ensures |r| == |items|
    ensures forall i :: 0 <= i < |items| ==> r[i] == Normalize(items[i]) && NoSetOrTuple(r[i])
    decreases items, 0
  {
    if items == [] then [] else [Normalize(items[0])] + NormalizeItems(items[1..])
  }

  /** A value with nothing to normalize is stored as it is; in particular normalizing twice is normalizing once. */
  lemma {:induction false} NormalizeKeepsPlain(v: Value)
    requires NoSetOrTuple(v)
    ensures Normalize(v) == v
  {
    if v.List? {
      forall i | 0 <= i < |v.items| ensures Normalize(v.items[i]) == v.items[i] {
        NormalizeKeepsPlain(v.items[i]);
      }
      assert Normalize(v).items == v.items;
    }
  }

  lemma NormalizeIdempotent(v: Value)
    ensures Normalize(Normalize(v)) == Normalize(v)
  {
    NormalizeKeepsPlain(Normalize(v));
  }

  /**
   * `tryint(s, None)`, read as Python's `int()` on a string: an optional
   * sign followed by decimal digits.
   */
  function TryInt(s: string): (r: Option<int>)
    ensures r.Some? ==> |s| > 0 && (r.value < 0 ==> s[0] == '-')
    ensures r.Some? ==> forall i :: 1 <= i < |s| ==> IsDigit(s[i])
  {
    if |s| > 0 && (s[0] == '-' || s[0] == '+') then
      if |s| > 1 && AllDigits(s[1..]) then
        var m: int := ParseNat(s[1..]);
        Some(if s[0] == '-' then -m else m)
      else None
    else if |s| > 0 && AllDigits(s) then Some(ParseNat(s))
    else None
  }

  /** The decimal text of a number reads back as that number. */
  lemma TryIntOfDecimal(n: int)
    ensures TryInt(IntStr(n)) == Some(n)
  {
    var s := IntStr(n);
    if n < 0 {
      var d := NatStr(-n);
      ParseNatStr(-n);
      assert s[0] == '-' && s[1..] == d;
      var m: int := ParseNat(d);
      assert TryInt(s) == Some(-m);
    } else {
      ParseNatStr(n);
      assert IsDigit(s[0]);
      assert TryInt(s) == Some(ParseNat(s));
    }
  }

  /** A string that `adjust_after_deserialization` converts. */
  predicate Convertible(s: string)
  {
    s == "true" || s == "false" || TryInt(s).Some?
  }

  /**
   * `adjust_after_deserialization`: lists item by item; exactly "true" and
   * "false" become booleans, any other string an integer if it reads as
   * one and itself otherwise; other values are kept.
   */
  function Adjust(v: Value): (r: Value)
    ensures v.List? ==> r.List? && |r.items| == |v.items|
    decreases v, 1
    ensures v.Str? ==> (r == Bool(true) <==> v.s == "true") && (r == Bool(false) <==> v.s == "false")
    ensures v.Str? && !Convertible(v.s) ==> r == v
    ensures v.Str? && v.s != "true" && v.s != "false" && TryInt(v.s).Some? ==> r == Int(TryInt(v.s).value)
    ensures !v.List? && !v.Str? ==> r == v
  {
    match v
    case List(items) => List(AdjustItems(items))
    case Str(s) =>
      if s == "true" then Bool(true)
      else if s == "false" then Bool(false)
      else (match TryInt(s)
        case Some(n) => Int(n)
        case None => v)
    case _ => v
  }

  /** The comprehension `[adjust_after_deserialization(sub) for sub in v]`. */
  function AdjustItems(items: seq<Value>): (r: seq<Value>)
    ensures |r| == |items|
    ensures forall i :: 0 <= i < |items| ==> r[i] == Adjust(items[i])
    decreases items, 0
  {
    if items == [] then [] else [Adjust(items[0])] + AdjustItems(items[1..])
  }

  /** What `Adjust` leaves: no string it would convert, at any depth of lists. */
  predicate Adjusted(v: Value)
  {
    match v
    case Str(s) => !Convertible(s)
    case List(items) => forall i :: 0 <= i < |items| ==> Adjusted(items[i])
    case _ => true
  }

  /** Adjusting leaves nothing more to adjust, so adjusting twice is adjusting once. */
  lemma {:induction false} AdjustIdempotent(v: Value)
    ensures Adjusted(Adjust(v))
    ensures Adjusted(v) ==> Adjust(v) == v
    ensures Adjust(Adjust(v)) == Adjust(v)
  {
    match v
    case List(items) =>
      forall i | 0 <= i < |items|
        ensures Adjusted(Adjust(items[i])) && (Adjusted(items[i]) ==> Adjust(items[i]) == items[i])
        ensures Adjust(Adjust(items[i])) == Adjust(items[i])
      {
        AdjustIdempotent(items[i]);
      }
      assert Adjusted(v) ==> Adjust(v).items == items;
      assert Adjust(Adjust(v)).items == Adjust(v).items;
    case _ =>
  }

  /**
   * A value written with `set_value` and read back with `get_value` comes
   * back as itself when it holds no set, tuple or convertible string and is
   * not None.
   */
  lemma {:induction false} StoredValueReadsBack(v: Value)
    requires NoSetOrTuple(v) && Adjusted(v)
    ensures Adjust(Normalize(v)) == v
  {
    NormalizeKeepsPlain(v);
    AdjustIdempotent(v);
  }

  /** What `restoreGeometry` does to the widget. */
  datatype GeometryAction = NoAction | Maximize | SetGeometry(x: int, y: int, w: int, h: int)

  /** Python truthiness. */
  predicate Truthy(v: Value)
  {
    match v
    case NoneValue => false
    case Bool(b) => b
    case Int(n) => n != 0
    case Str(s) => |s| > 0
    case List(items) => |items| > 0
    case Tuple(items) => |items| > 0
    case Set(items) => |items| > 0
    case Opaque(_) => true
  }

  /** The list `saveGeometry` stores: the maximized flag, then x, y, width and height. */
  function GeometryList(maximized: bool, x: int, y: int, w: int, h: int): (r: Value)
    ensures r.List? && |r.items| == 5
  {
    List([Int(if maximized then 1 else 0), Int(x), Int(y), Int(w), Int(h)])
  }

  /** A value `len()` and unpacking work on item by item. */
  predicate HasItems(v: Value)
  {
    v.List? || v.Tuple? || v.Set?
  }

  /** The value as a Python integer; `bool` is a subclass of `int`. */
  function IntOf(v: Value): (r: Option<int>)
    ensures v.Int? ==> r == Some(v.n)
    ensures v.Bool? ==> r == Some(if v.b then 1 else 0)
    ensures r.Some? ==> v.Int? || v.Bool?
  {
    match v
    case Int(n) => Some(n)
    case Bool(b) => Some(if b then 1 else 0)
    case _ => None
  }

  /**
   * `m, x, y, w, h = l` and what follows: a true `m` maximizes the window,
   * otherwise the integers x, y, width and height set its geometry, and
   * `QRect` refuses anything that is not an integer with a `TypeError`.
   */
  function Unpacked(items: seq<Value>): (r: Result<GeometryAction>)
    requires |items| == 5
    ensures Truthy(items[0]) ==> r == Ok(Maximize)
    ensures !Truthy(items[0]) && (forall i :: 1 <= i < 5 ==> IntOf(items[i]).Some?) ==>
      r == Ok(SetGeometry(IntOf(items[1]).value, IntOf(items[2]).value, IntOf(items[3]).value, IntOf(items[4]).value))
    ensures r.Err? <==> !Truthy(items[0]) && exists i :: 1 <= i < 5 && IntOf(items[i]).None?
    ensures r.Err? ==> r.error == TypeError
  {
    if Truthy(items[0]) then Ok(Maximize)
    else
      var x, y, w, h := IntOf(items[1]), IntOf(items[2]), IntOf(items[3]), IntOf(items[4]);
      if x.Some? && y.Some? && w.Some? && h.Some? then Ok(SetGeometry(x.value, y.value, w.value, h.value))
      else Err(TypeError)
  }

  /**
   * The decision of `restoreGeometry` on the value read back: only a true
   * value of length 5 acts, and it is unpacked into the flag and the
   * rectangle. `len()` on a value without a length raises `TypeError`; a
   * 5-character string unpacks into five 1-character strings, whose first
   * is true.
   */
  function RestoreAction(l: Value): (r: Result<GeometryAction>)
    ensures !Truthy(l) ==> r == Ok(NoAction)
    ensures HasItems(l) && |l.items| != 5 ==> r == Ok(NoAction)
    ensures HasItems(l) && |l.items| == 5 && Truthy(l.items[0]) ==> r == Ok(Maximize)
    ensures HasItems(l) && |l.items| == 5 && !Truthy(l.items[0]) && (forall i :: 1 <= i < 5 ==> IntOf(l.items[i]).Some?) ==>
      r == Ok(SetGeometry(IntOf(l.items[1]).value, IntOf(l.items[2]).value, IntOf(l.items[3]).value, IntOf(l.items[4]).value))
    ensures l.Str? && Truthy(l) ==> r == Ok(if |l.s| == 5 then Maximize else NoAction)
    ensures r.Ok? && r.value.SetGeometry? ==> HasItems(l) && |l.items| == 5 && !Truthy(l.items[0])
    ensures r.Err? ==> r.error == TypeError
    ensures r.Err? <==>
      || (Truthy(l) && (l.Bool? || l.Int? || l.Opaque?))
      || (HasItems(l) && |l.items| == 5 && Unpacked(l.items).Err?)
  {
    if !Truthy(l) then Ok(NoAction)
    else match l
      case Str(s) => if |s| == 5 then Ok(Maximize) else Ok(NoAction)
      case List(items) => if |items| == 5 then Unpacked(items) else Ok(NoAction)
      case Tuple(items) => if |items| == 5 then Unpacked(items) else Ok(NoAction)
      case Set(items) => if |items| == 5 then Unpacked(items) else Ok(NoAction)
      case _ => Err(TypeError)
  }

  class PreferencesBase {
    /** The settings store: a key is present or not. */
    var settings: map<string, Value>

    constructor (settings: map<string, Value>)
      ensures this.settings == settings
    {
      this.settings := settings;
    }

    /**
     * `get_value`: the stored value adjusted; the default when the key is
     * absent or the adjusted value is None.
     */
    function GetValue(name: string, default: Value): (r: Value)
      reads this
      ensures name !in settings ==> r == default
      ensures name in settings && Adjust(settings[name]) == NoneValue ==> r == default
      ensures name in settings && Adjust(settings[name]) != NoneValue ==> r == Adjust(settings[name])
      ensures r != NoneValue || default == NoneValue
    {
      if name in settings then
        var result := Adjust(settings[name]);
        if result != NoneValue then result else default
      else default
    }

    /** `set_value`: the value is stored normalized, under `name` only. */
    method SetValue(name: string, value: Value)
      modifies this
      ensures settings == old(settings)[name := Normalize(value)]
    {
      settings := settings[name := Normalize(value)];
    }

    /** `saveGeometry`. */
    method SaveGeometry(name: string, maximized: bool, x: int, y: int, w: int, h: int)
      modifies this
      ensures settings == old(settings)[name := GeometryList(maximized, x, y, w, h)]
      ensures RestoreGeometry(name) == Ok(if maximized then Maximize else SetGeometry(x, y, w, h))
    {
      SetValue(name, GeometryList(maximized, x, y, w, h));
      GeometryRoundTrip(maximized, x, y, w, h);
    }

    /** `restoreGeometry`, as the action it takes on the widget. */
    function RestoreGeometry(name: string): (r: Result<GeometryAction>)
      reads this
      ensures name !in settings ==> r == Ok(NoAction)
      ensures r.Ok? && r.value != NoAction ==> name in settings
    {
      RestoreAction(GetValue(name, NoneValue))
    }
  }

  /** A geometry saved and read back restores the window as it was saved. */
  lemma GeometryRoundTrip(maximized: bool, x: int, y: int, w: int, h: int)
    ensures Normalize(GeometryList(maximized, x, y, w, h)) == GeometryList(maximized, x, y, w, h)
    ensures Adjust(Normalize(GeometryList(maximized, x, y, w, h))) == GeometryList(maximized, x, y, w, h)
    ensures RestoreAction(Adjust(Normalize(GeometryList(maximized, x, y, w, h)))) ==
      Ok(if maximized then Maximize else SetGeometry(x, y, w, h))
  {
    var l := GeometryList(maximized, x, y, w, h);
    assert forall i :: 0 <= i < 5 ==> l.items[i].Int?;
    StoredValueReadsBack(l);
    NormalizeKeepsPlain(l);
  }
}
