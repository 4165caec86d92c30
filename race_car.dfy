/**
 The `RaceCar` class: a colour, the fuel remaining and a lap counter, plus
 any number of extra attributes given as keyword arguments, and one
 operation, `run_lap`, that burns fuel and counts the lap.

 Python attributes are dynamically typed, so every attribute holds a
 `Value`: an `int`, a `float` (modelled as an exact real) or a `str`.
 */
module RaceCars {
  import opened Options

  datatype Value = Int(i: int) | Float(f: real) | Str(s: string)

  /** The numeric value of `v`, if it is a number. */
  function AsNumber(v: Value): Option<real>
  {
    match v
    case Int(i) => Some(i as real)
    case Float(f) => Some(f)
    case Str(_) => None
  }

  /** `v - amount` where `amount` is a float: an `int` or a `float` gives a
      `float`; a `str` raises `TypeError` (`None`). */
  function SubtractFloat(v: Value, amount: real): (r: Option<Value>)
    ensures r.Some? <==> AsNumber(v).Some?
    ensures r.Some? ==> r.value.Float? && AsNumber(r.value) == Some(AsNumber(v).value - amount)
  {
    match v
    case Int(i) => Some(Float(i as real - amount))
    case Float(f) => Some(Float(f - amount))
    case Str(_) => None
  }

  /** `v + 1`: keeps the type of a number; a `str` raises `TypeError`. */
  function AddOne(v: Value): (r: Option<Value>)
    ensures r.Some? <==> AsNumber(v).Some?
    ensures r.Some? ==> AsNumber(r.value) == Some(AsNumber(v).value + 1.0)
    ensures r.Some? ==> (r.value.Int? <==> v.Int?)
  {
    match v
    case Int(i) => Some(Int(i + 1))
    case Float(f) => Some(Float(f + 1.0))
    case Str(_) => None
  }

  /** The fuel one unit of lap length burns. */
  const FuelPerLength: real := 0.125

  /** What `run_lap` leaves in `fuel_remaining` and `laps`, and whether it
      raised `TypeError` on the way. */
  datatype LapOutcome = LapOutcome(fuelRemaining: Value, laps: Value, raised: bool)

  /** `run_lap(length)` on the two attributes it touches. The fuel is
      updated first, so a `laps` that is not a number raises only after the
      fuel has already been burnt. Nothing is checked: the fuel may go
      negative and the length may be zero or negative. */
  function Lap(fuelRemaining: Value, laps: Value, length: real): (r: LapOutcome)
    ensures AsNumber(fuelRemaining).Some? && AsNumber(laps).Some? ==>
              && !r.raised
              && r.fuelRemaining.Float?
              && AsNumber(r.fuelRemaining) == Some(AsNumber(fuelRemaining).value - length / 8.0)
              && AsNumber(r.laps) == Some(AsNumber(laps).value + 1.0)
              && (r.laps.Int? <==> laps.Int?)
    ensures AsNumber(fuelRemaining).None? ==> r == LapOutcome(fuelRemaining, laps, true)
    ensures AsNumber(fuelRemaining).Some? && AsNumber(laps).None? ==>
              && r.raised && r.laps == laps
              && r.fuelRemaining.Float?
              && AsNumber(r.fuelRemaining) == Some(AsNumber(fuelRemaining).value - length / 8.0)
  {
    match SubtractFloat(fuelRemaining, length * FuelPerLength)
    case None => LapOutcome(fuelRemaining, laps, true)
    case Some(fuel) =>
      match AddOne(laps)
      case None => LapOutcome(fuel, laps, true)
      case Some(count) => LapOutcome(fuel, count, false)
  }

  /** `n` calls of `run_lap(length)` in a row, stopping at the first one that
      raises. */
  function Laps(fuelRemaining: Value, laps: Value, length: real, n: nat): LapOutcome
  {
    if n == 0 then LapOutcome(fuelRemaining, laps, false)
    else
      var before := Laps(fuelRemaining, laps, length, n - 1);
      if before.raised then before else Lap(before.fuelRemaining, before.laps, length)
  }

  /** After `n` laps of the same length on numeric attributes, the lap count
      has grown by `n` and the fuel has dropped by `n * length / 8`. */
  lemma {:induction false} LapsAccumulate(fuelRemaining: Value, laps: Value, length: real, n: nat)
    requires AsNumber(fuelRemaining).Some? && AsNumber(laps).Some?
    ensures var r := Laps(fuelRemaining, laps, length, n);
            && !r.raised
            && (n > 0 ==> r.fuelRemaining.Float?)
            && AsNumber(r.fuelRemaining) == Some(AsNumber(fuelRemaining).value - n as real * length / 8.0)
            && AsNumber(r.laps) == Some(AsNumber(laps).value + n as real)
            && (r.laps.Int? <==> laps.Int?)
  {
    if n > 0 {
      LapsAccumulate(fuelRemaining, laps, length, n - 1);
      var before := Laps(fuelRemaining, laps, length, n - 1);
      assert AsNumber(before.fuelRemaining).value - length / 8.0
          == AsNumber(fuelRemaining).value - n as real * length / 8.0;
    }
  }

  // ---------------------------------------------------------------------
  // Construction: fixed attributes, then the keyword arguments
  // ---------------------------------------------------------------------

  /** The keyword arguments `**kwargs`, in the order they were passed. */
  type Kwargs = seq<(string, Value)>

  /** What Python's call rules guarantee about `**kwargs` in
      `__init__(self, color, fuel_remaining, **kwargs)`: a keyword appears at
      most once, and none is the name of a declared parameter (such a call
      raises `TypeError` before `__init__` runs). */
  predicate ValidKwargs(kwargs: Kwargs)
  {
    && (forall i, j :: 0 <= i < j < |kwargs| ==> kwargs[i].0 != kwargs[j].0)
    && (forall i :: 0 <= i < |kwargs| ==> kwargs[i].0 != "self")
    && (forall i :: 0 <= i < |kwargs| ==> kwargs[i].0 != "color")
    && (forall i :: 0 <= i < |kwargs| ==> kwargs[i].0 != "fuel_remaining")
  }

  /** The names of the keyword arguments. */
  function Keywords(kwargs: Kwargs): set<string>
  {
    set i | 0 <= i < |kwargs| :: kwargs[i].0
  }

  /** Whether `setattr(car, name, v)` can store an attribute value under
      `name`. `__class__`, `__dict__` and `__weakref__` are data descriptors
      of the class: assigning an `int`, `float` or `str` to the first two
      raises `TypeError`, and the third is read-only (`AttributeError`). */
  predicate Settable(name: string)
  {
    name != "__class__" && name != "__dict__" && name != "__weakref__"
  }

  /** The names `getattr` finds on the class `RaceCar` (and `object`, as
      in Python 3.11 and 3.12) when the instance has no attribute of that
      name: the method `run_lap` and the inherited special attributes. */
  predicate IsClassAttribute(name: string)
  {
    name in {
      "run_lap", "__init__", "__module__", "__dict__", "__weakref__", "__doc__",
      "__class__", "__delattr__", "__dir__", "__eq__", "__format__", "__ge__",
      "__getattribute__", "__getstate__", "__gt__", "__hash__", "__init_subclass__",
      "__le__", "__lt__", "__ne__", "__new__", "__reduce__", "__reduce_ex__",
      "__repr__", "__setattr__", "__sizeof__", "__str__", "__subclasshook__"
    }
  }

  /** The attributes `__init__` sets before it looks at `kwargs`. */
  function Defaults(color: Value, fuelRemaining: Value): map<string, Value>
  {
    map["color" := color, "fuel_remaining" := fuelRemaining, "laps" := Int(0)]
  }

  /** `for key, value in kwargs.items(): setattr(self, key, value)`, on the
      attribute dictionary, when every key is settable. */
  function SetAll(attrs: map<string, Value>, kwargs: Kwargs): map<string, Value>
  {
    if kwargs == [] then attrs
    else
      var (key, value) := kwargs[|kwargs| - 1];
      SetAll(attrs, kwargs[..|kwargs| - 1])[key := value]
  }

  /** The attribute dictionary right after `RaceCar(color, fuel_remaining,
      **kwargs)`, or `None` when `__init__` raises because a keyword names a
      data descriptor (the half-built object is then discarded). */
  function InitialAttributes(color: Value, fuelRemaining: Value, kwargs: Kwargs): Option<map<string, Value>>
  {
    if forall i :: 0 <= i < |kwargs| ==> Settable(kwargs[i].0)
    then Some(SetAll(Defaults(color, fuelRemaining), kwargs))
    else None
  }

  /** After the `setattr` loop, each keyword is an attribute holding its
      value, and every other attribute is as it was. */
  lemma {:induction false} SetAllLookup(attrs: map<string, Value>, kwargs: Kwargs)
    requires forall i, j :: 0 <= i < j < |kwargs| ==> kwargs[i].0 != kwargs[j].0
    ensures forall i :: 0 <= i < |kwargs| ==>
              kwargs[i].0 in SetAll(attrs, kwargs) && SetAll(attrs, kwargs)[kwargs[i].0] == kwargs[i].1
    ensures forall name :: (forall i :: 0 <= i < |kwargs| ==> kwargs[i].0 != name) ==>
              (name in SetAll(attrs, kwargs) <==> name in attrs) &&
              (name in attrs ==> SetAll(attrs, kwargs)[name] == attrs[name])
  {
    if kwargs != [] {
      var init := kwargs[..|kwargs| - 1];
      SetAllLookup(attrs, init);
      forall i | 0 <= i < |kwargs|
        ensures kwargs[i].0 in SetAll(attrs, kwargs) && SetAll(attrs, kwargs)[kwargs[i].0] == kwargs[i].1
      {
        if i < |kwargs| - 1 {
          assert init[i] == kwargs[i];
        }
      }
      forall name | forall i :: 0 <= i < |kwargs| ==> kwargs[i].0 != name
        ensures (name in SetAll(attrs, kwargs) <==> name in attrs)
        ensures name in attrs ==> SetAll(attrs, kwargs)[name] == attrs[name]
      {
        assert forall i :: 0 <= i < |init| ==> init[i] == kwargs[i];
        assert kwargs[|kwargs| - 1].0 != name;
      }
    }
  }

  /** Construction raises exactly when a keyword names a data descriptor.
      Otherwise `color` and `fuel_remaining` are the arguments, `laps` is 0
      unless a keyword named `laps` replaced it, and every keyword argument
      is an attribute equal to its value. Nothing else is an attribute. */
  lemma ConstructedAttributes(color: Value, fuelRemaining: Value, kwargs: Kwargs)
    requires ValidKwargs(kwargs)
    ensures InitialAttributes(color, fuelRemaining, kwargs).None? <==>
              exists i :: 0 <= i < |kwargs| && !Settable(kwargs[i].0)
    ensures InitialAttributes(color, fuelRemaining, kwargs).Some? ==>
            var attrs := InitialAttributes(color, fuelRemaining, kwargs).value;
            && attrs.Keys == {"color", "fuel_remaining", "laps"} + Keywords(kwargs)
            && attrs["color"] == color
            && attrs["fuel_remaining"] == fuelRemaining
            && ((forall i :: 0 <= i < |kwargs| ==> kwargs[i].0 != "laps") ==> attrs["laps"] == Int(0))
            && (forall i :: 0 <= i < |kwargs| ==> attrs[kwargs[i].0] == kwargs[i].1)
  {
    var attrs := SetAll(Defaults(color, fuelRemaining), kwargs);
    var base := Defaults(color, fuelRemaining);
    SetAllLookup(base, kwargs);
    forall name ensures name in attrs <==> name in base.Keys + Keywords(kwargs) {
      if name in Keywords(kwargs) {
        var i :| 0 <= i < |kwargs| && kwargs[i].0 == name;
      }
    }
  }

  // ---------------------------------------------------------------------
  // The class
  // ---------------------------------------------------------------------

  /** What reading `car.name` finds: a value in the instance's attribute
      dictionary, something the class provides (a method or a special
      attribute, none of which is an `int`, `float` or `str` value of the
      instance), or nothing, which raises `AttributeError`. */
  datatype Lookup = Own(value: Value) | FromClass | AttributeError

  class RaceCar {
    var color: Value
    var fuelRemaining: Value
    var laps: Value
    /** The attributes set from keyword arguments other than `laps`. */
    var extras: map<string, Value>

    /** The three fixed attributes are fields, not extras, and no extra
        is named after a data descriptor, which `setattr` refuses. */
    ghost predicate Valid()
      reads this
    {
      && "color" !in extras && "fuel_remaining" !in extras && "laps" !in extras
      && forall name :: name in extras ==> Settable(name)
    }

    /** The instance's attribute dictionary (`vars(car)`). */
    function Attributes(): map<string, Value>
      reads this
    {
      extras["color" := color]["fuel_remaining" := fuelRemaining]["laps" := laps]
    }

    /** `getattr(car, name)`. A data descriptor of the class wins over the
        instance; otherwise the instance's own attribute hides a class
        attribute of the same name, and a name found in neither raises
        `AttributeError`. */
    function GetAttr(name: string): (r: Lookup)
      reads this
      ensures !Settable(name) ==> r == FromClass
      ensures r == FromClass ==> IsClassAttribute(name)
      ensures Settable(name) && name in Attributes() ==> r == Own(Attributes()[name])
      ensures Settable(name) && name !in Attributes() ==>
                (r == FromClass <==> IsClassAttribute(name)) &&
                (r == AttributeError <==> !IsClassAttribute(name))
    {
      if !Settable(name) then FromClass
      else if name == "color" then Own(color)
      else if name == "fuel_remaining" then Own(fuelRemaining)
      else if name == "laps" then Own(laps)
      else if name in extras then Own(extras[name])
      else if IsClassAttribute(name) then FromClass
      else AttributeError
    }

    /** `setattr(self, name, value)`: raises, changing nothing, on a data
        descriptor; otherwise stores `value` under `name`. */
    method SetAttr(name: string, value: Value) returns (raised: bool)
      requires Valid()
      modifies this
      ensures Valid()
      ensures raised <==> !Settable(name)
      ensures raised ==> Attributes() == old(Attributes())
      ensures !raised ==> Attributes() == old(Attributes())[name := value]
    {
      if !Settable(name) {
        return true;
      }
      if name == "color" {
        color := value;
      } else if name == "fuel_remaining" {
        fuelRemaining := value;
      } else if name == "laps" {
        laps := value;
      } else {
        extras := extras[name := value];
      }
      return false;
    }

    /** The first three lines of `__init__`: the fixed attributes. */
    constructor (color: Value, fuelRemaining: Value)
      ensures Valid()
      ensures Attributes() == Defaults(color, fuelRemaining)
    {
      this.color := color;
      this.fuelRemaining := fuelRemaining;
      laps := Int(0);
      extras := map[];
      new;
      assert Attributes() == Defaults(color, fuelRemaining);
    }

    /** `RaceCar(color, fuel_remaining, **kwargs)`: the whole of `__init__`.
        `null` stands for the `setattr` that raises, after which the caller
        never receives the object. */
    static method Create(color: Value, fuelRemaining: Value, kwargs: Kwargs) returns (car: RaceCar?)
      requires ValidKwargs(kwargs)
      ensures car == null <==> InitialAttributes(color, fuelRemaining, kwargs).None?
      ensures car != null ==> fresh(car) && car.Valid()
      ensures car != null ==> Some(car.Attributes()) == InitialAttributes(color, fuelRemaining, kwargs)
    {
      var c := new RaceCar(color, fuelRemaining);
      var i := 0;
      while i < |kwargs|
        invariant 0 <= i <= |kwargs|
        invariant fresh(c) && c.Valid()
        invariant forall j :: 0 <= j < i ==> Settable(kwargs[j].0)
        invariant c.Attributes() == SetAll(Defaults(color, fuelRemaining), kwargs[..i])
      {
        var (key, value) := kwargs[i];
        assert kwargs[..i + 1][..i] == kwargs[..i];
        var raised := c.SetAttr(key, value);
        if raised {
          return null;
        }
        i := i + 1;
      }
      assert kwargs[..i] == kwargs;
      car := c;
    }

    /** `car.run_lap(length)`: burns `length * 0.125` fuel and counts one
        lap; the colour and the extra attributes do not change. A keyword
        argument named `run_lap` hides the method behind a value that is not
        callable, so the call raises `TypeError` and changes nothing. */
    method RunLap(length: real) returns (raised: bool)
      requires Valid()
      modifies this
      ensures Valid()
      ensures "run_lap" in old(extras) ==>
                raised && fuelRemaining == old(fuelRemaining) && laps == old(laps)
      ensures "run_lap" !in old(extras) ==>
                LapOutcome(fuelRemaining, laps, raised) == Lap(old(fuelRemaining), old(laps), length)
      ensures color == old(color) && extras == old(extras)
    {
      if "run_lap" in extras {
        return true;
      }
      var fuel := SubtractFloat(fuelRemaining, length * FuelPerLength);
      if fuel.None? {
        return true;
      }
      fuelRemaining := fuel.value;
      var count := AddOne(laps);
      if count.None? {
        return true;
      }
      laps := count.value;
      return false;
    }
  }

  /** A car with 10 units of fuel and an extra `speed` attribute runs three
      laps of length 4. */
  method ExampleRace() returns (fuelAfterOne: Value, lapsAfterOne: Value, fuelAfterThree: Value, laps: Value,
                                speed: Lookup)
    ensures fuelAfterOne == Float(9.5)
    ensures lapsAfterOne == Int(1)
    ensures fuelAfterThree == Float(8.5)
    ensures laps == Int(3)
    ensures speed == Own(Int(200))
  {
    var kwargs := [("speed", Int(200))];
    var car := RaceCar.Create(Str("red"), Int(10), kwargs);
    ConstructedAttributes(Str("red"), Int(10), kwargs);
    assert kwargs[0].0 != "laps" && Settable(kwargs[0].0);
    assert car != null;
    assert car.laps == car.Attributes()["laps"] == Int(0);
    assert car.fuelRemaining == car.Attributes()["fuel_remaining"] == Int(10);
    assert car.Attributes()["speed"] == Int(200);
    assert "run_lap" !in car.Attributes();
    assert "run_lap" !in car.extras;
    var raised := car.RunLap(4.0);
    fuelAfterOne, lapsAfterOne := car.fuelRemaining, car.laps;
    raised := car.RunLap(4.0);
    raised := car.RunLap(4.0);
    fuelAfterThree, laps := car.fuelRemaining, car.laps;
    speed := car.GetAttr("speed");
  }

  /** Keywords that clash with the class: `__class__` makes construction
      raise, and `run_lap` hides the method so that calling it raises. */
  method ExampleShadowing() returns (bad: RaceCar?, raisedOnLap: bool, runLap: Lookup)
    ensures bad == null
    ensures raisedOnLap
    ensures runLap == Own(Int(1))
  {
    bad := RaceCar.Create(Str("red"), Int(10), [("__class__", Int(5))]);
    ConstructedAttributes(Str("red"), Int(10), [("__class__", Int(5))]);
    var kwargs := [("run_lap", Int(1))];
    ConstructedAttributes(Str("red"), Int(10), kwargs);
    assert Settable(kwargs[0].0);
    var car := RaceCar.Create(Str("red"), Int(10), kwargs);
    assert car != null;
    assert car.Attributes()["run_lap"] == Int(1);
    assert "run_lap" in car.extras;
    raisedOnLap := car.RunLap(4.0);
    runLap := car.GetAttr("run_lap");
  }
}
