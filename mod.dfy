/**
 * Integers modulo a positive modulus (modular-arithmetic/app/mod.py). A
 * `Mod` keeps its residue in `[0, modulus)`; it compares with, and
 * computes with, another `Mod` of the same modulus or a plain integer.
 * `+ - * **` build a new `Mod`; `+= -= *= **=` update the left operand.
 */
module Modular {
  import opened Wrappers

  /** The errors `Mod` raises (the `TypeError`s for non-integer arguments are ruled out by the types). */
  datatype Error =
    | NonPositiveModulus     // ValueError("Modulus can only be positive.")
    | IncompatibleOperand    // TypeError("Incompatible types: ...")

  // -----------------------------------------------------------------------
  // Modular arithmetic facts
  // -----------------------------------------------------------------------

  /** A positive multiple of a positive number is at least that number. */
  lemma MulAtLeast(m: int, k: int)
    requires m > 0 && k >= 1
    ensures m * k >= m
  {
    var j := k - 1;
    assert m * k == m * j + m;
    assert m * j >= 0;
  }

  /** Euclidean division is unique: a quotient and an in-range remainder determine `%`. */
  lemma ModUnique(a: int, m: int, q: int, r: int)
    requires m > 0 && 0 <= r < m && a == m * q + r
    ensures a % m == r
  {
    var q0, r0 := a / m, a % m;
    assert a == m * q0 + r0;
    if q0 > q {
      assert m * (q0 - q) == r - r0 by {
        assert m * q0 - m * q == m * (q0 - q);
      }
      MulAtLeast(m, q0 - q);
    } else if q0 < q {
      assert m * (q - q0) == r0 - r by {
        assert m * q - m * q0 == m * (q - q0);
      }
      MulAtLeast(m, q - q0);
    }
  }

  /** Adding a multiple of the modulus does not change the residue. */
  lemma ModShift(z: int, k: int, m: int)
    requires m > 0
    ensures (z + m * k) % m == z % m
  {
    assert z + m * k == m * (z / m + k) + z % m;
    ModUnique(z + m * k, m, z / m + k, z % m);
  }

  /** `(x + (y mod m)) mod m == (x + y) mod m`. */
  lemma AddRightMod(x: int, y: int, m: int)
    requires m > 0
    ensures (x + y % m) % m == (x + y) % m
  {
    ModShift(x + y % m, y / m, m);
    assert x + y % m + m * (y / m) == x + y;
  }

  /** `(x - (y mod m)) mod m == (x - y) mod m`. */
  lemma SubRightMod(x: int, y: int, m: int)
    requires m > 0
    ensures (x - y % m) % m == (x - y) % m
  {
    ModShift(x - y, y / m, m);
    assert x - y + m * (y / m) == x - y % m;
  }

  /** `(x * (y mod m)) mod m == (x * y) mod m`. */
  lemma MulRightMod(x: int, y: int, m: int)
    requires m > 0
    ensures (x * (y % m)) % m == (x * y) % m
  {
    var q := y / m;
    assert y == m * q + y % m;
    assert x * y == x * (y % m) + m * (x * q) by {
      calc {
        x * y;
        x * (m * q + y % m);
        x * (m * q) + x * (y % m);
        { assert x * (m * q) == m * (x * q); }
        m * (x * q) + x * (y % m);
      }
    }
    ModShift(x * (y % m), x * q, m);
  }

  /** `base ** exponent` on Python integers, for a non-negative exponent (`0 ** 0 == 1`). */
  function Power(base: int, exponent: nat): int
  {
    if exponent == 0 then 1 else base * Power(base, exponent - 1)
  }

  /** The base of a power may be reduced modulo `m` without changing the power's residue. */
  lemma {:induction false} PowerBaseMod(x: int, e: nat, m: int)
    requires m > 0
    ensures Power(x % m, e) % m == Power(x, e) % m
  {
    if e > 0 {
      var p, q := Power(x % m, e - 1), Power(x, e - 1);
      PowerBaseMod(x, e - 1, m);
      calc {
        Power(x % m, e) % m;
        ((x % m) * p) % m;
        { MulRightMod(x % m, p, m); }
        ((x % m) * (p % m)) % m;
        ((x % m) * (q % m)) % m;
        { MulRightMod(x % m, q, m); }
        ((x % m) * q) % m;
        { MulRightMod(q, x, m); assert (x % m) * q == q * (x % m) && x * q == q * x; }
        (x * q) % m;
      }
    }
  }

  // -----------------------------------------------------------------------
  // Values
  // -----------------------------------------------------------------------

  /** The state of a `Mod`: `_modulus` and `_residue`. */
  datatype ModValue = ModValue(modulus: int, residue: int)
  {
    /** What the constructor establishes and every operation keeps. */
    predicate Valid()
    {
      modulus > 0 && 0 <= residue < modulus
    }
  }

  /** `Mod(modulus, residue)`: the residue is stored reduced. */
  function NewMod(modulus: int, residue: int): (r: Result<ModValue, Error>)
    ensures r.Success? <==> modulus > 0
    ensures r.Failure? ==> r.error == NonPositiveModulus
    ensures r.Success? ==> r.value.Valid() && r.value.modulus == modulus
    ensures r.Success? ==> (residue - r.value.residue) % modulus == 0
  {
    if modulus <= 0 then Failure(NonPositiveModulus)
    else
      assert residue - residue % modulus == modulus * (residue / modulus);
      ModShift(0, residue / modulus, modulus);
      Success(ModValue(modulus, residue % modulus))
  }

  /** The right-hand operand of a comparison or an operation. */
  datatype Operand =
    | IntOperand(n: int)          // a Python `int` (`True`/`False` being 1/0)
    | ModOperand(v: ModValue)     // another `Mod`
    | OtherOperand                // anything else, e.g. a tuple
  {
    predicate Valid()
    {
      ModOperand? ==> v.Valid()
    }
  }

  /**
   * `_get_residue(other)`: a `Mod` of the same modulus gives its residue,
   * an integer gives itself reduced; anything else (including a `Mod` of
   * another modulus) is a `TypeError`.
   */
  function GetResidue(a: ModValue, other: Operand): (r: Result<int, Error>)
    requires a.Valid() && other.Valid()
    ensures r.Success? <==> other.IntOperand? || (other.ModOperand? && other.v.modulus == a.modulus)
    ensures r.Failure? ==> r.error == IncompatibleOperand
    ensures r.Success? ==> 0 <= r.value < a.modulus
    ensures r.Success? && other.IntOperand? ==> (other.n - r.value) % a.modulus == 0
    ensures r.Success? && other.ModOperand? ==> r.value == other.v.residue
  {
    match other
    case ModOperand(v) =>
      if v.modulus == a.modulus then Success(v.residue) else Failure(IncompatibleOperand)
    case IntOperand(n) =>
      assert NewMod(a.modulus, n).value.residue == n % a.modulus;
      Success(n % a.modulus)
    case OtherOperand => Failure(IncompatibleOperand)
  }

  /** `__eq__`: the residues agree; i.e. the two sides are congruent. */
  function Equal(a: ModValue, other: Operand): (r: Result<bool, Error>)
    requires a.Valid() && other.Valid()
    ensures r.Success? <==> GetResidue(a, other).Success?
    ensures r.Failure? ==> r.error == IncompatibleOperand
    ensures r.Success? && other.IntOperand? ==> (r.value <==> (other.n - a.residue) % a.modulus == 0)
    ensures r.Success? && other.ModOperand? ==> (r.value <==> other.v == a)
  {
    match GetResidue(a, other)
    case Failure(e) => Failure(e)
    case Success(b) =>
      if other.IntOperand? then
        CongruentIffSameResidue(other.n, a.residue, a.modulus);
        Success(b == a.residue)
      else
        Success(b == a.residue)
  }

  /** Two integers are congruent exactly when they have the same residue. */
  lemma CongruentIffSameResidue(n: int, r: int, m: int)
    requires m > 0 && 0 <= r < m
    ensures (n % m == r) <==> (n - r) % m == 0
  {
    if n % m == r {
      assert n - r == m * (n / m);
      ModShift(0, n / m, m);
    }
    if (n - r) % m == 0 {
      assert n == m * ((n - r) / m) + r;
      ModUnique(n, m, (n - r) / m, r);
    }
  }

  /** `__lt__`: compares residues. */
  function Less(a: ModValue, other: Operand): (r: Result<bool, Error>)
    requires a.Valid() && other.Valid()
    ensures r.Success? <==> GetResidue(a, other).Success?
    ensures r.Failure? ==> r.error == IncompatibleOperand
    ensures r.Success? ==> (r.value <==> a.residue < GetResidue(a, other).value)
  {
    match GetResidue(a, other)
    case Failure(e) => Failure(e)
    case Success(b) => Success(a.residue < b)
  }

  /**
   * With `@total_ordering`, two `Mod`s of one modulus are ordered totally:
   * exactly one of `a < b`, `a == b`, `b < a` holds.
   */
  lemma OrderTotal(a: ModValue, b: ModValue)
    requires a.Valid() && b.Valid() && a.modulus == b.modulus
    ensures Less(a, ModOperand(b)).Success? && Equal(a, ModOperand(b)).Success? && Less(b, ModOperand(a)).Success?
    ensures var lt, eq, gt := Less(a, ModOperand(b)).value, Equal(a, ModOperand(b)).value, Less(b, ModOperand(a)).value;
      (lt && !eq && !gt) || (!lt && eq && !gt) || (!lt && !eq && gt)
  {
  }

  /** `__neg__`: `Mod(modulus, -residue)`, the additive inverse. */
  function Negate(a: ModValue): (r: ModValue)
    requires a.Valid()
    ensures r.Valid() && r.modulus == a.modulus
    ensures (r.residue + a.residue) % a.modulus == 0
    ensures r.residue == (a.modulus - a.residue) % a.modulus
  {
    var m, x := a.modulus, a.residue;
    var r := NewMod(m, -x).value;
    assert r.residue == (-x) % m;
    assert (m - x) % m == r.residue by {
      ModShift(-x, 1, m);
      assert -x + m * 1 == m - x;
    }
    assert (r.residue + x) % m == 0 by {
      AddRightMod(x, -x, m);
      assert x + r.residue == r.residue + x;
    }
    r
  }

  /** The four operators `_perform_operation` is called with. */
  datatype Op = AddOp | SubOp | MulOp | PowOp

  /** `op(self.residue, other_residue)`; the exponent of `**` is a residue, so never negative. */
  function Apply(op: Op, x: int, y: nat): int
  {
    match op
    case AddOp => x + y
    case SubOp => x - y
    case MulOp => x * y
    case PowOp => Power(x, y)
  }

  /**
   * `_perform_operation(other, op)`: the new residue is `op(residue,
   * other_residue)` reduced. For `+`, `-` and `*` with an integer, it is
   * the residue of the same operation on the integer itself.
   */
  function Operate(a: ModValue, other: Operand, op: Op): (r: Result<ModValue, Error>)
    requires a.Valid() && other.Valid()
    ensures r.Success? <==> GetResidue(a, other).Success?
    ensures r.Failure? ==> r.error == IncompatibleOperand
    ensures r.Success? ==> r.value.Valid() && r.value.modulus == a.modulus
    ensures r.Success? ==> r.value.residue == Apply(op, a.residue, GetResidue(a, other).value) % a.modulus
    ensures r.Success? && other.IntOperand? && op == AddOp ==> r.value.residue == (a.residue + other.n) % a.modulus
    ensures r.Success? && other.IntOperand? && op == SubOp ==> r.value.residue == (a.residue - other.n) % a.modulus
    ensures r.Success? && other.IntOperand? && op == MulOp ==> r.value.residue == (a.residue * other.n) % a.modulus
  {
    match GetResidue(a, other)
    case Failure(e) => Failure(e)
    case Success(b) =>
      if other.IntOperand? then
        assert b == other.n % a.modulus;
        AddRightMod(a.residue, other.n, a.modulus);
        SubRightMod(a.residue, other.n, a.modulus);
        MulRightMod(a.residue, other.n, a.modulus);
        NewMod(a.modulus, Apply(op, a.residue, b))
      else
        NewMod(a.modulus, Apply(op, a.residue, b))
  }

  /** `(u mod m - y) mod m == (u - y) mod m`. */
  lemma SubLeftMod(u: int, y: int, m: int)
    requires m > 0
    ensures (u % m - y) % m == (u - y) % m
  {
    assert u == m * (u / m) + u % m;
    ModShift(u % m - y, u / m, m);
    assert u % m - y + m * (u / m) == u - y;
  }

  /** Subtracting what was just added gives the left operand back. */
  lemma SubUndoesAdd(a: ModValue, other: Operand)
    requires a.Valid() && other.Valid() && GetResidue(a, other).Success?
    ensures Operate(Operate(a, other, AddOp).value, other, SubOp) == Success(a)
  {
    var m, x, y := a.modulus, a.residue, GetResidue(a, other).value;
    var s := Operate(a, other, AddOp).value;
    assert s.residue == (x + y) % m;
    assert GetResidue(s, other) == Success(y);
    SubLeftMod(x + y, y, m);
    assert x + y - y == x;
    ModUnique(x, m, 0, x);
  }

  /**
   * `Mod(m, x) ** e`: the base may be any integer congruent to the stored
   * residue, while the exponent is first reduced modulo `m`.
   */
  lemma PowOfConstructed(m: int, x: int, e: int)
    requires m > 0
    ensures Operate(NewMod(m, x).value, IntOperand(e), PowOp).value.residue == Power(x, e % m) % m
  {
    PowerBaseMod(x, e % m, m);
  }

  /**
   * The exponent reduction is visible: `Mod(10, 3) ** 14` has residue 1,
   * whereas `3 ** 14 % 10` is 9.
   */
  lemma PowReducesExponent()
    ensures Operate(ModValue(10, 3), IntOperand(14), PowOp).value.residue == 1
    ensures Power(3, 14) % 10 == 9
  {
    assert Power(3, 4) == 81;
    assert Power(3, 14) == 4782969;
  }

  /** Construction and comparison, as in test_mod.py. */
  lemma ConstructionExamples()
    ensures NewMod(10, 3) == Success(ModValue(10, 3))
    ensures NewMod(10, -1) == Success(ModValue(10, 9))
    ensures NewMod(10, 13) == Success(ModValue(10, 3))
    ensures NewMod(-10, 3) == Failure(NonPositiveModulus)
    ensures Equal(ModValue(10, 3), ModOperand(ModValue(10, 3))) == Success(true)
    ensures Equal(ModValue(10, 3), IntOperand(13)) == Success(true)
    ensures Equal(ModValue(10, 3), ModOperand(ModValue(13, 3))) == Failure(IncompatibleOperand)
    ensures Equal(ModValue(10, 3), OtherOperand) == Failure(IncompatibleOperand)
    ensures Less(ModValue(10, 3), ModOperand(ModValue(10, 4))) == Success(true)
    ensures Less(ModValue(10, 3), IntOperand(14)) == Success(true)
    ensures Negate(ModValue(10, 3)) == ModValue(10, 7)
  {
  }

  /** The operators of test_mod.py on `Mod(10, 3)` and 4, `Mod(10, 4)` or 14. */
  lemma OperatorExamples()
    ensures Operate(ModValue(10, 3), IntOperand(4), AddOp) == Success(ModValue(10, 7))
    ensures Operate(ModValue(10, 3), IntOperand(14), SubOp) == Success(ModValue(10, 9))
    ensures Operate(ModValue(10, 3), ModOperand(ModValue(10, 4)), MulOp) == Success(ModValue(10, 2))
    ensures Operate(ModValue(10, 3), IntOperand(4), PowOp) == Success(ModValue(10, 1))
  {
    assert Power(3, 4) == 81;
  }

  // -----------------------------------------------------------------------
  // The Mod object
  // -----------------------------------------------------------------------

  /** The right-hand operand as the program sees it: possibly another `Mod` object. */
  datatype Arg = IntArg(n: int) | ModArg(m: Mod) | OtherArg

  function ArgObjects(o: Arg): set<Mod>
  {
    if o.ModArg? then {o.m} else {}
  }

  /** The operand's value at this moment. */
  function ArgOperand(o: Arg): Operand
    reads ArgObjects(o)
  {
    match o
    case IntArg(n) => IntOperand(n)
    case ModArg(m) => ModOperand(m.Value())
    case OtherArg => OtherOperand
  }

  predicate ArgValid(o: Arg)
    reads ArgObjects(o)
  {
    o.ModArg? ==> o.m.Valid()
  }

  class Mod {
    const modulus: int
    var residue: int

    function Value(): ModValue
      reads this
    {
      ModValue(modulus, residue)
    }

    predicate Valid()
      reads this
    {
      Value().Valid()
    }

    constructor Init(modulus: int, residue: int)
      requires modulus > 0
      ensures Value() == NewMod(modulus, residue).value
    {
      this.modulus := modulus;
      this.residue := residue % modulus;
    }

    /** `Mod(modulus, residue)`. */
    static method Create(modulus: int, residue: int) returns (r: Result<Mod, Error>)
      ensures r.Success? <==> modulus > 0
      ensures r.Failure? ==> r.error == NonPositiveModulus
      ensures r.Success? ==> fresh(r.value) && r.value.Value() == NewMod(modulus, residue).value
    {
      if modulus <= 0 {
        return Failure(NonPositiveModulus);
      }
      var m := new Mod.Init(modulus, residue);
      r := Success(m);
    }

    /** `_get_residue(other)`, reading the other object's residue now. */
    method OtherResidue(other: Arg) returns (r: Result<int, Error>)
      requires Valid() && ArgValid(other)
      ensures r == GetResidue(Value(), ArgOperand(other))
    {
      match other
      case ModArg(m) =>
        if m.modulus == modulus {
          r := Success(m.residue);
        } else {
          r := Failure(IncompatibleOperand);
        }
      case IntArg(n) =>
        r := Success(n % modulus);
      case OtherArg =>
        r := Failure(IncompatibleOperand);
    }

    /**
     * `_perform_operation(other, op, in_place)`: in place, the residue is
     * replaced and the object itself returned; otherwise a new `Mod` is
     * built and this one is left alone. `other` may be this very object.
     */
    method PerformOperation(other: Arg, op: Op, inPlace: bool) returns (r: Result<Mod, Error>)
      requires Valid() && ArgValid(other)
      modifies this
      ensures Valid()
      ensures r.Success? <==> old(GetResidue(Value(), ArgOperand(other))).Success?
      ensures r.Failure? ==> r.error == IncompatibleOperand && residue == old(residue)
      ensures r.Success? ==> r.value.Value() == old(Operate(Value(), ArgOperand(other), op)).value
      ensures r.Success? && inPlace ==> r.value == this
      ensures r.Success? && !inPlace ==> fresh(r.value) && residue == old(residue)
    {
      var otherResidue := OtherResidue(other);
      if otherResidue.Failure? {
        return Failure(otherResidue.error);
      }
      var newResidue := Apply(op, residue, otherResidue.value);
      if inPlace {
        residue := newResidue % modulus;
        return Success(this);
      }
      var m := new Mod.Init(modulus, newResidue);
      r := Success(m);
    }

    /** `__add__`: `self + other`, a new `Mod`. */
    method Add(other: Arg) returns (r: Result<Mod, Error>)
      requires Valid() && ArgValid(other)
      modifies this
      ensures Valid()
      ensures r.Success? <==> old(GetResidue(Value(), ArgOperand(other))).Success?
      ensures r.Failure? ==> r.error == IncompatibleOperand && residue == old(residue)
      ensures r.Success? ==> r.value.Value() == old(Operate(Value(), ArgOperand(other), AddOp)).value
      ensures r.Success? ==> fresh(r.value)
      ensures residue == old(residue)
    {
      r := PerformOperation(other, AddOp, false);
    }

    /** `__iadd__`: `self += other`, updating this object and returning it. */
    method InPlaceAdd(other: Arg) returns (r: Result<Mod, Error>)
      requires Valid() && ArgValid(other)
      modifies this
      ensures Valid()
      ensures r.Success? <==> old(GetResidue(Value(), ArgOperand(other))).Success?
      ensures r.Failure? ==> r.error == IncompatibleOperand && residue == old(residue)
      ensures r.Success? ==> r.value.Value() == old(Operate(Value(), ArgOperand(other), AddOp)).value
      ensures r.Success? ==> r.value == this
    {
      r := PerformOperation(other, AddOp, true);
    }

    /** `__sub__`: `self - other`, a new `Mod`. */
    method Sub(other: Arg) returns (r: Result<Mod, Error>)
      requires Valid() && ArgValid(other)
      modifies this
      ensures Valid()
      ensures r.Success? <==> old(GetResidue(Value(), ArgOperand(other))).Success?
      ensures r.Failure? ==> r.error == IncompatibleOperand && residue == old(residue)
      ensures r.Success? ==> r.value.Value() == old(Operate(Value(), ArgOperand(other), SubOp)).value
      ensures r.Success? ==> fresh(r.value)
      ensures residue == old(residue)
    {
      r := PerformOperation(other, SubOp, false);
    }

    /** `__isub__`: `self -= other`, updating this object and returning it. */
    method InPlaceSub(other: Arg) returns (r: Result<Mod, Error>)
      requires Valid() && ArgValid(other)
      modifies this
      ensures Valid()
      ensures r.Success? <==> old(GetResidue(Value(), ArgOperand(other))).Success?
      ensures r.Failure? ==> r.error == IncompatibleOperand && residue == old(residue)
      ensures r.Success? ==> r.value.Value() == old(Operate(Value(), ArgOperand(other), SubOp)).value
      ensures r.Success? ==> r.value == this
    {
      r := PerformOperation(other, SubOp, true);
    }

    /** `__mul__`: `self * other`, a new `Mod`. */
    method Mul(other: Arg) returns (r: Result<Mod, Error>)
      requires Valid() && ArgValid(other)
      modifies this
      ensures Valid()
      ensures r.Success? <==> old(GetResidue(Value(), ArgOperand(other))).Success?
      ensures r.Failure? ==> r.error == IncompatibleOperand && residue == old(residue)
      ensures r.Success? ==> r.value.Value() == old(Operate(Value(), ArgOperand(other), MulOp)).value
      ensures r.Success? ==> fresh(r.value)
      ensures residue == old(residue)
    {
      r := PerformOperation(other, MulOp, false);
    }

    /** `__imul__`: `self *= other`, updating this object and returning it. */
    method InPlaceMul(other: Arg) returns (r: Result<Mod, Error>)
      requires Valid() && ArgValid(other)
      modifies this
      ensures Valid()
      ensures r.Success? <==> old(GetResidue(Value(), ArgOperand(other))).Success?
      ensures r.Failure? ==> r.error == IncompatibleOperand && residue == old(residue)
      ensures r.Success? ==> r.value.Value() == old(Operate(Value(), ArgOperand(other), MulOp)).value
      ensures r.Success? ==> r.value == this
    {
      r := PerformOperation(other, MulOp, true);
    }

    /** `__pow__`: `self ** other`, a new `Mod`. */
    method Pow(other: Arg) returns (r: Result<Mod, Error>)
      requires Valid() && ArgValid(other)
      modifies this
      ensures Valid()
      ensures r.Success? <==> old(GetResidue(Value(), ArgOperand(other))).Success?
      ensures r.Failure? ==> r.error == IncompatibleOperand && residue == old(residue)
      ensures r.Success? ==> r.value.Value() == old(Operate(Value(), ArgOperand(other), PowOp)).value
      ensures r.Success? ==> fresh(r.value)
      ensures residue == old(residue)
    {
      r := PerformOperation(other, PowOp, false);
    }

    /** `__ipow__`: `self **= other`, updating this object and returning it. */
    method InPlacePow(other: Arg) returns (r: Result<Mod, Error>)
      requires Valid() && ArgValid(other)
      modifies this
      ensures Valid()
      ensures r.Success? <==> old(GetResidue(Value(), ArgOperand(other))).Success?
      ensures r.Failure? ==> r.error == IncompatibleOperand && residue == old(residue)
      ensures r.Success? ==> r.value.Value() == old(Operate(Value(), ArgOperand(other), PowOp)).value
      ensures r.Success? ==> r.value == this
    {
      r := PerformOperation(other, PowOp, true);
    }
  }

  /** `a += a` reads the right-hand residue before it writes the left: `Mod(10, 3) += itself` gives 6. */
  method AliasedInPlaceAdd()
  {
    var created := Mod.Create(10, 3);
    var a := created.value;
    var r := a.InPlaceAdd(ModArg(a));
    assert a.residue == 6 && r.value == a;
  }
}
