/**
 * The inventory of computing resources (inventory-manangement/app/inventory.py):
 * a `Resource` counts how many items it owns (`total`) and how many of them
 * are in use (`allocated`), and keeps `0 <= allocated <= total` through
 * `allocate`, `freeup`, `died` and `purchased`. The subclasses `CPU`,
 * `Storage`, `HDD` and `SSD` only add checked, read-only attributes; they
 * are the `Details` of a resource here.
 */
module Inventory {
  import opened Wrappers
  import opened Text

  /**
   * The `ValueError`s raised by `validate_integer` (below a minimum, above a
   * maximum, the latter with the caller's custom message when it gives one)
   * and by the `HDD` size check.
   */
  datatype Error =
    | BelowMinimum(argName: string, minValue: int)
    | AboveMaximum(argName: string, maxValue: int, customMessage: Option<string>)
    | InvalidHddSize

  /**
   * `validate_integer(arg_name, arg_value, min_value, max_value,
   * custom_max_message)` from `app.utilities`, as its call sites use it:
   * the minimum is checked first, then the maximum when there is one.
   */
  function ValidateInteger(argName: string, value: int, minValue: int, maxValue: Option<int>,
                           customMaxMessage: Option<string>): (r: Outcome<Error>)
    ensures r.Pass? <==> minValue <= value && (maxValue.None? || value <= maxValue.value)
    ensures r.Fail? && value < minValue ==> r.error == BelowMinimum(argName, minValue)
    ensures r.Fail? && value >= minValue ==> r.error == AboveMaximum(argName, maxValue.value, customMaxMessage)
  {
    if value < minValue then Fail(BelowMinimum(argName, minValue))
    else if maxValue.Some? && value > maxValue.value then Fail(AboveMaximum(argName, maxValue.value, customMaxMessage))
    else Pass
  }

  // -----------------------------------------------------------------------
  // Counts and the operations on them
  // -----------------------------------------------------------------------

  /** The two counters of a resource. */
  datatype Counts = Counts(total: int, allocatedCount: int)
  {
    /** The invariant every resource keeps. */
    predicate Valid()
    {
      0 <= allocatedCount <= total
    }

    /** `available`: the items not in use. */
    function Available(): int
    {
      total - allocatedCount
    }
  }

  /** The checks of `Resource.__init__`: `total` first, then `allocated` against it. */
  function CheckCounts(total: int, allocatedCount: int): (r: Outcome<Error>)
    ensures r.Pass? <==> Counts(total, allocatedCount).Valid()
    ensures r.Fail? ==> r.error == (if total < 0 then BelowMinimum("total", 0)
                                    else if allocatedCount < 0 then BelowMinimum("allocated", 0)
                                    else AboveMaximum("allocated", total, Some(AllocatedExceedsTotal)))
  {
    var t := ValidateInteger("total", total, 0, None, None);
    if t.Fail? then t
    else ValidateInteger("allocated", allocatedCount, 0, Some(total), Some(AllocatedExceedsTotal))
  }

  const AllocatedExceedsTotal := "Allocated count cannot exceed total count."
  const CannotAllocate := "Cannot allocate more than available."
  const CannotFreeup := "Cannot reset more than allocated."
  const CannotRetire := "Cannot retire more than allocated."

  /** `allocate(count)` on the counters: `1 <= count <= available`, then `allocated += count`. */
  function AllocateCounts(c: Counts, count: int): (r: Result<Counts, Error>)
    requires c.Valid()
    ensures r.Success? <==> 1 <= count <= c.Available()
    ensures r.Success? ==> r.value.Valid() && r.value.total == c.total && r.value.Available() == c.Available() - count
    ensures r.Failure? ==> r.error == (if count < 1 then BelowMinimum("count", 1)
                                       else AboveMaximum("count", c.Available(), Some(CannotAllocate)))
  {
    match ValidateInteger("count", count, 1, Some(c.Available()), Some(CannotAllocate))
    case Fail(e) => Failure(e)
    case Pass => Success(Counts(c.total, c.allocatedCount + count))
  }

  /** `freeup(count)` on the counters: `1 <= count <= allocated`, then `allocated -= count`. */
  function FreeupCounts(c: Counts, count: int): (r: Result<Counts, Error>)
    requires c.Valid()
    ensures r.Success? <==> 1 <= count <= c.allocatedCount
    ensures r.Success? ==> r.value.Valid() && r.value.total == c.total && r.value.Available() == c.Available() + count
    ensures r.Failure? ==> r.error == (if count < 1 then BelowMinimum("count", 1)
                                       else AboveMaximum("count", c.allocatedCount, Some(CannotFreeup)))
  {
    match ValidateInteger("count", count, 1, Some(c.allocatedCount), Some(CannotFreeup))
    case Fail(e) => Failure(e)
    case Pass => Success(Counts(c.total, c.allocatedCount - count))
  }

  /** `died(count)` on the counters: `1 <= count <= allocated`, then both counters drop by `count`. */
  function DiedCounts(c: Counts, count: int): (r: Result<Counts, Error>)
    requires c.Valid()
    ensures r.Success? <==> 1 <= count <= c.allocatedCount
    ensures r.Success? ==>
      && r.value.Valid()
      && r.value.total == c.total - count && r.value.allocatedCount == c.allocatedCount - count
      && r.value.Available() == c.Available()
    ensures r.Failure? ==> r.error == (if count < 1 then BelowMinimum("count", 1)
                                       else AboveMaximum("count", c.allocatedCount, Some(CannotRetire)))
  {
    match ValidateInteger("count", count, 1, Some(c.allocatedCount), Some(CannotRetire))
    case Fail(e) => Failure(e)
    case Pass => Success(Counts(c.total - count, c.allocatedCount - count))
  }

  /** `purchased(count)` on the counters: `count >= 1`, then `total += count`. */
  function PurchasedCounts(c: Counts, count: int): (r: Result<Counts, Error>)
    requires c.Valid()
    ensures r.Success? <==> count >= 1
    ensures r.Success? ==> r.value.Valid() && r.value.allocatedCount == c.allocatedCount && r.value.Available() == c.Available() + count
    ensures r.Failure? ==> r.error == BelowMinimum("count", 1)
  {
    match ValidateInteger("count", count, 1, None, None)
    case Fail(e) => Failure(e)
    case Pass => Success(Counts(c.total + count, c.allocatedCount))
  }

  /** Freeing what was just allocated restores the counters. */
  lemma FreeupUndoesAllocate(c: Counts, count: int)
    requires c.Valid() && AllocateCounts(c, count).Success?
    ensures FreeupCounts(AllocateCounts(c, count).value, count) == Success(c)
  {
    var a := AllocateCounts(c, count).value;
    assert a.allocatedCount == c.allocatedCount + count;
  }

  /** Allocating what was just freed restores the counters. */
  lemma AllocateUndoesFreeup(c: Counts, count: int)
    requires c.Valid() && FreeupCounts(c, count).Success?
    ensures AllocateCounts(FreeupCounts(c, count).value, count) == Success(c)
  {
    var f := FreeupCounts(c, count).value;
    assert f.allocatedCount == c.allocatedCount - count;
  }

  /**
   * Retiring items that were just bought in use leaves the counters where
   * they were: `purchased(n)`, `allocate(n)`, `died(n)` is the identity.
   */
  lemma PurchaseAllocateDieRestores(c: Counts, count: int)
    requires c.Valid() && count >= 1
    ensures PurchasedCounts(c, count).Success?
    ensures AllocateCounts(PurchasedCounts(c, count).value, count).Success?
    ensures DiedCounts(AllocateCounts(PurchasedCounts(c, count).value, count).value, count) == Success(c)
  {
    var p := PurchasedCounts(c, count).value;
    assert p.total == c.total + count && p.allocatedCount == c.allocatedCount;
    var a := AllocateCounts(p, count).value;
    assert a.total == c.total + count && a.allocatedCount == c.allocatedCount + count;
  }

  /**
   * What can be allocated is exactly what is available: allocating it all
   * succeeds and leaves nothing available, one more item is refused.
   */
  lemma AllocateAvailableBound(c: Counts)
    requires c.Valid() && c.Available() >= 1
    ensures AllocateCounts(c, c.Available()).Success? && AllocateCounts(c, c.Available()).value.Available() == 0
    ensures AllocateCounts(c, c.Available() + 1) == Failure(AboveMaximum("count", c.Available(), Some(CannotAllocate)))
  {
  }

  // -----------------------------------------------------------------------
  // Resource kinds
  // -----------------------------------------------------------------------

  /** The attributes a subclass adds; `Plain` is a bare `Resource`. */
  datatype Details =
    | Plain
    | Cpu(cores: int, socket: string, powerWatts: int)
    | Storage(capacityGb: int)
    | Hdd(capacityGb: int, size: string, rpm: int)
    | Ssd(capacityGb: int, interface: string)
  {
    /** `type(self).__name__`: the class the resource was built from. */
    function ClassName(): string
    {
      match this
      case Plain => "Resource"
      case Cpu(_, _, _) => "CPU"
      case Storage(_) => "Storage"
      case Hdd(_, _, _) => "HDD"
      case Ssd(_, _) => "SSD"
    }

    /** `category`: the class name in lower case, a plain `Resource` giving `"resource"`. */
    function Category(): (r: string)
      ensures r == CaseFold(ClassName())
      ensures this.Plain? <==> r == "resource"
    {
      match this
      case Plain => "resource"
      case Cpu(_, _, _) => "cpu"
      case Storage(_) => "storage"
      case Hdd(_, _, _) => "hdd"
      case Ssd(_, _) => "ssd"
    }

    /** What the subclass constructors demand of their own attributes. */
    predicate Valid()
    {
      match this
      case Plain => true
      case Cpu(cores, _, powerWatts) => cores >= 1 && powerWatts >= 1
      case Storage(capacityGb) => capacityGb >= 1
      case Hdd(capacityGb, size, rpm) => capacityGb >= 1 && size in HddSizes && 1000 <= rpm <= 50000
      case Ssd(capacityGb, _) => capacityGb >= 1
    }
  }

  /**
   * Lower-casing keeps the five class names apart: two resources share a
   * category exactly when they were built from the same class.
   */
  lemma CategoryIdentifiesClass(d: Details, e: Details)
    ensures d.Category() == e.Category() <==> d.ClassName() == e.ClassName()
  {
  }

  /** The sizes `HDD` accepts: 2.5" and 3.5". */
  const HddSizes: seq<string> := ["2.5\"", "3.5\""]

  /** `Storage.__init__`'s own check, shared by `HDD` and `SSD`. */
  function CheckCapacity(capacityGb: int): Outcome<Error>
  {
    ValidateInteger("capacity_gb", capacityGb, 1, None, None)
  }

  /**
   * The checks a subclass constructor adds after `Resource.__init__`'s, in
   * order: `cores` then `power_watts`; `capacity_gb`; for an HDD the
   * capacity, then the size, then `rpm`.
   */
  function CheckDetails(d: Details): (r: Outcome<Error>)
    ensures r.Pass? <==> d.Valid()
    ensures d.Cpu? && r.Fail? ==>
      r.error == (if d.cores < 1 then BelowMinimum("cores", 1) else BelowMinimum("power_watts", 1))
    ensures (d.Storage? || d.Ssd?) && r.Fail? ==> r.error == BelowMinimum("capacity_gb", 1)
    ensures d.Hdd? && r.Fail? ==>
      r.error == (if d.capacityGb < 1 then BelowMinimum("capacity_gb", 1)
                  else if d.size !in HddSizes then InvalidHddSize
                  else if d.rpm < 1000 then BelowMinimum("rpm", 1000)
                  else AboveMaximum("rpm", 50000, None))
  {
    match d
    case Plain => Pass
    case Cpu(cores, _, powerWatts) =>
      var c := ValidateInteger("cores", cores, 1, None, None);
      if c.Fail? then c else ValidateInteger("power_watts", powerWatts, 1, None, None)
    case Storage(capacityGb) => CheckCapacity(capacityGb)
    case Ssd(capacityGb, _) => CheckCapacity(capacityGb)
    case Hdd(capacityGb, size, rpm) =>
      var c := CheckCapacity(capacityGb);
      if c.Fail? then c
      else if size !in HddSizes then Fail(InvalidHddSize)
      else ValidateInteger("rpm", rpm, 1000, Some(50000), None)
  }

  /** The whole constructor check: the base class's first, then the subclass's. */
  function CheckResource(total: int, allocatedCount: int, d: Details): (r: Outcome<Error>)
    ensures r.Pass? <==> Counts(total, allocatedCount).Valid() && d.Valid()
    ensures !Counts(total, allocatedCount).Valid() ==> r == CheckCounts(total, allocatedCount)
  {
    var c := CheckCounts(total, allocatedCount);
    if c.Fail? then c else CheckDetails(d)
  }

  /** The examples of the HDD constructor: sizes other than 2.5" and 3.5" and speeds outside [1000, 50000]. */
  lemma HddExamples()
    ensures CheckDetails(Hdd(500, "2.5\"", 7200)).Pass?
    ensures CheckDetails(Hdd(500, "5.25\"", 7200)) == Fail(InvalidHddSize)
    ensures CheckDetails(Hdd(500, "3.5\"", 999)) == Fail(BelowMinimum("rpm", 1000))
    ensures CheckDetails(Hdd(500, "3.5\"", 50001)) == Fail(AboveMaximum("rpm", 50000, None))
    ensures CheckDetails(Hdd(0, "5.25\"", 0)) == Fail(BelowMinimum("capacity_gb", 1))
  {
    assert "2.5\"" == HddSizes[0] && "3.5\"" == HddSizes[1];
    assert "5.25\"" != HddSizes[0] && "5.25\"" != HddSizes[1];
  }

  // -----------------------------------------------------------------------
  // The Resource object
  // -----------------------------------------------------------------------

  class Resource {
    const name: string
    const manufacturer: string
    const details: Details
    var total: int
    var allocatedCount: int

    /** The current counters. */
    function Counters(): Counts
      reads this
    {
      Counts(total, allocatedCount)
    }

    predicate Valid()
      reads this
    {
      Counters().Valid() && details.Valid()
    }

    /** `available`. */
    function Available(): (n: int)
      reads this
      requires Valid()
      ensures n == total - allocatedCount && n >= 0
    {
      total - allocatedCount
    }

    constructor Init(name: string, manufacturer: string, total: int, allocatedCount: int, details: Details)
      ensures this.name == name && this.manufacturer == manufacturer && this.details == details
      ensures this.total == total && this.allocatedCount == allocatedCount
    {
      this.name := name;
      this.manufacturer := manufacturer;
      this.details := details;
      this.total := total;
      this.allocatedCount := allocatedCount;
    }

    /** `Resource(...)`, `CPU(...)`, `Storage(...)`, `HDD(...)` or `SSD(...)`, by `details`. */
    static method Create(name: string, manufacturer: string, total: int, allocatedCount: int, details: Details)
      returns (r: Result<Resource, Error>)
      ensures r.Success? <==> CheckResource(total, allocatedCount, details).Pass?
      ensures r.Failure? ==> r.error == CheckResource(total, allocatedCount, details).error
      ensures r.Success? ==>
        && fresh(r.value) && r.value.Valid()
        && r.value.name == name && r.value.manufacturer == manufacturer && r.value.details == details
        && r.value.total == total && r.value.allocatedCount == allocatedCount
    {
      var check := CheckResource(total, allocatedCount, details);
      if check.Fail? {
        return Failure(check.error);
      }
      var res := new Resource.Init(name, manufacturer, total, allocatedCount, details);
      r := Success(res);
    }

    /** `allocate(count)`; a rejected call changes nothing. */
    method Allocate(count: int) returns (r: Outcome<Error>)
      requires Valid()
      modifies this
      ensures Valid()
      ensures r.Pass? <==> AllocateCounts(old(Counters()), count).Success?
      ensures r.Pass? ==> Counters() == AllocateCounts(old(Counters()), count).value
      ensures r.Fail? ==> r.error == AllocateCounts(old(Counters()), count).error && Counters() == old(Counters())
    {
      var check := ValidateInteger("count", count, 1, Some(Available()), Some(CannotAllocate));
      if check.Fail? {
        return check;
      }
      allocatedCount := allocatedCount + count;
      r := Pass;
    }

    /** `freeup(count)`; a rejected call changes nothing. */
    method Freeup(count: int) returns (r: Outcome<Error>)
      requires Valid()
      modifies this
      ensures Valid()
      ensures r.Pass? <==> FreeupCounts(old(Counters()), count).Success?
      ensures r.Pass? ==> Counters() == FreeupCounts(old(Counters()), count).value
      ensures r.Fail? ==> r.error == FreeupCounts(old(Counters()), count).error && Counters() == old(Counters())
    {
      var check := ValidateInteger("count", count, 1, Some(allocatedCount), Some(CannotFreeup));
      if check.Fail? {
        return check;
      }
      allocatedCount := allocatedCount - count;
      r := Pass;
    }

    /** `died(count)`; a rejected call changes nothing. */
    method Died(count: int) returns (r: Outcome<Error>)
      requires Valid()
      modifies this
      ensures Valid()
      ensures r.Pass? <==> DiedCounts(old(Counters()), count).Success?
      ensures r.Pass? ==> Counters() == DiedCounts(old(Counters()), count).value
      ensures r.Fail? ==> r.error == DiedCounts(old(Counters()), count).error && Counters() == old(Counters())
    {
      var check := ValidateInteger("count", count, 1, Some(allocatedCount), Some(CannotRetire));
      if check.Fail? {
        return check;
      }
      total := total - count;
      allocatedCount := allocatedCount - count;
      r := Pass;
    }

    /** `purchased(count)`; a rejected call changes nothing. */
    method Purchased(count: int) returns (r: Outcome<Error>)
      requires Valid()
      modifies this
      ensures Valid()
      ensures r.Pass? <==> PurchasedCounts(old(Counters()), count).Success?
      ensures r.Pass? ==> Counters() == PurchasedCounts(old(Counters()), count).value
      ensures r.Fail? ==> r.error == PurchasedCounts(old(Counters()), count).error && Counters() == old(Counters())
    {
      var check := ValidateInteger("count", count, 1, None, None);
      if check.Fail? {
        return check;
      }
      total := total + count;
      r := Pass;
    }
  }

  /**
   * A resource with 10 items, 4 in use: 7 cannot be allocated, 6 can, and
   * freeing and retiring then move the counters as the operations say.
   */
  method ResourceScenario()
  {
    var created := Resource.Create("Intel Core i9-9900K", "Intel", 10, 4, Cpu(8, "LGA1151", 95));
    assert CheckResource(10, 4, Cpu(8, "LGA1151", 95)).Pass?;
    var cpu := created.value;
    assert cpu.details.Category() == "cpu";
    var tooMany := cpu.Allocate(7);
    assert tooMany == Fail(AboveMaximum("count", 6, Some(CannotAllocate)));
    assert cpu.total == 10 && cpu.allocatedCount == 4;
    var ok := cpu.Allocate(6);
    assert cpu.Available() == 0;
    ok := cpu.Freeup(3);
    assert cpu.total == 10 && cpu.allocatedCount == 7;
    ok := cpu.Died(2);
    assert cpu.total == 8 && cpu.allocatedCount == 5;
    ok := cpu.Purchased(2);
    assert cpu.total == 10 && cpu.allocatedCount == 5;
  }
}
