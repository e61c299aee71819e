/**
 * The in-memory laptop store: a table of laptop records keyed by id, with
 * unique-id insertion, lookup, and a filtered scan that checks for
 * cancellation before every entry.
 */
module Store {
  import opened Laptops

  const ALREADY_EXISTS_MESSAGE: string := "laptop ID already exists"

  /**
   * Failures of `Save`. The in-memory store only ever raises the first; the
   * second stands for any other exception a store may throw, which the
   * service reports as an internal error.
   */
  datatype StoreError = AlreadyExistsException(message: string) | OtherException(message: string)

  datatype SaveResult = Saved | Failed(error: StoreError)

  /** The table after a `Save` together with what `Save` reported. */
  datatype SaveOutcome = SaveOutcome(data: map<string, Laptop>, result: SaveResult)

  // ---------------------------------------------------------------------
  // Memory conversion and the qualification predicate
  // ---------------------------------------------------------------------

  function Pow2(k: nat): (r: nat)
    ensures r >= 1
  {
    if k == 0 then 1 else 2 * Pow2(k - 1)
  }

  /** Narrowing of an integer to a Java long: 64-bit two's-complement wrap-around. */
  function ToLong(x: int): (r: Long)
    ensures (x - r) % 0x1_0000_0000_0000_0000 == 0
    ensures -0x8000_0000_0000_0000 <= x < 0x8000_0000_0000_0000 ==> r == x
  {
    (x + 0x8000_0000_0000_0000) % 0x1_0000_0000_0000_0000 - 0x8000_0000_0000_0000
  }

  predicate InLongRange(x: int)
  {
    -0x8000_0000_0000_0000 <= x < 0x8000_0000_0000_0000
  }

  /**
   * The shift that converts one unit of `unit` to bits, if the conversion
   * knows the unit. The factor of each unit is stated through `ToBit` by
   * `SearchProperties.ToBitPerUnit`.
   */
  function BitShift(unit: MemoryUnit): (r: Option<nat>)
    ensures r.Some? ==> r.value < 64
    ensures r.None? <==> unit == Unspecified || unit == Unrecognized
  {
    match unit
    case Bit => Some(0)
    case Byte => Some(3)
    case Kilobyte => Some(13)
    case Megabyte => Some(23)
    case Gigabyte => Some(33)
    case Terabyte => Some(43)
    case _ => None
  }

  /** The factors of the known shifts. */
  lemma Pow2OfShifts()
    ensures Pow2(3) == 8 && Pow2(13) == 0x2000 && Pow2(23) == 0x80_0000
    ensures Pow2(33) == 0x2_0000_0000 && Pow2(43) == 0x800_0000_0000
  {
  }

  /** The exact number of bits of `memory`, on unbounded integers; 0 for a unit the conversion does not know. */
  function ExactBits(memory: Memory): int
  {
    match BitShift(memory.unit)
    case None => 0
    case Some(k) => memory.value * Pow2(k)
  }

  /**
   * A memory amount in bits, computed on Java longs: `value << shift`, and 0
   * for an unknown unit. The result agrees with the exact number of bits
   * modulo 2^64, and equals it whenever that fits in a long.
   */
  function ToBit(memory: Memory): (r: Long)
    ensures (ExactBits(memory) - r) % 0x1_0000_0000_0000_0000 == 0
    ensures InLongRange(ExactBits(memory)) ==> r == ExactBits(memory)
  {
    match BitShift(memory.unit)
    case None => 0
    case Some(k) => ToLong(memory.value * Pow2(k))
  }

  /**
   * Whether `laptop` passes `filter`: the four checks in the order the store
   * makes them. The CPU clause compares the laptop's minimum frequency.
   */
  predicate IsQualified(filter: Filter, laptop: Laptop): (b: bool)
    ensures b <==>
              && laptop.priceUsd <= filter.maxPriceUsd
              && laptop.cpu.numberCores >= filter.minCpuCores
              && laptop.cpu.minGhz >= filter.minCpuGhz
              && ToBit(laptop.ram) >= ToBit(filter.minRam)
  {
    if laptop.priceUsd > filter.maxPriceUsd then false
    else if laptop.cpu.numberCores < filter.minCpuCores then false
    else if laptop.cpu.minGhz < filter.minCpuGhz then false
    else if ToBit(laptop.ram) < ToBit(filter.minRam) then false
    else true
  }

  // ---------------------------------------------------------------------
  // Specification of the scan
  // ---------------------------------------------------------------------

  /** Every key of `keys` is in `data`. */
  predicate AllIn(keys: seq<string>, data: map<string, Laptop>)
  {
    forall i :: 0 <= i < |keys| ==> keys[i] in data
  }

  /**
   * `order` is one pass of the table's entry iteration: every key of `data`
   * exactly once.
   */
  ghost predicate IsEnumeration(order: seq<string>, data: map<string, Laptop>)
  {
    Distinct(order) && AllIn(order, data) && forall k :: k in data ==> k in order
  }

  /** No key occurs twice in `keys`. */
  predicate Distinct(keys: seq<string>)
  {
    forall i, j :: 0 <= i < j < |keys| ==> keys[i] != keys[j]
  }

  /** The records under `keys` that pass `filter`, in the order of `keys`. */
  function Qualifying(data: map<string, Laptop>, keys: seq<string>, filter: Filter): (r: seq<Laptop>)
    requires AllIn(keys, data)
    ensures |r| <= |keys|
  {
    if keys == [] then []
    else
      var last := data[keys[|keys| - 1]];
      Qualifying(data, keys[..|keys| - 1], filter) + (if IsQualified(filter, last) then [last] else [])
  }

  /** Everything the scan sends passes the filter and is a stored record. */
  lemma {:induction false} QualifyingSound(data: map<string, Laptop>, keys: seq<string>, filter: Filter)
    requires AllIn(keys, data)
    ensures forall l :: l in Qualifying(data, keys, filter) ==> IsQualified(filter, l) && l in data.Values
  {
    if keys != [] {
      QualifyingSound(data, keys[..|keys| - 1], filter);
    }
  }

  /**
   * A scan that stopped before entry `i`, because `cancelled[i]` is set or
   * because the entries ran out, has sent a prefix of what a full scan sends,
   * and only qualifying stored records.
   */
  lemma ScanStopped(data: map<string, Laptop>, order: seq<string>, filter: Filter, cancelled: seq<bool>, i: nat)
    requires AllIn(order, data) && |cancelled| == |order|
    requires i <= |order| && (i < |order| ==> cancelled[i])
    requires forall j :: 0 <= j < i ==> !cancelled[j]
    ensures i == FirstCancel(cancelled)
    ensures Qualifying(data, order[..i], filter) <= Qualifying(data, order, filter)
    ensures forall l :: l in Qualifying(data, order[..i], filter) ==> IsQualified(filter, l) && l in data.Values
  {
    QualifyingPrefixOfAll(data, order, filter, i);
    QualifyingSound(data, order[..i], filter);
  }

  /**
   * Scanning further only adds records at the end: the output for a prefix of
   * the keys is a prefix of the output for a longer prefix.
   */
  lemma {:induction false} QualifyingPrefix(data: map<string, Laptop>, keys: seq<string>, filter: Filter, i: nat, j: nat)
    requires AllIn(keys, data)
    requires i <= j <= |keys|
    ensures Qualifying(data, keys[..i], filter) <= Qualifying(data, keys[..j], filter)
  {
    if i < j {
      assert keys[..j][..j - 1] == keys[..j - 1];
      QualifyingPrefix(data, keys, filter, i, j - 1);
    }
  }

  lemma QualifyingPrefixOfAll(data: map<string, Laptop>, keys: seq<string>, filter: Filter, i: nat)
    requires AllIn(keys, data)
    requires i <= |keys|
    ensures Qualifying(data, keys[..i], filter) <= Qualifying(data, keys, filter)
  {
    QualifyingPrefix(data, keys, filter, i, |keys|);
    assert keys[..|keys|] == keys;
  }

  /** The position of the first cancellation signal, or `|cancelled|` if there is none. */
  function FirstCancel(cancelled: seq<bool>): (r: nat)
    ensures r <= |cancelled|
    ensures r < |cancelled| ==> cancelled[r]
    ensures forall j :: 0 <= j < r ==> !cancelled[j]
  {
    if cancelled == [] then 0
    else if cancelled[0] then 0
    else 1 + FirstCancel(cancelled[1..])
  }

  /**
   * The store's reaction to `Save(laptop)`: a present id is refused and the
   * table kept; otherwise exactly one entry is added. Either way every record
   * stays under its own id.
   */
  function SaveSpec(data: map<string, Laptop>, laptop: Laptop): (r: SaveOutcome)
    ensures laptop.id in data ==>
              r.data == data && r.result == Failed(AlreadyExistsException(ALREADY_EXISTS_MESSAGE))
    ensures laptop.id !in data ==>
              && r.result == Saved
              && r.data.Keys == data.Keys + {laptop.id}
              && r.data[laptop.id] == laptop
              && forall id :: id in data ==> r.data[id] == data[id]
    ensures (forall id :: id in data ==> data[id].id == id) ==> forall id :: id in r.data ==> r.data[id].id == id
  {
    if laptop.id in data then SaveOutcome(data, Failed(AlreadyExistsException(ALREADY_EXISTS_MESSAGE)))
    else SaveOutcome(data[laptop.id := laptop], Saved)
  }

  // ---------------------------------------------------------------------
  // The store
  // ---------------------------------------------------------------------

  class InMemoryLaptopStore {
    var data: map<string, Laptop>

    /** Every record is stored under its own id. */
    ghost predicate Valid()
      reads this
    {
      forall id :: id in data ==> data[id].id == id
    }

    constructor ()
      ensures Valid() && data == map[]
    {
      data := map[];
    }

    /** Inserts `laptop` under its id, refusing an id that is already present. */
    method Save(laptop: Laptop) returns (result: SaveResult)
      requires Valid()
      modifies this
      ensures Valid()
      ensures SaveOutcome(data, result) == SaveSpec(old(data), laptop)
      ensures laptop.id in old(data) ==>
                result == Failed(AlreadyExistsException(ALREADY_EXISTS_MESSAGE)) && data == old(data)
      ensures laptop.id !in old(data) ==>
                result == Saved && data.Keys == old(data).Keys + {laptop.id} && data[laptop.id] == laptop
                && forall id :: id in old(data) ==> data[id] == old(data)[id]
    {
      if laptop.id in data {
        return Failed(AlreadyExistsException(ALREADY_EXISTS_MESSAGE));
      }
      var other := laptop;
      data := data[other.id := other];
      result := Saved;
    }

    /** The record stored under `id`, or `None` when there is none. */
    method Find(id: string) returns (r: Option<Laptop>)
      requires Valid()
      ensures r.None? <==> id !in data
      ensures r.Some? ==> r.value == data[id] && r.value.id == id
    {
      if id !in data {
        return None;
      }
      r := Some(data[id]);
    }

    /**
     * Scans the entries in iteration order `order`. Before entry `i` it reads
     * the cancellation signal `cancelled[i]` and stops if it is set; otherwise
     * it sends the entry's record when the record passes `filter`. The result
     * is the sequence of records sent.
     */
    method Search(cancelled: seq<bool>, filter: Filter, order: seq<string>) returns (sent: seq<Laptop>)
      requires IsEnumeration(order, data)
      requires |cancelled| == |order|
      ensures sent == Qualifying(data, order[..FirstCancel(cancelled)], filter)
      ensures forall l :: l in sent ==> IsQualified(filter, l) && l in data.Values
      ensures (forall j :: 0 <= j < |cancelled| ==> !cancelled[j]) ==> sent == Qualifying(data, order, filter)
      ensures sent <= Qualifying(data, order, filter)
    {
      sent := [];
      var i := 0;
      while i < |order|
        invariant 0 <= i <= |order|
        invariant forall j :: 0 <= j < i ==> !cancelled[j]
        invariant sent == Qualifying(data, order[..i], filter)
      {
        if cancelled[i] {
          ScanStopped(data, order, filter, cancelled, i);
          return;
        }
        var laptop := data[order[i]];
        assert order[..i + 1][..i] == order[..i];
        if IsQualified(filter, laptop) {
          sent := sent + [laptop];
        }
        i := i + 1;
      }
      ScanStopped(data, order, filter, cancelled, i);
      assert order[..i] == order;
    }
  }
}
