/**
 * Properties of the store's memory conversion, qualification predicate and
 * scan, stated over the specification functions of `Store`.
 */
module SearchProperties {
  import opened Laptops
  import opened Store

  // ---------------------------------------------------------------------
  // Memory conversion
  // ---------------------------------------------------------------------

  /**
   * Each known unit multiplies the value by its factor (1, 8, 2^13, 2^23,
   * 2^33 and 2^43 bits) as long as the product fits in a long; the schema's
   * zero unit and unknown units convert to 0 whatever the value.
   */
  lemma ToBitPerUnit(v: Long)
    ensures ToBit(Memory(v, Bit)) == v
    ensures InLongRange(8 * v) ==> ToBit(Memory(v, Byte)) == 8 * v
    ensures InLongRange(0x2000 * v) ==> ToBit(Memory(v, Kilobyte)) == 0x2000 * v
    ensures InLongRange(0x80_0000 * v) ==> ToBit(Memory(v, Megabyte)) == 0x80_0000 * v
    ensures InLongRange(0x2_0000_0000 * v) ==> ToBit(Memory(v, Gigabyte)) == 0x2_0000_0000 * v
    ensures InLongRange(0x800_0000_0000 * v) ==> ToBit(Memory(v, Terabyte)) == 0x800_0000_0000 * v
    ensures ToBit(Memory(v, Unspecified)) == 0 && ToBit(Memory(v, Unrecognized)) == 0
  {
    Pow2OfShifts();
    assert ExactBits(Memory(v, Byte)) == 8 * v;
    assert ExactBits(Memory(v, Kilobyte)) == 0x2000 * v;
    assert ExactBits(Memory(v, Megabyte)) == 0x80_0000 * v;
    assert ExactBits(Memory(v, Gigabyte)) == 0x2_0000_0000 * v;
    assert ExactBits(Memory(v, Terabyte)) == 0x800_0000_0000 * v;
  }

  /**
   * Past the range of a long the conversion wraps around: from 2^20
   * terabytes (2^63 bits) up to 2^21 terabytes the result is the exact size
   * minus 2^64, a negative number that compares below a single bit.
   */
  lemma ToBitWrapsAround(v: Long)
    requires 0x10_0000 <= v < 0x20_0000
    ensures ToBit(Memory(v, Terabyte)) == v * 0x800_0000_0000 - 0x1_0000_0000_0000_0000
    ensures ToBit(Memory(v, Terabyte)) < 0 < ToBit(Memory(1, Bit))
  {
    Pow2OfShifts();
    var x := v * 0x800_0000_0000;
    assert 0x8000_0000_0000_0000 <= x < 0x1_0000_0000_0000_0000;
    assert (x + 0x8000_0000_0000_0000) % 0x1_0000_0000_0000_0000 == x + 0x8000_0000_0000_0000 - 0x1_0000_0000_0000_0000;
  }

  // ---------------------------------------------------------------------
  // Qualification
  // ---------------------------------------------------------------------

  /**
   * While neither memory amount overflows a long, the qualification
   * predicate's memory check compares the exact sizes in bits; a unit the
   * conversion does not know, such as that of an unset minimum, counts as
   * 0 bits.
   */
  lemma {:induction false} QualifiedIff(filter: Filter, laptop: Laptop)
    requires InLongRange(ExactBits(laptop.ram)) && InLongRange(ExactBits(filter.minRam))
    ensures IsQualified(filter, laptop) <==>
              && laptop.priceUsd <= filter.maxPriceUsd
              && laptop.cpu.numberCores >= filter.minCpuCores
              && laptop.cpu.minGhz >= filter.minCpuGhz
              && ExactBits(laptop.ram) >= ExactBits(filter.minRam)
  {
  }

  /**
   * Only the price, the core count, the minimum frequency and the memory of a
   * laptop matter; in particular its maximum frequency does not.
   */
  lemma QualifiedReadsFourFields(filter: Filter, a: Laptop, b: Laptop)
    requires a.priceUsd == b.priceUsd && a.cpu.numberCores == b.cpu.numberCores
    requires a.cpu.minGhz == b.cpu.minGhz && a.ram == b.ram
    ensures IsQualified(filter, a) == IsQualified(filter, b)
  {
  }

  /** A filter no stricter than another lets through everything the other does. */
  lemma QualifiedWeakerFilter(strict: Filter, loose: Filter, laptop: Laptop)
    requires loose.maxPriceUsd >= strict.maxPriceUsd && loose.minCpuCores <= strict.minCpuCores
    requires loose.minCpuGhz <= strict.minCpuGhz && ToBit(loose.minRam) <= ToBit(strict.minRam)
    ensures IsQualified(strict, laptop) ==> IsQualified(loose, laptop)
  {
  }

  /**
   * A filter with every field unset reads as zeros, so its price bound is 0:
   * it rejects every laptop with a positive price.
   */
  lemma UnsetFilterRejectsPricedLaptops(laptop: Laptop)
    requires laptop.priceUsd > 0.0
    ensures !IsQualified(Filter(0.0, 0, 0.0, Memory(0, Unspecified)), laptop)
  {
  }

  // ---------------------------------------------------------------------
  // The scan
  // ---------------------------------------------------------------------

  /** The keys among `keys` whose records pass `filter`. */
  ghost function QualifiedKeys(data: map<string, Laptop>, keys: seq<string>, filter: Filter): set<string>
  {
    set k | k in keys && k in data && IsQualified(filter, data[k])
  }

  /**
   * A record is in the scan output exactly when it passes the filter and is
   * stored under one of the scanned keys.
   */
  lemma {:induction false} QualifyingMembership(data: map<string, Laptop>, keys: seq<string>, filter: Filter, l: Laptop)
    requires AllIn(keys, data)
    ensures l in Qualifying(data, keys, filter) <==>
              IsQualified(filter, l) && exists i :: 0 <= i < |keys| && data[keys[i]] == l
  {
    if keys != [] {
      var n := |keys| - 1;
      var init, last := keys[..n], data[keys[n]];
      QualifyingMembership(data, init, filter, l);
      assert Qualifying(data, keys, filter) ==
             Qualifying(data, init, filter) + (if IsQualified(filter, last) then [last] else []);
      if exists i :: 0 <= i < |keys| && data[keys[i]] == l {
        var i :| 0 <= i < |keys| && data[keys[i]] == l;
        if i < n {
          assert data[init[i]] == l;
        }
      }
      if exists i :: 0 <= i < |init| && data[init[i]] == l {
        var i :| 0 <= i < |init| && data[init[i]] == l;
        assert data[keys[i]] == l;
      }
    }
  }

  /**
   * Soundness and completeness of a full scan: with no cancellation the
   * output holds exactly the stored records that pass the filter.
   */
  lemma SearchComplete(data: map<string, Laptop>, order: seq<string>, filter: Filter, l: Laptop)
    requires IsEnumeration(order, data)
    ensures AllIn(order, data)
    ensures l in Qualifying(data, order, filter) <==> IsQualified(filter, l) && l in data.Values
  {
    QualifyingMembership(data, order, filter, l);
    if l in data.Values {
      var k :| k in data && data[k] == l;
      assert k in order;
      var i :| 0 <= i < |order| && order[i] == k;
    }
  }

  /** Each qualifying key contributes exactly one record: no record is sent twice. */
  lemma {:induction false} QualifyingCount(data: map<string, Laptop>, keys: seq<string>, filter: Filter)
    requires AllIn(keys, data) && Distinct(keys)
    ensures |Qualifying(data, keys, filter)| == |QualifiedKeys(data, keys, filter)|
  {
    if keys == [] {
      assert QualifiedKeys(data, keys, filter) == {};
    } else {
      var n := |keys| - 1;
      var init, last := keys[..n], keys[n];
      assert keys == init + [last];
      QualifyingCount(data, init, filter);
      assert last !in init;
      var before := QualifiedKeys(data, init, filter);
      if IsQualified(filter, data[last]) {
        assert QualifiedKeys(data, keys, filter) == before + {last};
      } else {
        assert QualifiedKeys(data, keys, filter) == before;
      }
    }
  }

  /** A full uncancelled scan sends one record per qualifying entry of the table. */
  lemma SearchSendsEachEntryOnce(data: map<string, Laptop>, order: seq<string>, filter: Filter)
    requires IsEnumeration(order, data)
    ensures AllIn(order, data)
    ensures |Qualifying(data, order, filter)| == |set k | k in data && IsQualified(filter, data[k])|
  {
    QualifyingCount(data, order, filter);
    assert QualifiedKeys(data, order, filter) == set k | k in data && IsQualified(filter, data[k]);
  }

  /**
   * A scan cancelled before entry `i` has sent only qualifying records of
   * entries before `i`, and what it sent is the beginning of what a full scan
   * sends.
   */
  lemma CancelledSearchEmitsOnlyEarlierEntries(
    data: map<string, Laptop>, order: seq<string>, filter: Filter, cancelled: seq<bool>, l: Laptop)
    requires IsEnumeration(order, data) && |cancelled| == |order|
    ensures AllIn(order, data)
    ensures var i := FirstCancel(cancelled);
            && Qualifying(data, order[..i], filter) <= Qualifying(data, order, filter)
            && (l in Qualifying(data, order[..i], filter) ==>
                  IsQualified(filter, l) && exists j :: 0 <= j < i && data[order[j]] == l)
  {
    var i := FirstCancel(cancelled);
    QualifyingPrefixOfAll(data, order, filter, i);
    QualifyingMembership(data, order[..i], filter, l);
    if l in Qualifying(data, order[..i], filter) {
      var j :| 0 <= j < i && data[order[..i][j]] == l;
      assert order[..i][j] == order[j];
    }
  }
}
