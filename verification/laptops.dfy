/**
 * The catalog's record types, as the generated message classes expose them
 * to the store and the service: a laptop, its CPU and memory, and the
 * search filter. Builder copies (`toBuilder().build()`) are plain value
 * semantics here.
 */
module Laptops {

  /** A Java `long`: a 64-bit two's-complement integer. */
  type Long = x: int | -0x8000_0000_0000_0000 <= x < 0x8000_0000_0000_0000

  datatype Option<+T> = None | Some(value: T)

  /**
   * Units of a `Memory` value. `Unspecified` is the schema's zero value and
   * `Unrecognized` stands for any enum number the generated code does not know.
   */
  datatype MemoryUnit =
    | Unspecified
    | Bit
    | Byte
    | Kilobyte
    | Megabyte
    | Gigabyte
    | Terabyte
    | Unrecognized

  /** An amount of memory; `value` is what `getValue()` returns, a Java long. */
  datatype Memory = Memory(value: Long, unit: MemoryUnit)

  /** CPU description; the GHz figures are only ever compared. */
  datatype Cpu = Cpu(brand: string, name: string, numberCores: int, numberThreads: int, minGhz: real, maxGhz: real)

  /**
   * A laptop record. `otherFields` stands for the fields the core only copies
   * (storages, GPUs, screen, keyboard, weight, update time).
   */
  datatype Laptop = Laptop(
    id: string,
    brand: string,
    name: string,
    cpu: Cpu,
    ram: Memory,
    priceUsd: real,
    releaseYear: int,
    otherFields: seq<int>)

  /** The search filter; an unset field reads as the schema's zero value. */
  datatype Filter = Filter(maxPriceUsd: real, minCpuCores: int, minCpuGhz: real, minRam: Memory)
}
