// The records and base types shared by every part of the model.

module Types {

  datatype Option<+T> = None | Some(value: T) {
    function GetOr(default: T): T {
      if Some? then value else default
    }
  }

  datatype Result<+T, +E> = Ok(value: T) | Err(error: E)

  // Machine integers of the source.
  type byte = x: int | 0 <= x < 0x100

  type u64 = x: int | 0 <= x < 0x1_0000_0000_0000_0000

  // A NonZeroU16.
  type Port = x: int | 0 < x < 0x1_0000 witness 1

  // Clock readings and durations, in nanoseconds.
  type Instant = nat

  type Duration = nat

  // A URL is an opaque value; nothing here looks inside it.
  type Url = string

  // The discovery socket is bound to an IPv4 address, so every peer is one.
  datatype Ip = V4(address: nat)

  datatype ErrorStrategy = RemoveCache | TimeoutFor(timeout: Duration)

  // What is stored about one cache.
  datatype Meta = Meta(priority: byte, strategy: ErrorStrategy, timedOutUntil: Option<Instant>)

  // One entry of the configured list of caches.
  datatype BinaryCache = BinaryCache(url: Url, priority: byte, strategy: ErrorStrategy)
}
