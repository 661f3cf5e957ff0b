/**
 The accepted device observation and the settings that steer its processing. Database
 identifiers are opaque integers, times are integers on one clock, and the tenant half
 of every key is folded into the key.
 */
module Observations {
  import opened Basics

  type EventId = int
  type Epc = int
  type BatchId = int
  type DeviceId = int
  type StoreId = int
  type ZoneId = int
  type SkuId = int
  type Time = int

  /** A zone row references exactly one store, so a location names both. */
  datatype Location = Location(store: StoreId, zone: ZoneId)

  datatype Observation = Observation(
    eventId: EventId,
    batch: BatchId,
    device: DeviceId,
    location: Location,
    epc: Epc,
    observedAt: Time,
    receivedAt: Time,
    rssi: real,
    antenna: Option<int>,
    readerHealth: real,
    isBuffered: bool,
    backlogDrained: bool,
    readerCoverageOk: bool,
    replayedFrom: Option<EventId>)

  datatype Disposition =
    | Processed | Duplicate | Late | QuarantinedEvent | Ambiguous | RemovedItemObserved | ReplayQueued

  datatype Settings = Settings(
    confirmationReads: nat,
    confirmationWindow: nat,
    lastSeenFlush: nat,
    maxFutureSkew: nat,
    maxAttempts: nat)

  ghost predicate ValidSettings(s: Settings) {
    1 <= s.confirmationReads && 1 <= s.confirmationWindow && 1 <= s.maxAttempts
  }

  function Max(a: int, b: int): int { if a < b then b else a }

  function Min(a: int, b: int): int { if a < b then a else b }

  function MaxReal(a: real, b: real): real { if a < b then b else a }

  function MinReal(a: real, b: real): real { if a < b then a else b }
}
