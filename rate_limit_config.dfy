/** Rate limit configuration per event type
    (io/github/andresviedma/poket/utils/ratelimit/RateLimitConfig.kt). */
module RateLimitConfiguration {

  /** Kotlin's `Int.MAX_VALUE`, the "no limit" value of `maxEvents`. */
  const IntMaxValue := 0x7FFF_FFFF

  /** At most `maxEvents` events per slot of `slotTimeMillis` milliseconds. */
  datatype RateLimitTypeConfig = RateLimitTypeConfig(maxEvents: int, slotTimeMillis: int, disabled: bool) {
    /** `active`: a limit is defined and the type is not disabled. */
    predicate Active(): (r: bool)
      ensures disabled ==> !r
      ensures maxEvents == IntMaxValue ==> !r
      ensures !disabled && maxEvents != IntMaxValue && maxEvents <= IntMaxValue ==> r
    {
      maxEvents < IntMaxValue && !disabled
    }
  }

  /** The default for a type: no limit, slots of one millisecond, enabled. */
  const DefaultTypeConfig := RateLimitTypeConfig(IntMaxValue, 1, false)

  datatype RateLimitConfig = RateLimitConfig(types: map<string, RateLimitTypeConfig>, default: RateLimitTypeConfig) {
    /** `getTypeConfig(typeId)`: the type's own entry, else the default. */
    function GetTypeConfig(typeId: string): (r: RateLimitTypeConfig)
      ensures typeId in types ==> r == types[typeId]
      ensures typeId !in types ==> r == default
    {
      if typeId in types then types[typeId] else default
    }
  }

  /** A type that is not configured and has the stock default is never limited. */
  lemma UnconfiguredIsInactive(typeId: string)
    ensures !RateLimitConfig(map[], DefaultTypeConfig).GetTypeConfig(typeId).Active()
  {
  }
}
