/**
 * The remote document `settings/security` that both detectors read. A
 * field the document does not hold is `None`; every field is read on its
 * own, so a missing field never spoils the others.
 */
module SecurityConfig {
  import opened Wrappers

  datatype SecurityDoc = SecurityDoc(
    enabled: Option<bool>,
    maxReloads: Option<int>,
    timeWindow: Option<int>,
    blockDuration: Option<int>,
    botProtection: Option<bool>,
    maxPageViewsPerMinute: Option<int>)

  /** JavaScript's `value || fallback` on a numeric field: a missing field and 0 are both falsy. */
  function OrDefault(v: Option<int>, fallback: int): int {
    if v.Some? && v.value != 0 then v.value else fallback
  }
}
