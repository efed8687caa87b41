/**
 * The presence rule shared by the device list and the tracking list
 * (backend/src/routes/devices.js and backend/src/routes/tracking.js): a
 * device is offline when `last_seen` is falsy (0) or more than the offline
 * threshold lies between it and now; otherwise it is online.
 */
module Presence {

  /** `!last_seen || (now - last_seen) > offlineAfter` is the offline test. */
  function IsOnline(lastSeen: int, now: int, offlineAfter: int): (online: bool)
    // online exactly when seen at all and no more than the threshold ago
    ensures online <==> lastSeen != 0 && now - offlineAfter <= lastSeen
  {
    !(lastSeen == 0 || now - lastSeen > offlineAfter)
  }

  /** Seen exactly `offlineAfter` seconds ago is still online, one second
      more is offline, and a device never seen is offline at any time. */
  lemma ThresholdBoundary(lastSeen: int, offlineAfter: int)
    requires lastSeen != 0
    ensures IsOnline(lastSeen, lastSeen + offlineAfter, offlineAfter)
    ensures !IsOnline(lastSeen, lastSeen + offlineAfter + 1, offlineAfter)
    ensures forall now :: !IsOnline(0, now, offlineAfter)
  {
  }
}
