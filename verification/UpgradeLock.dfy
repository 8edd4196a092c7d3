/** The lock that keeps firmware upgrades over UDP, WebSocket and CANopen SDO apart. */
module UpgradeLock {
  datatype Channel = UDP | WS | SDO

  datatype Lock = Lock(channel: Channel, active: bool) {
    predicate HeldBy(c: Channel) {
      active && channel == c
    }

    /** fw_upgrade_try_lock succeeds exactly when nobody is active. */
    function Locked(c: Channel): Lock {
      if active then this else Lock(c, true)
    }

    /** fw_upgrade_unlock does nothing unless the named channel was the last to lock. */
    function Unlocked(c: Channel): Lock {
      if channel == c then Lock(channel, false) else this
    }
  }

  class UpgradeState {
    var currentChannel: Channel
    var upgradeActive: bool

    function State(): Lock
      reads this
    {
      Lock(currentChannel, upgradeActive)
    }

    constructor ()
      ensures State() == Lock(UDP, false)
    {
      currentChannel := UDP;
      upgradeActive := false;
    }

    method TryLock(channel: Channel) returns (ok: bool)
      modifies this
      ensures ok == !old(upgradeActive)
      ensures State() == old(State()).Locked(channel)
      ensures ok ==> State().HeldBy(channel)
    {
      if upgradeActive {
        return false;
      }
      upgradeActive := true;
      currentChannel := channel;
      return true;
    }

    method Unlock(channel: Channel)
      modifies this
      ensures State() == old(State()).Unlocked(channel)
      ensures !State().HeldBy(channel)
      ensures forall c | c != channel :: State().HeldBy(c) == old(State().HeldBy(c))
    {
      if currentChannel == channel {
        upgradeActive := false;
      }
    }
  }
}
