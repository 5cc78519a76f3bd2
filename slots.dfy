/**
 * The blue-green slot state: the module-level `running` record of
 * src/index.ts, whose one boolean decides which compose service is the
 * current deployment target.
 */
module Slots {

  /** The two compose services the switcher alternates between. */
  datatype Slot = Server1 | Server2 {

    /** The service name: "server" followed by the slot's digit. */
    function Label(): (s: string)
      ensures |s| == 7 && s[..6] == "server"
      ensures s[6] == (if this == Server1 then '1' else '2')
    {
      "server" + (if this == Server1 then "1" else "2")
    }

    /** The complementary slot. */
    function Other(): (o: Slot)
      ensures o != this
    {
      if this == Server1 then Server2 else Server1
    }
  }

  /** The slot `serverName()` names while the flag `server1` has this value. */
  function Active(server1: bool): (s: Slot)
    ensures s == Server1 <==> server1
  {
    if server1 then Server1 else Server2
  }

  /** The two flag values designate complementary slots, and flipping the complement twice is the identity. */
  lemma ActiveComplement(server1: bool)
    ensures Active(!server1) == Active(server1).Other()
    ensures Active(server1).Other().Other() == Active(server1)
  {
  }

  /** Distinct slots have distinct service names, and every name is "server1" or "server2". */
  lemma LabelsDistinct(a: Slot, b: Slot)
    ensures a.Label() == "server1" || a.Label() == "server2"
    ensures a.Label() == b.Label() <==> a == b
  {
  }

  /** The `running` record: only `server1` is modelled (the `process` field is never assigned). */
  class Running {
    var server1: bool

    /** The record starts with `server1 = false`, so that the first flip targets server1. */
    constructor ()
      ensures !server1
      ensures ServerName() == Server2 && PrevServerName() == Server1
    {
      server1 := false;
    }

    /** `serverName()`: the slot the flag designates as current. */
    function ServerName(): (s: Slot)
      reads this
      ensures s.Label() == (if server1 then "server1" else "server2")
    {
      Active(server1)
    }

    /** `prevServerName()`: always the complement of `serverName()`. */
    function PrevServerName(): (s: Slot)
      reads this
      ensures s != ServerName() && s == ServerName().Other()
      ensures s.Label() == (if server1 then "server2" else "server1")
    {
      Active(!server1)
    }
  }
}
