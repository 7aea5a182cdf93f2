/** `MiningController` of src/mining.rs as an object, and `anvil_set_automine` when nothing interrupts it. */
module MiningController {
  import opened Words
  import opened MiningSystem

  /** Turning automine on always ends in Automine; turning it off leaves an interval running. */
  function AfterSetAutomine(mode: Mode, enabled: bool): Mode {
    if enabled then Automine else if mode.Automine? then Manual else mode
  }

  class Controller {
    var mode: Mode
    var version: nat

    constructor ()
      ensures mode == Automine && version == 0
    {
      mode, version := Automine, 0;
    }

    method IsAutomine() returns (automine: bool)
      ensures automine <==> mode == Automine
    {
      automine := mode.Automine?;
    }

    method IntervalMining() returns (secs: Option<nat>)
      ensures secs.Some? <==> mode.Interval?
      ensures secs.Some? ==> mode == Interval(secs.value)
    {
      match mode
      case Interval(s) => secs := Some(s);
      case Automine => secs := None;
      case Manual => secs := None;
    }

    method SetAutomine(enabled: bool)
      modifies this
      ensures mode == AfterSetAutomine(old(mode), enabled)
      ensures enabled ==> mode == Automine
      ensures !enabled ==> mode == if old(mode) == Automine then Manual else old(mode)
      ensures version == old(version) + (if mode == old(mode) then 0 else 1)
    {
      if mode.Automine? {
        if !enabled { SendReplace(Manual); }
      } else {
        if enabled { SendReplace(Automine); }
      }
    }

    method SetIntervalMining(secs: nat)
      modifies this
      ensures mode == (if secs == 0 then Manual else Interval(secs)) && version == old(version) + 1
    {
      SendReplace(if secs == 0 then Manual else Interval(secs));
    }

    method SendReplace(next: Mode)
      modifies this
      ensures mode == next && version == old(version) + 1
    {
      mode, version := next, version + 1;
    }
  }

  /** The steps of `anvil_set_automine`, run back to back, set the mode as the object does: after its read
      the call either has a replacement to make, with that outcome, or needs none. */
  lemma SetAutomineAlone(s: Sys, id: nat, enabled: bool)
    requires Linked(s) && id in s.rpcs && s.rpcs[id] == Reading(enabled)
    ensures var r := ApplyRpc(s, id);
            if enabled == s.mode.Automine?
            then r.mode == s.mode == AfterSetAutomine(s.mode, enabled)
            else if enabled || s.mode.Automine?
            then Linked(r) && id in r.rpcs && ApplyRpc(r, id).mode == AfterSetAutomine(s.mode, enabled)
                 && ApplyRpc(r, id).version == s.version + 1
            else r.mode == s.mode == AfterSetAutomine(s.mode, enabled)
    ensures enabled && s.mode.Automine? ==> ApplyRpc(s, id).rpcs == s.rpcs[id := Counting]
    ensures !enabled && !s.mode.Automine? ==> ApplyRpc(s, id).rpcs == s.rpcs - {id}
  {
    RpcKeepsLinked(s, id);
  }

  /** Spelled out, with the replacement made if one was needed: enabling ends in Automine about to count the
      pool. */
  lemma EnableEnds(s: Sys, id: nat)
    requires Linked(s) && id in s.rpcs && s.rpcs[id] == Reading(true)
    ensures var r := ApplyRpc(s, id);
            && Linked(r) && id in r.rpcs && r.mem == s.mem
            && var e := if r.rpcs[id].Replacing? then ApplyRpc(r, id) else r;
               e.mode == Automine && e.mem == s.mem && e.rpcs == s.rpcs[id := Counting]
  {
    RpcKeepsLinked(s, id);
  }

  /** Disabling turns Automine into Manual, leaves any other mode, and ends the call without counting. */
  lemma DisableEnds(s: Sys, id: nat)
    requires Linked(s) && id in s.rpcs && s.rpcs[id] == Reading(false)
    ensures var r := ApplyRpc(s, id);
            && Linked(r) && r.mem == s.mem
            && var e := if id in r.rpcs then ApplyRpc(r, id) else r;
               && e.mode == (if s.mode == Automine then Manual else s.mode)
               && e.mem == s.mem && e.rpcs == s.rpcs - {id}
  {
    RpcKeepsLinked(s, id);
  }

  /** Having set the mode, the call triggers once exactly when the pool holds a pending transaction. */
  lemma CountAlone(s: Sys, id: nat)
    requires Linked(s) && id in s.rpcs && s.rpcs[id] == Counting
    ensures var r := ApplyRpc(s, id);
            if s.pool == map[] then r == s.(rpcs := s.rpcs - {id})
            else Linked(r) && id in r.rpcs && r.rpcs[id] == RpcAdd(1, None)
                 && ApplyRpc(r, id).mem.adds == s.mem.adds + 1
  {
    RpcKeepsLinked(s, id);
  }
}
