/** The driver table of kernel/src/gdf.rs as the array of sixteen slots and the counter that its
    operations update under the table's lock. Each operation performs one step of Mailboxes. */
module DriverTables {
  import opened Basics
  import opened Mailboxes

  lemma {:induction false} FilledSet(t: Table, k: nat, x: Option<Entry>)
    requires k < |t|
    ensures Filled(t[k := x]) == Filled(t) - (if t[k].Some? then 1 else 0) + (if x.Some? then 1 else 0)
  {
    if k == 0 {
      assert t[k := x][1..] == t[1..];
    } else {
      FilledSet(t[1..], k - 1, x);
      assert t[k := x][1..] == t[1..][k - 1 := x];
    }
  }

  lemma {:induction false} VacantWhenNotFull(t: Table)
    requires Filled(t) < |t|
    ensures exists i :: 0 <= i < |t| && t[i] == None
  {
    if t[0].Some? {
      VacantWhenNotFull(t[1..]);
      var i :| 0 <= i < |t| - 1 && t[1..][i] == None;
      assert t[i + 1] == None;
    }
  }

  // saturating_sub(1)
  function Decremented(n: nat): nat {
    if n == 0 then 0 else n - 1
  }

  class DriverTable {
    var entries: array<Option<Entry>>
    var count: nat

    ghost predicate Valid()
      reads this, entries
    {
      entries.Length == MAX_DRIVERS && count == Filled(entries[..])
    }

    method FindFirst(p: Entry -> bool) returns (k: nat)
      ensures k == First(entries[..], p, 0)
    {
      k := 0;
      while k < entries.Length
        invariant k <= entries.Length && First(entries[..], p, 0) == First(entries[..], p, k)
      {
        match entries[k] {
          case Some(e) => if p(e) { return; }
          case None =>
        }
        k := k + 1;
      }
    }

    method FindVacant() returns (k: nat)
      ensures k == Vacant(entries[..], 0)
    {
      k := 0;
      while k < entries.Length
        invariant k <= entries.Length && Vacant(entries[..], 0) == Vacant(entries[..], k)
      {
        if entries[k] == None {
          return;
        }
        k := k + 1;
      }
    }

    method RegisterDriver(name: seq<Byte>, vcpu: nat, present: bool) returns (ok: bool)
      requires Valid()
      modifies this, entries
      ensures Valid() && entries == old(entries)
      ensures (entries[..], Out(ok, None, None)) == Next(old(entries[..]), Register(name, vcpu, present))
    {
      if count >= MAX_DRIVERS {
        return false;
      }
      var padded := Padded(name);
      var same := FindFirst((e: Entry) => e.name == Padded(name));
      if same < entries.Length || !present {
        return false;
      }
      var free := FindVacant();
      VacantWhenNotFull(entries[..]);
      FilledSet(entries[..], free, Some(Entry(padded, vcpu, Idle, Command(0, 0, 0, 0), 0, 0)));
      entries[free] := Some(Entry(padded, vcpu, Idle, Command(0, 0, 0, 0), 0, 0));
      count := count + 1;
      return true;
    }

    // The result is the vCPU to wake once the lock is dropped.
    method SendCmd(to: seq<Byte>, cmd: Command) returns (wake: Option<nat>)
      requires Valid()
      modifies entries
      ensures Valid()
      ensures (entries[..], Out(wake.Some?, None, wake)) == Next(old(entries[..]), Send(to, cmd))
    {
      var k := FindFirst((e: Entry) => StartsAs(e.name, to));
      if k == entries.Length {
        return None;
      }
      var d := entries[k].value;
      if d.flags != Idle {
        return None;
      }
      Write(k, d.(cmd := cmd, result := NO_RESULT, flags := Pending));
      return Some(d.vcpu);
    }

    method Write(k: nat, e: Entry)
      requires Valid() && k < entries.Length && entries[k].Some?
      modifies entries
      ensures Valid() && entries[..] == old(entries[..])[k := Some(e)]
    {
      FilledSet(entries[..], k, Some(e));
      entries[k] := Some(e);
    }

    // The first half of driver_call, before the caller blocks.
    method DriverCall(caller: nat, to: seq<Byte>, cmd: Command) returns (wake: Option<nat>)
      requires Valid()
      modifies entries
      ensures Valid()
      ensures (entries[..], Out(wake.Some?, None, wake)) == Next(old(entries[..]), Call(caller, to, cmd))
    {
      if to == [] {
        return None;
      }
      var k := FindFirst((e: Entry) => e.name == Padded(to) && e.vcpu != caller);
      if k == entries.Length {
        return None;
      }
      var d := entries[k].value;
      if d.flags != Idle {
        return None;
      }
      Write(k, d.(cmd := cmd, flags := Pending, caller := caller));
      return Some(d.vcpu);
    }

    method Recv(vcpu: nat) returns (r: Option<Command>)
      requires Valid()
      modifies entries
      ensures Valid()
      ensures (entries[..], Out(r.Some?, r, None)) == Next(old(entries[..]), Receive(vcpu))
    {
      var k := FindFirst((e: Entry) => e.vcpu == vcpu && e.flags == Pending);
      if k == entries.Length {
        return None;
      }
      var d := entries[k].value;
      Write(k, d.(flags := Response));
      return Some(d.cmd);
    }

    // The second result is the caller to wake, 0 for none.
    method SendResponse(vcpu: nat, result: nat) returns (found: bool, caller: nat)
      requires Valid()
      modifies entries
      ensures Valid()
      ensures Next(old(entries[..]), Respond(vcpu, result))
           == (entries[..], Out(found, None, if caller == 0 then None else Some(caller)))
    {
      var k := FindFirst((e: Entry) => e.vcpu == vcpu);
      if k == entries.Length {
        return false, 0;
      }
      var d := entries[k].value;
      Write(k, d.(result := result, flags := Idle, caller := 0));
      return true, d.caller;
    }

    // The part of handle_crash that drops the table entry.
    method Drop(vcpu: nat) returns (found: bool)
      requires Valid()
      modifies this, entries
      ensures Valid() && entries == old(entries)
      ensures (entries[..], Out(found, None, None)) == Next(old(entries[..]), Crash(vcpu))
    {
      var k := FindFirst((e: Entry) => e.vcpu == vcpu);
      if k == entries.Length {
        return false;
      }
      FilledSet(entries[..], k, None);
      entries[k] := None;
      count := Decremented(count);
      return true;
    }
  }
}
