/** Ownership of shared objects at one peer (VAST/VSOPeer.cpp).

    Everything a peer keeps about objects lives in maps keyed by the object's
    id, and every handler treats each object on its own.  A `Slice` is what one
    peer holds about one object; the functions below give the effect of each
    handler on it.  Class `VsoPeer` works on the whole maps and is proved
    against these functions. */
module Ownership {
  import opened Options

  type Id = nat    // 0 is the unassigned id
  type Time = nat

  /** A transfer order as it travels.  `sent` is the clock at the release; it is
      history, carried only so that delays can be spoken about. */
  datatype Transfer = Transfer(obj: Id, newOwner: Id, oldOwner: Id, sent: Time)

  // An acknowledgement names the object only; `sent` and `accepted` are history.
  datatype Ack = Ack(obj: Id, target: Id, sent: Time, accepted: Time)

  datatype SharedObject = SharedObject(isOwner: bool, inTransit: Time, lastUpdate: Time, closest: Id)

  datatype Slice = Slice(obj: Option<SharedObject>, transferAt: Option<Time>,
                         reclaimAt: Option<Time>, pending: Option<Transfer>)
  {
    predicate Owns() {
      obj.Some? && obj.value.isOwner
    }

    predicate InTransit() {
      obj.Some? && obj.value.inTransit != 0
    }
  }

  const NO_SLICE := Slice(None, None, None, None)

  // How this peer's Voronoi diagram places the object's centre right now.
  datatype View = View(inRegion: bool, closest: Id)

  datatype Checked = Checked(slice: Slice, sent: Option<Transfer>, claimed: bool)

  function Claim(now: Time, s: Slice): Slice
    requires s.obj.Some?
  {
    s.(obj := Some(s.obj.value.(isOwner := true, inTransit := 0, lastUpdate := now)), reclaimAt := None)
  }

  // The countdown an unowned object in the peer's own region runs under.
  function ReclaimDeadline(t: Time, now: Time, s: Slice): Time {
    if s.reclaimAt.None? then now + 5 * t else s.reclaimAt.value
  }

  // The countdown part of the check: first the region tests.
  function CheckRegion(self: Id, t: Time, now: Time, o: Id, v: View, s: Slice): (r: Checked)
    requires s.obj.Some?
    ensures r.slice.obj.Some?
    ensures r.sent.Some? ==> s.Owns() && !v.inRegion && r.sent.value == Transfer(o, v.closest, self, now)
  {
    var so := s.obj.value;
    if !v.inRegion then
      if so.isOwner then
        if s.transferAt.None? then
          Checked(s.(transferAt := Some(now + t)), None, false)
        else if now >= s.transferAt.value && v.closest != self then
          Checked(s.(obj := Some(so.(isOwner := false, inTransit := now + 3 * t)), transferAt := None),
                  Some(Transfer(o, v.closest, self, now)), false)
        else
          Checked(s, None, false)
      else
        Checked(s.(reclaimAt := None), None, false)
    else if !so.isOwner then
      var deadline := ReclaimDeadline(t, now, s);
      if now >= deadline then
        Checked(Claim(now, s), None, true)
      else
        Checked(s.(reclaimAt := Some(deadline)), None, false)
    else
      Checked(s.(transferAt := None), None, false)
  }

  // The whole check of one object: then the in-transit countdown.
  function Check(self: Id, t: Time, now: Time, o: Id, v: View, s: Slice): (r: Checked)
    requires s.obj.Some?
    ensures r.slice.obj.Some?
    ensures r.sent.Some? ==> s.Owns() && !v.inRegion && r.sent.value == Transfer(o, v.closest, self, now)
  {
    var c := CheckRegion(self, t, now, o, v, s);
    if c.slice.InTransit() && now >= c.slice.obj.value.inTransit then
      Checked(Claim(now, c.slice), c.sent, true)
    else
      c
  }

  function Accept(now: Time, s: Slice): Slice
    requires s.obj.Some?
  {
    s.(obj := Some(s.obj.value.(isOwner := true, lastUpdate := now)), reclaimAt := None)
  }

  // Acceptance is acknowledged unless the order names no previous owner.
  function AckFor(now: Time, tr: Transfer): Option<Ack> {
    if tr.oldOwner != 0 then Some(Ack(tr.obj, tr.oldOwner, tr.sent, now)) else None
  }

  datatype Handled = Handled(slice: Slice, ack: Option<Ack>)

  function Receive(self: Id, joined: bool, now: Time, tr: Transfer, s: Slice): Handled {
    if !joined || self != tr.newOwner then Handled(s, None)
    else if s.obj.None? then Handled(s.(pending := Some(tr)), None)
    else Handled(Accept(now, s), AckFor(now, tr))
  }

  function Insert(now: Time, isOwner: bool, s: Slice): Handled {
    if s.obj.Some? then Handled(s, None)
    else
      var s1 := s.(obj := Some(SharedObject(isOwner, 0, now, 0)));
      if s.pending.Some? then
        Handled(Accept(now, s1).(pending := None), AckFor(now, s.pending.value))
      else
        Handled(s1, None)
  }

  function AckArrives(s: Slice): Slice {
    if s.obj.Some? then s.(obj := Some(s.obj.value.(inTransit := 0))) else s
  }

  function Update(now: Time, owner: Option<bool>, s: Slice): Slice {
    if s.obj.None? then s
    else
      var so := s.obj.value.(lastUpdate := now);
      s.(obj := Some(if owner.Some? then so.(isOwner := owner.value) else so))
  }

  // Only the object goes: the countdowns and a pending order stay behind.
  function Delete(s: Slice): Slice {
    s.(obj := None)
  }

  function PeerLeaves(from: Id, s: Slice): Slice {
    if s.obj.Some? && s.obj.value.closest == from then s.(reclaimAt := Some(0)) else s
  }

  function NoteClosest(closest: Id, s: Slice): Slice {
    if s.obj.Some? then s.(obj := Some(s.obj.value.(closest := closest))) else s
  }
}
