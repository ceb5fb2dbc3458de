/**
 * The "sys.schedule" capability (calvinsys/common/cc_calvinsys_schedule.c):
 * a flag that is readable while triggered and writable while not. Reading
 * clears it and writing sets it, so reads and writes alternate.
 */
module CcCalvinsysSchedule {
  import opened CcCommon
  import opened CcCalvinsys

  const ScheduleCapability := "sys.schedule"

  /** A schedule object's one field. */
  class Schedule {
    var triggered: bool

    /** `cc_calvinsys_schedule_open`: a new schedule starts triggered. */
    constructor Open()
      ensures triggered
    {
      triggered := true;
    }

    /** `cc_calvinsys_schedule_can_read`. */
    method CanRead() returns (r: bool)
      ensures r <==> triggered
    {
      r := triggered;
    }

    /** `cc_calvinsys_schedule_can_write`. */
    method CanWrite() returns (r: bool)
      ensures r <==> !triggered
    {
      r := !triggered;
    }

    /** `cc_calvinsys_schedule_read`: clears the flag. */
    method Read() returns (r: CcResult)
      modifies this
      ensures r == Success && !triggered
    {
      triggered := false;
      r := Success;
    }

    /** `cc_calvinsys_schedule_write`: sets the flag. */
    method Write() returns (r: CcResult)
      modifies this
      ensures r == Success && triggered
    {
      triggered := true;
      r := Success;
    }
  }

  /**
   * A client that asks `can_read` and `can_write` and then makes the call
   * allowed: exactly one of the two is allowed, the call hands the turn to
   * the other, and the flag flips.
   */
  method Alternates(s: Schedule) returns (canRead: bool, canWrite: bool, canReadAfter: bool, canWriteAfter: bool)
    modifies s
    ensures canRead != canWrite
    ensures canRead <==> old(s.triggered)
    ensures canReadAfter == canWrite && canWriteAfter == canRead
    ensures s.triggered == !old(s.triggered)
  {
    canRead := s.CanRead();
    canWrite := s.CanWrite();
    if canRead {
      var _ := s.Read();
    } else {
      var _ := s.Write();
    }
    canReadAfter := s.CanRead();
    canWriteAfter := s.CanWrite();
  }

  /** `cc_calvinsys_schedule_create`: registers "sys.schedule" with an `open`. */
  method Create(sys: Calvinsys) returns (r: CcResult)
    modifies sys`capabilities
    ensures Lookup(old(sys.capabilities), ScheduleCapability).Some? ==> r == Fail && sys.capabilities == old(sys.capabilities)
    ensures Lookup(old(sys.capabilities), ScheduleCapability).None? ==>
      r == Success && sys.capabilities == old(sys.capabilities) + [Item(ScheduleCapability, Capability(true), 0, true)]
  {
    r := sys.CreateCapability(ScheduleCapability, true);
  }
}
