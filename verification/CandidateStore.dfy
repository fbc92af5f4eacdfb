/** The candidate tables with the triggers that maintain and guard the frontier row. */
module CandidateStore {
  import opened Prelude
  import F = CandidateFrontier

  class Store {
    var submissions: set<nat>
    var dispositions: set<nat>
    var lastAccepted: nat
    var reconciledThrough: nat

    ghost function Rows(): F.Frontier
      reads this
    {
      F.Frontier(submissions, dispositions, lastAccepted, reconciledThrough)
    }

    constructor ()
      ensures Rows() == F.INITIAL && F.Inv(Rows())
    {
      submissions, dispositions, lastAccepted, reconciledThrough := {}, {}, 0, 0;
    }

    /** The trigger before every update of the frontier row; a row it lets through is stored. */
    method UpdateFrontier(accepted: nat, reconciled: nat)
      requires lastAccepted <= accepted && reconciledThrough <= reconciled && F.Guard(Rows(), accepted, reconciled) == None
      modifies `lastAccepted, `reconciledThrough
      ensures lastAccepted == accepted && reconciledThrough == reconciled
    {
      if accepted < lastAccepted || reconciled < reconciledThrough { assert false; }
      if accepted > lastAccepted {
        var acceptedCount := |F.Between(submissions, lastAccepted, accepted)|;
        if acceptedCount != accepted - lastAccepted { assert false; }
      }
      if reconciled > reconciledThrough {
        var stableCount := |F.Between(dispositions, reconciledThrough, reconciled)|;
        if stableCount != reconciled - reconciledThrough { assert false; }
      }
      lastAccepted, reconciledThrough := accepted, reconciled;
    }

    method Accept(sequence: nat) returns (r: Result<(), F.Error>)
      requires F.Inv(Rows())
      modifies this
      ensures F.Inv(Rows())
      ensures match F.Accept(old(Rows()), sequence)
              case Ok(f) => r == Ok(()) && Rows() == f
              case Err(e) => r == Err(e) && Rows() == old(Rows())
    {
      F.AcceptMeans(Rows(), sequence);
      if sequence == 0 { return Err(F.SequenceNotPositive); }
      if sequence in submissions { return Err(F.DuplicateSubmission); }
      if sequence != lastAccepted + 1 { return Err(F.NotNextSequence); }
      submissions := submissions + {sequence};
      UpdateFrontier(sequence, reconciledThrough);
      r := Ok(());
    }

    /** The query for the first accepted submission above the frontier that has no disposition. */
    method QueryFirstUnstable() returns (first: Option<nat>)
      ensures first == F.FirstUnstable(Rows(), reconciledThrough)
    {
      var k := reconciledThrough;
      while k < lastAccepted
        invariant reconciledThrough <= k
        invariant F.FirstUnstable(Rows(), reconciledThrough) == F.FirstUnstable(Rows(), k)
      {
        if k + 1 in submissions && k + 1 !in dispositions { return Some(k + 1); }
        k := k + 1;
      }
      first := None;
    }

    method Dispose(sequence: nat) returns (r: Result<(), F.Error>)
      requires F.Inv(Rows())
      modifies this
      ensures F.Inv(Rows())
      ensures match F.Dispose(old(Rows()), sequence)
              case Ok(f) => r == Ok(()) && Rows() == f
              case Err(e) => r == Err(e) && Rows() == old(Rows())
    {
      F.DisposeMeans(Rows(), sequence);
      if sequence !in submissions { return Err(F.UnknownSubmission); }
      if sequence in dispositions { return Err(F.DuplicateDisposition); }
      dispositions := dispositions + {sequence};
      var first := QueryFirstUnstable();
      var next := if first.Some? then first.value - 1 else lastAccepted;
      if next > reconciledThrough { UpdateFrontier(lastAccepted, next); }
      r := Ok(());
    }
  }
}
