/** The interference that the code is verified under is the one the protocol's other processes cause. */
module LinuxInterference {
  import opened Bytes
  import opened StoreProtocol
  import opened StoreInvariant
  import opened LinuxSystem
  import StoreTheorems

  /** Steps and deaths of other processes are within what a process tolerates between two calls. */
  lemma OthersAreElsewhere(s: State, e: Event, p: nat)
    requires Inv(s) && Next(s, e).Some? && !e.PowerLoss? && (e.By? || e.Kill? ==> e.p != p)
    ensures Elsewhere(s.fs, Some(PcOf(s, p)), Next(s, e).value.fs)
  {
    hide FsInv, PcInv, Act;
    NextKeepsInv(s, e);
    PcHolds(Next(s, e).value, p);
    StoreTheorems.InodesGrow(s, e);
  }
}
