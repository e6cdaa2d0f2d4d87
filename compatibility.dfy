/** Compiled classes whose bytecode version this compiler does not support, noted when a
    signature of one of their members is mapped. */
module Compatibility {
  import opened Descriptors

  /** The tracker the type mapper reports incompatible classes to. */
  class IncompatibleClassTracker {
    var recorded: seq<BinaryClass>

    constructor ()
      ensures recorded == []
    {
      recorded := [];
    }

    method Record(c: BinaryClass)
      modifies this
      ensures recorded == old(recorded) + [c]
    {
      recorded := recorded + [c];
    }
  }

  /** What a tracker fed only by the type mapper holds: incompatible classes only. */
  predicate OnlyIncompatible(cs: seq<BinaryClass>)
  {
    forall i | 0 <= i < |cs| :: !cs[i].compatibleVersion
  }

  /** Records the compiled class of `f` when its version is incompatible; declarations compiled
      from source have none and record nothing. */
  method CheckOwnerCompatibility(f: Fun, tracker: IncompatibleClassTracker)
    modifies tracker
    ensures f.names.binaryClass.Some? && !f.names.binaryClass.value.compatibleVersion ==>
      tracker.recorded == old(tracker.recorded) + [f.names.binaryClass.value]
    ensures f.names.binaryClass.None? || f.names.binaryClass.value.compatibleVersion ==>
      tracker.recorded == old(tracker.recorded)
    ensures OnlyIncompatible(old(tracker.recorded)) ==> OnlyIncompatible(tracker.recorded)
  {
    var ownerClass := f.names.binaryClass;
    if ownerClass.None? {
      return;
    }
    if !ownerClass.value.compatibleVersion {
      tracker.Record(ownerClass.value);
    }
  }
}
