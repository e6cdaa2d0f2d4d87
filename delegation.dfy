/** The walk along a constructor's delegating calls `this(...)` to the first call that leaves
    the class: the superclass constructor call whose captured values the constructor receives. */
module Delegation {
  import opened Descriptors

  /** A constructor: its identity and the class that declares it. */
  datatype Ctor = Ctor(id: nat, owner: string)

  /** A value argument of a delegating call: the index of the parameter it is passed to, and
      whether it is the parameter's default value. */
  datatype ArgumentSlot = ArgumentSlot(index: nat, isDefault: bool)

  /** A delegating constructor call: the constructor it calls, the parameters of that
      constructor's erased JVM signature, and the value arguments, in resolution order. */
  datatype DelegationCall = DelegationCall(target: Ctor, superParameters: seq<Param>, arguments: seq<ArgumentSlot>)

  /** What the frontend guarantees of a resolved delegating call: the erased signature holds the
      captured values first and then one parameter per value argument. */
  predicate WellFormedCall(call: DelegationCall)
  {
    |call.arguments| <= |call.superParameters| &&
    forall a | a in call.arguments :: a.index < |call.arguments|
  }

  /** The delegating call of each constructor that has one. */
  type Calls = map<Ctor, DelegationCall>

  /** Every constructor the walk from `start` can meet. */
  function Universe(calls: Calls, start: Ctor): set<Ctor>
  {
    calls.Keys + (set k | k in calls :: calls[k].target) + {start}
  }

  /** The walk from `current`, with `visited` already seen: none when a constructor does not
      delegate or when the walk comes back to a constructor it has seen; the call that leaves
      `start`'s class otherwise. */
  function SuperCallFrom(calls: Calls, start: Ctor, current: Ctor, visited: set<Ctor>): Option<DelegationCall>
    requires current in visited && visited <= Universe(calls, start)
    decreases |Universe(calls, start) - visited|
  {
    if current !in calls then None
    else
      var next := calls[current];
      if next.target in visited then None
      else if next.target.owner != start.owner then Some(next)
      else
        assert Universe(calls, start) - (visited + {next.target}) < Universe(calls, start) - visited;
        SuperCallFrom(calls, start, next.target, visited + {next.target})
  }

  function FirstDelegatingSuperCall(calls: Calls, start: Ctor): Option<DelegationCall>
  {
    SuperCallFrom(calls, start, start, {start})
  }

  /** The walk, with its set of visited constructors. */
  method FindFirstDelegatingSuperCall(calls: Calls, start: Ctor) returns (r: Option<DelegationCall>)
    ensures r == FirstDelegatingSuperCall(calls, start)
  {
    var constructorOwner := start.owner;
    var visited := {start};
    var descriptor := start;
    ghost var universe := Universe(calls, start);
    while true
      invariant descriptor in visited && visited <= universe
      invariant SuperCallFrom(calls, start, descriptor, visited) == FirstDelegatingSuperCall(calls, start)
      decreases |universe - visited|
    {
      if descriptor !in calls {
        return None;
      }
      var next := calls[descriptor];
      descriptor := next.target;
      if descriptor in visited {
        return None;
      }
      assert universe - (visited + {descriptor}) < universe - visited;
      visited := visited + {descriptor};
      if descriptor.owner != constructorOwner {
        return Some(next);
      }
    }
  }

  /** `to` is `from`, or is reached from it by at most `n` delegating calls `this(...)` to
      constructors of class `owner`. */
  predicate ThisChain(calls: Calls, owner: string, from: Ctor, to: Ctor, n: nat)
    decreases n
  {
    from == to ||
    (n > 0 && from in calls && calls[from].target.owner == owner && ThisChain(calls, owner, calls[from].target, to, n - 1))
  }

  lemma {:induction false} SuperCallFromFound(calls: Calls, start: Ctor, current: Ctor, visited: set<Ctor>)
    requires current in visited && visited <= Universe(calls, start)
    requires current.owner == start.owner
    requires SuperCallFrom(calls, start, current, visited).Some?
    ensures var call := SuperCallFrom(calls, start, current, visited).value;
      call.target.owner != start.owner &&
      exists c: Ctor, n: nat :: c in calls && c.owner == start.owner && calls[c] == call && ThisChain(calls, start.owner, current, c, n)
    decreases |Universe(calls, start) - visited|
  {
    var call := SuperCallFrom(calls, start, current, visited).value;
    var next := calls[current];
    if next.target.owner == start.owner {
      assert Universe(calls, start) - (visited + {next.target}) < Universe(calls, start) - visited;
      SuperCallFromFound(calls, start, next.target, visited + {next.target});
      var c: Ctor, n: nat :| c in calls && c.owner == start.owner && calls[c] == call && ThisChain(calls, start.owner, next.target, c, n);
      assert ThisChain(calls, start.owner, current, c, n + 1);
    } else {
      assert ThisChain(calls, start.owner, current, current, 0);
    }
  }

  /** The call found leaves the class, and it is the delegating call of a constructor of the
      class that the start reaches through `this(...)` calls only. */
  lemma SuperCallLeavesClass(calls: Calls, start: Ctor)
    requires FirstDelegatingSuperCall(calls, start).Some?
    ensures var call := FirstDelegatingSuperCall(calls, start).value;
      call.target.owner != start.owner &&
      exists c: Ctor, n: nat :: c in calls && c.owner == start.owner && calls[c] == call && ThisChain(calls, start.owner, start, c, n)
  {
    SuperCallFromFound(calls, start, start, {start});
  }

  /** A call found among well-formed calls is well formed. */
  lemma SuperCallWellFormed(calls: Calls, start: Ctor)
    requires forall k | k in calls :: WellFormedCall(calls[k])
    requires FirstDelegatingSuperCall(calls, start).Some?
    ensures WellFormedCall(FirstDelegatingSuperCall(calls, start).value)
  {
    SuperCallLeavesClass(calls, start);
  }

  lemma {:induction false} SuperCallFromWithinClass(calls: Calls, start: Ctor, current: Ctor, visited: set<Ctor>)
    requires current in visited && visited <= Universe(calls, start)
    requires forall k | k in calls :: calls[k].target.owner == start.owner
    ensures SuperCallFrom(calls, start, current, visited).None?
    decreases |Universe(calls, start) - visited|
  {
    if current in calls && calls[current].target !in visited {
      var next := calls[current];
      assert Universe(calls, start) - (visited + {next.target}) < Universe(calls, start) - visited;
      SuperCallFromWithinClass(calls, start, next.target, visited + {next.target});
    }
  }

  /** When every delegating call stays in the class there is no superclass call to find. */
  lemma NoSuperCallWithinClass(calls: Calls, start: Ctor)
    requires forall k | k in calls :: calls[k].target.owner == start.owner
    ensures FirstDelegatingSuperCall(calls, start).None?
  {
    SuperCallFromWithinClass(calls, start, start, {start});
  }

  /** Two constructors of one class delegating to each other end the walk without a result. */
  lemma DelegationCycle(calls: Calls, a: Ctor, b: Ctor)
    requires a != b && a.owner == b.owner
    requires a in calls && calls[a].target == b
    requires b in calls && calls[b].target == a
    ensures FirstDelegatingSuperCall(calls, a).None?
  {
    assert SuperCallFrom(calls, a, a, {a}) == SuperCallFrom(calls, a, b, {a, b});
  }

  /** `this(...)` to a constructor of the class, which calls `super(...)`: the walk finds the
      second call. */
  lemma DelegationThroughThis(calls: Calls, a: Ctor, b: Ctor)
    requires a != b && a.owner == b.owner
    requires a in calls && calls[a].target == b
    requires b in calls && calls[b].target.owner != a.owner
    ensures FirstDelegatingSuperCall(calls, a) == Some(calls[b])
  {
    assert SuperCallFrom(calls, a, a, {a}) == SuperCallFrom(calls, a, b, {a, b});
  }
}
