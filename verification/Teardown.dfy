/**
 * Registration and teardown of the roles that feed a stream, one lock acquisition per step.
 * The publisher map (`owners`) and the ring map (`rings`) have separate locks, so everything between two
 * acquisitions can interleave. A publisher drops its ring first and its map entry second; a puller the reverse.
 */
module Teardown {
  import opened Codes

  datatype Kind = Publisher | Puller

  datatype Role = Role(id: nat, kind: Kind, key: Key)

  datatype Pc =
    | New
    | Looked                                   // publisher read the map and found the key free
    | Registered                               // in the publisher map
    | Streaming                                // add() succeeded: the role depends on the ring
    | Refused                                  // a publisher that lost the race to register
    | Checked(remove: bool, registered: bool)  // owner check done, its decision, and whether the role ever registered
    | RingDone(registered: bool)               // ring step done, map entry next
    | Unmapped                                 // puller: map entry gone, ring next
    | Gone

  datatype State = State(owners: map<Key, Role>, rings: set<Key>, pcs: map<Role, Pc>)

  datatype Action =
    | Look(role: Role)
    | Register(role: Role)
    | AddRing(role: Role, ok: bool)
    | CheckOwner(role: Role)
    | RemoveRing(role: Role)
    | RemoveOwner(role: Role)
    | PullerUnmap(role: Role)
    | PullerDropRing(role: Role)
    | PullerTeardown(role: Role)               // both removals as one step

  const Init := State(map[], {}, map[])

  function PcOf(s: State, r: Role): Pc { if r in s.pcs then s.pcs[r] else New }

  function At(s: State, r: Role, pc: Pc): State { s.(pcs := s.pcs[r := pc]) }

  /** CSLSMapPublisher::remove(role): erases the entry that holds this very role, if any. */
  function Unmap(s: State, r: Role): State {
    s.(owners := map k | k in s.owners && s.owners[k] != r :: s.owners[k])
  }

  predicate Owns(pc: Pc) { pc.Registered? || pc.Streaming? || (pc.Checked? && pc.registered) || (pc.RingDone? && pc.registered) }

  predicate Enabled(s: State, a: Action) {
    var pc := PcOf(s, a.role);
    match a
    case Look(r) => r.kind.Publisher? && pc.New?
    case Register(r) => if r.kind.Publisher? then pc.Looked? else pc.New?
    case AddRing(_, _) => pc.Registered?
    case CheckOwner(r) => r.kind.Publisher? && (pc.Registered? || pc.Streaming? || pc.Refused?)
    case RemoveRing(_) => pc.Checked?
    case RemoveOwner(_) => pc.RingDone?
    case PullerUnmap(r) => r.kind.Puller? && (pc.Registered? || pc.Streaming?)
    case PullerDropRing(_) => pc.Unmapped?
    case PullerTeardown(r) => r.kind.Puller? && (pc.Registered? || pc.Streaming?)
  }

  function Next(s: State, a: Action): State
    requires Enabled(s, a)
  {
    var pc := PcOf(s, a.role);
    match a
    case Look(r) => At(s, r, if r.key in s.owners then Gone else Looked)
    case Register(r) =>
      if r.key !in s.owners then At(s.(owners := s.owners[r.key := r]), r, Registered)
      else At(s, r, if r.kind.Publisher? then Refused else Gone)
    case AddRing(r, ok) =>
      if ok then At(s.(rings := s.rings + {r.key}), r, Streaming)
      else if r.kind.Puller? then At(Unmap(s, r), r, Gone)
      else s
    case CheckOwner(r) =>
      At(s, r, Checked(r.key !in s.owners || s.owners[r.key] == r, Owns(pc)))
    case RemoveRing(r) =>
      At(if pc.remove then s.(rings := s.rings - {r.key}) else s, r, RingDone(pc.registered))
    case RemoveOwner(r) => At(Unmap(s, r), r, Gone)
    case PullerUnmap(r) => At(Unmap(s, r), r, Unmapped)
    case PullerDropRing(r) => At(s.(rings := s.rings - {r.key}), r, Gone)
    case PullerTeardown(r) => At(Unmap(s, r).(rings := s.rings - {r.key}), r, Gone)
  }

  /** The step deletes the ring of a key that somebody else owns. */
  predicate Steals(s: State, a: Action)
    requires Enabled(s, a)
  {
    && ((a.RemoveRing? && PcOf(s, a.role).remove) || a.PullerDropRing? || a.PullerTeardown?)
    && a.role.key in s.rings
    && a.role.key in s.owners && s.owners[a.role.key] != a.role
  }

  predicate Legal(s: State, run: seq<Action>)
    decreases |run|
  {
    run == [] || (Enabled(s, run[0]) && Legal(Next(s, run[0]), run[1..]))
  }

  function Run(s: State, run: seq<Action>): State
    requires Legal(s, run)
    decreases |run|
  {
    if run == [] then s else Run(Next(s, run[0]), run[1..])
  }

  /** Between its registration and its own removal a role is the owner of its key, and nobody else ever is. */
  ghost predicate OwnersInv(s: State) {
    && (forall r :: Owns(PcOf(s, r)) ==> r.key in s.owners && s.owners[r.key] == r)
    && (forall k :: k in s.owners ==> s.owners[k].key == k && Owns(PcOf(s, s.owners[k])))
  }

  lemma OnlyTheActorMoves(s: State, a: Action)
    requires Enabled(s, a)
    ensures forall r :: r != a.role ==> PcOf(Next(s, a), r) == PcOf(s, r)
  {
  }

  lemma OwningRolesAreMapped(s: State, a: Action, r: Role)
    requires OwnersInv(s) && Enabled(s, a) && Owns(PcOf(Next(s, a), r))
    ensures r.key in Next(s, a).owners && Next(s, a).owners[r.key] == r
  {
  }

  lemma MappedRolesOwn(s: State, a: Action, k: Key)
    requires OwnersInv(s) && Enabled(s, a) && k in Next(s, a).owners
    ensures Next(s, a).owners[k].key == k && Owns(PcOf(Next(s, a), Next(s, a).owners[k]))
  {
    OnlyTheActorMoves(s, a);
  }

  lemma StepKeepsOwners(s: State, a: Action)
    requires OwnersInv(s) && Enabled(s, a)
    ensures OwnersInv(Next(s, a))
  {
    hide Next, Owns, Enabled, PcOf;
    var s' := Next(s, a);
    forall r | Owns(PcOf(s', r)) ensures r.key in s'.owners && s'.owners[r.key] == r {
      OwningRolesAreMapped(s, a, r);
    }
    forall k | k in s'.owners ensures s'.owners[k].key == k && Owns(PcOf(s', s'.owners[k])) {
      MappedRolesOwn(s, a, k);
    }
  }

  lemma {:induction false} RunKeepsOwners(s: State, run: seq<Action>)
    requires OwnersInv(s) && Legal(s, run)
    ensures OwnersInv(Run(s, run))
    decreases |run|
  {
    if run != [] {
      StepKeepsOwners(s, run[0]);
      RunKeepsOwners(Next(s, run[0]), run[1..]);
    }
  }

  /** A key changes hands only through absence: whoever owned it before is the one that took itself out. */
  lemma OwnerChangesThroughAbsence(s: State, a: Action, k: Key)
    requires OwnersInv(s) && Enabled(s, a) && k in s.owners
    ensures var s' := Next(s, a);
            k in s'.owners ==> s'.owners[k] == s.owners[k]
    ensures k !in Next(s, a).owners ==> a.role == s.owners[k]
  {
  }

  predicate Departs(a: Action) {
    a.RemoveOwner? || a.PullerUnmap? || a.PullerTeardown? || (a.AddRing? && !a.ok)
  }

  /** Over any run: if a key ends up with another owner, or none, its first owner took itself out on the way. */
  lemma {:induction false} OwnerLeavesByItself(s: State, run: seq<Action>, k: Key)
    requires OwnersInv(s) && Legal(s, run) && k in s.owners
    requires k in Run(s, run).owners ==> Run(s, run).owners[k] != s.owners[k]
    ensures exists i :: 0 <= i < |run| && run[i].role == s.owners[k] && Departs(run[i])
    decreases |run|
  {
    var s' := Next(s, run[0]);
    StepKeepsOwners(s, run[0]);
    OwnerChangesThroughAbsence(s, run[0], k);
    if k in s'.owners {
      OwnerLeavesByItself(s', run[1..], k);
      var i :| 0 <= i < |run[1..]| && run[1..][i].role == s.owners[k] && Departs(run[1..][i]);
      assert run[i + 1] == run[1..][i];
    } else {
      assert run[0].role == s.owners[k] && Departs(run[0]);
    }
  }

  /** However the steps interleave, a publisher that did register only ever deletes its own ring. */
  lemma RegisteredPublisherNeverSteals(run: seq<Action>, a: Action)
    requires Legal(Init, run) && Enabled(Run(Init, run), a)
    requires a.RemoveRing? && PcOf(Run(Init, run), a.role).registered
    ensures !Steals(Run(Init, run), a)
  {
    RunKeepsOwners(Init, run);
  }

  /** A role that streams has a ring. */
  ghost predicate RingsPresent(s: State) {
    forall r :: PcOf(s, r).Streaming? ==> r.key in s.rings
  }

  /** Every theft from a streaming owner leaves it without a ring, and nothing else does. */
  lemma TheftIsTheOnlyLoss(s: State, a: Action)
    requires OwnersInv(s) && RingsPresent(s) && Enabled(s, a)
    ensures RingsPresent(Next(s, a)) <==> !(Steals(s, a) && PcOf(s, s.owners[a.role.key]).Streaming?)
  {
  }

  /**
   * The two conditions: pullers tear down in one step, and a publisher that lost the race to register finds the key
   * still owned when it runs its owner check.
   */
  predicate Tame(s: State, a: Action) {
    && !a.PullerUnmap? && !a.PullerDropRing?
    && (a.CheckOwner? && PcOf(s, a.role).Refused? ==> a.role.key in s.owners)
  }

  predicate TameRun(s: State, run: seq<Action>)
    requires Legal(s, run)
    decreases |run|
  {
    run == [] || (Tame(s, run[0]) && TameRun(Next(s, run[0]), run[1..]))
  }

  /** No role is on its way to deleting a ring without owning the key. */
  ghost predicate NoStrays(s: State) {
    forall r :: var pc := PcOf(s, r);
      !pc.Unmapped? && (pc.Checked? && !pc.registered ==> !pc.remove)
  }

  lemma {:induction false} TameRunsKeepRings(s: State, run: seq<Action>)
    requires OwnersInv(s) && NoStrays(s) && RingsPresent(s) && Legal(s, run) && TameRun(s, run)
    ensures RingsPresent(Run(s, run)) && NoStrays(Run(s, run)) && OwnersInv(Run(s, run))
    decreases |run|
  {
    if run != [] {
      var s' := Next(s, run[0]);
      StepKeepsOwners(s, run[0]);
      TheftIsTheOnlyLoss(s, run[0]);
      OnlyTheActorMoves(s, run[0]);
      TameRunsKeepRings(s', run[1..]);
    }
  }

  /**
   * In every state of every run, exactly these steps steal: the ring removal of a publisher that never registered and
   * whose check found nobody, and the second half of a puller's teardown, when the key has a ring and an owner by then.
   */
  lemma StealsExactly(run: seq<Action>, a: Action)
    requires Legal(Init, run) && Enabled(Run(Init, run), a)
    ensures var s := Run(Init, run);
            Steals(s, a) <==>
            && ((a.RemoveRing? && PcOf(s, a.role).remove && !PcOf(s, a.role).registered) || a.PullerDropRing?)
            && a.role.key in s.rings && a.role.key in s.owners
  {
    RunKeepsOwners(Init, run);
  }

  /** Under those conditions no step of any run steals and every streaming role keeps its ring. */
  lemma OneStepTeardownIsSafe(run: seq<Action>, a: Action)
    requires Legal(Init, run) && TameRun(Init, run) && Enabled(Run(Init, run), a)
    ensures RingsPresent(Run(Init, run)) && !Steals(Run(Init, run), a)
  {
    TameRunsKeepRings(Init, run);
  }

  // ----- nothing is left behind, and a free key can be had -----

  /** A role that still has to take its ring down. */
  predicate Holds(pc: Pc) { pc.Streaming? || (pc.Checked? && pc.registered) || pc.Unmapped? }

  ghost predicate Held(s: State, k: Key) { exists r: Role :: r.key == k && Holds(PcOf(s, r)) }

  /** Every ring has a role that will remove it, and a registered role that has passed its owner check will. */
  ghost predicate RingsHeld(s: State) {
    && (forall k :: k in s.rings ==> Held(s, k))
    && (forall r :: var pc := PcOf(s, r); pc.Checked? && pc.registered ==> pc.remove)
  }

  lemma StepKeepsHeld(s: State, a: Action, k: Key)
    requires OwnersInv(s) && RingsHeld(s) && Enabled(s, a) && k in Next(s, a).rings
    ensures Held(Next(s, a), k)
  {
    var s' := Next(s, a);
    OnlyTheActorMoves(s, a);
    if k in s.rings {
      var r: Role :| r.key == k && Holds(PcOf(s, r));
      assert Holds(PcOf(s', r));
    } else {
      assert a.role.key == k && Holds(PcOf(s', a.role));
    }
  }

  lemma StepKeepsRingsHeld(s: State, a: Action)
    requires OwnersInv(s) && RingsHeld(s) && Enabled(s, a)
    ensures RingsHeld(Next(s, a))
  {
    OnlyTheActorMoves(s, a);
    forall k | k in Next(s, a).rings ensures Held(Next(s, a), k) {
      StepKeepsHeld(s, a, k);
    }
  }

  lemma {:induction false} RunKeepsRingsHeld(s: State, run: seq<Action>)
    requires OwnersInv(s) && RingsHeld(s) && Legal(s, run)
    ensures RingsHeld(Run(s, run))
    decreases |run|
  {
    if run != [] {
      StepKeepsOwners(s, run[0]);
      StepKeepsRingsHeld(s, run[0]);
      RunKeepsRingsHeld(Next(s, run[0]), run[1..]);
    }
  }

  /** No run leaks a ring: whatever ring there is belongs to a role that streams or is on its way to removing it. */
  lemma NoRingLeaks(run: seq<Action>, k: Key)
    requires Legal(Init, run)
    ensures var s := Run(Init, run);
            k in s.rings ==> exists r: Role :: r.key == k && Holds(PcOf(s, r))
  {
    RunKeepsRingsHeld(Init, run);
  }

  /** From any state with the key free, a newcomer of either kind gets the key and a ring. */
  lemma FreeKeyIsTaken(s: State, c: Role)
    requires PcOf(s, c).New? && c.key !in s.owners
    ensures var run := (if c.kind.Publisher? then [Look(c)] else []) + [Register(c), AddRing(c, true)];
            Legal(s, run) && var s' := Run(s, run);
            s'.owners == s.owners[c.key := c] && s'.rings == s.rings + {c.key} && PcOf(s', c).Streaming?
  {
    var s1 := if c.kind.Publisher? then Next(s, Look(c)) else s;
    var tail := [Register(c), AddRing(c, true)];
    RunOfTwo(s1, Register(c), AddRing(c, true));
    assert c.kind.Publisher? ==> ([Look(c)] + tail)[1..] == tail;
    assert [] + tail == tail;
  }

  /** A puller that gets the key but no ring gives the key up at once; a publisher holds it until its own teardown. */
  lemma FailedAddLetsGo(s: State, c: Role)
    requires OwnersInv(s) && PcOf(s, c).Registered?
    ensures Enabled(s, AddRing(c, false)) && var s' := Next(s, AddRing(c, false));
            && s'.rings == s.rings && (c.key !in s'.owners <==> c.kind.Puller?)
            && (PcOf(s', c).Gone? <==> c.kind.Puller?)
  {
  }

  lemma RunOfTwo(s: State, a: Action, b: Action)
    requires Enabled(s, a) && Enabled(Next(s, a), b)
    ensures Legal(s, [a, b]) && Run(s, [a, b]) == Next(Next(s, a), b)
  {
    hide Next, Enabled;
    assert [a, b][1..] == [b] && [b][1..] == [];
    assert Legal(Next(s, a), [b]) && Run(Next(s, a), [b]) == Next(Next(s, a), b);
  }

  /**
   * Both conditions are needed: whenever a teardown takes its first step that breaks one, a single newcomer is enough
   * for it to end in theft. The newcomer registers, streams, and loses its ring to the other half of that teardown.
   */
  lemma UntameStepCanSteal(s: State, a: Action, c: Role)
    requires OwnersInv(s) && Enabled(s, a) && !Tame(s, a) && !a.PullerDropRing?
    requires c.kind.Publisher? && PcOf(s, c).New? && c.key == a.role.key
    ensures var run := [a, Look(c), Register(c), AddRing(c, true)];
            Legal(s, run) && var s' := Run(s, run);
            var last := if a.PullerUnmap? then PullerDropRing(a.role) else RemoveRing(a.role);
            Enabled(s', last) && Steals(s', last) && PcOf(s', c).Streaming? && c.key !in Next(s', last).rings
  {
    var s1 := Next(s, a);
    assert c.key !in s1.owners && PcOf(s1, c).New?;
    var s4 := Next(Next(Next(s1, Look(c)), Register(c)), AddRing(c, true));
    RunOfFour(s, a, Look(c), Register(c), AddRing(c, true));
    assert PcOf(s4, a.role) == PcOf(s1, a.role);
  }

  lemma RunOfFour(s: State, a: Action, b: Action, c: Action, d: Action)
    requires Enabled(s, a) && Enabled(Next(s, a), b) && Enabled(Next(Next(s, a), b), c)
    requires Enabled(Next(Next(Next(s, a), b), c), d)
    ensures Legal(s, [a, b, c, d]) && Run(s, [a, b, c, d]) == Next(Next(Next(Next(s, a), b), c), d)
  {
    hide Next, Enabled;
    var s1, s2, s3 := Next(s, a), Next(Next(s, a), b), Next(Next(Next(s, a), b), c);
    assert [a, b, c, d][1..] == [b, c, d] && [b, c, d][1..] == [c, d] && [c, d][1..] == [d] && [d][1..] == [];
    assert Legal(s3, [d]) && Run(s3, [d]) == Next(s3, d);
    assert Legal(s2, [c, d]) && Run(s2, [c, d]) == Run(s3, [d]);
    assert Legal(s1, [b, c, d]) && Run(s1, [b, c, d]) == Run(s2, [c, d]);
  }

  /** The puller's case from the start: it registers, streams, and takes itself out of the map ahead of its ring. */
  lemma PullerReachesUntame(p: Role)
    requires p.kind.Puller?
    ensures var run := [Register(p), AddRing(p, true)];
            Legal(Init, run) && var s := Run(Init, run);
            OwnersInv(s) && NoStrays(s) && Enabled(s, PullerUnmap(p)) && !Tame(s, PullerUnmap(p)) && p.key in s.rings
  {
    var run := [Register(p), AddRing(p, true)];
    assert run[1..] == [AddRing(p, true)] && run[1..][1..] == [];
    var s1 := Next(Init, Register(p));
    var s2 := Next(s1, AddRing(p, true));
    assert Run(s1, run[1..]) == s2;
    RunKeepsOwners(Init, run);
  }

  /** The losing publisher's case: both look, one registers, the other is refused and checks once the winner has gone. */
  lemma LoserReachesUntame(a: Role, b: Role)
    requires a.kind.Publisher? && b.kind.Publisher? && a != b && a.key == b.key
    ensures var run := [Look(a), Look(b), Register(a), Register(b)] + [CheckOwner(a), RemoveRing(a), RemoveOwner(a)];
            Legal(Init, run) && var s := Run(Init, run);
            OwnersInv(s) && NoStrays(s) && Enabled(s, CheckOwner(b)) && !Tame(s, CheckOwner(b))
  {
    var first, rest := [Look(a), Look(b), Register(a), Register(b)], [CheckOwner(a), RemoveRing(a), RemoveOwner(a)];
    RunOfFour(Init, Look(a), Look(b), Register(a), Register(b));
    var s4 := Run(Init, first);
    assert s4 == State(map[a.key := a], {}, map[a := Registered, b := Refused]);
    hide Next, Legal, Run;
    WinnerLeaves(a, b);
    RunAppend(Init, first, rest);
    assert OwnersInv(Init);
    RunKeepsOwners(Init, first + rest);
  }

  lemma WinnerLeaves(a: Role, b: Role)
    requires a.kind.Publisher? && a != b && a.key == b.key
    ensures var s4 := State(map[a.key := a], {}, map[a := Registered, b := Refused]);
            var rest := [CheckOwner(a), RemoveRing(a), RemoveOwner(a)];
            Legal(s4, rest) && Run(s4, rest) == State(map[], {}, map[a := Gone, b := Refused])
  {
    var s4 := State(map[a.key := a], {}, map[a := Registered, b := Refused]);
    var rest := [CheckOwner(a), RemoveRing(a), RemoveOwner(a)];
    assert rest[1..] == [RemoveRing(a), RemoveOwner(a)] && rest[1..][1..] == [RemoveOwner(a)] && rest[1..][1..][1..] == [];
    var s5 := State(map[a.key := a], {}, map[a := Checked(true, true), b := Refused]);
    assert Next(s4, CheckOwner(a)) == s5;
    var s6 := State(map[a.key := a], {}, map[a := RingDone(true), b := Refused]);
    assert Next(s5, RemoveRing(a)) == s6;
    assert Legal(s6, [RemoveOwner(a)]) && Run(s6, [RemoveOwner(a)]) == Next(s6, RemoveOwner(a));
    assert Legal(s5, rest[1..]) && Run(s5, rest[1..]) == Run(s6, [RemoveOwner(a)]);
  }

  lemma {:induction false} RunAppend(s: State, xs: seq<Action>, ys: seq<Action>)
    requires Legal(s, xs) && Legal(Run(s, xs), ys)
    ensures Legal(s, xs + ys) && Run(s, xs + ys) == Run(Run(s, xs), ys)
    decreases |xs|
  {
    if xs == [] {
      assert xs + ys == ys;
    } else {
      assert (xs + ys)[0] == xs[0] && (xs + ys)[1..] == xs[1..] + ys;
      RunAppend(Next(s, xs[0]), xs[1..], ys);
    }
  }
}
