/** Storage-carve runs: how sizes move under committed commands, and what stands
    behind every command of every run: witnesses used for nothing else, minted that
    very tick.  The step and the not-in-use proof do not say which volume they were
    read for, so that they were read for the volume acted on is the caller's doing:
    the runs here record it, and say exactly when it holds. */
module CarveRuns {
  import opened Machine
  import opened Arith
  import opened CarveSafety

  // ---- sizes -------------------------------------------------------------

  /** The size after one committed tick toward `target`. */
  function Grown(size: u64, target: u64): (r: u64) {
    var plan := PlanGrow(size, target, 0);
    if plan.None? then size else plan.value.to
  }

  function TowardConstant(start: u64, target: u64, k: nat): (r: u64) {
    if k == 0 then start else Grown(TowardConstant(start, target, k - 1), target)
  }

  lemma CapMonotone(a: u64, b: u64)
    requires a <= b
    ensures GrowStepCap(a) <= GrowStepCap(b)
  {
  }

  /** A constant target is approached by at least the first cap per tick, and never
      passed. */
  lemma {:induction false} ApproachesTarget(start: u64, target: u64, k: nat)
    requires 5 <= start <= target
    ensures start <= TowardConstant(start, target, k) <= target
    ensures TowardConstant(start, target, k) >= Min(target, start + k * GrowStepCap(start))
  {
    if k > 0 {
      ApproachesTarget(start, target, k - 1);
      var size := TowardConstant(start, target, k - 1);
      CapMonotone(start, size);
      Spread(k - 1, 1, GrowStepCap(start));
    }
  }

  function CeilDiv(a: nat, b: nat): (r: nat)
    requires b > 0
  {
    (a + b - 1) / b
  }

  /** The target is hit exactly, within `ceil((target - start) / cap(start))` ticks,
      and then held. */
  lemma HitsTarget(start: u64, target: u64, k: nat)
    requires 5 <= start <= target && k >= CeilDiv(target - start, GrowStepCap(start))
    ensures TowardConstant(start, target, k) == target
  {
    var cap := GrowStepCap(start);
    ApproachesTarget(start, target, k);
    hide GrowStepCap;
    DivBounds(target - start + cap - 1, cap);
    MulLe(CeilDiv(target - start, cap), k, cap);
    Spread(CeilDiv(target - start, cap), 1, cap);
  }

  /** A larger target is ever reached exactly from a size of at least five bytes. */
  lemma ReachableIff(start: u64, target: u64)
    requires start < target
    ensures (exists k :: TowardConstant(start, target, k) == target) <==> start >= 5
  {
    if start >= 5 {
      HitsTarget(start, target, CeilDiv(target - start, GrowStepCap(start)));
    } else {
      forall k: nat ensures TowardConstant(start, target, k) == start {
        TinyNeverMoves(start, target, k);
      }
    }
  }

  lemma {:induction false} TinyNeverMoves(start: u64, target: u64, k: nat)
    requires start < 5
    ensures TowardConstant(start, target, k) == start
  {
    if k > 0 {
      TinyNeverMoves(start, target, k - 1);
    }
  }

  // ---- witnesses over runs -----------------------------------------------

  datatype Witness = WOwned(owned: OwnedPvc) | WGrow(grow: SmallAtomicGrow) | WNotInUse(proof: NotInUse)

  /** What can happen: the clock moves, live facts of a volume are read to mint a
      witness, or an act consumes witnesses by serial number. */
  datatype Event =
    | NextTick
    | ReadIdentity(policy: FootprintPolicy, id: VolumeIdentity)
    | ReadUsage(volume: Volume, desired: u64)
    | ReadReachability(volume: Volume, reach: Reachability)
    | ActGrow(owned: nat, grow: nat, op: OpState)
    | ActRelease(owned: nat, free: nat, role: DataRole, newSize: Option<u64>)

  /** What was read; a usage reading is the volume's size at that moment. */
  datatype Facts =
    | Identity(policy: FootprintPolicy, id: VolumeIdentity)
    | Usage(volume: Volume, size: u64, desired: u64)
    | Reaches(volume: Volume, reach: Reachability)
  {
    /** The volume read, which the witness itself records only for an identity. */
    function About(): (r: Volume) {
      if Identity? then id.Named() else volume
    }

    function Mints(tick: TickId): (r: Option<Witness>) {
      match this
      case Identity(policy, id) =>
        var w := policy.TryOwn(id, tick);
        if w.None? then None else Some(WOwned(w.value))
      case Usage(_, size, desired) =>
        var w := PlanGrow(size, desired, tick);
        if w.None? then None else Some(WGrow(w.value))
      case Reaches(_, reach) =>
        var w := ProveNotInUse(reach, tick);
        if w.None? then None else Some(WNotInUse(w.value))
    }
  }

  /** A witness as it was minted: from which facts, in which tick. */
  datatype Minted = Minted(token: Witness, facts: Facts, tick: TickId)

  datatype Issued =
    | IssuedGrow(cmd: AtomicGrowCommand, owned: nat, other: nat, op: OpState)
    | IssuedRelease(release: ReleaseCommand, owned: nat, other: nat, role: DataRole, newSize: Option<u64>)
  {
    function Uses(): (r: set<nat>) {
      {owned, other}
    }

    /** The volume the command acts on. */
    function Target(): (r: Volume) {
      if IssuedGrow? then Volume(cmd.ns, cmd.name) else Volume(release.ns, release.name)
    }
  }

  /** The run so far: the volumes' sizes as the commands leave them, the witnesses
      minted and still unspent, and every command. */
  datatype World = World(
    tick: TickId, sizes: map<Volume, u64>, log: map<nat, Minted>, next: nat, unspent: set<nat>, issued: seq<Issued>)

  function Start(sizes: map<Volume, u64>): (r: World) {
    World(0, sizes, map[], 0, {}, [])
  }

  /** What an event reads, in this world. */
  function Reading(w: World, e: Event): (r: Option<Facts>) {
    match e
    case ReadIdentity(policy, id) => Some(Identity(policy, id))
    case ReadUsage(v, desired) => if v in w.sizes then Some(Usage(v, w.sizes[v], desired)) else None
    case ReadReachability(v, reach) => Some(Reaches(v, reach))
    case _ => None
  }

  /** The two witnesses of an act are there, unspent, and of the right kinds. */
  predicate Ready(w: World, e: Event) {
    match e
    case ActGrow(a, b, _) =>
      a in w.unspent && b in w.unspent && a in w.log && b in w.log && w.log[a].token.WOwned? && w.log[b].token.WGrow?
    case ActRelease(a, b, _, _) =>
      a in w.unspent && b in w.unspent && a in w.log && b in w.log && w.log[a].token.WOwned?
          && w.log[b].token.WNotInUse?
    case _ => false
  }

  /** The command an act with ready witnesses yields, if it is not refused. */
  function Command(w: World, e: Event): (r: Option<Issued>)
    requires Ready(w, e)
  {
    match e
    case ActGrow(a, b, op) =>
      var r := CommitSmallAtomicGrow(w.tick, w.log[a].token.owned, w.log[b].token.grow, op);
      if r.Err? then None else Some(IssuedGrow(r.value, a, b, op))
    case ActRelease(a, b, role, newSize) =>
      var volume := ClassifyDurability(w.log[a].token.owned, role);
      if volume.Durable? then None
      else
        var r := if newSize.None? then Release(volume, w.log[b].token.proof, w.tick)
                 else Recreate(volume, w.log[b].token.proof, w.tick, newSize.value);
        if r.Err? then None else Some(IssuedRelease(r.value, a, b, role, newSize))
  }

  /** The sizes once a command is carried out. */
  function Executed(sizes: map<Volume, u64>, i: Issued): (r: map<Volume, u64>) {
    match i
    case IssuedGrow(cmd, _, _, _) => sizes[i.Target() := cmd.to]
    case IssuedRelease(cmd, _, _, _, _) =>
      if cmd.recreateTo.Some? then sizes[i.Target() := cmd.recreateTo.value] else sizes - {i.Target()}
  }

  /** An act spends its witnesses, refused or not.  A durable volume has no release to
      act with: its ownership witness is handed back and the proof never presented. */
  function Act(w: World, e: Event): (r: World)
    requires Ready(w, e)
  {
    var spent := w.(unspent := w.unspent - {e.owned, if e.ActGrow? then e.grow else e.free});
    match Command(w, e)
    case None => if e.ActRelease? && ClassifyDurability(w.log[e.owned].token.owned, e.role).Durable? then w else spent
    case Some(i) => spent.(issued := w.issued + [i], sizes := Executed(w.sizes, i))
  }

  function Step(w: World, e: Event): (r: World) {
    if e.NextTick? then w.(tick := Sat64(w.tick + 1))
    else if Ready(w, e) then Act(w, e)
    else
      var facts := Reading(w, e);
      if facts.None? || facts.value.Mints(w.tick).None? then w
      else w.(log := w.log[w.next := Minted(facts.value.Mints(w.tick).value, facts.value, w.tick)],
              next := w.next + 1, unspent := w.unspent + {w.next})
  }

  function Run(sizes: map<Volume, u64>, events: seq<Event>): (r: World) {
    if events == [] then Start(sizes) else Step(Run(sizes, events[..|events| - 1]), events[|events| - 1])
  }

  // ---- what stands behind every command ----------------------------------

  /** The record is honest: the witness is what its facts mint in its tick. */
  ghost predicate Honest(m: Minted) {
    m.facts.Mints(m.tick) == Some(m.token)
  }

  /** Tagged, labelled with the owner's role, or in a namespace it owns. */
  predicate InFootprint(policy: FootprintPolicy, id: VolumeIdentity) {
    id.ownershipTag || id.roleLabel == Some(policy.ownerRole) || id.ns in policy.ownedNamespaces
  }

  /** No live pod uses it and no node has it attached. */
  predicate Idle(reach: Reachability) {
    reach.liveConsumerPods == 0 && !reach.attached
  }

  /** What stands behind a command: its volume in the footprint, read this tick, and
      either a step planned this tick, up, to no more than desired, by no more than a
      fifth or two gibibytes, on a volume no resize is in flight on, or a volume
      declared rebuildable and a proof from one read as idle this tick. */
  ghost predicate Justified(log: map<nat, Minted>, i: Issued) {
    && i.owned in log && i.other in log
    && log[i.owned].facts.Identity? && InFootprint(log[i.owned].facts.policy, log[i.owned].facts.id)
    && log[i.owned].facts.About() == i.Target()
    && match i
       case IssuedGrow(cmd, a, b, op) =>
         && log[a].tick == log[b].tick == cmd.tick && log[b].facts.Usage? && cmd.from == log[b].facts.size
         && cmd.from < cmd.to <= log[b].facts.desired && op.OpIdle?
         && cmd.to - cmd.from <= cmd.from / 5 && cmd.to - cmd.from <= 0x8000_0000
       case IssuedRelease(cmd, a, b, role, newSize) =>
         && log[a].tick == log[b].tick == cmd.tick && role.RebuildableFromSource? && cmd.recreateTo == newSize
         && log[b].facts.Reaches? && Idle(log[b].facts.reach)
  }

  ghost predicate Sound(w: World) {
    && (forall n :: n in w.log ==> n < w.next && Honest(w.log[n]))
    && w.unspent <= w.log.Keys
    && (forall i :: 0 <= i < |w.issued| ==> Justified(w.log, w.issued[i]))
    && (forall i :: 0 <= i < |w.issued| ==> w.issued[i].Uses() !! w.unspent)
    && (forall i, j :: 0 <= i < j < |w.issued| ==> w.issued[i].Uses() !! w.issued[j].Uses())
  }

  lemma HonestOwned(m: Minted)
    requires Honest(m) && m.token.WOwned?
    ensures m.facts.Identity? && InFootprint(m.facts.policy, m.facts.id)
    ensures m.token.owned == OwnedPvc(m.facts.About().ns, m.facts.About().name, m.tick)
  {
  }

  lemma HonestGrow(m: Minted)
    requires Honest(m) && m.token.WGrow?
    ensures m.facts.Usage? && m.token.grow.from == m.facts.size && m.token.grow.tick == m.tick
    ensures m.facts.size < m.token.grow.to <= Min(m.facts.desired, m.facts.size + GrowStepCap(m.facts.size))
    ensures m.token.grow.to - m.facts.size <= Min(m.facts.size / 5, 0x8000_0000)
  {
  }

  lemma HonestNotInUse(m: Minted)
    requires Honest(m) && m.token.WNotInUse?
    ensures m.facts.Reaches? && Idle(m.facts.reach) && m.token.proof == NotInUse(m.tick)
  {
  }

  lemma CommandIsJustified(w: World, e: Event)
    requires Sound(w) && Ready(w, e) && Command(w, e).Some?
    ensures Justified(w.log, Command(w, e).value)
    ensures e.ActGrow? <==> Command(w, e).value.IssuedGrow?
    ensures Command(w, e).value.Uses() == {e.owned, if e.ActGrow? then e.grow else e.free} <= w.unspent
  {
    HonestOwned(w.log[e.owned]);
    if e.ActGrow? {
      HonestGrow(w.log[e.grow]);
    } else {
      HonestNotInUse(w.log[e.free]);
    }
    hide Honest, GrowStepCap, FootprintPolicy.Owns, Reachability.IsOrphan;
  }

  lemma ActKeepsSound(w: World, e: Event)
    requires Sound(w) && Ready(w, e)
    ensures Sound(Act(w, e))
  {
    if Command(w, e).Some? {
      CommandIsJustified(w, e);
    }
    hide Honest, Justified, Command, Executed, Issued.Uses;
  }

  lemma MintKeepsSound(w: World, e: Event)
    requires Sound(w) && !Ready(w, e)
    ensures Sound(Step(w, e))
  {
    hide GrowStepCap, Facts.Mints, Ready, FootprintPolicy.Owns;
    var w' := Step(w, e);
    forall i | 0 <= i < |w.issued| ensures Justified(w'.log, w'.issued[i]) && w'.issued[i].Uses() !! w'.unspent {
      assert Justified(w.log, w.issued[i]);
    }
  }

  lemma StepKeepsSound(w: World, e: Event)
    requires Sound(w)
    ensures Sound(Step(w, e))
  {
    hide Sound, Act;
    if Ready(w, e) {
      ActKeepsSound(w, e);
    } else {
      MintKeepsSound(w, e);
    }
  }

  lemma {:induction false} RunIsSound(sizes: map<Volume, u64>, events: seq<Event>)
    ensures Sound(Run(sizes, events))
  {
    if events != [] {
      var w, e := Run(sizes, events[..|events| - 1]), events[|events| - 1];
      RunIsSound(sizes, events[..|events| - 1]);
      hide Sound, Step;
      StepKeepsSound(w, e);
    }
  }

  /** In every run, every command acts on a volume owned by what was read in its own
      tick and rests on a step or a proof read in that tick, and no witness stands
      behind two commands. */
  lemma EveryCommandIsWitnessed(sizes: map<Volume, u64>, events: seq<Event>, i: nat)
    requires i < |Run(sizes, events).issued|
    ensures Justified(Run(sizes, events).log, Run(sizes, events).issued[i])
    ensures forall j :: 0 <= j < |Run(sizes, events).issued| && j != i ==>
      Run(sizes, events).issued[i].Uses() !! Run(sizes, events).issued[j].Uses()
  {
    RunIsSound(sizes, events);
  }

  // ---- read for the volume acted on --------------------------------------

  /** The step or the proof behind the command was read for the command's volume. */
  ghost predicate ReadForTarget(log: map<nat, Minted>, i: Issued) {
    i.other in log && log[i.other].facts.About() == i.Target()
  }

  /** The caller presents two witnesses it read for one volume. */
  predicate Pairs(w: World, e: Event)
    requires Ready(w, e)
  {
    w.log[e.owned].facts.About() == w.log[if e.ActGrow? then e.grow else e.free].facts.About()
  }

  /** The caller pairs its witnesses whenever an act goes through. */
  ghost predicate CallerPairs(sizes: map<Volume, u64>, events: seq<Event>) {
    forall k :: 0 <= k < |events| ==>
      var w := Run(sizes, events[..k]);
      Ready(w, events[k]) && Command(w, events[k]).Some? ==> Pairs(w, events[k])
  }

  ghost predicate AllReadForTarget(w: World) {
    forall i :: 0 <= i < |w.issued| ==> ReadForTarget(w.log, w.issued[i])
  }

  lemma CommandReadForTargetIff(w: World, e: Event)
    requires Sound(w) && Ready(w, e) && Command(w, e).Some?
    ensures ReadForTarget(w.log, Command(w, e).value) <==> Pairs(w, e)
  {
    CommandIsJustified(w, e);
    hide Sound, GrowStepCap, FootprintPolicy.Owns, Reachability.IsOrphan;
  }

  /** What a step adds: at most one command, and then no witness. */
  lemma StepAdds(w: World, e: Event)
    requires Sound(w)
    ensures Step(w, e).issued == w.issued + if Ready(w, e) && Command(w, e).Some? then [Command(w, e).value] else []
    ensures Ready(w, e) ==> Step(w, e).log == w.log
    ensures forall n :: n in w.log ==> n in Step(w, e).log && Step(w, e).log[n] == w.log[n]
  {
    hide GrowStepCap, Facts.Mints, Command, Executed, Justified, Honest;
  }

  lemma StepReadForTargetIff(w: World, e: Event)
    requires Sound(w)
    ensures AllReadForTarget(Step(w, e))
       <==> AllReadForTarget(w) && (Ready(w, e) && Command(w, e).Some? ==> Pairs(w, e))
  {
    StepAdds(w, e);
    hide GrowStepCap, Facts.Mints, Command, Ready, Step, Pairs, Facts.About, Issued.Target, Honest;
    var w' := Step(w, e);
    forall i | 0 <= i < |w.issued|
      ensures w'.issued[i] == w.issued[i]
          && (ReadForTarget(w'.log, w'.issued[i]) <==> ReadForTarget(w.log, w.issued[i]))
    {
      assert Justified(w.log, w.issued[i]);
    }
    if Ready(w, e) && Command(w, e).Some? {
      CommandReadForTargetIff(w, e);
      assert w'.issued[|w.issued|] == Command(w, e).value;
    }
  }

  lemma CallerPairsSnoc(sizes: map<Volume, u64>, events: seq<Event>, e: Event)
    ensures var w := Run(sizes, events);
            CallerPairs(sizes, events + [e])
            <==> CallerPairs(sizes, events) && (Ready(w, e) && Command(w, e).Some? ==> Pairs(w, e))
  {
    hide Run, Ready, Command, Pairs;
    var all, n := events + [e], |events|;
    assert all[..n] == events && all[n] == e;
    forall k | 0 <= k < n ensures all[..k] == events[..k] && all[k] == events[k] {
    }
  }

  /** Exactly when every command of a run rests on what was read for its own volume:
      when the caller pairs the witnesses it presents.  Nothing else makes it so. */
  lemma {:induction false} ReadForTargetIff(sizes: map<Volume, u64>, events: seq<Event>)
    ensures AllReadForTarget(Run(sizes, events)) <==> CallerPairs(sizes, events)
  {
    hide *;
    if events == [] {
      NothingIssued(sizes);
    } else {
      var front, e := events[..|events| - 1], events[|events| - 1];
      assert events == front + [e];
      ReadForTargetIff(sizes, front);
      RunIsSound(sizes, front);
      RunSnoc(sizes, front, e);
      StepReadForTargetIff(Run(sizes, front), e);
      CallerPairsSnoc(sizes, front, e);
    }
  }

  lemma NothingIssued(sizes: map<Volume, u64>)
    ensures AllReadForTarget(Run(sizes, [])) && CallerPairs(sizes, [])
  {
  }

  lemma RunSnoc(sizes: map<Volume, u64>, events: seq<Event>, e: Event)
    ensures Run(sizes, events + [e]) == Step(Run(sizes, events), e)
  {
    assert (events + [e])[..|events|] == events;
  }

  /** Where in the run a witness was minted, and from what. */
  lemma {:induction false} WhenMinted(sizes: map<Volume, u64>, events: seq<Event>, n: nat) returns (k: nat)
    requires n in Run(sizes, events).log
    ensures k < |events|
    ensures var w, m := Run(sizes, events[..k]), Run(sizes, events).log[n];
            Reading(w, events[k]) == Some(m.facts) && w.tick == m.tick
  {
    var last := |events| - 1;
    var front := events[..last];
    if n in Run(sizes, front).log && Run(sizes, front).log[n] == Run(sizes, events).log[n] {
      k := WhenMinted(sizes, front, n);
      assert front[..k] == events[..k];
    } else {
      hide Facts.Mints, Ready, Command, Executed;
      k := last;
    }
  }

  /** Where the caller pairs, what a command rests on was true of its volume, in its
      tick: a released volume was read as an orphan, and a step starts at the size
      the volume then had. */
  lemma PairedCommandsAreTrue(sizes: map<Volume, u64>, events: seq<Event>, i: nat) returns (k: nat)
    requires CallerPairs(sizes, events) && i < |Run(sizes, events).issued|
    ensures k < |events|
    ensures var c, w := Run(sizes, events).issued[i], Run(sizes, events[..k]);
            match c
            case IssuedGrow(cmd, _, _, _) =>
              events[k].ReadUsage? && events[k].volume == c.Target() && w.tick == cmd.tick
              && c.Target() in w.sizes && w.sizes[c.Target()] == cmd.from
            case IssuedRelease(cmd, _, _, _, _) =>
              events[k].ReadReachability? && events[k].volume == c.Target() && w.tick == cmd.tick
              && Idle(events[k].reach)
  {
    var c := Run(sizes, events).issued[i];
    EveryCommandIsWitnessed(sizes, events, i);
    ReadForTargetIff(sizes, events);
    assert ReadForTarget(Run(sizes, events).log, c);
    hide Run, GrowStepCap, CallerPairs, AllReadForTarget;
    k := WhenMinted(sizes, events, c.other);
  }

  // ---- sizes over runs ---------------------------------------------------

  /** The step orders no less than its volume now has: what the caller can compare
      before committing. */
  predicate OrdersEnough(w: World, e: Event)
    requires Ready(w, e) && e.ActGrow?
  {
    var v := w.log[e.owned].facts.About();
    v in w.sizes ==> w.sizes[v] <= w.log[e.grow].token.grow.to
  }

  ghost predicate CallerOrdersEnough(sizes: map<Volume, u64>, events: seq<Event>) {
    forall k :: 0 <= k < |events| ==>
      var w := Run(sizes, events[..k]);
      events[k].ActGrow? && Ready(w, events[k]) && Command(w, events[k]).Some? ==> OrdersEnough(w, events[k])
  }

  /** The step was read for its volume, no larger than the volume now is, and orders
      no less than that. */
  predicate Timely(w: World, e: Event)
    requires Ready(w, e) && e.ActGrow?
  {
    && OrdersEnough(w, e) && Pairs(w, e)
    && w.log[e.grow].facts.Usage? && w.log[e.grow].facts.volume in w.sizes
    && w.log[e.grow].facts.size <= w.sizes[w.log[e.grow].facts.volume]
  }

  ghost predicate CallerIsTimely(sizes: map<Volume, u64>, events: seq<Event>) {
    forall k :: 0 <= k < |events| ==>
      var w := Run(sizes, events[..k]);
      events[k].ActGrow? && Ready(w, events[k]) && Command(w, events[k]).Some? ==> Timely(w, events[k])
  }

  /** The event releases the volume. */
  predicate Releases(w: World, e: Event, v: Volume) {
    Ready(w, e) && e.ActRelease? && Command(w, e).Some? && Command(w, e).value.Target() == v
  }

  /** The event drops or shrinks a volume it does not release. */
  ghost predicate Shrinks(w: World, e: Event) {
    exists v :: v in w.sizes && !Releases(w, e, v) && !(v in Step(w, e).sizes && w.sizes[v] <= Step(w, e).sizes[v])
  }

  /** Exactly when an event shrinks a volume: when it commits a step that orders less
      than its volume has. */
  lemma StepShrinksIff(w: World, e: Event)
    requires Sound(w)
    ensures Shrinks(w, e) <==> e.ActGrow? && Ready(w, e) && Command(w, e).Some? && !OrdersEnough(w, e)
  {
    hide GrowStepCap, FootprintPolicy.Owns, Facts.Mints;
    if Ready(w, e) && Command(w, e).Some? {
      CommandIsJustified(w, e);
      HonestOwned(w.log[e.owned]);
      if e.ActGrow? {
        var v := w.log[e.owned].facts.About();
        assert Step(w, e).sizes == w.sizes[v := w.log[e.grow].token.grow.to];
      }
    }
    hide Sound, Honest;
  }

  /** Over any run: no event drops or shrinks a volume it does not release exactly
      when every committed step orders no less than its volume then has. */
  lemma NothingShrinksIff(sizes: map<Volume, u64>, events: seq<Event>)
    ensures (forall k :: 0 <= k < |events| ==> !Shrinks(Run(sizes, events[..k]), events[k]))
       <==> CallerOrdersEnough(sizes, events)
  {
    hide Shrinks, Run, Ready, Command, OrdersEnough, Sound;
    forall k | 0 <= k < |events|
      ensures var w, e := Run(sizes, events[..k]), events[k];
              Shrinks(w, e) <==> e.ActGrow? && Ready(w, e) && Command(w, e).Some? && !OrdersEnough(w, e)
    {
      RunIsSound(sizes, events[..k]);
      StepShrinksIff(Run(sizes, events[..k]), events[k]);
    }
  }

  /** One event on one volume: unless it is released, it stays, does not shrink, and
      a timely step grows it by at most the cap of the size it had. */
  lemma StepGrows(w: World, e: Event, v: Volume)
    requires Sound(w) && v in w.sizes && !Releases(w, e, v)
    requires e.ActGrow? && Ready(w, e) && Command(w, e).Some? ==> Timely(w, e)
    ensures v in Step(w, e).sizes
    ensures w.sizes[v] <= Step(w, e).sizes[v] <= w.sizes[v] + GrowStepCap(w.sizes[v])
  {
    hide GrowStepCap;
    CapIsSmall(w.sizes[v]);
    if Ready(w, e) && Command(w, e).Some? {
      CommandIsJustified(w, e);
      CommandReadForTargetIff(w, e);
      if e.ActGrow? {
        HonestGrow(w.log[e.grow]);
        if w.log[e.grow].facts.volume == v {
          CapMonotone(w.log[e.grow].facts.size, w.sizes[v]);
        }
      }
    }
    hide Sound, Facts.Mints, Honest;
  }

  lemma CapIsSmall(size: u64)
    ensures GrowStepCap(size) == Min(size / 5, 0x8000_0000)
  {
  }

  /** Over any run whose caller's steps are timely, a volume that is not released
      never shrinks, and no event grows it by more than a fifth or two gibibytes. */
  lemma {:induction false} SizesNeverFall(sizes: map<Volume, u64>, events: seq<Event>, i: nat, v: Volume)
    requires CallerIsTimely(sizes, events) && i <= |events| && v in Run(sizes, events[..i]).sizes
    requires forall k :: i <= k < |events| ==> !Releases(Run(sizes, events[..k]), events[k], v)
    ensures v in Run(sizes, events).sizes
    ensures Run(sizes, events[..i]).sizes[v] <= Run(sizes, events).sizes[v]
    ensures i == |events| - 1 ==>
      var before := Run(sizes, events[..i]).sizes[v];
      Run(sizes, events).sizes[v] <= before + Min(before / 5, 0x8000_0000)
    decreases |events|
  {
    hide Step, Releases, Ready, Timely, Command;
    if i == |events| {
      assert events[..i] == events;
    } else {
      var n := |events| - 1;
      var front := events[..n];
      forall k | 0 <= k <= n ensures front[..k] == events[..k] && (k < n ==> front[k] == events[k]) {
      }
      assert events[..n] == front;
      SizesNeverFall(sizes, front, i, v);
      var w := Run(sizes, front);
      RunIsSound(sizes, front);
      StepGrows(w, events[n], v);
      CapIsSmall(w.sizes[v]);
      assert Run(sizes, events) == Step(w, events[n]);
    }
  }

  // ---- what goes through ---------------------------------------------------

  /** Exactly which acts go through: both witnesses of this very tick, and no resize in
      flight or the volume declared rebuildable. */
  lemma GoesThroughIff(w: World, e: Event)
    requires Sound(w) && Ready(w, e)
    ensures Command(w, e).Some?
       <==> && w.log[e.owned].tick == w.tick
            && w.log[if e.ActGrow? then e.grow else e.free].tick == w.tick
            && (if e.ActGrow? then e.op.OpIdle? else e.role.RebuildableFromSource?)
  {
    HonestOwned(w.log[e.owned]);
    if e.ActGrow? {
      HonestGrow(w.log[e.grow]);
    } else {
      HonestNotInUse(w.log[e.free]);
    }
    hide Honest;
  }

  /** Two readings of one volume, and the act on what they mint. */
  function ReadAndAct(w: World, policy: FootprintPolicy, id: VolumeIdentity, reading: Event, act: Event): (r: World) {
    Step(Step(Step(w, ReadIdentity(policy, id)), reading), act)
  }

  function Mint(w: World, token: Witness, facts: Facts): (r: World) {
    w.(log := w.log[w.next := Minted(token, facts, w.tick)], next := w.next + 1, unspent := w.unspent + {w.next})
  }

  lemma IdentityMints(w: World, policy: FootprintPolicy, id: VolumeIdentity)
    ensures Step(w, ReadIdentity(policy, id))
         == if InFootprint(policy, id) then Mint(w, WOwned(OwnedPvc(id.ns, id.name, w.tick)), Identity(policy, id))
            else w
  {
  }

  lemma UsageMints(w: World, v: Volume, desired: u64)
    requires v in w.sizes
    ensures var size := w.sizes[v];
            Step(w, ReadUsage(v, desired))
            == if 5 <= size < desired
               then Mint(w, WGrow(SmallAtomicGrow(size, Min(desired, size + Min(size / 5, 0x8000_0000)), w.tick)),
                         Usage(v, size, desired))
               else w
  {
    CapIsSmall(w.sizes[v]);
  }

  lemma ReachMints(w: World, v: Volume, reach: Reachability)
    ensures Step(w, ReadReachability(v, reach))
         == if Idle(reach) then Mint(w, WNotInUse(NotInUse(w.tick)), Reaches(v, reach)) else w
  {
  }

  lemma NotReadyStays(w: World, e: Event)
    requires (e.ActGrow? || e.ActRelease?) && !Ready(w, e)
    ensures Step(w, e) == w
  {
  }

  /** From any reachable world, reading a volume and growing it resizes it exactly when
      it is in the footprint, larger than four bytes and wanted larger, with no resize
      in flight: to the size wanted, or by the least of a fifth and two gibibytes. */
  lemma GrowsIff(w: World, policy: FootprintPolicy, id: VolumeIdentity, desired: u64, op: OpState)
    requires Sound(w) && id.Named() in w.sizes
    ensures var v, size := id.Named(), w.sizes[id.Named()];
            ReadAndAct(w, policy, id, ReadUsage(v, desired), ActGrow(w.next, w.next + 1, op)).sizes
            == if InFootprint(policy, id) && op.OpIdle? && 5 <= size < desired
               then w.sizes[v := Min(desired, size + Min(size / 5, 0x8000_0000))] else w.sizes
  {
    var v, act := id.Named(), ActGrow(w.next, w.next + 1, op);
    var w1 := Step(w, ReadIdentity(policy, id));
    var w2 := Step(w1, ReadUsage(v, desired));
    IdentityMints(w, policy, id);
    hide InFootprint, Min, Step;
    UsageMints(w1, v, desired);
    if Ready(w2, act) {
      ActIsStep(w2, act);
    } else {
      NotReadyStays(w2, act);
    }
    hide Honest, Justified;
  }

  lemma ActIsStep(w: World, e: Event)
    requires Ready(w, e)
    ensures Step(w, e) == Act(w, e)
  {
  }

  /** And reading a volume and releasing it drops or resizes it exactly when it is in
      the footprint, declared rebuildable, and read as idle. */
  lemma ReleasesIff(
      w: World, policy: FootprintPolicy, id: VolumeIdentity, reach: Reachability, role: DataRole, newSize: Option<u64>)
    requires Sound(w)
    ensures var v := id.Named();
            ReadAndAct(w, policy, id, ReadReachability(v, reach), ActRelease(w.next, w.next + 1, role, newSize)).sizes
            == if !(InFootprint(policy, id) && role.RebuildableFromSource? && Idle(reach)) then w.sizes
               else if newSize.None? then w.sizes - {v} else w.sizes[v := newSize.value]
  {
    var v, act := id.Named(), ActRelease(w.next, w.next + 1, role, newSize);
    var w1 := Step(w, ReadIdentity(policy, id));
    var w2 := Step(w1, ReadReachability(v, reach));
    IdentityMints(w, policy, id);
    ReachMints(w1, v, reach);
    hide InFootprint, Idle, Step;
    if Ready(w2, act) {
      ActIsStep(w2, act);
    } else {
      NotReadyStays(w2, act);
    }
    hide Honest, Justified;
  }

  // ---- a constant target, tick by tick -----------------------------------

  /** One tick of the autonomous loop on an idle volume. */
  function GrowTick(w: World, policy: FootprintPolicy, id: VolumeIdentity, target: u64): (r: World) {
    var planned := Step(Step(Step(w, NextTick), ReadIdentity(policy, id)), ReadUsage(id.Named(), target));
    Step(planned, ActGrow(w.next, w.next + 1, OpIdle))
  }

  lemma GrowTickGrows(w: World, policy: FootprintPolicy, id: VolumeIdentity, target: u64)
    requires Sound(w) && InFootprint(policy, id) && id.Named() in w.sizes
    ensures var w' := GrowTick(w, policy, id, target);
            Sound(w') && id.Named() in w'.sizes && w'.sizes[id.Named()] == Grown(w.sizes[id.Named()], target)
  {
    hide *;
    GrowTickSound(w, policy, id, target);
    OwnsThenPlans(w, policy, id, target);
  }

  lemma GrowTickSound(w: World, policy: FootprintPolicy, id: VolumeIdentity, target: u64)
    requires Sound(w)
    ensures Sound(GrowTick(w, policy, id, target))
  {
    hide Sound, Step, VolumeIdentity.Named;
    var w1 := Step(w, NextTick);
    var w2 := Step(w1, ReadIdentity(policy, id));
    var w3 := Step(w2, ReadUsage(id.Named(), target));
    StepKeepsSound(w, NextTick);
    StepKeepsSound(w1, ReadIdentity(policy, id));
    StepKeepsSound(w2, ReadUsage(id.Named(), target));
    StepKeepsSound(w3, ActGrow(w.next, w.next + 1, OpIdle));
  }

  lemma OwnsThenPlans(w: World, policy: FootprintPolicy, id: VolumeIdentity, target: u64)
    requires Sound(w) && InFootprint(policy, id) && id.Named() in w.sizes
    ensures var w' := GrowTick(w, policy, id, target);
            id.Named() in w'.sizes && w'.sizes[id.Named()] == Grown(w.sizes[id.Named()], target)
  {
    hide *;
    var w1 := Step(w, NextTick);
    StepKeepsSound(w, NextTick);
    TickIs(w, policy, id, target);
    GrownIs(w.sizes[id.Named()], target);
    GrowsIff(w1, policy, id, target, OpIdle);
  }

  lemma TickIs(w: World, policy: FootprintPolicy, id: VolumeIdentity, target: u64)
    ensures var w1 := Step(w, NextTick);
            && w1.sizes == w.sizes && w1.next == w.next
            && GrowTick(w, policy, id, target)
               == ReadAndAct(w1, policy, id, ReadUsage(id.Named(), target), ActGrow(w1.next, w1.next + 1, OpIdle))
  {
    assert Step(w, NextTick).sizes == w.sizes && Step(w, NextTick).next == w.next;
    hide Step;
  }

  lemma GrownIs(size: u64, target: u64)
    ensures Grown(size, target) == if 5 <= size < target then Min(target, size + Min(size / 5, 0x8000_0000)) else size
  {
    CapIsSmall(size);
  }

  function GrowTicks(w: World, policy: FootprintPolicy, id: VolumeIdentity, target: u64, k: nat): (r: World) {
    if k == 0 then w else GrowTick(GrowTicks(w, policy, id, target, k - 1), policy, id, target)
  }

  /** Every tick of the loop commits: from any reachable world the volume is at
      exactly the size the plans lead to, and so hits the target as they do. */
  lemma {:induction false} CommittedTicks(w: World, policy: FootprintPolicy, id: VolumeIdentity, target: u64, k: nat)
    requires Sound(w) && InFootprint(policy, id) && id.Named() in w.sizes
    ensures var w', v := GrowTicks(w, policy, id, target, k), id.Named();
            && Sound(w') && v in w'.sizes && w'.sizes[v] == TowardConstant(w.sizes[v], target, k)
            && (5 <= w.sizes[v] <= target && k >= CeilDiv(target - w.sizes[v], GrowStepCap(w.sizes[v]))
                ==> w'.sizes[v] == target)
  {
    hide Sound, GrowTick, FootprintPolicy.Owns, GrowStepCap, CeilDiv, Grown;
    if k > 0 {
      CommittedTicks(w, policy, id, target, k - 1);
      GrowTickGrows(GrowTicks(w, policy, id, target, k - 1), policy, id, target);
    }
    var start := w.sizes[id.Named()];
    CapIsPositive(start);
    if 5 <= start <= target && k >= CeilDiv(target - start, GrowStepCap(start)) {
      HitsTarget(start, target, k);
    }
  }

  lemma CapIsPositive(size: u64)
    ensures size >= 5 ==> GrowStepCap(size) > 0
  {
  }

  // ---- and when it was not -----------------------------------------------

  /** The namespace `prod` is owned, and nothing else. */
  const PROD := FootprintPolicy({"prod"}, "owner")

  const BUSY := Volume("prod", "busy")
  const IDLE := Volume("prod", "idle")

  function IdentityOf(v: Volume): (r: VolumeIdentity) {
    VolumeIdentity(v.ns, v.name, None, false)
  }

  /** The busy volume is read as in use and mints no proof; the idle one does. */
  function BorrowedProof(): (r: seq<Event>) {
    [ReadIdentity(PROD, IdentityOf(BUSY))] + [ReadReachability(BUSY, Reachability(3, true))]
    + [ReadReachability(IDLE, Reachability(0, false))] + [ActRelease(0, 1, RebuildableFromSource, None)]
  }

  function OwnedIn0(v: Volume): (r: Minted) {
    Minted(WOwned(OwnedPvc(v.ns, v.name, 0)), Identity(PROD, IdentityOf(v)), 0)
  }

  lemma BorrowedReadings(size: u64)
    ensures Run(map[BUSY := size], BorrowedProof()[..3])
         == World(0, map[BUSY := size],
                  map[0 := OwnedIn0(BUSY),
                      1 := Minted(WNotInUse(NotInUse(0)), Reaches(IDLE, Reachability(0, false)), 0)],
                  2, {0, 1}, [])
  {
    var sizes, e := map[BUSY := size], BorrowedProof();
    RunSnoc(sizes, [], e[0]);
    RunSnoc(sizes, [e[0]], e[1]);
    RunSnoc(sizes, [e[0]] + [e[1]], e[2]);
    assert [] + [e[0]] == [e[0]] && [e[0]] + [e[1]] + [e[2]] == e[..3];
    assert Run(sizes, []) == Start(sizes);
    hide Run;
    var w1 := World(0, sizes, map[0 := OwnedIn0(BUSY)], 1, {0}, []);
    assert Step(Start(sizes), e[0]) == w1;
    assert Step(w1, e[1]) == w1;
  }

  /** A proof read for one volume releases another, attached and in use by three
      pods as read in the same tick. */
  lemma InUseIsReleased(size: u64)
    ensures var w := Run(map[BUSY := size], BorrowedProof());
            w.issued == [IssuedRelease(ReleaseCommand("prod", "busy", None, 0), 0, 1, RebuildableFromSource, None)]
            && w.issued[0].Target() == BUSY && BUSY !in w.sizes
    ensures !CallerPairs(map[BUSY := size], BorrowedProof())
  {
    var sizes, e := map[BUSY := size], BorrowedProof();
    RunSnoc(sizes, e[..3], e[3]);
    assert e[..3] + [e[3]] == e;
    BorrowedReadings(size);
    hide Run;
    var w := Step(Run(sizes, e[..3]), e[3]);
    assert w.log[1].facts.About() == IDLE;
    assert !ReadForTarget(w.log, w.issued[0]);
    ReadForTargetIff(sizes, e);
  }

  /** Two steps planned from one size in one tick. */
  function TwoPlans(): (r: seq<Event>) {
    [ReadIdentity(PROD, IdentityOf(BUSY))] + [ReadIdentity(PROD, IdentityOf(BUSY))]
    + [ReadUsage(BUSY, 2000)] + [ReadUsage(BUSY, 1001)]
  }

  function PlannedFrom1000(desired: u64, to: u64): (r: Minted) {
    Minted(WGrow(SmallAtomicGrow(1000, to, 0)), Usage(BUSY, 1000, desired), 0)
  }

  /** The world after the two plans. */
  function Planned(): (r: World) {
    World(0, map[BUSY := 1000],
          map[0 := OwnedIn0(BUSY), 1 := OwnedIn0(BUSY), 2 := PlannedFrom1000(2000, 1200),
              3 := PlannedFrom1000(1001, 1001)],
          4, {0, 1, 2, 3}, [])
  }

  lemma PlansMint()
    ensures Run(map[BUSY := 1000], TwoPlans()) == Planned()
  {
    var sizes, e := map[BUSY := 1000], TwoPlans();
    RunSnoc(sizes, [], e[0]);
    RunSnoc(sizes, [e[0]], e[1]);
    RunSnoc(sizes, [e[0]] + [e[1]], e[2]);
    RunSnoc(sizes, [e[0]] + [e[1]] + [e[2]], e[3]);
    assert [] + [e[0]] == [e[0]] && [e[0]] + [e[1]] + [e[2]] + [e[3]] == e;
    assert Run(sizes, []) == Start(sizes);
    hide Run;
    MintsInTurn();
  }

  lemma MintsInTurn()
    ensures var e := TwoPlans();
            Step(Step(Step(Step(Start(map[BUSY := 1000]), e[0]), e[1]), e[2]), e[3]) == Planned()
  {
    var e := TwoPlans();
    var w2 := World(0, map[BUSY := 1000], map[0 := OwnedIn0(BUSY), 1 := OwnedIn0(BUSY)], 2, {0, 1}, []);
    var w1 := World(0, map[BUSY := 1000], map[0 := OwnedIn0(BUSY)], 1, {0}, []);
    assert Step(Start(map[BUSY := 1000]), e[0]) == w1;
    assert Step(w1, e[1]) == w2;
    PlansInTurn(w2);
  }

  lemma PlansInTurn(w: World)
    requires w == World(0, map[BUSY := 1000], map[0 := OwnedIn0(BUSY), 1 := OwnedIn0(BUSY)], 2, {0, 1}, [])
    ensures Step(Step(w, ReadUsage(BUSY, 2000)), ReadUsage(BUSY, 1001)) == Planned()
  {
    var w3 := w.(log := w.log[2 := PlannedFrom1000(2000, 1200)], next := 3, unspent := {0, 1, 2});
    assert Step(w, ReadUsage(BUSY, 2000)) == w3;
  }

  /** Executed the larger one first, the smaller orders a size below the one it
      finds. */
  lemma OutrunStepShrinks()
    ensures var w := Run(map[BUSY := 1000], TwoPlans() + [ActGrow(0, 2, OpIdle)]);
            BUSY in w.sizes && w.sizes[BUSY] == 1200
    ensures var w := Run(map[BUSY := 1000], TwoPlans() + [ActGrow(0, 2, OpIdle)] + [ActGrow(1, 3, OpIdle)]);
            BUSY in w.sizes && w.sizes[BUSY] == 1001
  {
    PlansMint();
    RunSnoc(map[BUSY := 1000], TwoPlans(), ActGrow(0, 2, OpIdle));
    RunSnoc(map[BUSY := 1000], TwoPlans() + [ActGrow(0, 2, OpIdle)], ActGrow(1, 3, OpIdle));
    hide Run, TwoPlans;
  }
}
