/** Consent reassembly: every exclusion change starts a generation; results of older ones are refused. */
module Consent {
  import opened Wrappers
  import opened Text
  import opened EgressTypes

  /** The state as a value. */
  datatype State = State(
    generation: nat, rebuilding: bool,
    pendingPacket: Option<EgressPacket>, lastDisplay: Option<EgressPacket>,
    pendingQuery: Option<string>, excluded: seq<Path>)

  const DEFAULT := State(0, false, None, None, None, [])

  function Without(paths: seq<Path>, path: Path): seq<Path> {
    if paths == [] then []
    else Without(paths[..|paths| - 1], path) + if paths[|paths| - 1] == path then [] else [paths[|paths| - 1]]
  }

  lemma {:induction false} WithoutExactly(paths: seq<Path>, path: Path)
    ensures forall x :: x in Without(paths, path) <==> x in paths && x != path
  {
    if paths != [] { WithoutExactly(paths[..|paths| - 1], path); }
  }

  function Begun(s: State, query: string): State {
    s.(generation := (s.generation + 1) % U64_LIMIT, rebuilding := true, pendingPacket := None, pendingQuery := Some(query))
  }

  function Toggled(s: State, path: Path, exclude: bool): State {
    var excluded := if !exclude then Without(s.excluded, path) else if path in s.excluded then s.excluded else s.excluded + [path];
    Begun(s.(excluded := excluded), if s.pendingQuery.Some? then s.pendingQuery.value else "")
  }

  function Accepted(s: State, generation: nat, packet: EgressPacket): State {
    if generation != s.generation then s
    else s.(lastDisplay := Some(packet), pendingPacket := Some(packet), rebuilding := false)
  }

  predicate CanApprove(s: State) {
    !s.rebuilding && s.pendingPacket.Some?
  }

  function Taken(s: State): State {
    if CanApprove(s) then s.(pendingPacket := None, pendingQuery := None, lastDisplay := None, rebuilding := false) else s
  }

  /** What approving hands out: the packet and the query it was assembled for. */
  function HandedOut(s: State): Option<(EgressPacket, string)> {
    if CanApprove(s) then Some((s.pendingPacket.value, if s.pendingQuery.Some? then s.pendingQuery.value else "")) else None
  }

  function CancelledState(s: State): State {
    s.(pendingPacket := None, lastDisplay := None, pendingQuery := None, rebuilding := false)
  }

  class ConsentAssemblyState {
    var generation: nat
    var rebuilding: bool
    var pendingPacket: Option<EgressPacket>
    var lastDisplayPacket: Option<EgressPacket>
    var pendingQuery: Option<string>
    var userExcludedFiles: seq<Path>

    function Value(): State
      reads this
    {
      State(generation, rebuilding, pendingPacket, lastDisplayPacket, pendingQuery, userExcludedFiles)
    }

    constructor ()
      ensures Value() == DEFAULT
    {
      generation, rebuilding, pendingPacket, lastDisplayPacket, pendingQuery, userExcludedFiles := 0, false, None, None, None, [];
    }

    method Reset()
      modifies this
      ensures Value() == DEFAULT.(generation := old(generation))
      ensures pendingPacket == None && lastDisplayPacket == None && pendingQuery == None && !rebuilding && userExcludedFiles == []
      ensures generation == old(generation)
    {
      rebuilding, pendingPacket, lastDisplayPacket, pendingQuery, userExcludedFiles := false, None, None, None, [];
    }

    method BeginAssembly(query: string) returns (g: nat)
      modifies this
      ensures Value() == Begun(old(Value()), query) && g == generation
      ensures generation == (old(generation) + 1) % 0x1_0000_0000_0000_0000
      ensures rebuilding && pendingPacket == None && pendingQuery == Some(query)
      ensures lastDisplayPacket == old(lastDisplayPacket) && userExcludedFiles == old(userExcludedFiles)
    {
      generation := (generation + 1) % U64_LIMIT;
      rebuilding := true;
      pendingPacket := None;
      pendingQuery := Some(query);
      g := generation;
    }

    method ApplyExclusionToggle(path: Path, exclude: bool) returns (g: nat)
      modifies this
      ensures Value() == Toggled(old(Value()), path, exclude) && g == generation
      ensures forall x :: x in userExcludedFiles <==> if x == path then exclude else x in old(userExcludedFiles)
      ensures generation == (old(generation) + 1) % 0x1_0000_0000_0000_0000
      ensures rebuilding && pendingPacket == None && lastDisplayPacket == old(lastDisplayPacket)
      ensures pendingQuery == Some(if old(pendingQuery).Some? then old(pendingQuery).value else "")
    {
      WithoutExactly(userExcludedFiles, path);
      if exclude {
        if path !in userExcludedFiles { userExcludedFiles := userExcludedFiles + [path]; }
      } else {
        var kept: seq<Path> := [];
        var k := 0;
        while k < |userExcludedFiles|
          invariant 0 <= k <= |userExcludedFiles| && kept == Without(userExcludedFiles[..k], path)
          invariant Value() == old(Value())
        {
          assert userExcludedFiles[..k + 1][..k] == userExcludedFiles[..k];
          if userExcludedFiles[k] != path { kept := kept + [userExcludedFiles[k]]; }
          k := k + 1;
        }
        assert userExcludedFiles[..k] == userExcludedFiles;
        userExcludedFiles := kept;
      }
      var query := if pendingQuery.Some? then pendingQuery.value else "";
      g := BeginAssembly(query);
    }

    method AcceptPacket(g: nat, packet: EgressPacket) returns (accepted: bool)
      modifies this
      ensures Value() == Accepted(old(Value()), g, packet) && accepted == (g == old(generation))
      ensures generation == old(generation) && pendingQuery == old(pendingQuery) && userExcludedFiles == old(userExcludedFiles)
      ensures if g == old(generation) then pendingPacket == lastDisplayPacket == Some(packet) && !rebuilding
              else pendingPacket == old(pendingPacket) && lastDisplayPacket == old(lastDisplayPacket) && rebuilding == old(rebuilding)
    {
      if g != generation { return false; }
      lastDisplayPacket := Some(packet);
      pendingPacket := Some(packet);
      rebuilding := false;
      return true;
    }

    method TakeApprovedPacket() returns (r: Option<(EgressPacket, string)>)
      modifies this
      ensures Value() == Taken(old(Value())) && r == HandedOut(old(Value()))
      ensures r.Some? <==> old(pendingPacket).Some? && !old(rebuilding)
      ensures r.Some? ==> Some(r.value.0) == old(pendingPacket) && r.value.1 == if old(pendingQuery).Some? then old(pendingQuery).value else ""
      ensures r.Some? ==> pendingPacket == None && pendingQuery == None && lastDisplayPacket == None && !rebuilding
      ensures generation == old(generation) && userExcludedFiles == old(userExcludedFiles)
    {
      if !CanApprove(Value()) { return None; }
      var packet := pendingPacket.value;
      pendingPacket := None;
      var query := if pendingQuery.Some? then pendingQuery.value else "";
      pendingQuery := None;
      lastDisplayPacket := None;
      rebuilding := false;
      return Some((packet, query));
    }

    method Cancel()
      modifies this
      ensures Value() == CancelledState(old(Value()))
      ensures pendingPacket == None && lastDisplayPacket == None && pendingQuery == None && !rebuilding
      ensures generation == old(generation) && userExcludedFiles == old(userExcludedFiles)
    {
      pendingPacket := None;
      lastDisplayPacket := None;
      pendingQuery := None;
      rebuilding := false;
    }
  }

  // Runs: user actions interleaved with assembler results that may be late, repeated or never come.

  datatype Event =
    | BeginEvent(query: string)
    | ToggleEvent(path: Path, exclude: bool)
    | ResetEvent
    | CancelEvent
    | TakeEvent
    | DeliverEvent(generation: nat, packet: EgressPacket)

  /** An assembly that was started: for which generation, over which exclusion set. */
  datatype Job = Job(generation: nat, excluded: set<Path>)

  datatype World = World(state: State, jobs: set<Job>, begun: nat)

  const START := World(DEFAULT, {}, 0)

  /** The assembler only delivers results of jobs it was given, and leaves out what they exclude. */
  ghost predicate Legal(w: World, e: Event) {
    e.DeliverEvent? ==> exists job :: job in w.jobs && job.generation == e.generation && AvoidsAll(e.packet, job.excluded)
  }

  function Spawn(w: World, s: State): World {
    World(s, w.jobs + {Job(s.generation, Elements(s.excluded))}, w.begun + 1)
  }

  function Next(w: World, e: Event): World {
    match e
    case BeginEvent(query) => Spawn(w, Begun(w.state, query))
    case ToggleEvent(path, exclude) => Spawn(w, Toggled(w.state, path, exclude))
    case ResetEvent => w.(state := DEFAULT.(generation := w.state.generation))
    case CancelEvent => w.(state := CancelledState(w.state))
    case TakeEvent => w.(state := Taken(w.state))
    case DeliverEvent(g, packet) => w.(state := Accepted(w.state, g, packet))
  }

  function RunFrom(w: World, events: seq<Event>): World
    decreases |events|
  {
    if events == [] then w else RunFrom(Next(w, events[0]), events[1..])
  }

  ghost predicate LegalRun(w: World, events: seq<Event>)
    decreases |events|
  {
    events == [] || (Legal(w, events[0]) && LegalRun(Next(w, events[0]), events[1..]))
  }

  /** The packet is a result of an assembly started for the current generation. */
  ghost predicate OfThisGeneration(w: World, packet: EgressPacket) {
    exists job :: job in w.jobs && job.generation == w.state.generation && AvoidsAll(packet, job.excluded)
  }

  /**
   As long as no generation has come twice: the current one has at most one job, and it knows every
   current exclusion. The wrap to 0 is still a first time, since nothing is started before generation 1.
   */
  ghost predicate Guarded(w: World) {
    && w.begun <= U64_LIMIT && w.state.generation == w.begun % U64_LIMIT
    && (w.begun < U64_LIMIT ==> forall job :: job in w.jobs ==> 0 < job.generation <= w.begun)
    && (forall job :: job in w.jobs && job.generation == w.state.generation ==> Elements(w.state.excluded) <= job.excluded)
    && (w.state.pendingPacket.Some? ==>
          OfThisGeneration(w, w.state.pendingPacket.value) && AvoidsAll(w.state.pendingPacket.value, Elements(w.state.excluded)))
  }

  lemma NextGuarded(w: World, e: Event)
    requires Guarded(w) && Legal(w, e) && Next(w, e).begun <= U64_LIMIT
    ensures Guarded(Next(w, e))
  {
    assert Elements([]) == {};
  }

  lemma {:induction false} RunGuarded(w: World, events: seq<Event>)
    requires Guarded(w) && LegalRun(w, events) && RunFrom(w, events).begun <= U64_LIMIT
    ensures Guarded(RunFrom(w, events))
    decreases |events|
  {
    hide Guarded, Legal, Next;
    if events != [] {
      BegunGrows(Next(w, events[0]), events[1..]);
      NextGuarded(w, events[0]);
      RunGuarded(Next(w, events[0]), events[1..]);
    }
  }

  lemma {:induction false} BegunGrows(w: World, events: seq<Event>)
    ensures w.begun <= RunFrom(w, events).begun
    decreases |events|
  {
    if events != [] { BegunGrows(Next(w, events[0]), events[1..]); }
  }

  /** A packet that can be approved is a result of the current generation, and includes nothing that is excluded now. */
  ghost predicate Safe(w: World) {
    CanApprove(w.state) ==>
      OfThisGeneration(w, w.state.pendingPacket.value) && AvoidsAll(w.state.pendingPacket.value, Elements(w.state.excluded))
  }

  /** In every run of at most 2^64 generations, a packet that can be approved is current. */
  lemma ApprovedPacketIsCurrent(events: seq<Event>)
    requires LegalRun(START, events) && RunFrom(START, events).begun <= U64_LIMIT
    ensures Safe(RunFrom(START, events))
  {
    RunGuarded(START, events);
  }

  // Results that come late.

  /** How many generations these events start. */
  function Starts(events: seq<Event>): nat {
    if events == [] then 0 else (if events[0].BeginEvent? || events[0].ToggleEvent? then 1 else 0) + Starts(events[1..])
  }

  lemma NothingStarts(e: Event)
    requires !e.BeginEvent? && !e.ToggleEvent?
    ensures Starts([e]) == 0
  {
    assert [e][1..] == [];
  }

  lemma {:induction false} GenerationAfter(w: World, events: seq<Event>)
    requires w.state.generation < U64_LIMIT
    ensures var after := RunFrom(w, events);
      after.state.generation == (w.state.generation + Starts(events)) % U64_LIMIT && w.jobs <= after.jobs
    decreases |events|
  {
    hide Without;
    if events != [] {
      var next := Next(w, events[0]);
      GenerationAfter(next, events[1..]);
      WrapOnce(w.state.generation, Starts(events[1..]));
    }
  }

  lemma WrapOnce(g: nat, n: nat)
    requires g < U64_LIMIT
    ensures ((g + 1) % U64_LIMIT + n) % U64_LIMIT == (g + (1 + n)) % U64_LIMIT
  {
    if g + 1 == U64_LIMIT { assert g + (1 + n) == U64_LIMIT + n; }
  }

  lemma SameAfterWrap(g: nat, n: nat)
    requires g < U64_LIMIT
    ensures (g + n) % U64_LIMIT == g <==> n % U64_LIMIT == 0
  {
    var q, r := n / U64_LIMIT, n % U64_LIMIT;
    assert n == q * U64_LIMIT + r;
    if g + r < U64_LIMIT {
      assert (g + n) % U64_LIMIT == g + r;
    } else {
      assert g + n == (q + 1) * U64_LIMIT + (g + r - U64_LIMIT);
      assert (g + n) % U64_LIMIT == g + r - U64_LIMIT;
    }
  }

  /**
   A result of the generation that is current at `w`, delivered after any further events: it can be
   delivered then, and it becomes the packet to approve exactly when those events have started no
   generation (or a multiple of 2^64); cancelling and resetting do not turn it away.
   */
  lemma LateResultExactly(w: World, later: seq<Event>, packet: EgressPacket)
    requires w.state.generation < U64_LIMIT && LegalRun(w, later) && OfThisGeneration(w, packet)
    ensures var after, delivery := RunFrom(w, later), DeliverEvent(w.state.generation, packet);
      && LegalRun(w, later + [delivery])
      && RunFrom(w, later + [delivery]).state
           == if Starts(later) % U64_LIMIT == 0
              then after.state.(lastDisplay := Some(packet), pendingPacket := Some(packet), rebuilding := false)
              else after.state
  {
    hide RunFrom, LegalRun, Starts;
    var after, delivery := RunFrom(w, later), DeliverEvent(w.state.generation, packet);
    GenerationAfter(w, later);
    SameAfterWrap(w.state.generation, Starts(later));
    var job :| job in w.jobs && job.generation == w.state.generation && AvoidsAll(packet, job.excluded);
    assert job in after.jobs;
    OneEvent(after, delivery);
    RunAppend(w, later, [delivery]);
  }

  lemma OneEvent(w: World, e: Event)
    ensures RunFrom(w, [e]) == Next(w, e)
    ensures LegalRun(w, [e]) <==> Legal(w, e)
  {
    assert [e][1..] == [];
  }

  /**
   From the start: begin an assembly, cancel it or reset, and the result that then arrives is handed
   out for approval, with an empty query.
   */
  lemma LateResultIsAccepted(query: string, e: Event, packet: EgressPacket)
    requires e.CancelEvent? || e.ResetEvent?
    ensures var run := [BeginEvent(query), e, DeliverEvent(1, packet)];
      LegalRun(START, run) && HandedOut(RunFrom(START, run).state) == Some((packet, ""))
  {
    hide LegalRun, RunFrom, Starts;
    var begin := BeginEvent(query);
    var w := Next(START, begin);
    OneEvent(START, begin);
    assert Job(1, Elements([])) in w.jobs && AvoidsAll(packet, Elements([]));
    OneEvent(w, e);
    NothingStarts(e);
    LateResultExactly(w, [e], packet);
    RunAppend(START, [begin], [e] + [DeliverEvent(1, packet)]);
    assert [begin] + ([e] + [DeliverEvent(1, packet)]) == [begin, e, DeliverEvent(1, packet)];
  }

  // Past 2^64 generations the counter wraps, and the guard with it.

  function Begins(n: nat): seq<Event> {
    if n == 0 then [] else [BeginEvent("")] + Begins(n - 1)
  }

  lemma OneBegins(w: World)
    requires w.state.generation < U64_LIMIT
    ensures var next := Next(w, BeginEvent(""));
      && Legal(w, BeginEvent("")) && next.state.generation == (w.state.generation + 1) % U64_LIMIT && next.begun == w.begun + 1
      && next.state.excluded == w.state.excluded && w.jobs <= next.jobs
  {
  }

  lemma {:induction false} AfterBegins(w: World, n: nat)
    requires w.state.generation < U64_LIMIT
    ensures LegalRun(w, Begins(n))
    ensures var after := RunFrom(w, Begins(n));
      && after.state.generation == (w.state.generation + n) % U64_LIMIT && after.begun == w.begun + n
      && after.state.excluded == w.state.excluded && w.jobs <= after.jobs
    decreases n
  {
    hide Next, Legal;
    if n > 0 {
      var events := Begins(n);
      assert events[0] == BeginEvent("") && events[1..] == Begins(n - 1);
      OneBegins(w);
      AfterBegins(Next(w, events[0]), n - 1);
    }
  }

  lemma {:induction false} RunAppend(w: World, a: seq<Event>, b: seq<Event>)
    ensures RunFrom(w, a + b) == RunFrom(RunFrom(w, a), b)
    ensures LegalRun(w, a + b) <==> LegalRun(w, a) && LegalRun(RunFrom(w, a), b)
    decreases |a|
  {
    hide Legal, Next;
    if a == [] {
      assert a + b == b;
    } else {
      assert (a + b)[1..] == a[1..] + b;
      RunAppend(Next(w, a[0]), a[1..], b);
    }
  }

  /** An assembly is begun, and then a path excluded while its result is outstanding. */
  lemma BeginThenExclude(path: Path) returns (w: World)
    ensures LegalRun(START, [BeginEvent(""), ToggleEvent(path, true)])
    ensures w == RunFrom(START, [BeginEvent(""), ToggleEvent(path, true)])
    ensures w.state.generation == 2 && w.begun == 2 && w.state.excluded == [path] && Job(1, {}) in w.jobs
  {
    hide RunFrom, LegalRun, Legal;
    var begin, toggle := BeginEvent(""), ToggleEvent(path, true);
    var w1 := Next(START, begin);
    w := Next(w1, toggle);
    NotDelivered(START, begin);
    NotDelivered(w1, toggle);
    OneEvent(START, begin);
    OneEvent(w1, toggle);
    RunAppend(START, [begin], [toggle]);
    assert [begin] + [toggle] == [begin, toggle];
    assert Elements([]) == {};
    assert Job(1, Elements([])) in w1.jobs;
  }

  /** With one generation more than the counter holds, an excluded path can reach approval. */
  lemma WrappedGenerationFails(packet: EgressPacket, path: Path) returns (events: seq<Event>)
    requires path in packet.includedFiles
    ensures LegalRun(START, events) && RunFrom(START, events).begun == U64_LIMIT + 1
    ensures var s := RunFrom(START, events).state;
      CanApprove(s) && s.pendingPacket == Some(packet) && path in Elements(s.excluded)
  {
    hide Legal, Begins, RunFrom, LegalRun;
    var first := [BeginEvent(""), ToggleEvent(path, true)];
    var w2 := BeginThenExclude(path);
    AfterBegins(w2, U64_LIMIT - 1);
    var w3 := RunFrom(w2, Begins(U64_LIMIT - 1));
    var last := [DeliverEvent(1, packet)];
    Delivered(w3, 1, packet);
    OneEvent(w3, last[0]);
    RunAppend(w2, Begins(U64_LIMIT - 1), last);
    events := first + (Begins(U64_LIMIT - 1) + last);
    RunAppend(START, first, Begins(U64_LIMIT - 1) + last);
    assert [path][0] in Elements([path]);
  }

  lemma NotDelivered(w: World, e: Event)
    requires !e.DeliverEvent?
    ensures Legal(w, e)
  {
  }

  lemma Delivered(w: World, g: nat, packet: EgressPacket)
    requires Job(g, {}) in w.jobs
    ensures Legal(w, DeliverEvent(g, packet))
  {
  }

  /** Every run of at most `n` generations is safe. */
  ghost predicate SafeUpTo(n: nat) {
    forall events :: LegalRun(START, events) && RunFrom(START, events).begun <= n ==> Safe(RunFrom(START, events))
  }

  /** The generations protect for exactly 2^64 of them. */
  lemma SafeExactly(n: nat)
    ensures SafeUpTo(n) <==> n <= U64_LIMIT
  {
    hide LegalRun, RunFrom, Safe;
    if n <= U64_LIMIT {
      forall events | LegalRun(START, events) && RunFrom(START, events).begun <= n ensures Safe(RunFrom(START, events)) {
        ApprovedPacketIsCurrent(events);
      }
    } else {
      var path := ["a"];
      var packet := EgressPacket(0, "", [path], [], [], 0, 0, "", 0, "", map[]);
      var events := WrappedGenerationFails(packet, path);
      NotSafe(RunFrom(START, events), packet, path);
    }
  }

  lemma NotSafe(w: World, packet: EgressPacket, path: Path)
    requires path in packet.includedFiles && CanApprove(w.state) && w.state.pendingPacket == Some(packet) && path in Elements(w.state.excluded)
    ensures !Safe(w)
  {
  }
}
