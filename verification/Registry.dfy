/**
 Durable registration: a checkpoint is saved before each request, the server applies an
 operation at most once, and an interrupted mutation is finished from its checkpoint.
 */
module Registry {
  import opened Wrappers

  const RECOVERY_SECONDS: int := 86400

  datatype Kind = Add | Approve | Revoke | Rotate | Reconcile

  datatype DeviceState = Active | Revoked | InConflict

  datatype Row = Row(generation: nat, state: DeviceState)

  datatype Request = Request(operationId: nat, device: string, kind: Kind, details: seq<byte>)

  datatype Receipt = Receipt(operationId: nat, device: string, generation: nat, state: DeviceState)

  datatype Server = Server(store: nat, devices: map<string, Row>, operations: map<nat, Receipt>)

  // The controller endpoint, local files and administrator, and the store they reached.
  datatype Binding = Binding(profile: nat, store: nat)

  datatype Checkpoint = Checkpoint(
    binding: Binding, request: Request, alias: Option<string>, removeAlias: bool, createdAt: int)

  type Players = map<string, string>

  datatype World = World(server: Server, checkpoint: Option<Checkpoint>, players: Players)

  // What the service decides at a given time: a new generation, or a refusal; and how aliases are folded.
  datatype Service = Service(apply: (int, map<string, Row>, Request) -> Option<nat>, fold: string -> string)

  datatype Error = Rejected | Unconfirmed | NotMatching | Changed | Pending | Persistence | NoCheckpoint

  // ---------------------------------------------------------------- the server

  function Expected(kind: Kind): DeviceState { if kind == Revoke then Revoked else Active }

  predicate Accepts(service: Service, now: int, server: Server, request: Request) {
    request.operationId in server.operations || service.apply(now, server.devices, request).Some?
  }

  /** The server with this operation applied and recorded. */
  function Record(server: Server, request: Request, generation: nat): Server {
    server.(devices := server.devices[request.device := Row(generation, Expected(request.kind))],
            operations := server.operations[request.operationId :=
              Receipt(request.operationId, request.device, generation, Expected(request.kind))])
  }

  /** A request the server looks at; an operation already recorded changes nothing. */
  function Submitted(service: Service, now: int, server: Server, request: Request): Server {
    if request.operationId in server.operations then server
    else
      match service.apply(now, server.devices, request)
      case None => server
      case Some(generation) => Record(server, request, generation)
  }

  /** The server applies an operation id at most once, however often and whenever it is sent. */
  lemma AppliedOnce(service: Service, now: int, later: int, server: Server, request: Request)
    requires Accepts(service, now, server, request)
    ensures
      var once := Submitted(service, now, server, request);
      Submitted(service, later, once, request) == once && Accepts(service, later, once, request)
  {
  }

  predicate ReceiptSound(receipt: Receipt, request: Request) {
    && receipt.operationId == request.operationId
    && receipt.device == request.device
    && receipt.state == Expected(request.kind)
  }

  // ---------------------------------------------------------------- aliases

  function Found(service: Service, players: Players, name: string): set<string> {
    set key | key in players && service.fold(key) == service.fold(name)
  }

  /** At most one alias folds to this name, and it already names this device. */
  predicate CanAlias(service: Service, players: Players, name: string, device: string) {
    var found := Found(service, players, name);
    |found| <= 1 && forall key :: key in found ==> players[key] == device
  }

  ghost predicate KeyFor(service: Service, players: Players, name: string, key: string) {
    var found := Found(service, players, name);
    if found == {} then key == name else key in found
  }

  lemma KeyIsUnique(service: Service, players: Players, name: string, one: string, two: string)
    requires |Found(service, players, name)| <= 1
    requires KeyFor(service, players, name, one) && KeyFor(service, players, name, two)
    ensures one == two
  {
    var found := Found(service, players, name);
    if found != {} {
      assert found - {one} == {} by { assert |found| == |found - {one}| + 1; }
      assert two !in found - {one};
    }
  }

  lemma KeyExists(service: Service, players: Players, name: string)
    ensures exists key :: KeyFor(service, players, name, key)
  {
    var found := Found(service, players, name);
    if found == {} {
      assert KeyFor(service, players, name, name);
    } else {
      var key :| key in found;
      assert KeyFor(service, players, name, key);
    }
  }

  ghost function Realias(service: Service, players: Players, name: string, device: string, remove: bool): Players {
    KeyExists(service, players, name);
    var key :| KeyFor(service, players, name, key);
    if remove then players - {key} else players[key := device]
  }

  /** Doing the alias change again, as a resumed run does, changes nothing more. */
  lemma RealiasTwice(service: Service, players: Players, name: string, device: string, remove: bool)
    requires CanAlias(service, players, name, device)
    ensures var once := Realias(service, players, name, device, remove);
      CanAlias(service, once, name, device) && Realias(service, once, name, device, remove) == once
  {
    KeyExists(service, players, name);
    var key :| KeyFor(service, players, name, key);
    var once := Realias(service, players, name, device, remove);
    forall other | KeyFor(service, players, name, other) ensures other == key {
      KeyIsUnique(service, players, name, key, other);
    }
    var found := Found(service, players, name);
    if remove {
      assert Found(service, once, name) == {} by {
        forall other | other in Found(service, once, name) ensures false {
          assert other in found;
          assert KeyFor(service, players, name, other);
        }
      }
      assert forall other :: KeyFor(service, once, name, other) ==> other == name;
      assert name !in once by { assert name in once ==> name in Found(service, once, name); }
      assert once - {name} == once;
    } else {
      assert Found(service, once, name) == {key} by {
        forall other ensures other in Found(service, once, name) <==> other == key {
          if other in Found(service, once, name) && other != key {
            assert other in found;
            assert KeyFor(service, players, name, other);
          }
        }
      }
      assert forall other :: KeyFor(service, once, name, other) ==> other == key;
      assert once[key := device] == once;
    }
  }

  /** Two aliases differ from the name in folding only, or one does and names another device. */
  ghost predicate Taken(service: Service, players: Players, name: string, device: string) {
    || (exists a, b ::
          && a in players && b in players && a != b
          && service.fold(a) == service.fold(name) && service.fold(b) == service.fold(name))
    || (exists a :: a in players && service.fold(a) == service.fold(name) && players[a] != device)
  }

  /** Of the aliases that fold to the name one is left, or none; every other alias is as before. */
  ghost predicate Rewritten(service: Service, before: Players, name: string, device: string, remove: bool,
                            after: Players)
  {
    && (remove ==> forall key :: key in after ==> service.fold(key) != service.fold(name))
    && (!remove ==> exists key :: OnlyAlias(service, before, name, device, after, key))
    && (forall key :: service.fold(key) != service.fold(name) ==>
          (key in after <==> key in before) && (key in before ==> after[key] == before[key]))
  }

  /** The one alias that folds to the name: the one there was, under its spelling, or else the name itself. */
  ghost predicate OnlyAlias(service: Service, before: Players, name: string, device: string, after: Players,
                            key: string)
  {
    && key in after && after[key] == device && service.fold(key) == service.fold(name)
    && (forall other :: other in after && service.fold(other) == service.fold(name) ==> other == key)
    && (forall other :: other in before && service.fold(other) == service.fold(name) ==> other == key)
    && (key !in before ==> key == name)
  }

  lemma FreeUnlessTaken(service: Service, players: Players, name: string, device: string)
    ensures CanAlias(service, players, name, device) <==> !Taken(service, players, name, device)
  {
    var found := Found(service, players, name);
    if |found| <= 1 {
      forall a, b | a in found && b in found ensures a == b {
        KeyIsUnique(service, players, name, a, b);
      }
      assert forall a :: a in players && service.fold(a) == service.fold(name) ==> a in found;
    } else {
      var a :| a in found;
      assert found - {a} != {} by { assert |found - {a}| == |found| - 1; }
      var b :| b in found - {a};
      assert a in players && b in players && a != b;
    }
  }

  /** What rewriting a free alias does, in terms of folding alone. */
  lemma RealiasRewrites(service: Service, players: Players, name: string, device: string, remove: bool)
    requires CanAlias(service, players, name, device)
    ensures Rewritten(service, players, name, device, remove, Realias(service, players, name, device, remove))
  {
    KeyExists(service, players, name);
    var key :| KeyFor(service, players, name, key);
    forall other | KeyFor(service, players, name, other) ensures other == key {
      KeyIsUnique(service, players, name, key, other);
    }
    var after := Realias(service, players, name, device, remove);
    assert after == if remove then players - {key} else players[key := device];
    forall other | other in players && service.fold(other) == service.fold(name) ensures other == key {
      assert other in Found(service, players, name);
      assert KeyFor(service, players, name, other);
    }
    assert service.fold(key) == service.fold(name);
    if !remove { assert OnlyAlias(service, players, name, device, after, key); }
  }

  // ---------------------------------------------------------------- one mutation

  /** A mutation about to start: nothing pending, a fresh operation, an alias that is free. */
  ghost predicate Ready(service: Service, start: World, profile: nat, checkpoint: Checkpoint) {
    && start.checkpoint == None
    && checkpoint.binding == Binding(profile, start.server.store)
    && checkpoint.request.operationId !in start.server.operations
    && (checkpoint.alias.Some? ==> CanAlias(service, start.players, checkpoint.alias.value, checkpoint.request.device))
    && (checkpoint.removeAlias ==> checkpoint.alias.Some? && checkpoint.request.kind == Revoke)
    && (checkpoint.alias.Some? ==> checkpoint.removeAlias || checkpoint.request.kind in {Add, Approve})
  }

  ghost function Begun(start: World, checkpoint: Checkpoint): World {
    start.(checkpoint := Some(checkpoint))
  }

  ghost function Applied(start: World, checkpoint: Checkpoint, generation: nat): World {
    Begun(start, checkpoint).(server := Record(start.server, checkpoint.request, generation))
  }

  ghost function Renamed(service: Service, start: World, checkpoint: Checkpoint): Players {
    if checkpoint.alias.None? then start.players
    else Realias(service, start.players, checkpoint.alias.value, checkpoint.request.device, checkpoint.removeAlias)
  }

  ghost function Named(service: Service, start: World, checkpoint: Checkpoint, generation: nat): World {
    Applied(start, checkpoint, generation).(players := Renamed(service, start, checkpoint))
  }

  /** Where the mutation ends when nothing interrupts it and the server applies it. */
  ghost function Final(service: Service, start: World, checkpoint: Checkpoint, generation: nat): World {
    Named(service, start, checkpoint, generation).(checkpoint := None)
  }

  /**
   How a mutation ends: applied and confirmed; given up after a refusal with nothing applied;
   or given up after a refusal although an earlier copy of the request had been applied.
   */
  datatype Fate = Completed(generation: nat) | TurnedAway | Overtaken(generation: nat)

  /** A generation the service may have chosen for this request, at some time. */
  ghost predicate Granted(service: Service, start: World, checkpoint: Checkpoint, generation: nat) {
    exists now: int :: service.apply(now, start.server.devices, checkpoint.request) == Some(generation)
  }

  const END: nat := 4

  /**
   The durable states of one mutation, in order: not begun, begun, applied, alias done, ended.
   A mutation turned away goes from begun straight to its end, which is where it started.
   */
  ghost function StageAt(service: Service, start: World, checkpoint: Checkpoint, fate: Fate, rank: nat): World {
    if rank == 0 then start
    else if rank == 1 then Begun(start, checkpoint)
    else
      match fate
      case TurnedAway => start
      case Overtaken(generation) =>
        var applied := Applied(start, checkpoint, generation);
        if rank == 2 then applied else applied.(checkpoint := None)
      case Completed(generation) =>
        if rank == 2 then Applied(start, checkpoint, generation)
        else if rank == 3 then Named(service, start, checkpoint, generation)
        else Final(service, start, checkpoint, generation)
  }

  /** Up to this rank the two fates share every stage. */
  predicate Agrees(fate: Fate, other: Fate, rank: nat) {
    || fate == other
    || rank <= 1
    || (rank == 2 && fate != TurnedAway && other != TurnedAway && fate.generation == other.generation)
  }

  /** These worlds are stages between two ranks, and none is before an earlier one. */
  ghost predicate Forward(service: Service, start: World, checkpoint: Checkpoint, fate: Fate,
                          from: nat, to: nat, worlds: seq<World>, ranks: seq<nat>)
  {
    && from <= to <= END && |worlds| == |ranks|
    && (forall i :: 0 <= i < |ranks| ==>
          from <= ranks[i] <= to && worlds[i] == StageAt(service, start, checkpoint, fate, ranks[i]))
    && (forall i :: 0 < i < |ranks| ==> ranks[i - 1] <= ranks[i])
  }

  /** What has happened so far does not depend on how it will end. */
  lemma Refate(service: Service, start: World, checkpoint: Checkpoint, fate: Fate, other: Fate,
               from: nat, to: nat, worlds: seq<World>, ranks: seq<nat>)
    requires Forward(service, start, checkpoint, fate, from, to, worlds, ranks) && Agrees(fate, other, to)
    ensures Forward(service, start, checkpoint, other, from, to, worlds, ranks)
  {
  }

  /** A forward stretch followed by one from where it ended is a forward stretch. */
  lemma ForwardJoin(service: Service, start: World, checkpoint: Checkpoint, fate: Fate, other: Fate, from: nat,
                    middle: nat, to: nat, worlds: seq<World>, ranks: seq<nat>, more: seq<World>, higher: seq<nat>)
    requires Forward(service, start, checkpoint, fate, from, middle, worlds, ranks) && Agrees(fate, other, middle)
    requires Forward(service, start, checkpoint, other, middle, to, more, higher)
    ensures Forward(service, start, checkpoint, other, from, to, worlds + more, ranks + higher)
  {
    Refate(service, start, checkpoint, fate, other, from, middle, worlds, ranks);
  }

  /** Worlds that are all at the same stage. */
  lemma Plateau(service: Service, start: World, checkpoint: Checkpoint, fate: Fate, from: nat, rank: nat,
                worlds: seq<World>)
    returns (ranks: seq<nat>)
    requires from <= rank <= END
    requires forall i :: 0 <= i < |worlds| ==> worlds[i] == StageAt(service, start, checkpoint, fate, rank)
    ensures Forward(service, start, checkpoint, fate, from, rank, worlds, ranks)
  {
    ranks := seq(|worlds|, i => rank);
  }

  lemma Pieces(first: seq<World>, second: seq<World>, third: seq<World>)
    requires first <= second <= third
    ensures third[|first|..] == second[|first|..] + third[|second|..]
  {
  }

  datatype Reply = Accepted(receipt: Receipt) | Refused | Lost

  // One request as it left, with the checkpoint on disk at that moment, and its reply. When it
  // reached the server: whether the operation stood recorded, whether the service would accept
  // it, and whether it was turned away unjudged, as by a rate limit.
  datatype Sent = Sent(
    request: Request, checkpoint: Option<Checkpoint>, recorded: bool, acceptable: bool, throttled: bool, reply: Reply)

  /** An answered request is refused exactly when it was turned away or not acceptable. */
  predicate Fair(entry: Sent) {
    && (entry.recorded ==> entry.acceptable)
    && (!entry.reply.Lost? ==> (entry.reply.Refused? <==> entry.throttled || !entry.acceptable))
  }

  /** One request: what it, and a copy lost earlier and still under way, may do to the world. */
  ghost predicate Posting(service: Service, before: World, flying: bool, now: int, entry: Sent, after: World) {
    && before.checkpoint.Some? && before.checkpoint.value.request == entry.request
    && entry.checkpoint == before.checkpoint && Fair(entry)
    && (after == before || after == before.(server := Submitted(service, now, before.server, entry.request)))
    && (entry.recorded ==> entry.request.operationId in after.server.operations)
    && (!flying ==> (entry.recorded <==> entry.request.operationId in before.server.operations))
    && (entry.reply.Refused? && !entry.recorded ==> after == before)
    && (entry.reply.Accepted? ==>
          && entry.request.operationId in after.server.operations
          && entry.reply.receipt == after.server.operations[entry.request.operationId])
  }

  /** Whether the last request sent after these was turned away. */
  predicate Turned(before: seq<Sent>, after: seq<Sent>) {
    |after| > |before| && after[|after| - 1].reply.Refused?
  }

  /** At most one request of this checkpoint, meeting a record only if a copy was under way. */
  predicate Attempt(before: seq<Sent>, flying: bool, after: seq<Sent>, still: bool, checkpoint: Checkpoint) {
    && before <= after && |after| <= |before| + 1 && Repeats(after, |before|, checkpoint)
    && (|after| > |before| && after[|before|].recorded ==> flying)
    && (still ==> flying || (|after| > |before| && after[|before|].reply.Lost?))
  }

  /** A mutation ended by this attempt is complete exactly when no request of it was turned away. */
  predicate EndsBy(before: seq<Sent>, after: seq<Sent>, fate: Fate) {
    && (fate.Completed? <==> !Turned(before, after))
    && (fate.Overtaken? ==> |after| > 0 && after[|after| - 1].recorded)
  }

  /** All later requests carry the checkpointed one, checkpoint on disk, and are answered fairly. */
  predicate Repeats(sent: seq<Sent>, from: nat, checkpoint: Checkpoint) {
    forall i :: from <= i < |sent| ==>
      sent[i].request == checkpoint.request && sent[i].checkpoint == Some(checkpoint) && Fair(sent[i])
  }

  class Session {
    const service: Service
    const profile: nat
    var world: World
    // A copy of the request may still be under way, left by a lost exchange.
    var flying: bool
    ghost var visited: seq<World>
    ghost var faults: nat
    ghost var sent: seq<Sent>

    ghost predicate Valid()
      reads this
    {
      |visited| > 0 && visited[|visited| - 1] == world
    }

    constructor (service: Service, profile: nat, world: World, flying: bool)
      ensures Valid() && this.service == service && this.profile == profile && this.world == world
      ensures this.flying == flying && visited == [world] && faults == 0 && sent == []
    {
      this.service, this.profile, this.world, this.flying := service, profile, world, flying;
      visited, faults, sent := [world], 0, [];
    }

    method Commit(next: World)
      modifies this`world, this`visited
      ensures Valid() && world == next && visited == old(visited) + [next]
    {
      world, visited := next, visited + [next];
    }

    /** A read, a deadline or a network exchange that changes nothing. */
    method Touch() returns (ok: bool)
      modifies this`faults
      ensures faults == old(faults) + if ok then 0 else 1
    {
      ok := *;
      if !ok { faults := faults + 1; }
    }

    /** A copy that was lost earlier may reach the server at any time. */
    method Arrive(request: Request) returns (now: int)
      requires Valid()
      modifies this`world, this`visited
      ensures Valid() && old(visited) <= visited
      ensures world == old(world)
        || (flying && world == old(world).(server := Submitted(service, now, old(world).server, request)))
      ensures visited == old(visited) || request.operationId in world.server.operations
      ensures forall i :: |old(visited)| <= i < |visited| ==> visited[i] == world
    {
      now := *;
      var arrives: bool := *;
      if flying && arrives && Accepts(service, now, world.server, request) {
        Commit(world.(server := Submitted(service, now, world.server, request)));
      }
    }

    /**
     Only a request that is durably checkpointed may leave. The server may turn it away without
     looking at it, refuse it, or apply it; the exchange may be lost either way.
     */
    method Post(request: Request) returns (reply: Reply, ghost now: int)
      requires Valid() && world.checkpoint.Some? && world.checkpoint.value.request == request
      modifies this
      ensures Valid() && old(visited) <= visited
      ensures faults == old(faults) + if reply == Lost then 1 else 0
      ensures flying ==> old(flying) || reply == Lost
      ensures |sent| == |old(sent)| + 1 && old(sent) <= sent
      ensures sent[|old(sent)|].request == request && sent[|old(sent)|].reply == reply
      ensures Posting(service, old(world), old(flying), now, sent[|old(sent)|], world)
      ensures forall i :: |old(visited)| <= i < |visited| ==> visited[i] == world
    {
      var checkpoint := world.checkpoint;
      var copied := Arrive(request);
      var recorded := request.operationId in world.server.operations;
      var arrives: bool, throttled: bool, answered: bool := *, *, *;
      var judged: int := *;
      var acceptable := Accepts(service, judged, world.server, request);
      now := if recorded then copied else judged;
      if arrives && !throttled && acceptable && !recorded {
        Commit(world.(server := Submitted(service, judged, world.server, request)));
      }
      if !arrives || !answered {
        faults, flying := faults + 1, flying || !arrives;
        reply := Lost;
      } else if throttled || !acceptable {
        reply := Refused;
      } else {
        reply := Accepted(world.server.operations[request.operationId]);
      }
      sent := sent + [Sent(request, checkpoint, recorded, acceptable, throttled, reply)];
    }

    /** The operation's recorded receipt: absent, present, or unknown after a failed read. */
    method ReadOperation(id: nat) returns (receipt: Option<Receipt>, ok: bool)
      modifies this`faults
      ensures faults == old(faults) + if ok then 0 else 1
      ensures ok ==> receipt == if id in world.server.operations then Some(world.server.operations[id]) else None
    {
      ok := Touch();
      receipt := if ok && id in world.server.operations then Some(world.server.operations[id]) else None;
    }

    method SaveCheckpoint(checkpoint: Checkpoint) returns (ok: bool)
      requires Valid()
      modifies this
      ensures Valid() && old(visited) <= visited && sent == old(sent) && flying == old(flying)
      ensures faults == old(faults) + if ok then 0 else 1
      ensures ok ==> world == old(world).(checkpoint := Some(checkpoint))
      ensures world == old(world) || world == old(world).(checkpoint := Some(checkpoint))
      ensures visited == old(visited) || world == old(world).(checkpoint := Some(checkpoint))
      ensures forall i :: |old(visited)| <= i < |visited| ==> visited[i] == world
    {
      var replaced: bool := *;
      ok := *;
      if replaced || ok { Commit(world.(checkpoint := Some(checkpoint))); }
      if !ok { faults := faults + 1; }
    }

    method RemoveCheckpoint() returns (ok: bool)
      requires Valid()
      modifies this
      ensures Valid() && old(visited) <= visited && sent == old(sent) && flying == old(flying)
      ensures faults == old(faults) + if ok then 0 else 1
      ensures ok ==> world == old(world).(checkpoint := None)
      ensures world == old(world) || world == old(world).(checkpoint := None)
      ensures forall i :: |old(visited)| <= i < |visited| ==> visited[i] == world
    {
      var unlinked: bool := *;
      ok := *;
      if unlinked || ok { Commit(world.(checkpoint := None)); }
      if !ok { faults := faults + 1; }
    }

    /** Rewrites the local alias map in one durable replacement. */
    method UpdateAlias(name: string, device: string, remove: bool) returns (ok: bool)
      requires Valid()
      modifies this
      ensures Valid() && old(visited) <= visited && sent == old(sent) && flying == old(flying)
      ensures faults >= old(faults)
      ensures ok ==> faults == old(faults) && CanAlias(service, old(world).players, name, device)
      ensures ok ==> world == old(world).(players := Realias(service, old(world).players, name, device, remove))
      ensures !ok && faults == old(faults) ==> !CanAlias(service, old(world).players, name, device)
      // The same in terms of folding alone: what is written, and when nothing may be.
      ensures ok ==> Rewritten(service, old(world).players, name, device, remove, world.players)
      ensures faults == old(faults) ==> (ok <==> !Taken(service, old(world).players, name, device))
      ensures world == old(world)
        || (CanAlias(service, old(world).players, name, device)
            && world == old(world).(players := Realias(service, old(world).players, name, device, remove)))
      ensures forall i :: |old(visited)| <= i < |visited| ==> visited[i] == world
    {
      ok := Touch();
      if !ok { return; }
      var players := world.players;
      FreeUnlessTaken(service, players, name, device);
      if !CanAlias(service, players, name, device) { return false; }
      var found := Found(service, players, name);
      var key := name;
      if found != {} { key :| key in found; }
      forall other | KeyFor(service, players, name, other) ensures other == key {
        KeyIsUnique(service, players, name, key, other);
      }
      var next := if remove then players - {key} else players[key := device];
      assert next == Realias(service, players, name, device, remove);
      RealiasRewrites(service, players, name, device, remove);
      var replaced: bool := *;
      ok := *;
      if replaced || ok { Commit(world.(players := next)); }
      if !ok { faults := faults + 1; }
    }

    /**
     Reads the inventory again: the store is the same, the device still has the receipt's
     generation and state; only then is the alias changed.
     */
    method Confirm(checkpoint: Checkpoint, receipt: Receipt) returns (error: Option<Error>)
      requires Valid()
      modifies this
      ensures Valid() && old(visited) <= visited && sent == old(sent) && flying == old(flying)
      ensures faults >= old(faults)
      ensures
        || world == old(world)
        || (Confirmed(old(world), checkpoint, receipt) && world == AliasDone(old(world), checkpoint, receipt))
      ensures error.None? ==> faults == old(faults) && Confirmed(old(world), checkpoint, receipt)
      ensures error.None? ==> world == AliasDone(old(world), checkpoint, receipt)
      ensures error.Some? && faults == old(faults) ==> !Confirmed(old(world), checkpoint, receipt)
      ensures error != Some(Rejected)
      ensures forall i :: |old(visited)| <= i < |visited| ==> visited[i] == world
    {
      var ok := Touch();
      if !ok { return Some(Unconfirmed); }
      if Binding(profile, world.server.store) != checkpoint.binding { return Some(Changed); }
      if receipt.device !in world.server.devices
         || world.server.devices[receipt.device] != Row(receipt.generation, receipt.state) {
        return Some(Changed);
      }
      error := None;
      if checkpoint.alias.Some? {
        ok := UpdateAlias(checkpoint.alias.value, receipt.device, checkpoint.removeAlias);
        if !ok { error := Some(Persistence); }
      }
    }

    /** The inventory agrees with the receipt and the alias may be changed. */
    ghost predicate Confirmed(world: World, checkpoint: Checkpoint, receipt: Receipt) {
      && Binding(profile, world.server.store) == checkpoint.binding
      && receipt.device in world.server.devices
      && world.server.devices[receipt.device] == Row(receipt.generation, receipt.state)
      && (checkpoint.alias.Some? ==> CanAlias(service, world.players, checkpoint.alias.value, receipt.device))
    }

    ghost function AliasDone(world: World, checkpoint: Checkpoint, receipt: Receipt): World {
      if checkpoint.alias.None? then world
      else
        var alias, players := checkpoint.alias.value, world.players;
        world.(players := Realias(service, players, alias, receipt.device, checkpoint.removeAlias))
    }

    /** Confirms a receipt and only then forgets the checkpoint: first the alias, then the checkpoint. */
    method Finish(checkpoint: Checkpoint, receipt: Receipt)
      returns (error: Option<Error>, ghost middle: World, ghost split: seq<World>)
      requires Valid()
      modifies this
      ensures Valid() && old(visited) <= split <= visited && sent == old(sent) && flying == old(flying)
      ensures faults >= old(faults)
      ensures forall i :: |old(visited)| <= i < |split| ==> split[i] == middle
      ensures forall i :: |split| <= i < |visited| ==> visited[i] == world
      ensures middle == old(world)
        || (Settled(old(world), checkpoint, receipt) && middle == AliasDone(old(world), checkpoint, receipt))
      ensures world == middle
        || (&& Settled(old(world), checkpoint, receipt) && middle == AliasDone(old(world), checkpoint, receipt)
            && world == middle.(checkpoint := None))
      ensures error.None? ==> Settled(old(world), checkpoint, receipt)
      ensures error.None? ==> world == AliasDone(old(world), checkpoint, receipt).(checkpoint := None)
      ensures error.Some? && faults == old(faults) ==> !Settled(old(world), checkpoint, receipt)
      ensures error != Some(Rejected)
      ensures error.None? ==> faults == old(faults)
    {
      middle, split := world, visited;
      if !ReceiptSound(receipt, checkpoint.request) { return Some(Unconfirmed), middle, split; }
      error := Confirm(checkpoint, receipt);
      middle, split := world, visited;
      if error.Some? { return; }
      var ok := RemoveCheckpoint();
      if !ok { error := Some(Persistence); }
    }

    /** The receipt answers this request and the inventory agrees with it. */
    ghost predicate Settled(before: World, checkpoint: Checkpoint, receipt: Receipt) {
      && receipt.operationId == checkpoint.request.operationId && receipt.device == checkpoint.request.device
      && (if checkpoint.request.kind == Revoke then receipt.state == Revoked else receipt.state == Active)
      && Confirmed(before, checkpoint, receipt)
    }

    /** Once applied, the recorded receipt is confirmed, and confirming it leads to the last two stages. */
    lemma AppliedIsSettled(start: World, checkpoint: Checkpoint, generation: nat, rank: nat, receipt: Receipt)
      requires Ready(service, start, profile, checkpoint) && (rank == 2 || rank == 3)
      requires
        var before := StageAt(service, start, checkpoint, Completed(generation), rank);
        receipt == before.server.operations[checkpoint.request.operationId]
      ensures
        var fate := Completed(generation);
        var before := StageAt(service, start, checkpoint, fate, rank);
        && Settled(before, checkpoint, receipt)
        && AliasDone(before, checkpoint, receipt) == StageAt(service, start, checkpoint, fate, 3)
        && AliasDone(before, checkpoint, receipt).(checkpoint := None) == StageAt(service, start, checkpoint, fate, END)
    {
      if checkpoint.alias.Some? {
        RealiasTwice(service, start.players, checkpoint.alias.value, checkpoint.request.device, checkpoint.removeAlias);
      }
    }

    /** Finishing an applied mutation: forward from its stage, and to the end unless disturbed. */
    method FinishApplied(checkpoint: Checkpoint, receipt: Receipt, ghost start: World, ghost generation: nat,
                         ghost rank: nat)
      returns (error: Option<Error>, ghost to: nat, ghost ranks: seq<nat>)
      requires Valid() && Ready(service, start, profile, checkpoint) && (rank == 2 || rank == 3)
      requires world == StageAt(service, start, checkpoint, Completed(generation), rank)
      requires receipt == world.server.operations[checkpoint.request.operationId]
      modifies this
      ensures Valid() && old(visited) <= visited && sent == old(sent) && flying == old(flying)
      ensures faults >= old(faults) && error != Some(Rejected)
      ensures Forward(service, start, checkpoint, Completed(generation), rank, to, visited[|old(visited)|..], ranks)
      ensures world == StageAt(service, start, checkpoint, Completed(generation), to)
      ensures faults == old(faults) || error.None? ==> error.None? && to == END
      ensures error.None? ==> faults == old(faults)
    {
      ghost var before, from, fate := visited, world, Completed(generation);
      AppliedIsSettled(start, checkpoint, generation, rank, receipt);
      ghost var middle, split;
      error, middle, split := Finish(checkpoint, receipt);
      ghost var half := if middle == from then rank else 3;
      to := if error.Some? && world == middle then half else END;
      ghost var low := Plateau(service, start, checkpoint, fate, rank, half, split[|before|..]);
      ghost var high := Plateau(service, start, checkpoint, fate, half, to, visited[|split|..]);
      ranks := low + high;
      Pieces(before, split, visited);
      ForwardJoin(service, start, checkpoint, fate, fate, rank, half, to, split[|before|..], low, visited[|split|..],
        high);
    }

    /** How a posted request leaves the mutation: its stage, and what a refusal then means. */
    ghost predicate Posted(start: World, checkpoint: Checkpoint, entry: Sent, fate: Fate, rank: nat, after: World) {
      && 1 <= rank <= 2 && after == StageAt(service, start, checkpoint, fate, rank)
      && (entry.reply.Refused? ==> fate == TurnedAway || (fate.Overtaken? && rank == 2))
      && (entry.reply.Refused? ==> (fate.Overtaken? <==> entry.recorded)) && (fate.Overtaken? ==> entry.recorded)
      && (entry.reply.Accepted? ==>
            fate.Completed? && rank == 2
            && entry.reply.receipt == after.server.operations[checkpoint.request.operationId])
      && (entry.reply.Lost? ==> rank == 1 || fate.Completed?)
    }

    /** Whatever one request does from the begun stage, it leaves a stage of some fate. */
    lemma PostedSomewhere(start: World, checkpoint: Checkpoint, flying: bool, now: int, entry: Sent, after: World)
      returns (fate: Fate, rank: nat)
      requires Ready(service, start, profile, checkpoint)
      requires Posting(service, Begun(start, checkpoint), flying, now, entry, after)
      ensures Posted(start, checkpoint, entry, fate, rank, after)
      ensures fate == TurnedAway || Granted(service, start, checkpoint, fate.generation)
    {
      fate, rank := TurnedAway, 1;
      if after != Begun(start, checkpoint) {
        var generation := service.apply(now, start.server.devices, checkpoint.request).value;
        fate, rank := if entry.reply.Refused? then Overtaken(generation) else Completed(generation), 2;
      }
    }

    /** Sends the checkpointed request and finishes on a confirmed receipt. */
    method Send(checkpoint: Checkpoint, ghost start: World)
      returns (error: Option<Error>, ghost fate: Fate, ghost to: nat, ghost ranks: seq<nat>)
      requires Valid() && Ready(service, start, profile, checkpoint)
      requires world == Begun(start, checkpoint)
      modifies this
      ensures Valid() && old(visited) <= visited && faults >= old(faults)
      ensures Forward(service, start, checkpoint, fate, 1, to, visited[|old(visited)|..], ranks)
      ensures world == StageAt(service, start, checkpoint, fate, to) && to >= 1
      ensures fate == TurnedAway || Granted(service, start, checkpoint, fate.generation)
      ensures |sent| == |old(sent)| + 1 && Attempt(old(sent), old(flying), sent, flying, checkpoint)
      ensures fate.Overtaken? ==> sent[|old(sent)|].recorded
      ensures world.checkpoint.None? ==> EndsBy(old(sent), sent, fate)
      ensures error == Some(Rejected) ==> to == END && !fate.Completed?
      ensures faults == old(faults) || error.None? ==> to == END
      ensures error.None? ==> fate.Completed?
      ensures error.None? ==> faults == old(faults)
    {
      ghost var before := visited;
      var reply, now := Post(checkpoint.request);
      ghost var posted, rank, high := visited, 1, [];
      fate, rank := PostedSomewhere(start, checkpoint, old(flying), now, sent[|old(sent)|], world);
      ghost var low := Plateau(service, start, checkpoint, fate, 1, rank, posted[|before|..]);
      match reply {
        case Lost =>
          error, to := Some(Unconfirmed), rank;
          high := Plateau(service, start, checkpoint, fate, rank, rank, visited[|posted|..]);
        case Refused =>
          error, to, high := Drop(checkpoint, start, fate, rank);
        case Accepted(acknowledged) =>
          error, to, high := Settle(checkpoint, acknowledged, start, fate.generation);
      }
      Pieces(before, posted, visited);
      ranks := low + high;
      ForwardJoin(service, start, checkpoint, fate, fate, 1, rank, to, posted[|before|..], low, visited[|posted|..],
        high);
    }

    /** After a refusal the checkpoint is dropped, whatever made the server refuse. */
    method Drop(checkpoint: Checkpoint, ghost start: World, ghost fate: Fate, ghost rank: nat)
      returns (error: Option<Error>, ghost to: nat, ghost ranks: seq<nat>)
      requires Valid() && Ready(service, start, profile, checkpoint)
      requires (fate == TurnedAway && rank == 1) || (fate.Overtaken? && rank == 2)
      requires world == StageAt(service, start, checkpoint, fate, rank)
      modifies this
      ensures Valid() && old(visited) <= visited && sent == old(sent) && flying == old(flying)
      ensures faults >= old(faults)
      ensures Forward(service, start, checkpoint, fate, rank, to, visited[|old(visited)|..], ranks)
      ensures world == StageAt(service, start, checkpoint, fate, to)
      ensures error == Some(Rejected) || error == Some(Persistence)
      ensures faults == old(faults) <==> error == Some(Rejected)
      ensures error == Some(Rejected) ==> to == END
    {
      ghost var before, from := visited, world;
      var removed := RemoveCheckpoint();
      error := Some(if removed then Rejected else Persistence);
      to := if !removed && world == from then rank else END;
      ranks := Plateau(service, start, checkpoint, fate, rank, to, visited[|before|..]);
    }

    /** A pairing approval carries no receipt of its own: the recorded one is fetched. */
    method Settle(checkpoint: Checkpoint, acknowledged: Receipt, ghost start: World, ghost generation: nat)
      returns (error: Option<Error>, ghost to: nat, ghost ranks: seq<nat>)
      requires Valid() && Ready(service, start, profile, checkpoint)
      requires world == Applied(start, checkpoint, generation)
      requires acknowledged == world.server.operations[checkpoint.request.operationId]
      modifies this
      ensures Valid() && old(visited) <= visited && sent == old(sent) && flying == old(flying)
      ensures faults >= old(faults) && error != Some(Rejected)
      ensures Forward(service, start, checkpoint, Completed(generation), 2, to, visited[|old(visited)|..], ranks)
      ensures world == StageAt(service, start, checkpoint, Completed(generation), to)
      ensures faults == old(faults) || error.None? ==> error.None? && to == END
      ensures error.None? ==> faults == old(faults)
    {
      var receipt := acknowledged;
      to, ranks := 2, [];
      if checkpoint.request.kind == Approve {
        var recorded, ok := ReadOperation(checkpoint.request.operationId);
        if !ok { return Some(Unconfirmed), 2, []; }
        receipt := recorded.value;
      }
      error, to, ranks := FinishApplied(checkpoint, receipt, start, generation, 2);
    }

    /** Starts a mutation: the checkpoint is durable before the request leaves. */
    method Mutate(checkpoint: Checkpoint)
      returns (error: Option<Error>, ghost fate: Fate, ghost to: nat, ghost ranks: seq<nat>)
      requires Valid() && (world.checkpoint.None? ==> !flying && Ready(service, world, profile, checkpoint))
      modifies this
      ensures Valid() && old(visited) <= visited && old(sent) <= sent && faults >= old(faults)
      ensures old(world).checkpoint.Some? ==>
        error.Some? && world == old(world) && visited == old(visited) && sent == old(sent)
      ensures old(world).checkpoint.None? ==>
        && Forward(service, old(world), checkpoint, fate, 0, to, visited[|old(visited)|..], ranks)
        && world == StageAt(service, old(world), checkpoint, fate, to) && !fate.Overtaken?
      ensures fate.Completed? ==> Granted(service, old(world), checkpoint, fate.generation)
      ensures Attempt(old(sent), false, sent, flying, checkpoint) || old(world).checkpoint.Some?
      ensures to == END ==> (fate == TurnedAway <==> Turned(old(sent), sent))
      ensures old(world).checkpoint.None? && (faults == old(faults) || error.None?) ==> to == END
      ensures error.None? ==> faults == old(faults)
    {
      fate, to, ranks := TurnedAway, 0, [];
      if world.checkpoint.Some? { return Some(Pending), fate, 0, []; }
      ghost var start, before := world, visited;
      var saved := SaveCheckpoint(checkpoint);
      ghost var marked := visited;
      to := if !saved && world == start then 0 else 1;
      ghost var low := Plateau(service, start, checkpoint, fate, 0, to, marked[|before|..]);
      ghost var high: seq<nat> := [];
      ghost var from := to;
      if saved {
        error, fate, to, high := Send(checkpoint, start);
      } else {
        error := Some(Persistence);
      }
      Pieces(before, marked, visited);
      ranks := low + high;
      ForwardJoin(service, start, checkpoint, TurnedAway, fate, 0, from, to, marked[|before|..], low,
        visited[|marked|..], high);
    }

    /** A checkpoint left by another profile or for another store. */
    ghost predicate Foreign(world: World) {
      world.checkpoint.Some? && world.checkpoint.value.binding != Binding(profile, world.server.store)
    }

    /** What an interrupted mutation left: a stage of it that could still end as the fate says. */
    ghost predicate Left(start: World, checkpoint: Checkpoint, fate: Fate, rank: nat, world: World) {
      && Ready(service, start, profile, checkpoint) && rank <= END
      && world == StageAt(service, start, checkpoint, fate, rank)
    }

    /** One late copy from a stage with a checkpoint: nothing changes but that a begun mutation may be applied. */
    lemma ArrivedLate(start: World, checkpoint: Checkpoint, fate: Fate, rank: nat, before: World, now: int,
                      after: World)
      returns (other: Fate, to: nat)
      requires Left(start, checkpoint, fate, rank, before) && before.checkpoint.Some?
      requires after == before
        || after == before.(server := Submitted(service, now, before.server, checkpoint.request))
      ensures 1 <= rank <= to <= 3 && after == StageAt(service, start, checkpoint, other, to)
      ensures Agrees(fate, other, rank) && (to == 1 || other.Completed?)
      ensures to == 1 <==> checkpoint.request.operationId !in after.server.operations
      ensures rank == 1 && to > 1 ==> Granted(service, start, checkpoint, other.generation)
      ensures rank > 1 ==> to == rank && fate != TurnedAway && other.generation == fate.generation
    {
      if rank > 1 {
        other, to := Completed(fate.generation), rank;
      } else if after == before {
        other, to := fate, 1;
      } else {
        other, to := Completed(service.apply(now, start.server.devices, checkpoint.request).value), 2;
      }
    }

    /** From what the server has recorded: the request again, or the confirmation of its receipt. */
    method Proceed(checkpoint: Checkpoint, ghost start: World, ghost fate: Fate, ghost rank: nat)
      returns (error: Option<Error>, ghost end: Fate, ghost to: nat, ghost ranks: seq<nat>)
      requires Valid() && Left(start, checkpoint, fate, rank, world) && 1 <= rank <= 3
      requires rank == 1 || fate.Completed?
      modifies this
      ensures Valid() && old(visited) <= visited && faults >= old(faults)
      ensures Forward(service, start, checkpoint, end, rank, to, visited[|old(visited)|..], ranks)
      ensures Left(start, checkpoint, end, to, world) && Agrees(fate, end, rank)
      ensures Attempt(old(sent), old(flying), sent, flying, checkpoint)
      ensures world.checkpoint.None? ==> EndsBy(old(sent), sent, end)
      ensures error == Some(Rejected) ==> to == END && Turned(old(sent), sent)
      ensures faults == old(faults) || error.None? ==> to == END
      ensures error.None? ==> end.Completed?
      ensures error.None? ==> faults == old(faults)
    {
      end, to, ranks := fate, rank, [];
      var recorded, known := ReadOperation(checkpoint.request.operationId);
      if !known {
        error := Some(Unconfirmed);
      } else if recorded.None? {
        error, end, to, ranks := Send(checkpoint, start);
      } else {
        error, to, ranks := FinishApplied(checkpoint, recorded.value, start, fate.generation, rank);
      }
    }

    /** A lost copy may arrive first; then the mutation goes on from what the server has recorded. */
    method Continue(checkpoint: Checkpoint, ghost start: World, ghost fate: Fate, ghost rank: nat)
      returns (error: Option<Error>, ghost end: Fate, ghost to: nat, ghost ranks: seq<nat>)
      requires Valid() && Left(start, checkpoint, fate, rank, world) && world.checkpoint == Some(checkpoint)
      modifies this
      ensures Valid() && old(visited) <= visited && faults >= old(faults)
      ensures Forward(service, start, checkpoint, end, rank, to, visited[|old(visited)|..], ranks)
      ensures Left(start, checkpoint, end, to, world) && Agrees(fate, end, rank)
      ensures Attempt(old(sent), old(flying), sent, flying, checkpoint)
      ensures world.checkpoint.None? ==> EndsBy(old(sent), sent, end)
      ensures error == Some(Rejected) ==> to == END && Turned(old(sent), sent)
      ensures faults == old(faults) || error.None? ==> to == END
      ensures error.None? ==> end.Completed?
      ensures error.None? ==> faults == old(faults)
    {
      ghost var before, from := visited, world;
      var arrived := Arrive(checkpoint.request);
      ghost var middle := visited;
      end, to := ArrivedLate(start, checkpoint, fate, rank, from, arrived, world);
      ghost var half, other := to, end;
      ghost var low := Plateau(service, start, checkpoint, other, rank, half, middle[|before|..]);
      ghost var high: seq<nat> := [];
      error, end, to, high := Proceed(checkpoint, start, other, half);
      Pieces(before, middle, visited);
      ranks := low + high;
      ForwardJoin(service, start, checkpoint, other, end, rank, half, to, middle[|before|..], low, visited[|middle|..],
        high);
    }

    /**
     Finishes an interrupted mutation from its checkpoint: the recorded receipt is read
     first, and the original request is repeated only when the server has no record of it.
     */
    method Resume(now: int, ghost start: World, ghost checkpoint: Checkpoint, ghost fate: Fate, ghost rank: nat)
      returns (error: Option<Error>, ghost end: Fate, ghost to: nat, ghost ranks: seq<nat>)
      requires Valid() && (Foreign(world) || Left(start, checkpoint, fate, rank, world))
      modifies this
      ensures Valid() && old(visited) <= visited && old(sent) <= sent && faults >= old(faults)
      ensures Foreign(old(world)) ==> error.Some? && visited == old(visited) && sent == old(sent)
      ensures !Foreign(old(world)) ==>
        && Forward(service, start, checkpoint, end, rank, to, visited[|old(visited)|..], ranks)
        && Left(start, checkpoint, end, to, world) && Agrees(fate, end, rank)
      ensures Attempt(old(sent), old(flying), sent, flying, checkpoint)
      // How an attempt that ends the mutation ends it, and what the user is told.
      ensures old(world).checkpoint.Some? && world.checkpoint.None? ==> EndsBy(old(sent), sent, end)
      ensures error == Some(Rejected) ==> to == END && Turned(old(sent), sent)
      ensures error.None? ==> world.checkpoint.None? && end.Completed?
      ensures
        !Foreign(old(world)) && old(world).checkpoint.Some? && faults == old(faults)
        && checkpoint.createdAt <= now < checkpoint.createdAt + 24 * 3600
        ==> to == END
      ensures !(checkpoint.createdAt <= now < checkpoint.createdAt + 24 * 3600) ==>
        world == old(world) && sent == old(sent)
      ensures error.None? ==> faults == old(faults)
    {
      end, to, ranks := fate, rank, [];
      if world.checkpoint.None? { return Some(NoCheckpoint), end, rank, []; }
      var state := world.checkpoint.value;
      var ok := Touch();
      if !ok { return Some(Unconfirmed), end, rank, []; }
      if state.binding != Binding(profile, world.server.store) || !InTime(state, now) {
        return Some(NotMatching), end, rank, [];
      }
      error, end, to, ranks := Continue(state, start, fate, rank);
    }

    /** Drops the local checkpoint; the server operation is not undone. */
    method Forget() returns (ok: bool)
      requires Valid()
      modifies this
      ensures Valid() && world.server == old(world).server && world.players == old(world).players && sent == old(sent)
      ensures ok ==> world.checkpoint == None
    {
      ok := RemoveCheckpoint();
    }
  }

  predicate InTime(checkpoint: Checkpoint, now: int) { 0 <= now - checkpoint.createdAt < RECOVERY_SECONDS }

  // ---------------------------------------------------------------- repeated interruption

  /**
   Cutting a forward stretch off anywhere and resuming from what was then on disk is forward
   again, so a mutation interrupted and resumed any number of times is one forward run.
   */
  lemma CutAndResume(service: Service, start: World, checkpoint: Checkpoint, fate: Fate, from: nat, to: nat,
                     worlds: seq<World>, ranks: seq<nat>, cut: nat,
                     other: Fate, end: nat, resumed: seq<World>, higher: seq<nat>)
    requires Forward(service, start, checkpoint, fate, from, to, worlds, ranks) && cut < |worlds|
    requires Forward(service, start, checkpoint, other, ranks[cut], end, resumed, higher)
    requires Agrees(fate, other, ranks[cut])
    ensures Forward(service, start, checkpoint, other, from, end, worlds[..cut + 1] + resumed,
                    ranks[..cut + 1] + higher)
  {
    forall i | 0 <= i <= cut ensures ranks[i] <= ranks[cut] {
      RanksRise(service, start, checkpoint, fate, from, to, worlds, ranks, i, cut);
    }
    ForwardJoin(service, start, checkpoint, fate, other, from, ranks[cut], end, worlds[..cut + 1], ranks[..cut + 1],
      resumed, higher);
  }

  lemma {:induction false} RanksRise(service: Service, start: World, checkpoint: Checkpoint, fate: Fate, from: nat,
                                     to: nat, worlds: seq<World>, ranks: seq<nat>, i: nat, j: nat)
    requires Forward(service, start, checkpoint, fate, from, to, worlds, ranks) && i <= j < |ranks|
    ensures ranks[i] <= ranks[j]
    decreases j
  {
    if i < j { RanksRise(service, start, checkpoint, fate, from, to, worlds, ranks, i, j - 1); }
  }

  /**
   Over a forward run nothing is taken back: the server's change stays, then the alias change
   stays, the checkpoint stays identical until the end, and the end is final. Only a mutation
   that completes changes the alias, and one without a checkpoint is at the end of its fate.
   */
  lemma NothingReverts(service: Service, start: World, profile: nat, checkpoint: Checkpoint, fate: Fate, from: nat,
                       to: nat, worlds: seq<World>, ranks: seq<nat>, i: nat, j: nat)
    requires Ready(service, start, profile, checkpoint)
    requires Forward(service, start, checkpoint, fate, from, to, worlds, ranks) && i <= j < |worlds|
    ensures worlds[i].server != start.server ==> worlds[j].server == worlds[i].server
    ensures worlds[i].players != start.players ==>
      fate.Completed? && worlds[i].server != start.server && worlds[j].players == worlds[i].players
    ensures worlds[i].checkpoint.Some? ==>
      worlds[i].checkpoint == Some(checkpoint)
      && (worlds[j].checkpoint == Some(checkpoint) || worlds[j] == StageAt(service, start, checkpoint, fate, END))
    ensures ranks[i] > 0 && worlds[i].checkpoint.None? ==>
      worlds[i] == StageAt(service, start, checkpoint, fate, END) && worlds[j] == worlds[i]
  {
    RanksRise(service, start, checkpoint, fate, from, to, worlds, ranks, i, j);
  }

  /** A request meets a record of its operation only after a copy of it was lost. */
  predicate CopiesExplain(sent: seq<Sent>, flying: bool) {
    forall i :: 0 <= i < |sent| && sent[i].recorded ==> flying || exists j :: 0 <= j < i && sent[j].reply.Lost?
  }

  predicate Copied(sent: seq<Sent>, flying: bool) { flying || exists j :: 0 <= j < |sent| && sent[j].reply.Lost? }

  lemma CopiesExplainMore(sent: seq<Sent>, flying: bool, copies: bool, more: seq<Sent>, still: bool,
                          checkpoint: Checkpoint)
    requires CopiesExplain(sent, flying) && (copies ==> Copied(sent, flying))
    requires Attempt([], copies, more, still, checkpoint)
    ensures CopiesExplain(sent + more, flying) && (still ==> Copied(sent + more, flying))
  {
    assert Copied(sent, flying) ==> Copied(sent + more, flying) by {
      if j :| 0 <= j < |sent| && sent[j].reply.Lost? { assert (sent + more)[j] == sent[j]; }
    }
    assert forall i :: 0 <= i < |sent| ==> (sent + more)[i] == sent[i];
    if more != [] {
      assert (sent + more)[|sent|] == more[0];
    }
  }

  lemma EndsLater(sent: seq<Sent>, more: seq<Sent>, fate: Fate)
    requires EndsBy([], more, fate)
    ensures EndsBy(sent, sent + more, fate)
  {
  }

  /** A run of attempts so far: forward, its requests explained, and its end told by its last attempt. */
  ghost predicate Endured(service: Service, start: World, checkpoint: Checkpoint, fate: Fate, rank: nat, flying: bool,
                          sent: seq<Sent>, last: nat, end: Fate, to: nat, moments: seq<World>, ranks: seq<nat>,
                          after: World)
  {
    && Forward(service, start, checkpoint, end, rank, to, moments, ranks)
    && after == StageAt(service, start, checkpoint, end, to) && Agrees(fate, end, rank)
    && Repeats(sent, 0, checkpoint) && CopiesExplain(sent, flying) && last <= |sent|
    && (StageAt(service, start, checkpoint, fate, rank).checkpoint.Some? && after.checkpoint.None? ==>
          EndsBy(sent[..last], sent, end))
  }

  lemma EnduredMore(service: Service, start: World, checkpoint: Checkpoint, fate: Fate, rank: nat, flying: bool,
                    sent: seq<Sent>, last: nat, end: Fate, to: nat, moments: seq<World>, ranks: seq<nat>,
                    before: World, copies: bool, more: seq<Sent>, still: bool, other: Fate, next: nat,
                    later: seq<World>, higher: seq<nat>, after: World)
    requires
      Endured(service, start, checkpoint, fate, rank, flying, sent, last, end, to, moments, ranks, before)
    requires copies ==> Copied(sent, flying)
    requires Attempt([], copies, more, still, checkpoint) && Agrees(end, other, to)
    requires Forward(service, start, checkpoint, other, to, next, later, higher)
    requires after == StageAt(service, start, checkpoint, other, next)
    requires after.checkpoint.None? ==> EndsBy([], more, other)
    ensures
      Endured(service, start, checkpoint, fate, rank, flying, sent + more, |sent|, other, next, moments + later,
              ranks + higher, after)
    ensures still ==> Copied(sent + more, flying)
  {
    ForwardJoin(service, start, checkpoint, end, other, rank, to, next, moments, ranks, later, higher);
    CopiesExplainMore(sent, flying, copies, more, still, checkpoint);
    if after.checkpoint.None? { EndsLater(sent, more, other); }
    assert (sent + more)[..|sent|] == sent;
  }

  /**
   Resumes again and again, each in a fresh session that may be disturbed anywhere: the
   whole run is forward. When no checkpoint is left, the world is where the undisturbed mutation
   would have ended, unless the last attempt's request was turned away: then nothing was applied,
   or a copy of the request that had been lost before was.
   */
  method Persevere(service: Service, profile: nat, world: World, ghost start: World, checkpoint: Checkpoint,
                   ghost fate: Fate, ghost rank: nat, flying: bool, times: seq<int>)
    returns (after: World, done: bool, ghost sent: seq<Sent>, ghost last: nat, ghost end: Fate, ghost to: nat,
             ghost moments: seq<World>, ghost ranks: seq<nat>)
    requires Ready(service, start, profile, checkpoint) && 1 <= rank <= END
    requires world == StageAt(service, start, checkpoint, fate, rank)
    ensures Forward(service, start, checkpoint, end, rank, to, moments, ranks)
    ensures after == StageAt(service, start, checkpoint, end, to) && Agrees(fate, end, rank)
    ensures done == after.checkpoint.None? && last <= |sent|
    ensures done && world.checkpoint.Some? ==>
      && EndsBy(sent[..last], sent, end)
      && (end.Completed? ==> after == Final(service, start, checkpoint, end.generation))
      && (end == TurnedAway ==> after == start)
      && (end.Overtaken? ==> after == Applied(start, checkpoint, end.generation).(checkpoint := None))
    ensures Repeats(sent, 0, checkpoint) && CopiesExplain(sent, flying)
  {
    after, sent, last, end, to, moments, ranks := world, [], 0, fate, rank, [], [];
    var copies := flying;
    for i := 0 to |times|
      invariant
        Endured(service, start, checkpoint, fate, rank, flying, sent, last, end, to, moments, ranks, after)
      invariant copies ==> Copied(sent, flying)
    {
      if after.checkpoint.None? { break; }
      var session := new Session(service, profile, after, copies);
      var error;
      ghost var other, next, higher;
      error, other, next, higher := session.Resume(times[i], start, checkpoint, end, to);
      EnduredMore(service, start, checkpoint, fate, rank, flying, sent, last, end, to, moments, ranks, after, copies,
                  session.sent, session.flying, other, next, session.visited[1..], higher, session.world);
      moments, ranks, end, to, last := moments + session.visited[1..], ranks + higher, other, next, |sent|;
      after, sent, copies := session.world, sent + session.sent, session.flying;
    }
    done := after.checkpoint.None?;
  }

  // ---------------------------------------------------------------- a refusal below 500

  /** A mutation turned away never ends where it would have; one overtaken does when no alias had to change. */
  lemma EndsCompared(service: Service, start: World, profile: nat, checkpoint: Checkpoint, generation: nat)
    requires Ready(service, start, profile, checkpoint)
    ensures StageAt(service, start, checkpoint, TurnedAway, END) == start
    ensures Final(service, start, checkpoint, generation).server != start.server
    ensures Final(service, start, checkpoint, generation).server.operations.Keys
         == start.server.operations.Keys + {checkpoint.request.operationId}
    ensures
      var overtaken := StageAt(service, start, checkpoint, Overtaken(generation), END);
      && overtaken.server == Final(service, start, checkpoint, generation).server
      && (overtaken == Final(service, start, checkpoint, generation)
          <==> Renamed(service, start, checkpoint) == start.players)
  {
    assert checkpoint.request.operationId in Final(service, start, checkpoint, generation).server.operations;
  }

  /**
   The first request is lost, the operation is not on record, and the repeated request is turned
   away, by a rate limit or because the pairing it approves has expired meanwhile: the checkpoint
   goes although the service would have accepted the request, and nothing was applied.
   */
  lemma GivenUpUnapplied(now: int)
    ensures
      var service := Service((at, devices, request) => if at < 600 then Some(7) else None, name => name);
      var request := Request(1, "tv", Add, []);
      var checkpoint := Checkpoint(Binding(0, 5), request, Some("living"), false, 0);
      var start := World(Server(5, map[], map[]), None, map[]);
      var begun := Begun(start, checkpoint);
      var lost := Sent(request, Some(checkpoint), false, true, false, Lost);
      var refused := Sent(request, Some(checkpoint), false, now < 600, now < 600, Refused);
      && Ready(service, start, 0, checkpoint) && Accepts(service, 0, start.server, request)
      && Posting(service, begun, false, 0, lost, begun) && Posting(service, begun, true, now, refused, begun)
      && Forward(service, start, checkpoint, TurnedAway, 0, END, [start, begun, start], [0, 1, END])
      && start != Final(service, start, checkpoint, 7)
  {
    var service := Service((at, devices, request) => if at < 600 then Some(7) else None, name => name);
    var start := World(Server(5, map[], map[]), None, map[]);
    var checkpoint := Checkpoint(Binding(0, 5), Request(1, "tv", Add, []), Some("living"), false, 0);
    assert Found(service, start.players, "living") == {};
    EndsCompared(service, start, 0, checkpoint, 7);
  }
}
