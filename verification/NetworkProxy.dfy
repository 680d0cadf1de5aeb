/**
 * The send paths of `NetworkProxy`: the handlers of the phase before the call may end it, then the server
 * is written to and read from, then the handlers of the phase after the call run. One of the handlers
 * before the call is the replay plugin; what it does follows from what it holds and what it has used.
 */
module NetworkProxy {
  import opened Wrappers
  import opened Storage
  import opened Callbacks
  import opened Replay

  /** What a handler does when its turn comes: let the call pass, end it, or throw. */
  datatype Reaction = Passes | Ends | Fails

  datatype SendPath = SendAndForget | SendAndExpect | SendBytesAndExpect

  datatype Effect = PreCall(handler: nat) | SocketWrite | SocketRead | PostCall(handler: nat)

  /**
   * One call: its path and request, how the handlers before and after the replay plugin react in the first
   * phase, whether there is a connection, whether reading succeeds, and the handlers of the second phase.
   */
  datatype Call = Call(path: SendPath, request: Request, before: seq<Reaction>, after: seq<Reaction>,
                       connected: bool, answered: bool, post: seq<Reaction>)

  /** What the replay plugin is asked; on the first path nobody waits for an answer. */
  function RequestOf(call: Call): Request {
    call.request.(expectsAnswer := call.path != SendAndForget && call.request.expectsAnswer)
  }

  /** How the replay plugin reacts, by what came of the request. */
  function ReactionTo(active: bool, config: Config, outcome: Outcome): Reaction {
    match outcome
    case NotHandled => if active && config.blockExternal then Ends else Passes
    case Handled(_) => Ends
    case Thrown => Fails
  }

  function Handlers(call: Call, replay: Reaction): seq<Reaction> { call.before + [replay] + call.after }

  predicate AllPass(handlers: seq<Reaction>) { forall k :: 0 <= k < |handlers| ==> handlers[k] == Passes }

  /** How many handlers run: all up to the first that does not let the call pass. */
  function Runs(handlers: seq<Reaction>): (n: nat)
    ensures n <= |handlers|
    ensures forall k :: 0 <= k < n - 1 ==> handlers[k] == Passes
    ensures n < |handlers| ==> n > 0 && handlers[n - 1] != Passes
  {
    if handlers == [] then 0
    else if handlers[0] != Passes then 1
    else 1 + Runs(handlers[1..])
  }

  function PreCalls(n: nat): seq<Effect> { if n == 0 then [] else PreCalls(n - 1) + [PreCall(n - 1)] }

  function PostCalls(n: nat): seq<Effect> { if n == 0 then [] else PostCalls(n - 1) + [PostCall(n - 1)] }

  /** Handlers first; for a call nobody ended the server next; then handlers again. */
  function Effects(call: Call, replay: Reaction): seq<Effect> {
    var pre := PreCalls(Runs(Handlers(call, replay)));
    if !AllPass(Handlers(call, replay)) || !call.connected then pre
    else if call.path == SendAndForget then pre + [SocketWrite] + PostCalls(Runs(call.post))
    else pre + [SocketWrite, SocketRead] + if call.answered then PostCalls(Runs(call.post)) else []
  }

  /** The plugin serves the request when it is active and its turn comes. */
  predicate IsTurn(active: bool, p: Playback, m: Memory, call: Call, turn: Served) {
    if active && AllPass(call.before) then Serves(p, m, RequestOf(call), turn) else turn == Served(None, None, NotHandled)
  }

  /** Any run of calls, with what the plugin served for each and what it had used by then. */
  predicate IsProxyRun(active: bool, p: Playback, m: Memory, calls: seq<Call>, turns: seq<Served>)
    decreases |calls|
  {
    && |turns| == |calls|
    && (calls != [] ==>
          IsTurn(active, p, m, calls[0], turns[0]) && IsProxyRun(active, p, MemoryAfter(m, turns[0]), calls[1..], turns[1..]))
  }

  function EffectsAt(active: bool, p: Playback, calls: seq<Call>, turns: seq<Served>, k: nat): seq<Effect>
    requires k < |calls| == |turns|
  {
    Effects(calls[k], ReactionTo(active, p.config, turns[k].outcome))
  }

  function AllEffects(active: bool, p: Playback, calls: seq<Call>, turns: seq<Served>): seq<Effect>
    requires |calls| == |turns|
  {
    if calls == [] then [] else EffectsAt(active, p, calls, turns, 0) + AllEffects(active, p, calls[1..], turns[1..])
  }

  class Proxy {
    const replay: ReplayPlugin
    /** Everything done so far, in order. */
    var log: seq<Effect>

    constructor (replay: ReplayPlugin)
      ensures log == [] && this.replay == replay
    {
      log := [];
      this.replay := replay;
    }

    /** One handler before the call; the replay plugin stands behind those of `before`. */
    method RunHandler(call: Call, k: nat, turn: Served, repo: ProtocolRepo, hasCallbacks: bool)
      returns (next: Served, reaction: Reaction)
      requires k <= |call.before| + |call.after| && IsConsistent(repo)
      modifies replay`completedIndexes, replay`completedOutIndexes
      ensures RunsHandler(replay.active, replay.Plays(repo, hasCallbacks), old(replay.Now()), call, k, turn, next, replay.Now())
      ensures reaction == HandlerAt(call, ReactionTo(replay.active, replay.config, next.outcome), k)
    {
      if k < |call.before| { return turn, call.before[k]; }
      if k > |call.before| { return turn, call.after[k - |call.before| - 1]; }
      var blocks: Option<bool>;
      next, blocks := replay.Handle(RequestOf(call), repo, hasCallbacks);
      reaction := match blocks case None => Fails case Some(b) => if b then Ends else Passes;
    }

    /** The body of the loop over the handlers before the call. */
    method RunRound(call: Call, k: nat, turn: Served, repo: ProtocolRepo, hasCallbacks: bool, ghost m: Memory)
      returns (next: Served, passes: bool)
      requires k <= |call.before| + |call.after| && IsConsistent(repo)
      requires HasReached(replay.active, replay.Plays(repo, hasCallbacks), m, call, k, turn, replay.Now())
      modifies this`log, replay`completedIndexes, replay`completedOutIndexes
      ensures log == old(log) + [PreCall(k)]
      ensures passes ==> HasReached(replay.active, replay.Plays(repo, hasCallbacks), m, call, k + 1, next, replay.Now())
      ensures !passes ==> IsStopped(replay.active, replay.Plays(repo, hasCallbacks), m, call, k + 1, next, replay.Now())
    {
      ghost var active, p, before := replay.active, replay.Plays(repo, hasCallbacks), replay.Now();
      log := log + [PreCall(k)];
      var reaction: Reaction;
      next, reaction := RunHandler(call, k, turn, repo, hasCallbacks);
      GoesOn(active, p, m, call, k, turn, before, next, replay.Now());
      passes := reaction == Passes;
    }

    /** The loop over the handlers before the call. */
    method RunPreCall(call: Call, repo: ProtocolRepo, hasCallbacks: bool) returns (goesOn: bool, turn: Served)
      requires IsConsistent(repo)
      modifies this`log, replay`completedIndexes, replay`completedOutIndexes
      ensures IsTurn(replay.active, replay.Plays(repo, hasCallbacks), old(replay.Now()), call, turn)
      ensures replay.Now() == MemoryAfter(old(replay.Now()), turn)
      ensures var handlers := Handlers(call, ReactionTo(replay.active, replay.config, turn.outcome));
              log == old(log) + PreCalls(Runs(handlers)) && goesOn == AllPass(handlers)
    {
      ghost var m, start := replay.Now(), log;
      turn := Served(None, None, NotHandled);
      var k, size := 0, |call.before| + 1 + |call.after|;
      while k < size
        invariant 0 <= k <= size && log == start + PreCalls(k)
        invariant HasReached(replay.active, replay.Plays(repo, hasCallbacks), m, call, k, turn, replay.Now())
      {
        var passes: bool;
        turn, passes := RunRound(call, k, turn, repo, hasCallbacks, m);
        Logged(start, k);
        if !passes { return false, turn; }
        k := k + 1;
      }
      PassedAll(call, ReactionTo(replay.active, replay.config, turn.outcome));
      return true, turn;
    }

    method RunPostCall(handlers: seq<Reaction>)
      modifies this`log
      ensures log == old(log) + PostCalls(Runs(handlers))
    {
      var k := 0;
      while k < |handlers|
        invariant 0 <= k <= |handlers| && log == old(log) + PostCalls(k)
        invariant forall i :: 0 <= i < k ==> handlers[i] == Passes
      {
        log := log + [PostCall(k)];
        assert log == old(log) + PostCalls(k + 1);
        if handlers[k] != Passes {
          RunsTo(handlers, k + 1);
          return;
        }
        k := k + 1;
      }
      RunsTo(handlers, |handlers|);
    }

    /** The three send paths; they differ in whether an answer is waited for. */
    method Send(call: Call, repo: ProtocolRepo, hasCallbacks: bool) returns (turn: Served)
      requires IsConsistent(repo)
      modifies this`log, replay`completedIndexes, replay`completedOutIndexes
      ensures IsTurn(replay.active, replay.Plays(repo, hasCallbacks), old(replay.Now()), call, turn)
      ensures replay.Now() == MemoryAfter(old(replay.Now()), turn)
      ensures log == old(log) + Effects(call, ReactionTo(replay.active, replay.config, turn.outcome))
    {
      ghost var start := log;
      var goesOn: bool;
      goesOn, turn := RunPreCall(call, repo, hasCallbacks);
      LogOf(start, call, ReactionTo(replay.active, replay.config, turn.outcome));
      if !goesOn || !call.connected { return; }
      log := log + [SocketWrite];
      if call.path != SendAndForget {
        log := log + [SocketRead];
        if !call.answered { return; }
      }
      RunPostCall(call.post);
    }

    /** Any run of calls between two activations. */
    method SendAll(calls: seq<Call>, repo: ProtocolRepo, hasCallbacks: bool) returns (turns: seq<Served>)
      requires IsConsistent(repo)
      modifies this`log, replay`completedIndexes, replay`completedOutIndexes
      ensures IsProxyRun(replay.active, replay.Plays(repo, hasCallbacks), old(replay.Now()), calls, turns)
      ensures log == old(log) + AllEffects(replay.active, replay.Plays(repo, hasCallbacks), calls, turns)
      decreases |calls|
    {
      turns := [];
      ghost var m, start := replay.Now(), log;
      if calls != [] {
        var first := Send(calls[0], repo, hasCallbacks);
        var rest := SendAll(calls[1..], repo, hasCallbacks);
        turns := [first] + rest;
        RunCons(replay.active, replay.Plays(repo, hasCallbacks), m, calls, first, rest, start);
      }
    }

    /** A run while the plugin is active and blocks external calls: the socket is never touched. */
    method SendAllBlocked(calls: seq<Call>, repo: ProtocolRepo, hasCallbacks: bool)
      requires IsConsistent(repo) && replay.active && replay.config.blockExternal
      modifies this`log, replay`completedIndexes, replay`completedOutIndexes
      ensures old(log) <= log && forall e :: e in log[|old(log)|..] ==> e.PreCall?
    {
      ghost var m := replay.Now();
      var turns := SendAll(calls, repo, hasCallbacks);
      ReplayIsolatesServer(replay.Plays(repo, hasCallbacks), m, calls, turns);
    }
  }

  lemma {:induction false} Logged(start: seq<Effect>, k: nat)
    ensures start + PreCalls(k) + [PreCall(k)] == start + PreCalls(k + 1)
  {}

  /** The log after a call, piece by piece. */
  lemma {:induction false} LogOf(start: seq<Effect>, call: Call, replay: Reaction)
    ensures var reached := start + PreCalls(Runs(Handlers(call, replay)));
            start + Effects(call, replay) ==
              if !AllPass(Handlers(call, replay)) || !call.connected then reached
              else if call.path == SendAndForget then reached + [SocketWrite] + PostCalls(Runs(call.post))
              else if call.answered then reached + [SocketWrite] + [SocketRead] + PostCalls(Runs(call.post))
              else reached + [SocketWrite] + [SocketRead]
  {
    var pre, post := PreCalls(Runs(Handlers(call, replay))), PostCalls(Runs(call.post));
    assert [SocketWrite] + [SocketRead] == [SocketWrite, SocketRead];
    Regroup(start, pre, [SocketWrite]);
    Regroup(start, pre + [SocketWrite], post);
    Regroup(start + pre, [SocketWrite], [SocketRead]);
    Regroup(start, pre, [SocketWrite, SocketRead]);
    Regroup(start, pre + [SocketWrite, SocketRead], post);
    assert pre + [SocketWrite, SocketRead] + [] == pre + [SocketWrite, SocketRead];
  }

  lemma {:induction false} Regroup(a: seq<Effect>, b: seq<Effect>, c: seq<Effect>)
    ensures a + b + c == a + (b + c)
  {}

  lemma {:induction false} RunCons(active: bool, p: Playback, m: Memory, calls: seq<Call>, first: Served, rest: seq<Served>, log: seq<Effect>)
    requires calls != [] && IsTurn(active, p, m, calls[0], first)
    requires IsProxyRun(active, p, MemoryAfter(m, first), calls[1..], rest)
    ensures IsProxyRun(active, p, m, calls, [first] + rest)
    ensures log + Effects(calls[0], ReactionTo(active, p.config, first.outcome)) + AllEffects(active, p, calls[1..], rest)
            == log + AllEffects(active, p, calls, [first] + rest)
  {
    assert ([first] + rest)[0] == first && ([first] + rest)[1..] == rest;
    Regroup(log, Effects(calls[0], ReactionTo(active, p.config, first.outcome)), AllEffects(active, p, calls[1..], rest));
  }

  function HandlerAt(call: Call, replay: Reaction, k: nat): Reaction
    requires k <= |call.before| + |call.after|
  {
    if k < |call.before| then call.before[k]
    else if k == |call.before| then replay
    else call.after[k - |call.before| - 1]
  }

  predicate PassedTo(call: Call, replay: Reaction, k: nat) {
    forall i :: 0 <= i < k && i <= |call.before| + |call.after| ==> HandlerAt(call, replay, i) == Passes
  }

  lemma {:induction false} HandlersAt(call: Call, replay: Reaction)
    ensures forall k :: 0 <= k <= |call.before| + |call.after| ==> Handlers(call, replay)[k] == HandlerAt(call, replay, k)
  {}

  /** Handler `k` is run: either it lets the call pass, or it is the last one to run. */
  lemma {:induction false} PassedOn(call: Call, before: Reaction, replay: Reaction, k: nat)
    requires k <= |call.before| + |call.after| && PassedTo(call, before, k) && (k > |call.before| ==> before == replay)
    ensures k >= |call.before| ==> AllPass(call.before)
    ensures HandlerAt(call, replay, k) == Passes ==> PassedTo(call, replay, k + 1)
    ensures HandlerAt(call, replay, k) != Passes ==>
              Runs(Handlers(call, replay)) == k + 1 && !AllPass(Handlers(call, replay))
              && (k < |call.before| ==> !AllPass(call.before))
  {
    HandlersAt(call, replay);
    assert forall i :: 0 <= i < |call.before| ==> call.before[i] == HandlerAt(call, before, i);
    assert forall i :: 0 <= i < k ==> HandlerAt(call, replay, i) == HandlerAt(call, before, i);
    if HandlerAt(call, replay, k) != Passes { RunsTo(Handlers(call, replay), k + 1); }
  }

  predicate RunsHandler(active: bool, p: Playback, m: Memory, call: Call, k: nat, turn: Served, next: Served, after: Memory) {
    if k == |call.before| then (AllPass(call.before) ==> IsTurn(active, p, m, call, next)) && after == MemoryAfter(m, next)
    else next == turn && after == m
  }

  /** All handlers before `k` let the call pass; the plugin has had its turn if it stands among them. */
  predicate HasReached(active: bool, p: Playback, m: Memory, call: Call, k: nat, turn: Served, now: Memory) {
    && PassedTo(call, ReactionTo(active, p.config, turn.outcome), k)
    && (if k <= |call.before| then turn == Served(None, None, NotHandled) else IsTurn(active, p, m, call, turn))
    && now == MemoryAfter(m, turn)
  }

  /** The `n`-th handler is the last to run: it ends the call or throws. */
  predicate IsStopped(active: bool, p: Playback, m: Memory, call: Call, n: nat, turn: Served, now: Memory) {
    var handlers := Handlers(call, ReactionTo(active, p.config, turn.outcome));
    IsTurn(active, p, m, call, turn) && now == MemoryAfter(m, turn) && Runs(handlers) == n && !AllPass(handlers)
  }

  lemma {:induction false} GoesOn(active: bool, p: Playback, m: Memory, call: Call, k: nat, turn: Served, now: Memory, next: Served, after: Memory)
    requires k <= |call.before| + |call.after|
    requires HasReached(active, p, m, call, k, turn, now) && RunsHandler(active, p, now, call, k, turn, next, after)
    ensures if HandlerAt(call, ReactionTo(active, p.config, next.outcome), k) == Passes
            then HasReached(active, p, m, call, k + 1, next, after) else IsStopped(active, p, m, call, k + 1, next, after)
  {
    PassedOn(call, ReactionTo(active, p.config, turn.outcome), ReactionTo(active, p.config, next.outcome), k);
  }

  lemma {:induction false} PassedAll(call: Call, replay: Reaction)
    requires PassedTo(call, replay, |call.before| + 1 + |call.after|)
    ensures Runs(Handlers(call, replay)) == |call.before| + 1 + |call.after| && AllPass(Handlers(call, replay))
  {
    HandlersAt(call, replay);
    RunsTo(Handlers(call, replay), |call.before| + 1 + |call.after|);
  }

  lemma {:induction false} RunsTo(handlers: seq<Reaction>, n: nat)
    requires n <= |handlers| && forall k :: 0 <= k < n - 1 ==> handlers[k] == Passes
    requires if n == 0 then handlers == [] else handlers[n - 1] != Passes || n == |handlers|
    ensures Runs(handlers) == n
    decreases n
  {
    if n > 1 { RunsTo(handlers[1..], n - 1); }
  }

  lemma {:induction false} CallsAreCalls(n: nat)
    ensures forall e :: e in PreCalls(n) ==> e.PreCall?
    ensures forall e :: e in PostCalls(n) ==> e.PostCall?
    decreases n
  {
    if n > 0 { CallsAreCalls(n - 1); }
  }

  // ---------------------------------------------------------------- when the server is reached

  /** What the plugin had used before call `k`. */
  function MemoryAt(m: Memory, turns: seq<Served>, k: nat): Memory
    requires k <= |turns|
    decreases k
  {
    if k == 0 then m else MemoryAt(MemoryAfter(m, turns[0]), turns[1..], k - 1)
  }

  /**
   * While external calls are allowed the plugin stays silent for a repeatable call, for a request no unused
   * line fits, and for a line of index -1 that holds nothing to answer with.
   */
  predicate IsSilent(p: Playback, m: Memory, query: Query, waits: bool, turn: Served) {
    || MustForward(p.lines, query, p.config)
    || Unused(p.lines, query, m.used) == {}
    || (waits && turn.found.Some? && turn.found.value.line.index == -1 && Lookup(p.repo, -1).None?)
  }

  lemma {:induction false} SilentIff(p: Playback, m: Memory, request: Request, turn: Served)
    requires Serves(p, m, request, turn) && !p.config.blockExternal
    ensures turn.outcome.NotHandled? <==> IsSilent(p, m, request.query, request.expectsAnswer, turn)
  {
    if !MustForward(p.lines, request.query, p.config) {
      assert Repeats(p.lines, request.query, m.used, p.config) == {};
    }
  }

  /** The plugin is off, or allows external calls and stays silent; on the first path nobody waits for it to answer. */
  predicate PluginPasses(active: bool, p: Playback, m: Memory, call: Call, turn: Served) {
    active ==>
      && !p.config.blockExternal
      && IsSilent(p, m, call.request.query, call.path != SendAndForget && call.request.expectsAnswer, turn)
  }

  /** The call is connected, and all handlers let it pass, the plugin among them. */
  predicate GoesThrough(active: bool, p: Playback, m: Memory, call: Call, turn: Served) {
    call.connected && AllPass(call.before) && AllPass(call.after) && PluginPasses(active, p, m, call, turn)
  }

  lemma {:induction false} AllPassParts(call: Call, replay: Reaction)
    ensures AllPass(Handlers(call, replay)) <==> AllPass(call.before) && replay == Passes && AllPass(call.after)
  {
    var handlers := Handlers(call, replay);
    assert handlers[|call.before|] == replay;
    assert forall i :: 0 <= i < |call.before| ==> handlers[i] == call.before[i];
    assert forall i :: 0 <= i < |call.after| ==> handlers[|call.before| + 1 + i] == call.after[i];
  }

  lemma {:induction false} PassesIff(active: bool, p: Playback, m: Memory, call: Call, turn: Served)
    requires IsTurn(active, p, m, call, turn) && AllPass(call.before)
    ensures ReactionTo(active, p.config, turn.outcome) == Passes <==> PluginPasses(active, p, m, call, turn)
  {
    if active && !p.config.blockExternal { SilentIff(p, m, RequestOf(call), turn); }
  }

  lemma {:induction false} CallReachesServerIff(active: bool, p: Playback, m: Memory, call: Call, turn: Served)
    requires IsTurn(active, p, m, call, turn)
    ensures var effects := Effects(call, ReactionTo(active, p.config, turn.outcome));
            && (SocketWrite in effects <==> GoesThrough(active, p, m, call, turn))
            && (SocketWrite !in effects ==> forall e :: e in effects ==> e.PreCall?)
  {
    var replay := ReactionTo(active, p.config, turn.outcome);
    AllPassParts(call, replay);
    CallsAreCalls(Runs(Handlers(call, replay)));
    CallsAreCalls(Runs(call.post));
    if AllPass(call.before) { PassesIff(active, p, m, call, turn); }
  }

  lemma {:induction false} TurnAt(active: bool, p: Playback, m: Memory, calls: seq<Call>, turns: seq<Served>, k: nat)
    requires IsProxyRun(active, p, m, calls, turns) && k < |calls|
    ensures IsTurn(active, p, MemoryAt(m, turns, k), calls[k], turns[k])
    decreases k
  {
    if k > 0 {
      TurnAt(active, p, MemoryAfter(m, turns[0]), calls[1..], turns[1..], k - 1);
      assert calls[1..][k - 1] == calls[k] && turns[1..][k - 1] == turns[k];
    }
  }

  /**
   * Over any run of calls on the three send paths, call `k` is written to the server exactly when it is
   * connected, all other handlers let it pass, and the replay plugin is off, or allows external calls and
   * neither answers it nor throws; otherwise only handlers of the first phase have run for it.
   */
  lemma {:induction false} ServerIsReachedIff(active: bool, p: Playback, m: Memory, calls: seq<Call>, turns: seq<Served>, k: nat)
    requires IsProxyRun(active, p, m, calls, turns) && k < |calls|
    ensures var effects := EffectsAt(active, p, calls, turns, k);
            && (SocketWrite in effects <==> GoesThrough(active, p, MemoryAt(m, turns, k), calls[k], turns[k]))
            && (SocketWrite !in effects ==> forall e :: e in effects ==> e.PreCall?)
  {
    TurnAt(active, p, m, calls, turns, k);
    CallReachesServerIff(active, p, MemoryAt(m, turns, k), calls[k], turns[k]);
  }

  lemma {:induction false} EffectsOfRun(active: bool, p: Playback, calls: seq<Call>, turns: seq<Served>, e: Effect)
    requires |calls| == |turns|
    ensures e in AllEffects(active, p, calls, turns) <==> exists k :: 0 <= k < |calls| && e in EffectsAt(active, p, calls, turns, k)
    decreases |calls|
  {
    if calls != [] {
      EffectsOfRun(active, p, calls[1..], turns[1..], e);
      assert forall k :: 0 <= k < |calls| - 1 ==>
               EffectsAt(active, p, calls[1..], turns[1..], k) == EffectsAt(active, p, calls, turns, k + 1);
      if k :| 0 < k < |calls| && e in EffectsAt(active, p, calls, turns, k) {
        assert e in EffectsAt(active, p, calls[1..], turns[1..], k - 1);
      }
    }
  }

  /** Over any run the server is written to exactly when some call goes through. */
  lemma {:induction false} RunReachesServerIff(active: bool, p: Playback, m: Memory, calls: seq<Call>, turns: seq<Served>)
    requires IsProxyRun(active, p, m, calls, turns)
    ensures SocketWrite in AllEffects(active, p, calls, turns)
            <==> exists k :: 0 <= k < |calls| && GoesThrough(active, p, MemoryAt(m, turns, k), calls[k], turns[k])
  {
    EffectsOfRun(active, p, calls, turns, SocketWrite);
    forall k | 0 <= k < |calls|
      ensures SocketWrite in EffectsAt(active, p, calls, turns, k)
              <==> GoesThrough(active, p, MemoryAt(m, turns, k), calls[k], turns[k])
    {
      ServerIsReachedIff(active, p, m, calls, turns, k);
    }
  }

  /**
   * While the replay plugin is active and blocks external calls, over any run of calls, answered, thrown
   * or unknown, nothing but handlers of the first phase runs: the server is neither written to nor read from.
   */
  lemma {:induction false} ReplayIsolatesServer(p: Playback, m: Memory, calls: seq<Call>, turns: seq<Served>)
    requires p.config.blockExternal && IsProxyRun(true, p, m, calls, turns)
    ensures forall e :: e in AllEffects(true, p, calls, turns) ==> e.PreCall?
  {
    forall e | e in AllEffects(true, p, calls, turns) ensures e.PreCall? {
      EffectsOfRun(true, p, calls, turns, e);
      var k :| 0 <= k < |calls| && e in EffectsAt(true, p, calls, turns, k);
      ServerIsReachedIff(true, p, m, calls, turns, k);
    }
  }

  // ---------------------------------------------------------------- everything a call does, and in which order

  predicate PassBefore(handlers: seq<Reaction>, i: int) { forall j :: 0 <= j < i && j < |handlers| ==> handlers[j] == Passes }

  lemma {:induction false} RunsIff(handlers: seq<Reaction>, i: nat)
    ensures i < Runs(handlers) <==> i < |handlers| && PassBefore(handlers, i)
  {}

  lemma {:induction false} CallsInOrder(n: nat)
    ensures |PreCalls(n)| == n && forall i :: 0 <= i < n ==> PreCalls(n)[i] == PreCall(i)
    ensures |PostCalls(n)| == n && forall i :: 0 <= i < n ==> PostCalls(n)[i] == PostCall(i)
    decreases n
  {
    if n > 0 { CallsInOrder(n - 1); }
  }

  lemma {:induction false} CallsHave(n: nat, i: nat)
    ensures PreCall(i) in PreCalls(n) <==> i < n
    ensures PostCall(i) in PostCalls(n) <==> i < n
    ensures SocketWrite !in PreCalls(n) && SocketRead !in PreCalls(n) && PostCall(i) !in PreCalls(n)
    ensures SocketWrite !in PostCalls(n) && SocketRead !in PostCalls(n) && PreCall(i) !in PostCalls(n)
  {
    CallsInOrder(n);
    CallsAreCalls(n);
  }

  /** `a` comes before `b`: handlers before the call by number, the write, the read, handlers after it by number. */
  predicate Precedes(a: Effect, b: Effect) {
    match (a, b)
    case (PreCall(i), PreCall(j)) => i < j
    case (PostCall(i), PostCall(j)) => i < j
    case (PreCall(_), _) => true
    case (SocketWrite, SocketRead) => true
    case (SocketWrite, PostCall(_)) => true
    case (SocketRead, PostCall(_)) => true
    case _ => false
  }

  predicate InSequence(effects: seq<Effect>) { forall i, j :: 0 <= i < j < |effects| ==> Precedes(effects[i], effects[j]) }

  lemma {:induction false} JoinInSequence(a: seq<Effect>, b: seq<Effect>)
    requires InSequence(a) && InSequence(b) && forall x, y :: x in a && y in b ==> Precedes(x, y)
    ensures InSequence(a + b)
  {}

  lemma {:induction false} PartsInSequence(n: nat, server: seq<Effect>, k: nat)
    requires server == [] || server == [SocketWrite] || server == [SocketWrite, SocketRead]
    ensures InSequence(PreCalls(n) + server + PostCalls(k))
  {
    CallsInOrder(n);
    CallsInOrder(k);
    CallsAreCalls(n);
    CallsAreCalls(k);
    JoinInSequence(PreCalls(n), server);
    JoinInSequence(PreCalls(n) + server, PostCalls(k));
  }

  lemma {:induction false} EffectsInSequence(call: Call, replay: Reaction)
    ensures InSequence(Effects(call, replay))
  {
    var n := Runs(Handlers(call, replay));
    var reached := AllPass(Handlers(call, replay)) && call.connected;
    var server := if !reached then [] else if call.path == SendAndForget then [SocketWrite] else [SocketWrite, SocketRead];
    var k := if reached && (call.path == SendAndForget || call.answered) then Runs(call.post) else 0;
    PartsInSequence(n, server, k);
    assert PreCalls(n) + [] + [] == PreCalls(n);
    assert Effects(call, replay) == PreCalls(n) + server + PostCalls(k);
  }

  /** Handler `i` before the call has its turn: those before it let the call pass, the plugin in its place. */
  predicate HasItsTurn(active: bool, p: Playback, m: Memory, call: Call, turn: Served, i: nat) {
    && i <= |call.before| + |call.after|
    && PassBefore(call.before, i)
    && (i > |call.before| ==> PluginPasses(active, p, m, call, turn) && PassBefore(call.after, i - |call.before| - 1))
  }

  lemma {:induction false} PassBeforeParts(call: Call, replay: Reaction, i: int)
    ensures PassBefore(Handlers(call, replay), i)
            <==> PassBefore(call.before, i)
                 && (i > |call.before| ==> replay == Passes && PassBefore(call.after, i - |call.before| - 1))
  {
    var handlers, at := Handlers(call, replay), |call.before|;
    assert forall j :: 0 <= j < at ==> handlers[j] == call.before[j];
    assert forall j :: 0 <= j < |call.after| ==> handlers[at + 1 + j] == call.after[j];
    assert forall j :: at < j < |handlers| ==> handlers[j] == call.after[j - at - 1];
    assert handlers[at] == replay;
  }

  lemma {:induction false} PreCallIff(active: bool, p: Playback, m: Memory, call: Call, turn: Served, i: nat)
    requires IsTurn(active, p, m, call, turn)
    ensures var replay := ReactionTo(active, p.config, turn.outcome);
            i < Runs(Handlers(call, replay)) <==> HasItsTurn(active, p, m, call, turn, i)
  {
    var replay := ReactionTo(active, p.config, turn.outcome);
    RunsIff(Handlers(call, replay), i);
    PassBeforeParts(call, replay, i);
    if i > |call.before| && PassBefore(call.before, i) {
      assert AllPass(call.before);
      PassesIff(active, p, m, call, turn);
    }
  }

  /**
   * All that happens in call `k` of any run, in sequence: handler `i` before the call runs exactly when
   * those before it let the call pass; the server is written to exactly when all of them do and there is a
   * connection; it is read from exactly when it is written to and the path waits for an answer; and
   * handler `i` after the call runs exactly when the server is written to, an answer waited for has come,
   * and the handlers after the call before it let it pass.
   */
  lemma {:induction false} EffectsOfCall(active: bool, p: Playback, m: Memory, calls: seq<Call>, turns: seq<Served>, k: nat)
    requires IsProxyRun(active, p, m, calls, turns) && k < |calls|
    ensures var effects := EffectsAt(active, p, calls, turns, k); var call := calls[k]; var now := MemoryAt(m, turns, k);
            var through := GoesThrough(active, p, now, call, turns[k]);
            && InSequence(effects)
            && (forall i: nat :: PreCall(i) in effects <==> HasItsTurn(active, p, now, call, turns[k], i))
            && (SocketWrite in effects <==> through)
            && (SocketRead in effects <==> through && call.path != SendAndForget)
            && (forall i: nat :: PostCall(i) in effects
                  <==> through && (call.path == SendAndForget || call.answered) && i < |call.post| && PassBefore(call.post, i))
  {
    var call, now, replay := calls[k], MemoryAt(m, turns, k), ReactionTo(active, p.config, turns[k].outcome);
    TurnAt(active, p, m, calls, turns, k);
    CallReachesServerIff(active, p, now, call, turns[k]);
    EffectsInSequence(call, replay);
    forall i: nat ensures PreCall(i) in Effects(call, replay) <==> HasItsTurn(active, p, now, call, turns[k], i) {
      PreCallIff(active, p, now, call, turns[k], i);
      CallsHave(Runs(Handlers(call, replay)), i);
      CallsHave(Runs(call.post), i);
    }
    forall i: nat
      ensures PostCall(i) in Effects(call, replay)
              <==> GoesThrough(active, p, now, call, turns[k]) && (call.path == SendAndForget || call.answered)
                   && i < |call.post| && PassBefore(call.post, i)
    {
      RunsIff(call.post, i);
      CallsHave(Runs(Handlers(call, replay)), i);
      CallsHave(Runs(call.post), i);
    }
    CallsHave(Runs(Handlers(call, replay)), 0);
    CallsHave(Runs(call.post), 0);
  }
}
