/**
  The receive transport of src/dpp_voice_input_adapter.cpp: the bot takes its
  self-deaf flag off to listen, and must be seen deaf again, or gone, before
  `disable_transport` may report that listening is over.

  Calls are serialised by their only caller (operation_mutex_ of
  src/voice_input.cpp), but Discord events, audio packets and `disarm` arrive at
  any moment between two locked sections.  Every such gap of a call is a sequence
  of `Env` events chosen by the environment, the raising of the shutdown flag
  among them; a timed wait ends at any moment with the value its predicate has
  then.
 */
module VoiceInputAdapter {

  import opened Wrappers

  datatype Request = Request(session: string, guild: nat, channel: nat, requester: nat, generation: nat)

  /** The bot's own voice state; channel 0 means that it is in none. */
  datatype VoiceState = VoiceState(guild: nat, channel: nat, selfDeaf: bool)

  datatype Env =
    | BotState(state: VoiceState)
    | Packet(client: Option<nat>, guild: nat)
    | Disarm
    | ShutdownFlag

  datatype Adapter = Adapter(
    configured: bool,
    expected: Option<Request>, armed: bool, client: Option<nat>,
    target: Option<bool>, observed: bool, failed: bool, privacySafe: bool,
    blocked: bool, shutdown: bool,
    seen: seq<VoiceState>)    // history: the bot's states since the last enable

  // ----------------------------------------------------------------- events

  /** A wait is on, and the state concerns its guild. */
  predicate Watched(a: Adapter, v: VoiceState) {
    a.expected.Some? && v.guild == a.expected.value.guild && a.target.Some?
  }

  predicate Away(a: Adapter, v: VoiceState) {
    Watched(a, v) && (v.channel == 0 || v.channel != a.expected.value.channel)
  }

  predicate Confirmed(a: Adapter, v: VoiceState) {
    Watched(a, v) && !Away(a, v) && v.selfDeaf == a.target.value
  }

  predicate EndsListening(a: Adapter, v: VoiceState) {
    (Away(a, v) && v.channel == 0) || (Confirmed(a, v) && v.selfDeaf)
  }

  function OnBotState(a: Adapter, v: VoiceState): Adapter {
    a.(seen := a.seen + [v],
       failed := a.failed || Away(a, v),
       observed := a.observed || Confirmed(a, v),
       privacySafe := a.privacySafe || EndsListening(a, v),
       blocked := a.blocked && !EndsListening(a, v))
  }

  datatype Disposition = Accept | Ignore | ConnectionChanged

  function ClassifyReceiveClient(expected: Option<nat>, received: Option<nat>, expectedGuild: nat, guild: nat): Disposition {
    if expected.None? then Ignore
    else if received == expected then Accept
    else if received.None? || (expectedGuild != 0 && expectedGuild == guild) then ConnectionChanged
    else Ignore
  }

  function OnPacket(a: Adapter, client: Option<nat>, guild: nat): Adapter {
    if !a.armed || a.expected.None? then a
    else if ClassifyReceiveClient(a.client, client, a.expected.value.guild, guild) == ConnectionChanged
    then a.(armed := false, client := None)
    else a
  }

  function OnEnv(a: Adapter, e: Env): Adapter {
    match e
    case BotState(v) => OnBotState(a, v)
    case Packet(client, guild) => OnPacket(a, client, guild)
    case Disarm => a.(armed := false, client := None)
    case ShutdownFlag => a.(shutdown := true)
  }

  /** What listeners are told when no wait is on. */
  datatype Notice = MembershipChanged | ConnectionLost | RequesterLeft | OtherBotJoined | MemberUnavailable

  function OwnNotice(a: Adapter, v: VoiceState): Option<Notice> {
    if a.expected.None? || v.guild != a.expected.value.guild || a.target.Some? || !a.armed then None
    else if v.channel == 0 || v.channel != a.expected.value.channel then Some(ConnectionLost)
    else Some(MembershipChanged)
  }

  /** `isBot` is what the user cache knows about the member. */
  function MemberNotice(a: Adapter, user: nat, guild: nat, channel: nat, isBot: Option<bool>): Option<Notice> {
    if a.expected.None? || guild != a.expected.value.guild then None
    else if user == a.expected.value.requester && channel != a.expected.value.channel then Some(RequesterLeft)
    else if channel == a.expected.value.channel && isBot.None? then Some(MemberUnavailable)
    else if channel == a.expected.value.channel && isBot == Some(true) then Some(OtherBotJoined)
    else Some(MembershipChanged)
  }

  function After(a: Adapter, es: seq<Env>): Adapter {
    if es == [] then a else OnEnv(After(a, es[..|es| - 1]), es[|es| - 1])
  }

  // ------------------------------------------------------------------ calls

  predicate Complete(r: Request) {
    r.session != "" && r.guild != 0 && r.channel != 0 && r.requester != 0 && r.generation != 0
  }

  /** `reachable`: the gateway snapshot and the channel cache match the request. */
  predicate Preflight(a: Adapter, r: Request, reachable: bool) {
    a.configured && !a.blocked && Complete(r) && reachable
  }

  datatype EnableRun = EnableRun(
    stopping: bool, reachable: bool, accepted: bool,
    beforeLock: seq<Env>, beforeWait: seq<Env>, wait: seq<Env>)

  function EnableLock(a: Adapter, r: Request): Adapter {
    a.(expected := Some(r), armed := false, target := Some(false),
       observed := false, failed := false, privacySafe := false, seen := [])
  }

  function EnableWaited(a: Adapter, r: Request, run: EnableRun): Adapter {
    After(EnableLock(After(a, run.beforeLock), r), run.beforeWait + run.wait)
  }

  function Enable(a: Adapter, r: Request, run: EnableRun): (Adapter, bool) {
    if run.stopping || !Preflight(a, r, run.reachable) then (a, false)
    else
      var b := EnableWaited(a, r, run);
      (b.(target := None), run.accepted && b.observed && !b.failed && !b.shutdown)
  }

  datatype ArmRun = ArmRun(reachable: bool, requesterPresent: bool, otherBot: bool, humans: nat, client: Option<nat>,
                           beforeLock: seq<Env>)

  function Arm(a: Adapter, r: Request, run: ArmRun): (Adapter, bool) {
    if !Preflight(a, r, run.reachable) || !run.requesterPresent || run.otherBot || run.humans == 0 then (a, false)
    else
      var b := After(a, run.beforeLock);
      if b.expected != Some(r) then (b, false)
      else if run.client.None? then (b.(client := None), false)
      else (b.(client := run.client, armed := true), true)
  }

  /** The flag is read once more for the result; `lateShutdown` says that it was
      raised just before. */
  datatype DisableRun = DisableRun(
    accepted: bool, disconnectAccepted: bool,
    beforeWait: seq<Env>, wait: seq<Env>, beforeDisconnect: seq<Env>, disconnectWait: seq<Env>,
    beforeLast: seq<Env>, beforeStore: seq<Env>, lateShutdown: bool)

  function DisableLock(a: Adapter): Adapter {
    a.(armed := false, client := None, target := Some(true), observed := false, failed := false)
  }

  function Asked(a: Adapter, run: DisableRun): Adapter { After(DisableLock(a), run.beforeWait) }

  predicate Waits(a: Adapter, run: DisableRun) { run.accepted && !Asked(a, run).shutdown }

  /** Up to the end of the first wait, whether it was reached or not. */
  function Waited(a: Adapter, run: DisableRun): Adapter {
    if Waits(a, run) then After(Asked(a, run), run.wait) else Asked(a, run)
  }

  predicate Restored(a: Adapter, run: DisableRun) {
    Waits(a, run) && Waited(a, run).observed && !Waited(a, run).failed
  }

  function Rechecked(a: Adapter, run: DisableRun): Adapter { After(Waited(a, run), run.beforeDisconnect) }

  predicate GoneAlready(a: Adapter, run: DisableRun) {
    Rechecked(a, run).privacySafe && !Rechecked(a, run).observed
  }

  predicate Disconnects(a: Adapter, run: DisableRun) {
    !Restored(a, run) && !GoneAlready(a, run) && !Rechecked(a, run).shutdown && run.disconnectAccepted
  }

  function Disconnected(a: Adapter, run: DisableRun): Adapter {
    if Disconnects(a, run) then After(Rechecked(a, run), run.disconnectWait) else Rechecked(a, run)
  }

  predicate SafeInTheEnd(a: Adapter, run: DisableRun) {
    || Restored(a, run) || GoneAlready(a, run)
    || (Disconnects(a, run) && Disconnected(a, run).privacySafe)
  }

  function Disable(a: Adapter, run: DisableRun): (Adapter, bool) {
    if a.expected.None? then (a.(armed := false, client := None), !a.blocked)
    else if a.privacySafe then
      (a.(armed := false, client := None, target := None, expected := None, blocked := false), true)
    else
      var safe := SafeInTheEnd(a, run);
      var b := After(Disconnected(a, run), run.beforeLast);
      var c := if safe then b.(target := None, expected := None) else b;
      Stored(After(c, run.beforeStore), safe, run.lateShutdown)
  }

  function Stored(a: Adapter, safe: bool, lateShutdown: bool): (Adapter, bool) {
    (a.(blocked := !safe && !a.shutdown, shutdown := a.shutdown || lateShutdown), safe || a.shutdown || lateShutdown)
  }

  // ------------------------------------------------------------- the class

  class DppVoiceInputAdapter {
    const configured: bool
    var expected: Option<Request>
    var armed: bool
    var expectedClient: Option<nat>
    var targetSelfDeaf: Option<bool>
    var stateObserved: bool
    var stateFailed: bool
    var privacySafe: bool
    var privacyBlocked: bool
    var shutdown: bool
    ghost var seen: seq<VoiceState>

    ghost function Abs(): Adapter
      reads this
    {
      Adapter(configured, expected, armed, expectedClient, targetSelfDeaf, stateObserved, stateFailed,
              privacySafe, privacyBlocked, shutdown, seen)
    }

    constructor (configured: bool)
      ensures Abs() == Fresh(configured)
    {
      this.configured := configured;
      expected, armed, expectedClient, targetSelfDeaf := None, false, None, None;
      stateObserved, stateFailed, privacySafe, privacyBlocked, shutdown, seen := false, false, false, false, false, [];
    }

    /** For the bot's own state; the notice goes to `NotifyEvent`. */
    method VoiceStateChanged(v: VoiceState) returns (notice: Option<Notice>)
      modifies this
      ensures Abs() == OnBotState(old(Abs()), v)
      ensures notice == OwnNotice(old(Abs()), v)
    {
      seen := seen + [v];
      notice := None;
      if expected.None? || v.guild != expected.value.guild {
        return;
      }
      if targetSelfDeaf.Some? {
        if v.channel == 0 || v.channel != expected.value.channel {
          stateFailed := true;
          if v.channel == 0 {
            privacySafe := true;
            privacyBlocked := false;
          }
        } else if v.selfDeaf == targetSelfDeaf.value {
          stateObserved := true;
          if targetSelfDeaf.value {
            privacySafe := true;
            privacyBlocked := false;
          }
        }
        return;
      }
      if armed {
        notice := Some(if v.channel == 0 || v.channel != expected.value.channel then ConnectionLost else MembershipChanged);
      }
    }

    /** For everybody else's state: only the expected guild matters, the departure
        of the requester comes first, and bots matter only in the channel. */
    method MemberStateChanged(user: nat, guild: nat, channel: nat, isBot: Option<bool>) returns (notice: Option<Notice>)
      ensures notice == MemberNotice(Abs(), user, guild, channel, isBot)
    {
      if expected.None? || guild != expected.value.guild {
        return None;
      }
      var request := expected.value;
      if user == request.requester && channel != request.channel {
        return Some(RequesterLeft);
      }
      if channel == request.channel {
        if isBot.None? {
          return Some(MemberUnavailable);
        }
        if isBot.value {
          return Some(OtherBotJoined);
        }
      }
      return Some(MembershipChanged);
    }

    /** A notice reaches the listener only while its request is still expected. */
    method NotifyEvent(request: Request) returns (told: bool)
      ensures told <==> Reaches(Abs(), request)
    {
      told := expected.Some? && expected.value == request;
    }

    /** True when the audio callback is called: armed, from the armed client,
        and not empty. */
    method Receive(client: Option<nat>, guild: nat, hasAudio: bool) returns (delivered: bool, changed: bool)
      modifies this
      ensures changed <==> old(armed) && !armed
      ensures Abs() == OnPacket(old(Abs()), client, guild)
      ensures delivered <==> Hears(old(Abs())) && client == old(expectedClient) && hasAudio
    {
      if !armed || expected.None? || expectedClient.None? {
        return false, false;
      }
      var disposition := ClassifyReceiveClient(expectedClient, client, expected.value.guild, guild);
      if disposition == Ignore {
        return false, false;
      }
      if disposition == ConnectionChanged {
        armed, expectedClient := false, None;
        return false, true;
      }
      return hasAudio, false;
    }

    method DisarmNow()
      modifies this
      ensures Abs() == OnEnv(old(Abs()), Disarm)
    {
      armed, expectedClient := false, None;
    }

    /** What the environment does between two locked sections. */
    method Deliver(es: seq<Env>)
      modifies this
      ensures Abs() == After(old(Abs()), es)
    {
      for i := 0 to |es|
        invariant Abs() == After(old(Abs()), es[..i])
      {
        assert es[..i + 1][..i] == es[..i];
        match es[i] {
          case BotState(v) => var _ := VoiceStateChanged(v);
          case Packet(client, guild) => var _, _ := Receive(client, guild, true);
          case Disarm => DisarmNow();
          case ShutdownFlag => shutdown := true;
        }
      }
      assert es[..|es|] == es;
    }

    method EnableTransport(r: Request, run: EnableRun) returns (ok: bool)
      modifies this
      ensures (Abs(), ok) == Enable(old(Abs()), r, run)
    {
      hide After, Complete;
      if run.stopping || !(configured && !privacyBlocked && Complete(r) && run.reachable) {
        return false;
      }
      Deliver(run.beforeLock);
      expected, armed, targetSelfDeaf := Some(r), false, Some(false);
      stateObserved, stateFailed, privacySafe, seen := false, false, false, [];
      Deliver(run.beforeWait + run.wait);
      if !run.accepted {
        targetSelfDeaf := None;
        return false;
      }
      var confirmed := stateObserved || stateFailed || shutdown;
      targetSelfDeaf := None;
      return confirmed && stateObserved && !stateFailed && !shutdown;
    }

    method ArmNow(r: Request, run: ArmRun) returns (ok: bool)
      modifies this
      ensures (Abs(), ok) == Arm(old(Abs()), r, run)
    {
      if !(configured && !privacyBlocked && Complete(r) && run.reachable)
         || !run.requesterPresent || run.otherBot || run.humans == 0 {
        return false;
      }
      Deliver(run.beforeLock);
      if expected != Some(r) {
        return false;
      }
      expectedClient := run.client;
      if expectedClient.None? {
        return false;
      }
      armed := true;
      return true;
    }

    method DisableTransport(run: DisableRun) returns (ok: bool)
      modifies this
      ensures (Abs(), ok) == Disable(old(Abs()), run)
    {
      hide After, SafeInTheEnd, Disconnected, DisableLock, Stored;
      armed, expectedClient := false, None;
      var request := expected;
      if request.Some? {
        if privacySafe {
          targetSelfDeaf, expected, privacyBlocked := None, None, false;
          return true;
        }
        targetSelfDeaf, stateObserved, stateFailed := Some(true), false, false;
      }
      if request.None? {
        return !privacyBlocked;
      }
      assert Abs() == DisableLock(old(Abs())) by { LockIs(old(Abs())); }
      var safe := RestoreOrDisconnect(run, old(Abs()));
      Deliver(run.beforeLast);
      if safe {
        targetSelfDeaf, expected := None, None;
      }
      Deliver(run.beforeStore);
      ok := StoreResult(safe, run.lateShutdown);
    }

    /** The end of `disable_transport`, outside the lock. */
    method StoreResult(safe: bool, lateShutdown: bool) returns (ok: bool)
      modifies this
      ensures (Abs(), ok) == Stored(old(Abs()), safe, lateShutdown)
    {
      privacyBlocked := !safe && !shutdown;
      if lateShutdown {
        shutdown := true;
      }
      return safe || shutdown;
    }

    /** The two waits of `disable_transport`: for the deaf state, then for the
        departure that a forced disconnect should bring. */
    method RestoreOrDisconnect(run: DisableRun, ghost start: Adapter) returns (safe: bool)
      requires Abs() == DisableLock(start)
      modifies this
      ensures Abs() == Disconnected(start, run) && safe == SafeInTheEnd(start, run)
    {
      hide After, OnEnv;
      var restored := false;
      Deliver(run.beforeWait);
      if run.accepted && !shutdown {
        Deliver(run.wait);
        restored := (stateObserved || stateFailed || shutdown) && stateObserved && !stateFailed;
      }
      assert Abs() == Waited(start, run);
      Deliver(run.beforeDisconnect);
      var disconnected := privacySafe && !stateObserved;
      if !restored && !disconnected && !shutdown {
        if run.disconnectAccepted {
          Deliver(run.disconnectWait);
          disconnected := (privacySafe || shutdown) && privacySafe;
        }
      }
      return restored || disconnected;
    }
  }

  lemma LockIs(a: Adapter)
    ensures DisableLock(a) == a.(armed := false, client := None, target := Some(true), observed := false, failed := false)
  {
  }

  function Fresh(configured: bool): Adapter {
    Adapter(configured, None, false, None, None, false, false, false, false, false, [])
  }

  // ---------------------------------------------------------- the invariant

  /** An observation that ends listening: deaf in the expected channel, or gone. */
  predicate SafeNews(r: Request, v: VoiceState) {
    v.guild == r.guild && (v.channel == 0 || (v.channel == r.channel && v.selfDeaf))
  }

  ghost predicate SafeSeen(r: Request, seen: seq<VoiceState>) {
    exists i :: 0 <= i < |seen| && SafeNews(r, seen[i])
  }

  ghost predicate Inv(a: Adapter) {
    && (a.expected.Some? && a.privacySafe ==> SafeSeen(a.expected.value, a.seen))
    && (a.blocked ==> a.expected.Some? && a.target == Some(true))
    && (a.expected.Some? && a.target == Some(true) && a.observed ==> a.privacySafe)
    && (a.target == Some(true) ==> a.expected.Some?)
  }

  lemma EventKeeps(a: Adapter, e: Env)
    requires Inv(a)
    ensures Inv(OnEnv(a, e))
    ensures OnEnv(a, e).expected == a.expected && OnEnv(a, e).target == a.target
    ensures a.privacySafe ==> OnEnv(a, e).privacySafe
    ensures OnEnv(a, e).blocked ==> a.blocked && (OnEnv(a, e).privacySafe ==> a.privacySafe)
    ensures a.shutdown ==> OnEnv(a, e).shutdown
  {
    if e.BotState? && a.expected.Some? {
      var b := OnBotState(a, e.state);
      assert b.seen[|a.seen|] == e.state;
      if SafeSeen(a.expected.value, a.seen) {
        var i :| 0 <= i < |a.seen| && SafeNews(a.expected.value, a.seen[i]);
        assert b.seen[i] == a.seen[i];
      }
    }
  }

  lemma {:induction false} EventsKeep(a: Adapter, es: seq<Env>)
    requires Inv(a)
    ensures Inv(After(a, es))
    ensures After(a, es).expected == a.expected && After(a, es).target == a.target
    ensures a.privacySafe ==> After(a, es).privacySafe
    ensures After(a, es).blocked ==> a.blocked && (After(a, es).privacySafe ==> a.privacySafe)
    ensures a.shutdown ==> After(a, es).shutdown
  {
    hide Inv, OnEnv;
    if es != [] {
      EventsKeep(a, es[..|es| - 1]);
      EventKeeps(After(a, es[..|es| - 1]), es[|es| - 1]);
    }
  }

  lemma EnableKeeps(a: Adapter, r: Request, run: EnableRun)
    requires Inv(a)
    ensures Inv(Enable(a, r, run).0)
  {
    if !run.stopping && Preflight(a, r, run.reachable) {
      EventsKeep(a, run.beforeLock);
      EventsKeep(EnableLock(After(a, run.beforeLock), r), run.beforeWait + run.wait);
    }
  }

  lemma ArmKeeps(a: Adapter, r: Request, run: ArmRun)
    requires Inv(a)
    ensures Inv(Arm(a, r, run).0)
  {
    EventsKeep(a, run.beforeLock);
  }

  /** The intermediate states of one call that has to wait. */
  lemma DisableStages(a: Adapter, run: DisableRun)
    requires Inv(a) && a.expected.Some? && !a.privacySafe
    ensures var b := After(Disconnected(a, run), run.beforeLast);
            && Inv(b) && b.expected == a.expected && b.target == Some(true)
            && (SafeInTheEnd(a, run) ==> b.privacySafe && !b.blocked)
  {
    hide After, Inv;
    assert Inv(DisableLock(a)) by { LockKeeps(a); }
    EventsKeep(DisableLock(a), run.beforeWait);
    EventsKeep(Asked(a, run), run.wait);
    RestoredIsSafe(Waited(a, run));
    EventsKeep(Waited(a, run), run.beforeDisconnect);
    EventsKeep(Rechecked(a, run), run.disconnectWait);
    EventsKeep(Disconnected(a, run), run.beforeLast);
  }

  lemma LockKeeps(a: Adapter)
    requires Inv(a) && a.expected.Some?
    ensures Inv(DisableLock(a))
  {
  }

  lemma RestoredIsSafe(a: Adapter)
    requires Inv(a) && a.expected.Some? && a.target == Some(true)
    ensures a.observed ==> a.privacySafe
  {
  }

  lemma DisableKeeps(a: Adapter, run: DisableRun)
    requires Inv(a)
    ensures Inv(Disable(a, run).0)
  {
    hide After, SafeInTheEnd, Disconnected;
    if a.expected.Some? && !a.privacySafe {
      DisableStages(a, run);
      var b := After(Disconnected(a, run), run.beforeLast);
      var c := if SafeInTheEnd(a, run) then b.(target := None, expected := None) else b;
      EventsKeep(c, run.beforeStore);
    }
  }

  // --------------------------------------------------------------- theorems

  /** What a caller may rely on after a disable without shutdown. */
  ghost predicate Honest(a: Adapter, b: Adapter, ok: bool) {
    && (ok <==> !b.blocked)
    && (ok && a.expected.Some? ==> b.expected.None? && SafeSeen(a.expected.value, b.seen))
    && (ok && a.expected.None? ==> !a.blocked)
    && (!ok ==> b.expected == a.expected)
  }

  /** `disable_transport` returns true only when there was nothing to settle and
      the adapter is not blocked, or when since the last enable the bot was seen
      deaf in its channel or gone; otherwise the adapter is blocked. */
  lemma DisableIsHonest(a: Adapter, run: DisableRun)
    requires Inv(a) && !Disable(a, run).0.shutdown
    ensures Honest(a, Disable(a, run).0, Disable(a, run).1)
  {
    hide After, SafeInTheEnd, Disconnected;
    if a.expected.Some? && !a.privacySafe {
      DisableStages(a, run);
      var b := After(Disconnected(a, run), run.beforeLast);
      var c := if SafeInTheEnd(a, run) then b.(target := None, expected := None) else b;
      EventsKeep(c, run.beforeStore);
      if SafeInTheEnd(a, run) {
        SeenGrows(c, run.beforeStore, a.expected.value);
      }
    }
  }

  lemma SeenOneMore(a: Adapter, e: Env)
    ensures OnEnv(a, e).seen == if e.BotState? then a.seen + [e.state] else a.seen
  {
    hide ClassifyReceiveClient;
  }

  lemma {:induction false} SeenGrows(a: Adapter, es: seq<Env>, r: Request)
    requires SafeSeen(r, a.seen)
    ensures SafeSeen(r, After(a, es).seen)
  {
    hide OnEnv, SafeNews;
    if es != [] {
      SeenGrows(a, es[..|es| - 1], r);
      var b := After(a, es[..|es| - 1]);
      var i :| 0 <= i < |b.seen| && SafeNews(r, b.seen[i]);
      SeenOneMore(b, es[|es| - 1]);
      assert After(a, es).seen[i] == b.seen[i];
    }
  }

  datatype Call =
    | DoEnable(request: Request, enableRun: EnableRun)
    | DoArm(request: Request, armRun: ArmRun)
    | DoDisable(disableRun: DisableRun)
    | DoEnv(event: Env)

  function Do(a: Adapter, c: Call): (Adapter, bool) {
    match c
    case DoEnable(r, run) => Enable(a, r, run)
    case DoArm(r, run) => Arm(a, r, run)
    case DoDisable(run) => Disable(a, run)
    case DoEnv(e) => (OnEnv(a, e), true)
  }

  function Run(a: Adapter, calls: seq<Call>): Adapter
    decreases |calls|
  {
    if calls == [] then a else Run(Do(a, calls[0]).0, calls[1..])
  }

  lemma {:induction false} ReachableIsInv(a: Adapter, calls: seq<Call>)
    requires Inv(a)
    ensures Inv(Run(a, calls))
    decreases |calls|
  {
    hide Inv, Enable, Arm, Disable, OnEnv;
    if calls != [] {
      match calls[0] {
        case DoEnable(r, run) => EnableKeeps(a, r, run);
        case DoArm(r, run) => ArmKeeps(a, r, run);
        case DoDisable(run) => DisableKeeps(a, run);
        case DoEnv(e) => EventKeeps(a, e);
      }
      ReachableIsInv(Do(a, calls[0]).0, calls[1..]);
    }
  }

  /** The same in every reachable state, whatever was called and observed before. */
  lemma DisableIsHonestInEveryRun(configured: bool, calls: seq<Call>, run: DisableRun)
    ensures var a := Run(Fresh(configured), calls);
            !Disable(a, run).0.shutdown ==> Honest(a, Disable(a, run).0, Disable(a, run).1)
  {
    hide Run, Disable, Honest;
    assert Inv(Fresh(configured));
    ReachableIsInv(Fresh(configured), calls);
    if !Disable(Run(Fresh(configured), calls), run).0.shutdown {
      DisableIsHonest(Run(Fresh(configured), calls), run);
    }
  }

  predicate QuietEnv(r: Request, e: Env) {
    e != ShutdownFlag && (e.BotState? ==> !SafeNews(r, e.state))
  }

  /** No safe observation of `r` among these events, and no shutdown. */
  ghost predicate Quiet(r: Request, es: seq<Env>) {
    forall i :: 0 <= i < |es| ==> QuietEnv(r, es[i])
  }

  /** No safe observation of `r` in any gap of the call. */
  ghost predicate QuietCall(r: Request, c: Call) {
    match c
    case DoEnable(_, run) => Quiet(r, run.beforeLock) && Quiet(r, run.beforeWait) && Quiet(r, run.wait)
    case DoArm(_, run) => Quiet(r, run.beforeLock)
    case DoDisable(run) =>
      Quiet(r, run.beforeWait) && Quiet(r, run.wait) && Quiet(r, run.beforeDisconnect)
      && Quiet(r, run.disconnectWait) && Quiet(r, run.beforeLast) && Quiet(r, run.beforeStore) && !run.lateShutdown
    case DoEnv(e) => Quiet(r, [e])
  }

  /** Blocked, with the request unsettled and nothing safe observed yet. */
  ghost predicate Stuck(a: Adapter) { Inv(a) && a.blocked && !a.privacySafe && !a.shutdown }

  lemma QuietEvent(a: Adapter, e: Env)
    requires Stuck(a) && Quiet(a.expected.value, [e])
    ensures Stuck(OnEnv(a, e)) && OnEnv(a, e).expected == a.expected && OnEnv(a, e).target == a.target
    ensures OnEnv(a, e).observed == a.observed
  {
    EventKeeps(a, e);
    assert [e][0] == e;
  }

  lemma {:induction false} QuietEvents(a: Adapter, es: seq<Env>)
    requires Stuck(a) && Quiet(a.expected.value, es)
    ensures Stuck(After(a, es)) && After(a, es).expected == a.expected && After(a, es).target == a.target
    ensures After(a, es).observed == a.observed
  {
    hide OnEnv;
    if es != [] {
      assert Quiet(a.expected.value, es[..|es| - 1]);
      QuietEvents(a, es[..|es| - 1]);
      assert es[|es| - 1] == [es[|es| - 1]][0];
      QuietEvent(After(a, es[..|es| - 1]), es[|es| - 1]);
    }
  }

  lemma QuietDisable(a: Adapter, run: DisableRun)
    requires Stuck(a) && QuietCall(a.expected.value, DoDisable(run))
    ensures !Disable(a, run).1 && Stuck(Disable(a, run).0) && Disable(a, run).0.expected == a.expected
  {
    hide After, OnEnv;
    assert Stuck(DisableLock(a)) by { LockKeeps(a); }
    QuietEvents(DisableLock(a), run.beforeWait);
    QuietEvents(Asked(a, run), run.wait);
    QuietEvents(Waited(a, run), run.beforeDisconnect);
    QuietEvents(Rechecked(a, run), run.disconnectWait);
    assert !SafeInTheEnd(a, run);
    QuietEvents(Disconnected(a, run), run.beforeLast);
    QuietEvents(After(Disconnected(a, run), run.beforeLast), run.beforeStore);
  }

  /** A blocked adapter refuses every enable and every arm. */
  lemma BlockedRefuses(a: Adapter, c: Call)
    requires a.blocked && (c.DoEnable? || c.DoArm?)
    ensures Do(a, c) == (a, false)
  {
  }

  /** Once blocked with nothing safe observed, the adapter stays blocked through
      any calls and events until a safe observation of the unsettled request:
      until then every enable, arm and disable returns false. */
  lemma {:induction false} BlockedUntilObserved(a: Adapter, calls: seq<Call>, k: nat)
    requires Stuck(a) && k < |calls|
    requires forall i :: 0 <= i < |calls| ==> QuietCall(a.expected.value, calls[i])
    ensures var b := Run(a, calls[..k]);
            && Stuck(b) && b.expected == a.expected
            && (!calls[k].DoEnv? ==> !Do(b, calls[k]).1)
    decreases k
  {
    hide Enable, Arm, Disable, OnEnv, Inv;
    if k == 0 {
      assert calls[..0] == [];
      if calls[0].DoDisable? {
        QuietDisable(a, calls[0].disableRun);
      } else if !calls[0].DoEnv? {
        BlockedRefuses(a, calls[0]);
      }
    } else {
      match calls[0] {
        case DoDisable(run) => QuietDisable(a, run);
        case DoEnv(e) => QuietEvent(a, e);
        case _ => BlockedRefuses(a, calls[0]);
      }
      assert calls[..k][1..] == calls[1..][..k - 1];
      BlockedUntilObserved(Do(a, calls[0]).0, calls[1..], k - 1);
    }
  }

  // ------------------------------ which observations make a disable succeed

  /** Kinds of observation of the bot: in the request's channel, deaf or not,
      somewhere else or nowhere, and what ends listening. */
  datatype Sight = Deaf | Listening | Elsewhere | Safe

  predicate Shows(r: Request, k: Sight, v: VoiceState) {
    match k
    case Deaf => v.guild == r.guild && v.channel != 0 && v.channel == r.channel && v.selfDeaf
    case Listening => v.guild == r.guild && v.channel != 0 && v.channel == r.channel && !v.selfDeaf
    case Elsewhere => v.guild == r.guild && (v.channel == 0 || v.channel != r.channel)
    case Safe => SafeNews(r, v)
  }

  predicate ShownBy(r: Request, k: Sight, e: Env) { e.BotState? && Shows(r, k, e.state) }

  ghost predicate Any(r: Request, k: Sight, es: seq<Env>) {
    exists i :: 0 <= i < |es| && ShownBy(r, k, es[i])
  }

  lemma AnyOneMore(r: Request, k: Sight, es: seq<Env>)
    requires es != []
    ensures Any(r, k, es) <==> Any(r, k, es[..|es| - 1]) || ShownBy(r, k, es[|es| - 1])
  {
    hide ShownBy;
    var n := |es| - 1;
    assert forall i :: 0 <= i < n ==> es[..n][i] == es[i];
    if i :| 0 <= i < n && ShownBy(r, k, es[..n][i]) {
      assert ShownBy(r, k, es[i]);
    }
    if i :| 0 <= i < |es| && ShownBy(r, k, es[i]) {
      assert i < n ==> ShownBy(r, k, es[..n][i]);
    }
  }

  /** What a call that waits for the state `target` has recorded. */
  function Records(a: Adapter, k: Sight): bool {
    match k
    case Deaf => a.observed
    case Listening => a.observed
    case Elsewhere => a.failed
    case Safe => a.privacySafe
  }

  predicate Looks(a: Adapter, k: Sight) {
    && a.expected.Some? && a.target.Some?
    && (k in {Deaf, Safe} ==> a.target.value) && (k == Listening ==> !a.target.value)
  }

  lemma EventTells(a: Adapter, e: Env, k: Sight)
    requires Looks(a, k)
    ensures Records(OnEnv(a, e), k) <==> Records(a, k) || ShownBy(a.expected.value, k, e)
    ensures OnEnv(a, e).expected == a.expected && OnEnv(a, e).target == a.target
  {
    hide OnPacket, OnBotState;
    match e
    case BotState(v) => BotStateTells(a, v, k);
    case Packet(client, guild) => PacketTells(a, client, guild);
    case _ =>
  }

  lemma BotStateTells(a: Adapter, v: VoiceState, k: Sight)
    requires Looks(a, k)
    ensures Records(OnBotState(a, v), k) <==> Records(a, k) || Shows(a.expected.value, k, v)
    ensures OnBotState(a, v).expected == a.expected && OnBotState(a, v).target == a.target
  {
  }

  lemma PacketTells(a: Adapter, client: Option<nat>, guild: nat)
    ensures var b := OnPacket(a, client, guild);
            b == a.(armed := b.armed, client := b.client)
  {
    hide ClassifyReceiveClient;
  }

  /** While a call waits, every kind of observation it looks for is recorded
      exactly when there is one among the events. */
  lemma {:induction false} EventsTell(a: Adapter, es: seq<Env>, k: Sight)
    requires Looks(a, k)
    ensures Records(After(a, es), k) <==> Records(a, k) || Any(a.expected.value, k, es)
    ensures After(a, es).expected == a.expected && After(a, es).target == a.target
  {
    hide OnEnv, Records, ShownBy;
    if es != [] {
      EventsTell(a, es[..|es| - 1], k);
      EventTells(After(a, es[..|es| - 1]), es[|es| - 1], k);
      AnyOneMore(a.expected.value, k, es);
    }
  }

  lemma UpOneMore(a: Adapter, e: Env)
    ensures OnEnv(a, e).shutdown <==> a.shutdown || e == ShutdownFlag
  {
    hide ClassifyReceiveClient;
  }

  lemma {:induction false} StaysUp(a: Adapter, es: seq<Env>)
    ensures After(a, es).shutdown <==> a.shutdown || ShutdownFlag in es
  {
    hide OnEnv;
    if es != [] {
      var n := |es| - 1;
      StaysUp(a, es[..n]);
      UpOneMore(After(a, es[..n]), es[n]);
      assert es == es[..n] + [es[n]];
    }
  }

  /** Nothing in the call's gaps raises the shutdown flag. */
  predicate Undisturbed(run: DisableRun) {
    && ShutdownFlag !in run.beforeWait && ShutdownFlag !in run.wait && ShutdownFlag !in run.beforeDisconnect
    && ShutdownFlag !in run.disconnectWait && ShutdownFlag !in run.beforeLast && ShutdownFlag !in run.beforeStore
    && !run.lateShutdown
  }

  lemma UndisturbedStaysUp(a: Adapter, run: DisableRun)
    requires !a.shutdown && Undisturbed(run)
    ensures !Disable(a, run).0.shutdown
  {
    hide After, SafeInTheEnd, Disconnected;
    UpToTheWaits(a, run);
    StaysUp(Disconnected(a, run), run.beforeLast);
    var b := After(Disconnected(a, run), run.beforeLast);
    StaysUp(if SafeInTheEnd(a, run) then b.(target := None, expected := None) else b, run.beforeStore);
  }

  lemma UpToTheWaits(a: Adapter, run: DisableRun)
    requires !a.shutdown && Undisturbed(run)
    ensures !Disconnected(a, run).shutdown
  {
    hide After, Disconnects;
    StaysUp(DisableLock(a), run.beforeWait);
    StaysUp(Asked(a, run), run.wait);
    StaysUp(Waited(a, run), run.beforeDisconnect);
    StaysUp(Rechecked(a, run), run.disconnectWait);
  }

  /** Observations in the gaps up to the end of the first wait, and up to the recheck. */
  ghost predicate First(r: Request, k: Sight, run: DisableRun) {
    Any(r, k, run.beforeWait) || (run.accepted && Any(r, k, run.wait))
  }

  ghost predicate Early(r: Request, k: Sight, run: DisableRun) {
    First(r, k, run) || Any(r, k, run.beforeDisconnect)
  }

  /** Which observations make the call succeed.  With the forced disconnect
      accepted, any safe one before its wait ends.  With it refused: the bot was
      seen deaf, and nowhere else, by the end of an accepted first wait; or it
      was seen gone, and never deaf, by the recheck. */
  ghost predicate Succeeds(r: Request, run: DisableRun) {
    if run.disconnectAccepted then Early(r, Safe, run) || Any(r, Safe, run.disconnectWait)
    else || (run.accepted && First(r, Deaf, run) && !First(r, Elsewhere, run))
         || (Early(r, Safe, run) && !Early(r, Deaf, run))
  }

  /** What the call has recorded when it rechecks. */
  lemma DisableRecords(a: Adapter, run: DisableRun, k: Sight)
    requires k != Listening && a.expected.Some? && !a.privacySafe && !Disable(a, run).0.shutdown
    ensures var r := a.expected.value;
            && !Rechecked(a, run).shutdown && Waits(a, run) == run.accepted
            && Rechecked(a, run).expected == a.expected && Rechecked(a, run).target == Some(true)
            && (Records(Waited(a, run), k) <==> First(r, k, run))
            && (Records(Rechecked(a, run), k) <==> Early(r, k, run))
            && (Records(After(Rechecked(a, run), run.disconnectWait), k) <==> Early(r, k, run) || Any(r, k, run.disconnectWait))
  {
    hide After, Any, SafeInTheEnd, GoneAlready, Restored;
    EventsTell(DisableLock(a), run.beforeWait, k);
    EventsTell(Asked(a, run), run.wait, k);
    EventsTell(Waited(a, run), run.beforeDisconnect, k);
    EventsTell(Rechecked(a, run), run.disconnectWait, k);
    StaysUp(Asked(a, run), run.wait);
    StaysUp(Waited(a, run), run.beforeDisconnect);
    StaysUp(Rechecked(a, run), run.disconnectWait);
    StaysUp(Disconnected(a, run), run.beforeLast);
    var b := After(Disconnected(a, run), run.beforeLast);
    StaysUp(if SafeInTheEnd(a, run) then b.(target := None, expected := None) else b, run.beforeStore);
  }

  lemma EarlyIsSafe(r: Request, run: DisableRun)
    ensures First(r, Deaf, run) ==> First(r, Safe, run)
  {
    assert forall e :: ShownBy(r, Deaf, e) ==> ShownBy(r, Safe, e);
  }

  /** Without shutdown the call returns true exactly on those observations. */
  lemma WhenDisableSucceeds(a: Adapter, run: DisableRun)
    requires a.expected.Some? && !a.privacySafe && !Disable(a, run).0.shutdown
    ensures Disable(a, run).1 <==> Succeeds(a.expected.value, run)
  {
    hide After, First, Any, Waited, Rechecked, Waits;
    DisableRecords(a, run, Deaf);
    DisableRecords(a, run, Elsewhere);
    DisableRecords(a, run, Safe);
    EarlyIsSafe(a.expected.value, run);
  }

  /** So a failed call leaves a safe observation behind exactly when one was made
      in the gaps that it went through and yet not as `Succeeds` asks. */
  lemma WhenNewsIsOverwritten(a: Adapter, run: DisableRun)
    requires Inv(a) && a.expected.Some? && !a.privacySafe && !Disable(a, run).0.shutdown
    ensures var r := a.expected.value;
            !Disable(a, run).1 && Disable(a, run).0.privacySafe <==>
              !Succeeds(r, run) && (Early(r, Safe, run) || Any(r, Safe, run.beforeLast) || Any(r, Safe, run.beforeStore))
    ensures Disable(a, run).0.blocked == !Disable(a, run).1
  {
    hide After, Inv, Any, First, Waited, Rechecked, SafeInTheEnd, Succeeds;
    WhenDisableSucceeds(a, run);
    DisableIsHonest(a, run);
    DisableRecords(a, run, Safe);
    if !Disable(a, run).1 {
      NotSafe(a, run);
      FailureRecords(a, run);
      var d := Disconnected(a, run);
      EventsTell(d, run.beforeLast, Safe);
      EventsTell(After(d, run.beforeLast), run.beforeStore, Safe);
    }
  }

  lemma FailureRecords(a: Adapter, run: DisableRun)
    requires a.expected.Some? && !a.privacySafe && !Disable(a, run).0.shutdown && !Disable(a, run).1
    ensures var d := Disconnected(a, run);
            d.expected == a.expected && d.target == Some(true) && (d.privacySafe <==> Early(a.expected.value, Safe, run))
  {
    hide After, Any, First, Waited, Rechecked, SafeInTheEnd;
    DisableRecords(a, run, Safe);
    NotSafe(a, run);
    EventsTell(Rechecked(a, run), run.disconnectWait, Safe);
  }

  lemma NotSafe(a: Adapter, run: DisableRun)
    requires !SafeInTheEnd(a, run) && !Rechecked(a, run).shutdown
    ensures Disconnects(a, run) <==> run.disconnectAccepted
    ensures Disconnects(a, run) ==> !Disconnected(a, run).privacySafe
    ensures !Disconnects(a, run) ==> Disconnected(a, run) == Rechecked(a, run)
  {
  }

  /** After a failed call the adapter is stuck, or a safe observation was made
      and the next disable settles the request without waiting. */
  lemma OverwrittenNewsIsSettledNext(a: Adapter, run: DisableRun, again: DisableRun)
    requires Inv(a) && !Disable(a, run).1
    ensures var b := Disable(a, run).0;
            if b.privacySafe then Disable(b, again).1 && !Disable(b, again).0.blocked
            else Stuck(b)
  {
    hide After, SafeInTheEnd, Disconnected;
    assert !Disable(a, run).0.shutdown;
    DisableKeeps(a, run);
    DisableIsHonest(a, run);
  }

  function Enabled(r: Request): Call { DoEnable(r, EnableRun(false, true, true, [], [], [])) }

  lemma OneCallAfterEnabling(r: Request, c: Call)
    requires Complete(r)
    ensures Run(Fresh(true), [Enabled(r), c]) == Do(Fresh(true).(expected := Some(r)), c).0
  {
    hide Disable, Arm;
    var none: seq<Env> := [];
    assert none + none == none;
    var a := Do(Fresh(true), Enabled(r)).0;
    assert a == Fresh(true).(expected := Some(r));
    var b := Do(a, c).0;
    assert [Enabled(r), c][1..] == [c] && [c][1..] == [];
    assert Run(a, [c]) == Run(b, []) == b;
  }

  lemma OneEvent(a: Adapter, e: Env)
    ensures After(a, [e]) == OnEnv(a, e)
  {
    assert [e][..0] == [];
  }

  /** An observation between the last locked section and the final store. */
  lemma LateObservationIsOverwritten(r: Request) returns (calls: seq<Call>)
    requires Complete(r)
    ensures Run(Fresh(true), calls).blocked && SafeSeen(r, Run(Fresh(true), calls).seen)
  {
    var deaf := VoiceState(r.guild, r.channel, true);
    var run := DisableRun(false, false, [], [], [], [], [], [BotState(deaf)], false);
    calls := [Enabled(r), DoDisable(run)];
    OneCallAfterEnabling(r, DoDisable(run));
    var a := Fresh(true).(expected := Some(r));
    assert Waited(a, run) == DisableLock(a);
    OneEvent(DisableLock(a), BotState(deaf));
    var b := Run(Fresh(true), calls);
    assert b == OnBotState(DisableLock(a), deaf).(blocked := true);
    assert b.seen[0] == deaf;
  }

  /** An observation before the recheck, lost because listening could not be
      switched off regularly and the forced disconnect was refused. */
  lemma RefusedDisconnectLosesObservation(r: Request) returns (calls: seq<Call>)
    requires Complete(r)
    ensures Run(Fresh(true), calls).blocked && SafeSeen(r, Run(Fresh(true), calls).seen)
  {
    var deaf := VoiceState(r.guild, r.channel, true);
    var run := DisableRun(false, false, [BotState(deaf)], [], [], [], [], [], false);
    calls := [Enabled(r), DoDisable(run)];
    OneCallAfterEnabling(r, DoDisable(run));
    var a := Fresh(true).(expected := Some(r));
    OneEvent(DisableLock(a), BotState(deaf));
    assert Waited(a, run) == OnBotState(DisableLock(a), deaf);
    var b := Run(Fresh(true), calls);
    assert b == OnBotState(DisableLock(a), deaf).(blocked := true);
    assert b.seen[0] == deaf;
  }

  // ------------------------------------------ when enabling and arming succeed

  /** The adapter is configured, not blocked, and the request is complete and reachable. */
  predicate Admits(a: Adapter, r: Request, reachable: bool) {
    && a.configured && !a.blocked && reachable
    && r.session != "" && r.guild != 0 && r.channel != 0 && r.requester != 0 && r.generation != 0
  }

  /** An enable returns true exactly when it is not refused at once, its message is
      accepted, the bot is seen in the channel with its ears open, and nowhere
      else, before the wait ends, and nothing shuts down. */
  lemma WhenEnableSucceeds(a: Adapter, r: Request, run: EnableRun)
    ensures Enable(a, r, run).1 <==>
              && !run.stopping && Admits(a, r, run.reachable) && run.accepted
              && Any(r, Listening, run.beforeWait + run.wait) && !Any(r, Elsewhere, run.beforeWait + run.wait)
              && !a.shutdown && ShutdownFlag !in run.beforeLock && ShutdownFlag !in run.beforeWait + run.wait
    ensures !run.stopping && Admits(a, r, run.reachable) ==>
              && Enable(a, r, run).0.expected == Some(r) && !Enable(a, r, run).0.armed
              && Enable(a, r, run).0.target.None?
    ensures run.stopping || !Admits(a, r, run.reachable) ==> Enable(a, r, run).0 == a
  {
    hide After, Any, NoCut;
    var b := EnableLock(After(a, run.beforeLock), r);
    StaysUp(a, run.beforeLock);
    EventsTell(b, run.beforeWait + run.wait, Listening);
    EventsTell(b, run.beforeWait + run.wait, Elsewhere);
    StaysUp(b, run.beforeWait + run.wait);
    HearingAfter(b, run.beforeWait + run.wait);
  }

  /** An arm returns true exactly for the request that is enabled, with its
      requester and no other bot present, and a voice client to listen to. */
  lemma WhenArmSucceeds(a: Adapter, r: Request, run: ArmRun)
    ensures Arm(a, r, run).1 <==>
              && Admits(a, r, run.reachable) && run.requesterPresent && !run.otherBot && run.humans > 0
              && a.expected == Some(r) && run.client.Some?
    ensures Arm(a, r, run).1 ==> Hears(Arm(a, r, run).0) && Arm(a, r, run).0.client == run.client
  {
    hide After, NoCut;
    HearingAfter(a, run.beforeLock);
  }

  /** So a request that was enabled and then armed, with nothing in between, is heard. */
  lemma EnabledThenArmed(a: Adapter, r: Request, run: EnableRun, arm: ArmRun)
    requires Enable(a, r, run).1 && arm.reachable && arm.requesterPresent && !arm.otherBot && arm.humans > 0 && arm.client.Some?
    ensures Arm(Enable(a, r, run).0, r, arm).1
  {
    hide Enable, Arm, Any;
    WhenEnableSucceeds(a, r, run);
    WhenArmSucceeds(Enable(a, r, run).0, r, arm);
    EnableStaysUsable(a, r, run);
  }

  lemma UsableOneMore(a: Adapter, e: Env)
    ensures OnEnv(a, e).configured == a.configured && (!a.blocked ==> !OnEnv(a, e).blocked)
  {
    hide ClassifyReceiveClient;
  }

  lemma {:induction false} StaysUsable(a: Adapter, es: seq<Env>)
    ensures After(a, es).configured == a.configured && (!a.blocked ==> !After(a, es).blocked)
  {
    hide OnEnv;
    if es != [] {
      StaysUsable(a, es[..|es| - 1]);
      UsableOneMore(After(a, es[..|es| - 1]), es[|es| - 1]);
    }
  }

  lemma EnableStaysUsable(a: Adapter, r: Request, run: EnableRun)
    ensures Enable(a, r, run).0.configured == a.configured && (!a.blocked ==> !Enable(a, r, run).0.blocked)
  {
    hide After;
    StaysUsable(a, run.beforeLock);
    StaysUsable(EnableLock(After(a, run.beforeLock), r), run.beforeWait + run.wait);
  }

  // -------------------------------------------------- packets and notices

  /** A packet of another client of the guild, or of none, ends the hearing; the
      armed client's never does, nor does another guild's. */
  lemma PacketsCut(a: Adapter, client: Option<nat>, guild: nat)
    requires Hears(a) && a.expected.value.guild != 0
    ensures Hears(OnPacket(a, client, guild)) <==>
              client == a.client || (client.Some? && guild != a.expected.value.guild)
    ensures OnPacket(a, client, guild) == if Hears(OnPacket(a, client, guild)) then a else a.(armed := false, client := None)
  {
  }

  /** What listeners are told of the bot itself: only while armed, outside a wait. */
  lemma OwnNoticeIs(a: Adapter, v: VoiceState)
    ensures (OwnNotice(a, v) == Some(ConnectionLost) <==>
              && a.armed && a.expected.Some? && a.target.None? && v.guild == a.expected.value.guild
              && !(v.channel == a.expected.value.channel && v.channel != 0))
    ensures (OwnNotice(a, v) == Some(MembershipChanged) <==>
              && a.armed && a.expected.Some? && a.target.None? && v.guild == a.expected.value.guild
              && v.channel == a.expected.value.channel && v.channel != 0)
    ensures OwnNotice(a, v) in {None, Some(ConnectionLost), Some(MembershipChanged)}
  {
  }

  /** And of everybody else in the guild: the requester's departure comes first,
      and a bot or an unknown user matters only in the channel. */
  lemma MemberNoticeIs(a: Adapter, user: nat, guild: nat, channel: nat, isBot: Option<bool>)
    requires a.expected.Some? && guild == a.expected.value.guild
    ensures var n, r := MemberNotice(a, user, guild, channel, isBot), a.expected.value;
            && n.Some?
            && (n == Some(RequesterLeft) <==> user == r.requester && channel != r.channel)
            && (n == Some(MemberUnavailable) <==> channel == r.channel && isBot == None)
            && (n == Some(OtherBotJoined) <==> channel == r.channel && isBot == Some(true))
            && n != Some(ConnectionLost)
  {
  }

  // --------------------------------------------------------- who is heard

  /** Audio of the armed client would be delivered. */
  predicate Hears(a: Adapter) { a.armed && a.expected.Some? && a.client.Some? }

  /** The event ends that: a disarm, or a packet that reveals another connection. */
  predicate Cuts(a: Adapter, e: Env) {
    || e == Disarm
    || (e.Packet? && a.expected.Some?
        && ClassifyReceiveClient(a.client, e.client, a.expected.value.guild, e.guild) == ConnectionChanged)
  }

  lemma BotStateSpares(a: Adapter, v: VoiceState)
    ensures var b := OnBotState(a, v);
            b.armed == a.armed && b.client == a.client && b.expected == a.expected
  {
  }

  lemma HearingStep(a: Adapter, e: Env)
    ensures Hears(OnEnv(a, e)) <==> Hears(a) && !Cuts(a, e)
    ensures Hears(OnEnv(a, e)) ==> OnEnv(a, e).client == a.client
    ensures OnEnv(a, e).expected == a.expected
    ensures !a.armed ==> !OnEnv(a, e).armed
  {
    hide ClassifyReceiveClient, OnBotState;
    if e.BotState? {
      BotStateSpares(a, e.state);
    }
  }

  ghost predicate NoCut(a: Adapter, es: seq<Env>) {
    forall i :: 0 <= i < |es| ==> !Cuts(After(a, es[..i]), es[i])
  }

  lemma NoCutOneMore(a: Adapter, es: seq<Env>)
    requires es != []
    ensures NoCut(a, es) <==> NoCut(a, es[..|es| - 1]) && !Cuts(After(a, es[..|es| - 1]), es[|es| - 1])
  {
    hide Cuts, After;
    var n := |es| - 1;
    assert forall i :: 0 <= i < n ==> es[..n][i] == es[i] && es[..n][..i] == es[..i];
    if NoCut(a, es[..n]) && !Cuts(After(a, es[..n]), es[n]) {
      forall i | 0 <= i < |es|
        ensures !Cuts(After(a, es[..i]), es[i])
      {
        assert i < n ==> !Cuts(After(a, es[..n][..i]), es[..n][i]);
      }
    }
    if NoCut(a, es) {
      forall i | 0 <= i < n
        ensures !Cuts(After(a, es[..n][..i]), es[..n][i])
      {
        assert !Cuts(After(a, es[..i]), es[i]);
      }
    }
  }

  lemma {:induction false} HearingAfter(a: Adapter, es: seq<Env>)
    ensures Hears(After(a, es)) <==> Hears(a) && NoCut(a, es)
    ensures Hears(After(a, es)) ==> After(a, es).client == a.client
    ensures After(a, es).expected == a.expected
    ensures !a.armed ==> !After(a, es).armed
  {
    hide OnEnv, Hears, Cuts, NoCut;
    if es == [] {
      assert NoCut(a, []) by { NothingCuts(a); }
    } else {
      HearingAfter(a, es[..|es| - 1]);
      HearingStep(After(a, es[..|es| - 1]), es[|es| - 1]);
      NoCutOneMore(a, es);
    }
  }

  lemma NothingCuts(a: Adapter)
    ensures NoCut(a, [])
  {
  }

  predicate Arms(a: Adapter, c: Call) { c.DoArm? && Arm(a, c.request, c.armRun).1 }

  predicate ArmRefused(a: Adapter, r: Request, run: ArmRun) {
    !Preflight(a, r, run.reachable) || !run.requesterPresent || run.otherBot || run.humans == 0
  }

  /** The call leaves an armed adapter armed: it is not a disable, an enable only
      if it is refused at once, an arm only if it is refused at once or concerns
      another request, and no event in it cuts. */
  ghost predicate Spares(a: Adapter, c: Call) {
    match c
    case DoEnable(r, run) => run.stopping || !Preflight(a, r, run.reachable)
    case DoArm(r, run) => ArmRefused(a, r, run) || (a.expected != Some(r) && NoCut(a, run.beforeLock))
    case DoDisable(_) => false
    case DoEnv(e) => !Cuts(a, e)
  }

  lemma ArmHears(a: Adapter, r: Request, run: ArmRun)
    ensures var (b, ok) := Arm(a, r, run);
            && (Hears(b) <==> ok || (Hears(a) && Spares(a, DoArm(r, run))))
            && (ok ==> !Spares(a, DoArm(r, run)))
            && (ok ==> b.expected == Some(r) && b.client == run.client)
            && (Hears(b) && !ok ==> b.expected == a.expected && b.client == a.client)
  {
    hide After, NoCut, Preflight, Complete;
    if !ArmRefused(a, r, run) {
      HearingAfter(a, run.beforeLock);
    }
  }

  lemma EnableIsDeaf(a: Adapter, r: Request, run: EnableRun)
    requires !run.stopping && Preflight(a, r, run.reachable)
    ensures !Enable(a, r, run).0.armed
  {
    hide After, NoCut;
    HearingAfter(EnableLock(After(a, run.beforeLock), r), run.beforeWait + run.wait);
  }

  /** From its first locked section on, nothing is heard during a disable or after it. */
  lemma DisableIsDeaf(a: Adapter, run: DisableRun)
    ensures !Disable(a, run).0.armed
    ensures !Asked(a, run).armed && !Waited(a, run).armed && !Rechecked(a, run).armed && !Disconnected(a, run).armed
  {
    hide After, NoCut, SafeInTheEnd, Restored, GoneAlready;
    HearingAfter(DisableLock(a), run.beforeWait);
    HearingAfter(Asked(a, run), run.wait);
    HearingAfter(Waited(a, run), run.beforeDisconnect);
    HearingAfter(Rechecked(a, run), run.disconnectWait);
    HearingAfter(Disconnected(a, run), run.beforeLast);
    var b := After(Disconnected(a, run), run.beforeLast);
    HearingAfter(if SafeInTheEnd(a, run) then b.(target := None, expected := None) else b, run.beforeStore);
  }

  lemma CallHears(a: Adapter, c: Call)
    ensures var b := Do(a, c).0;
            && (Hears(b) <==> Arms(a, c) || (Hears(a) && Spares(a, c)))
            && (Arms(a, c) ==> !Spares(a, c))
            && (Arms(a, c) ==> b.expected == Some(c.request) && b.client == c.armRun.client)
            && (Hears(b) && !Arms(a, c) ==> b.expected == a.expected && b.client == a.client)
  {
    hide After, NoCut, Disable, OnEnv, Cuts, Arm, Preflight;
    match c
    case DoArm(r, run) => ArmHears(a, r, run);
    case DoDisable(run) => DisableIsDeaf(a, run);
    case DoEnv(e) => HearingStep(a, e);
    case DoEnable(r, run) => if !run.stopping && Preflight(a, r, run.reachable) { EnableIsDeaf(a, r, run); }
  }

  lemma {:induction false} RunOneMore(a: Adapter, calls: seq<Call>)
    requires calls != []
    ensures Run(a, calls) == Do(Run(a, calls[..|calls| - 1]), calls[|calls| - 1]).0
    decreases |calls|
  {
    hide Do;
    var n := |calls| - 1;
    if n > 0 {
      RunOneMore(Do(a, calls[0]).0, calls[1..]);
      assert calls[1..][..n - 1] == calls[..n][1..];
    } else {
      assert calls[..0] == [] && calls[1..] == [];
    }
  }

  /** The call `k` armed the adapter, and every call since has spared it. */
  ghost predicate ArmedSince(start: Adapter, calls: seq<Call>, k: nat) {
    && k < |calls| && Arms(Run(start, calls[..k]), calls[k])
    && forall j :: k < j < |calls| ==> Spares(Run(start, calls[..j]), calls[j])
  }

  lemma ArmedOneMore(start: Adapter, calls: seq<Call>, k: nat)
    requires calls != [] && k < |calls| - 1
    ensures var n := |calls| - 1;
            ArmedSince(start, calls, k) <==> ArmedSince(start, calls[..n], k) && Spares(Run(start, calls[..n]), calls[n])
  {
    hide Run, Spares, Arms;
    var n := |calls| - 1;
    assert calls[..n][..k] == calls[..k];
    assert forall j :: k < j < n ==> calls[..n][..j] == calls[..j];
  }

  /** Audio can be delivered in a reachable state exactly when some arm succeeded
      and no call or event since has ended it; it is then the audio of that
      arm's client, for that arm's request. */
  lemma {:induction false} HearsSinceArmed(configured: bool, calls: seq<Call>)
    ensures var start := Fresh(configured);
            && (Hears(Run(start, calls)) <==> exists k: nat :: ArmedSince(start, calls, k))
            && (forall k: nat :: ArmedSince(start, calls, k) ==>
                  Run(start, calls).expected == Some(calls[k].request) && Run(start, calls).client == calls[k].armRun.client)
    decreases |calls|
  {
    hide Do, Spares, Arms, Hears, Run;
    var start := Fresh(configured);
    if calls == [] {
      NothingHeard(configured);
    } else {
      var n := |calls| - 1;
      var before := Run(start, calls[..n]);
      HearsSinceArmed(configured, calls[..n]);
      RunOneMore(start, calls);
      CallHears(before, calls[n]);
      assert ArmedSince(start, calls, n) <==> Arms(before, calls[n]);
      forall k: nat | k < n
        ensures ArmedSince(start, calls, k) <==> ArmedSince(start, calls[..n], k) && Spares(before, calls[n])
      {
        ArmedOneMore(start, calls, k);
      }
      if k: nat :| ArmedSince(start, calls[..n], k) {
        assert ArmedSince(start, calls, k) <==> Spares(before, calls[n]);
      }
    }
  }

  lemma NothingHeard(configured: bool)
    ensures !Hears(Run(Fresh(configured), []))
  {
  }

  /** The same at any moment between two calls, or in the gap before an arm or an
      enable takes the lock: the events `es` since must not have cut either. */
  lemma HearsBetweenCalls(configured: bool, calls: seq<Call>, es: seq<Env>)
    ensures var start := Fresh(configured);
            Hears(After(Run(start, calls), es)) <==>
              (exists k: nat :: ArmedSince(start, calls, k)) && NoCut(Run(start, calls), es)
  {
    hide Run, After, Hears, NoCut, ArmedSince;
    HearsSinceArmed(configured, calls);
    HearingAfter(Run(Fresh(configured), calls), es);
  }

  // -------------------------------------------------- who is told of events

  lemma NothingExpectedStays(a: Adapter, c: Call)
    requires a.expected.None? && !c.DoEnable?
    ensures Do(a, c).0.expected.None?
  {
    hide After, NoCut;
    if c.DoArm? {
      HearingAfter(a, c.armRun.beforeLock);
    }
  }

  lemma {:induction false} NothingExpectedInRun(a: Adapter, calls: seq<Call>)
    requires a.expected.None? && forall i :: 0 <= i < |calls| ==> !calls[i].DoEnable?
    ensures Run(a, calls).expected.None?
    decreases |calls|
  {
    hide Do;
    if calls != [] {
      NothingExpectedStays(a, calls[0]);
      NothingExpectedInRun(Do(a, calls[0]).0, calls[1..]);
    }
  }

  /** After a disable that settled its request, listeners are told nothing until
      the next enable: no event raises a notice, and a notice raised before for
      any request is held back, whatever else is called and observed. */
  lemma SilentAfterDisable(a: Adapter, run: DisableRun, calls: seq<Call>, es: seq<Env>)
    requires Inv(a) && a.expected.Some? && Disable(a, run).1 && !Disable(a, run).0.shutdown
    requires forall i :: 0 <= i < |calls| ==> !calls[i].DoEnable?
    ensures var b := After(Run(Disable(a, run).0, calls), es);
            && (forall v :: OwnNotice(b, v) == None)
            && (forall user, guild, channel, isBot :: MemberNotice(b, user, guild, channel, isBot) == None)
            && (forall r :: !Reaches(b, r))
            && !Hears(b)
  {
    hide After, Run, Disable, NoCut;
    DisableIsHonest(a, run);
    NothingExpectedInRun(Disable(a, run).0, calls);
    HearingAfter(Run(Disable(a, run).0, calls), es);
  }

  /** A notice raised for `r` gets past the second locked section. */
  predicate Reaches(a: Adapter, r: Request) { a.expected == Some(r) }

  // --------------------------------------------- a disable with nothing to do

  /** Without a request a disable answers at once whether the adapter is free; with
      one whose safe observation is recorded it settles it at once. */
  lemma DisableAtOnce(a: Adapter, run: DisableRun)
    ensures a.expected.None? ==>
              Disable(a, run).1 == !a.blocked && Disable(a, run).0 == a.(armed := false, client := None)
    ensures a.expected.Some? && a.privacySafe ==>
              && Disable(a, run).1 && Disable(a, run).0.expected.None? && !Disable(a, run).0.blocked
              && Disable(a, run).0.target.None? && !Disable(a, run).0.armed
  {
  }
}
