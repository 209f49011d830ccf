/**
  The voice binding of src/dpp_voice_gateway.cpp: which Discord voice channel
  the bot is bound to, whether its transport is ready under end-to-end
  encryption (DAVE), and whether somebody moved the bot away.

  Every critical section is one atomic step.  Cache and shard look-ups arrive as
  the parameters of a step; `Bind` and `JoinFailed` are the two critical
  sections of `connect`.  Channel and guild 0 stand for the unset snowflake.
 */
module VoiceBinding {

  import opened Wrappers

  datatype Kind = Ready | BotMoved | Error | Disconnected | OccupancyChanged | TrackMarker

  datatype VoiceEvent = VoiceEvent(
    kind: Kind, session: string, channel: nat, generation: nat, humans: nat, dave: bool, marker: string)

  /** What `connect` fixes for the life of a binding. */
  datatype Target = Target(session: string, guild: nat, channel: nat, generation: nat)

  /** What the voice transport last told. */
  datatype Link = Link(observed: nat, connected: bool, ready: bool, dave: bool, botMoved: bool)

  datatype Marker = Marker(expected: string, done: bool, completed: string)

  datatype Binding = Binding(target: Target, discordSession: string, humans: nat, link: Link, marker: Marker)

  function EventFrom(b: Binding, kind: Kind): VoiceEvent {
    VoiceEvent(kind, b.target.session, b.target.channel, b.target.generation, b.humans, b.link.dave, "")
  }

  function TranslateReady(b: Binding, observed: nat, clientReady: bool, dave: bool): VoiceEvent {
    if observed != b.target.channel then EventFrom(b, BotMoved).(channel := observed, dave := false)
    else if !clientReady then EventFrom(b, Error).(dave := false)
    else EventFrom(b, Ready).(dave := dave)
  }

  predicate DeferUntilDave(clientReady: bool, dave: bool) {
    clientReady && !dave
  }

  predicate MayReplaceBinding(b: Option<Binding>, session: string) {
    b.None? || b.value.target.session == session || !b.value.link.connected
  }

  // ------------------------------------------------------------------ steps

  /** The format of the audio and its size in bytes. */
  datatype Pcm = Pcm(rate: nat, channels: nat, bits: nat, bytes: nat)

  const MAXIMUM_TTS_PCM_BYTES := 3_840_000

  predicate Playable(a: Pcm, track: string) {
    && a.rate == 48_000 && a.channels == 2 && a.bits == 16 && track != ""
    && 0 < a.bytes <= MAXIMUM_TTS_PCM_BYTES && a.bytes % 4 == 0
  }

  datatype Submit = Accepted | Unavailable | Invalid

  datatype Event =
    | Bind(target: Target, humans: nat)
    | JoinFailed
    | Release(session: string)
    | SendPcm(session: string, audio: Pcm, track: string)
    | OnReady(server: nat, currentClient: bool, clientSession: string, voiceChannel: nat, clientReady: bool, encrypted: bool)
    | OnVoiceState(isBot: bool, guild: nat, stateChannel: nat, stateSession: string, count: Option<nat>)
    | OnMarker(server: nat, track: string)
    | Shutdown

  datatype Gateway = Gateway(binding: Option<Binding>, suppress: bool)

  function NewBinding(target: Target, humans: nat): Binding {
    Binding(target, "", humans, Link(target.channel, false, false, false, false), Marker("", false, ""))
  }

  function BindStep(g: Gateway, target: Target, humans: nat): Gateway {
    if !MayReplaceBinding(g.binding, target.session) then g
    else Gateway(Some(NewBinding(target, humans)),
                 g.suppress || (g.binding.Some? && g.binding.value.target.session != target.session))
  }

  function ReleaseStep(g: Gateway, session: string): Gateway {
    if g.binding.None? || g.binding.value.target.session != session then g
    else Gateway(None, g.suppress || g.binding.value.link.connected)
  }

  predicate SendAccepted(g: Gateway, session: string) {
    && g.binding.Some? && g.binding.value.target.session == session
    && g.binding.value.link.ready && g.binding.value.link.dave
  }

  function SendStep(g: Gateway, session: string, audio: Pcm, track: string): Gateway {
    if !Playable(audio, track) || !SendAccepted(g, session) then g
    else g.(binding := Some(g.binding.value.(marker := Marker(track, false, ""))))
  }

  /** The ready callback concerns the bound guild, the shard's current client
      and the voice session the binding knows. */
  predicate ReadyConcerns(b: Binding, server: nat, currentClient: bool, clientSession: string) {
    && server == b.target.guild && currentClient && clientSession != ""
    && (b.discordSession == "" || b.discordSession == clientSession)
  }

  /** The transport after a ready callback for `voiceChannel`. */
  function LinkAfterReady(t: Target, link: Link, voiceChannel: nat, clientReady: bool, encrypted: bool): Link {
    if link.botMoved then link
    else if voiceChannel != t.channel then Link(voiceChannel, true, false, false, true)
    else Link(t.channel, true, clientReady && encrypted, clientReady && encrypted, false)
  }

  function EventAfterReady(b: Binding, voiceChannel: nat, clientReady: bool, encrypted: bool): Option<VoiceEvent> {
    if b.link.botMoved then Some(EventFrom(b, BotMoved).(channel := b.link.observed))
    else if voiceChannel == b.target.channel && DeferUntilDave(clientReady, clientReady && encrypted) then None
    else Some(TranslateReady(b, voiceChannel, clientReady, clientReady && encrypted))
  }

  function ReadyStep(g: Gateway, e: Event): (r: (Gateway, Option<VoiceEvent>))
    requires e.OnReady?
  {
    if g.binding.None? || !ReadyConcerns(g.binding.value, e.server, e.currentClient, e.clientSession) then (g, None)
    else
      var b := g.binding.value.(discordSession := e.clientSession);
      var link := LinkAfterReady(b.target, b.link, e.voiceChannel, e.clientReady, e.encrypted);
      var event := EventAfterReady(b, e.voiceChannel, e.clientReady, e.encrypted);
      (Gateway(Some(b.(link := link)), g.suppress && (event.None? || event.value.kind != Ready)), event)
  }

  predicate Departure(e: Event) {
    e.OnVoiceState? && e.isBot && e.stateChannel == 0
  }

  /** The transport after the bot's own voice state showed `channel`. */
  function LinkAfterState(t: Target, link: Link, channel: nat): Link {
    if channel == 0 then Link(if link.botMoved then link.observed else 0, false, false, false, link.botMoved)
    else if channel != t.channel then Link(channel, true, false, false, true)
    else link.(connected := true, observed := if link.botMoved then link.observed else t.channel)
  }

  function EventAfterState(b: Binding, channel: nat): Option<VoiceEvent> {
    if channel == 0 then Some(EventFrom(b, Disconnected))
    else if channel != b.target.channel then Some(EventFrom(b, BotMoved).(channel := channel))
    else None
  }

  function StateStep(g: Gateway, e: Event): (r: (Gateway, Option<VoiceEvent>))
    requires e.OnVoiceState?
  {
    if Departure(e) && g.suppress then (g.(suppress := false), None)
    else if g.binding.None? || e.guild != g.binding.value.target.guild then (g, None)
    else if e.isBot then
      var b := g.binding.value;
      var session := if e.stateChannel != 0 && e.stateSession != "" then e.stateSession else b.discordSession;
      var after := b.(discordSession := session, link := LinkAfterState(b.target, b.link, e.stateChannel));
      (Gateway(Some(after), g.suppress && e.stateChannel != b.target.channel), EventAfterState(after, e.stateChannel))
    else if e.count.Some? && e.count.value != g.binding.value.humans then
      var b := g.binding.value.(humans := e.count.value);
      (g.(binding := Some(b)), Some(EventFrom(b, OccupancyChanged)))
    else (g, None)
  }

  function MarkerStep(g: Gateway, server: nat, track: string): (r: (Gateway, Option<VoiceEvent>)) {
    if g.binding.None? || server != g.binding.value.target.guild || track != g.binding.value.marker.expected then (g, None)
    else
      var b := g.binding.value.(marker := Marker(track, true, track));
      (g.(binding := Some(b)), Some(EventFrom(b, TrackMarker).(marker := track)))
  }

  function Step(g: Gateway, e: Event): (r: (Gateway, Option<VoiceEvent>)) {
    match e
    case Bind(target, humans) => (BindStep(g, target, humans), None)
    case JoinFailed => (g.(binding := None), None)
    case Release(session) => (ReleaseStep(g, session), None)
    case SendPcm(session, audio, track) => (SendStep(g, session, audio, track), None)
    case OnReady(_, _, _, _, _, _) => ReadyStep(g, e)
    case OnVoiceState(_, _, _, _, _) => StateStep(g, e)
    case OnMarker(server, track) => MarkerStep(g, server, track)
    case Shutdown => (Gateway(None, false), None)
  }

  // -------------------------------------------------------------- the class

  /** The fields under the lock, updated in place. */
  class DppVoiceGateway {
    var binding: Option<Binding>
    var suppressNextDeparture: bool

    ghost function Abs(): Gateway
      reads this
    {
      Gateway(binding, suppressNextDeparture)
    }

    constructor ()
      ensures Abs() == Gateway(None, false)
    {
      binding, suppressNextDeparture := None, false;
    }

    /** The first critical section of `connect`. */
    method BindTo(target: Target, humans: nat) returns (accepted: bool)
      modifies this
      ensures accepted == MayReplaceBinding(old(binding), target.session)
      ensures Abs() == Step(old(Abs()), Bind(target, humans)).0
    {
      if !MayReplaceBinding(binding, target.session) {
        return false;
      }
      if binding.Some? && binding.value.target.session != target.session {
        suppressNextDeparture := true;
      }
      binding := Some(NewBinding(target, humans));
      return true;
    }

    method ReleaseBinding(session: string)
      modifies this
      ensures Abs() == Step(old(Abs()), Release(session)).0
    {
      if binding.None? || binding.value.target.session != session {
        return;
      }
      suppressNextDeparture := suppressNextDeparture || binding.value.link.connected;
      binding := None;
    }

    /** `send_pcm` up to the end of its critical section; the chunks and the
        marker are sent only when it is accepted. */
    method ExpectMarker(session: string, audio: Pcm, track: string) returns (result: Submit)
      modifies this
      ensures result == Invalid <==> !Playable(audio, track)
      ensures result == Accepted <==> Playable(audio, track) && SendAccepted(old(Abs()), session)
      ensures Abs() == Step(old(Abs()), SendPcm(session, audio, track)).0
    {
      if audio.rate != 48_000 || audio.channels != 2 || audio.bits != 16 || track == ""
         || audio.bytes == 0 || audio.bytes > MAXIMUM_TTS_PCM_BYTES || audio.bytes % 4 != 0 {
        return Invalid;
      }
      if binding.None? || binding.value.target.session != session || !binding.value.link.ready || !binding.value.link.dave {
        return Unavailable;
      }
      var marker := binding.value.marker;
      marker := marker.(expected := track);
      marker := marker.(done := false);
      marker := marker.(completed := "");
      binding := Some(binding.value.(marker := marker));
      return Accepted;
    }

    method OnVoiceReady(server: nat, currentClient: bool, clientSession: string, voiceChannel: nat, clientReady: bool,
                        encrypted: bool)
      returns (emitted: Option<VoiceEvent>)
      modifies this
      ensures (Abs(), emitted)
           == Step(old(Abs()), OnReady(server, currentClient, clientSession, voiceChannel, clientReady, encrypted))
    {
      if binding.None? || !ReadyConcerns(binding.value, server, currentClient, clientSession) {
        return None;
      }
      var b := binding.value.(discordSession := clientSession);
      var link := b.link;
      if link.botMoved {
        emitted := Some(EventFrom(b, BotMoved).(channel := link.observed));
      } else {
        var dave := clientReady && encrypted;
        link := link.(connected := true);
        if voiceChannel == b.target.channel && DeferUntilDave(clientReady, dave) {
          emitted := None;
          link := link.(observed := b.target.channel, ready := false, dave := false);
        } else {
          var event := TranslateReady(b, voiceChannel, clientReady, dave);
          emitted := Some(event);
          match event.kind {
            case Ready =>
              suppressNextDeparture := false;
              link := link.(observed := b.target.channel, ready := true, dave := dave);
            case Error =>
              link := link.(observed := b.target.channel, ready := false, dave := false);
            case _ =>
              link := link.(observed := voiceChannel, ready := false, dave := false, botMoved := true);
          }
        }
      }
      binding := Some(b.(link := link));
    }

    method OnVoiceStateUpdate(isBot: bool, guild: nat, channel: nat, session: string, count: Option<nat>)
      returns (emitted: Option<VoiceEvent>)
      modifies this
      ensures (Abs(), emitted) == Step(old(Abs()), OnVoiceState(isBot, guild, channel, session, count))
    {
      emitted := None;
      if isBot && channel == 0 && suppressNextDeparture {
        suppressNextDeparture := false;
        return;
      }
      if binding.None? || guild != binding.value.target.guild {
        return;
      }
      var b := binding.value;
      if isBot {
        if channel != 0 && session != "" {
          b := b.(discordSession := session);
        }
        var link := b.link;
        if channel == 0 {
          link := link.(connected := false, ready := false, dave := false);
          if !link.botMoved {
            link := link.(observed := 0);
          }
          b := b.(link := link);
          emitted := Some(EventFrom(b, Disconnected));
        } else if channel != b.target.channel {
          b := b.(link := link.(observed := channel, connected := true, ready := false, dave := false, botMoved := true));
          emitted := Some(EventFrom(b, BotMoved).(channel := channel));
        } else {
          suppressNextDeparture := false;
          if !link.botMoved {
            link := link.(observed := b.target.channel);
          }
          b := b.(link := link.(connected := true));
        }
      } else if count.Some? && count.value != b.humans {
        b := b.(humans := count.value);
        emitted := Some(EventFrom(b, OccupancyChanged));
      }
      binding := Some(b);
    }

    method OnTrackMarker(server: nat, track: string) returns (emitted: Option<VoiceEvent>)
      modifies this
      ensures (Abs(), emitted) == Step(old(Abs()), OnMarker(server, track))
    {
      if binding.None? || server != binding.value.target.guild || track != binding.value.marker.expected {
        return None;
      }
      binding := Some(binding.value.(marker := binding.value.marker.(done := true, completed := track)));
      emitted := Some(EventFrom(binding.value, TrackMarker).(marker := track));
    }
  }

  // ------------------------------------------------- every reachable state

  /** What a snapshot promises its reader. */
  predicate SoundBinding(b: Binding, suppress: bool) {
    && b.link.ready == b.link.dave
    && (b.link.ready ==> b.link.connected && !b.link.botMoved && b.link.observed == b.target.channel && !suppress)
    && b.marker.completed == (if b.marker.done then b.marker.expected else "")
  }

  predicate Consistent(g: Gateway) {
    g.binding.Some? ==> SoundBinding(g.binding.value, g.suppress)
  }

  /** What an emitted event promises its receiver about the binding it was emitted from. */
  predicate Truthful(b: Binding, e: VoiceEvent) {
    && e.session == b.target.session && e.generation == b.target.generation && e.humans == b.humans
    && e.dave == b.link.dave
    && match e.kind
       case Ready => e.dave && b.link.ready && e.channel == b.target.channel
       case BotMoved => !e.dave && b.link.botMoved && e.channel == b.link.observed
       case Error => !e.dave && !b.link.ready && e.channel == b.target.channel
       case Disconnected => !e.dave && !b.link.connected
       case TrackMarker => b.marker.done && e.marker == b.marker.expected
       case OccupancyChanged => true
  }

  predicate Promises(g: Gateway, e: Option<VoiceEvent>) {
    && Consistent(g)
    && (e.Some? ==> g.binding.Some? && Truthful(g.binding.value, e.value))
  }

  lemma ReadyIsSound(g: Gateway, e: Event)
    requires Consistent(g) && e.OnReady?
    ensures Promises(ReadyStep(g, e).0, ReadyStep(g, e).1)
  {
  }

  lemma VoiceStateIsSound(g: Gateway, e: Event)
    requires Consistent(g) && e.OnVoiceState?
    ensures Promises(StateStep(g, e).0, StateStep(g, e).1)
  {
  }

  lemma StepIsSound(g: Gateway, e: Event)
    requires Consistent(g)
    ensures Promises(Step(g, e).0, Step(g, e).1)
  {
    hide ReadyStep, StateStep, Promises, Consistent;
    match e
    case OnReady(_, _, _, _, _, _) => ReadyIsSound(g, e);
    case OnVoiceState(_, _, _, _, _) => VoiceStateIsSound(g, e);
    case _ => OtherIsSound(g, e);
  }

  lemma OtherIsSound(g: Gateway, e: Event)
    requires Consistent(g) && !e.OnReady? && !e.OnVoiceState?
    ensures Promises(Step(g, e).0, Step(g, e).1)
  {
    hide ReadyStep, StateStep;
  }

  function Run(es: seq<Event>): Gateway {
    if es == [] then Gateway(None, false) else Step(Run(es[..|es| - 1]), es[|es| - 1]).0
  }

  function Emitted(es: seq<Event>, k: nat): Option<VoiceEvent>
    requires k < |es|
  {
    Step(Run(es[..k]), es[k]).1
  }

  lemma RunOneMore(es: seq<Event>, k: nat)
    requires k < |es|
    ensures Run(es[..k + 1]) == Step(Run(es[..k]), es[k]).0
  {
    hide Step;
    assert es[..k + 1][..k] == es[..k];
  }

  /** Ready means DAVE, in the bound channel, never moved, in every reachable state. */
  lemma {:induction false} RunsAreConsistent(es: seq<Event>)
    ensures Consistent(Run(es))
    decreases |es|
  {
    hide Step, SoundBinding;
    if es == [] {
    } else {
      RunsAreConsistent(es[..|es| - 1]);
      StepIsSound(Run(es[..|es| - 1]), es[|es| - 1]);
    }
  }

  /** Whatever the gateway ever emits is true of the binding it is emitted for. */
  lemma EventsAreTruthful(es: seq<Event>, k: nat)
    requires k < |es| && Emitted(es, k).Some?
    ensures Run(es[..k + 1]).binding.Some?
    ensures Truthful(Run(es[..k + 1]).binding.value, Emitted(es, k).value)
  {
    hide Step, SoundBinding, Truthful;
    RunsAreConsistent(es[..k]);
    StepIsSound(Run(es[..k]), es[k]);
    RunOneMore(es, k);
  }

  // --------------------------------------------------------- a moved bot

  predicate Moved(g: Gateway) {
    g.binding.Some? && g.binding.value.link.botMoved
  }

  /** The step gives the binding up or starts a new one. */
  predicate Replaces(g: Gateway, e: Event) {
    match e
    case Bind(target, _) => MayReplaceBinding(g.binding, target.session)
    case JoinFailed => true
    case Release(session) => g.binding.Some? && g.binding.value.target.session == session
    case Shutdown => true
    case _ => false
  }

  lemma MovedStepStaysMoved(g: Gateway, e: Event)
    requires Moved(g) && Consistent(g) && !Replaces(g, e)
    ensures Moved(Step(g, e).0) && Step(g, e).0.binding.value.target == g.binding.value.target
    ensures Step(g, e).1.Some? ==> Step(g, e).1.value.kind != Ready && !Step(g, e).1.value.dave
  {
    StepIsSound(g, e);
  }

  /** Once moved, a binding stays unready, and no ready event is ever emitted
      for it again, whatever happens until it is replaced. */
  lemma {:induction false} MovedUntilReplaced(es: seq<Event>, from: nat, k: nat)
    requires from <= k <= |es| && Moved(Run(es[..from]))
    requires forall i :: from <= i < k ==> !Replaces(Run(es[..i]), es[i])
    ensures Moved(Run(es[..k])) && !Run(es[..k]).binding.value.link.ready
    ensures Run(es[..k]).binding.value.target == Run(es[..from]).binding.value.target
    ensures forall i :: from <= i < k && Emitted(es, i).Some? ==> Emitted(es, i).value.kind != Ready
    decreases k - from
  {
    hide Step, Replaces;
    RunsAreConsistent(es[..k]);
    if k > from {
      MovedUntilReplaced(es, from, k - 1);
      RunsAreConsistent(es[..k - 1]);
      MovedStepStaysMoved(Run(es[..k - 1]), es[k - 1]);
      RunOneMore(es, k - 1);
    }
  }

  // ------------------------------------------------------------ departures

  /** A connected binding is never taken over by another session. */
  lemma ConnectedBindingIsKept(g: Gateway, e: Event)
    requires g.binding.Some? && g.binding.value.link.connected
    ensures var after := Step(g, e).0.binding;
            after.Some? ==> after.value.target.session == g.binding.value.target.session
  {
  }

  /** With the flag set exactly one departure is dropped: a second one is reported. */
  lemma OneDepartureIsDropped(g: Gateway, first: Event, second: Event)
    requires g.suppress && Departure(first) && Departure(second)
    requires g.binding.Some? && second.guild == g.binding.value.target.guild
    ensures Step(g, first) == (g.(suppress := false), None)
    ensures Step(Step(g, first).0, second).1.Some?
    ensures Step(Step(g, first).0, second).1.value.kind == Disconnected
    ensures !Step(Step(g, first).0, second).0.binding.value.link.connected
  {
  }

  /** The step makes the gateway expect a departure: a connected binding is
      released, or a binding is replaced by another session's. */
  predicate Announces(g: Gateway, e: Event) {
    match e
    case Release(session) =>
      g.binding.Some? && g.binding.value.target.session == session && g.binding.value.link.connected
    case Bind(target, _) =>
      MayReplaceBinding(g.binding, target.session) && g.binding.Some? && g.binding.value.target.session != target.session
    case _ => false
  }

  /** The step settles that expectation: the bot leaves any channel, is seen in
      the bound one, or becomes ready there; or everything is shut down. */
  predicate Settles(g: Gateway, e: Event) {
    || Departure(e) || e == Shutdown
    || (e.OnVoiceState? && e.isBot && g.binding.Some? && e.guild == g.binding.value.target.guild
        && e.stateChannel == g.binding.value.target.channel)
    || (e.OnReady? && Step(g, e).1.Some? && Step(g, e).1.value.kind == Ready)
  }

  lemma FlagStep(g: Gateway, e: Event)
    ensures Step(g, e).0.suppress <==> Announces(g, e) || (g.suppress && !Settles(g, e))
  {
  }

  /** An announced departure that nothing has settled since. */
  predicate Outstanding(es: seq<Event>, k: nat) {
    && k < |es| && Announces(Run(es[..k]), es[k])
    && forall j :: k < j < |es| ==> !Settles(Run(es[..j]), es[j])
  }

  lemma OutstandingOneMore(es: seq<Event>, k: nat)
    requires es != [] && k < |es| - 1
    ensures var n := |es| - 1;
            Outstanding(es, k) <==> Outstanding(es[..n], k) && !Settles(Run(es[..n]), es[n])
  {
    hide Settles, Announces, Run;
    var n := |es| - 1;
    assert es[..n][..k] == es[..k];
    assert forall j :: k < j < n ==> es[..n][..j] == es[..j];
  }

  /** The flag means exactly that over every run. */
  lemma {:induction false} FlagIsOutstanding(es: seq<Event>)
    ensures Run(es).suppress <==> exists k: nat :: Outstanding(es, k)
    decreases |es|
  {
    hide Step, Settles, Announces;
    if es != [] {
      var n := |es| - 1;
      FlagIsOutstanding(es[..n]);
      FlagStep(Run(es[..n]), es[n]);
      if Announces(Run(es[..n]), es[n]) {
        assert Outstanding(es, n);
      }
      if k: nat :| Outstanding(es[..n], k) {
        OutstandingOneMore(es, k);
      }
      if k: nat :| Outstanding(es, k) {
        if k < n {
          OutstandingOneMore(es, k);
        }
      }
    }
  }

  /** In every reachable state a departure in the binding's guild is reported if
      and only if no announced departure is outstanding; otherwise it is dropped
      and the binding stays as it is. */
  lemma DepartureIsReportedUnlessOutstanding(es: seq<Event>, e: Event)
    requires Departure(e) && Run(es).binding.Some? && e.guild == Run(es).binding.value.target.guild
    ensures Step(Run(es), e).1.Some? <==> !exists k: nat :: Outstanding(es, k)
    ensures (exists k: nat :: Outstanding(es, k)) ==> Step(Run(es), e).0.binding == Run(es).binding
  {
    hide Run, Outstanding;
    FlagIsOutstanding(es);
  }

  /** While the binding is ready, every departure in its guild is reported. */
  lemma ReadyDepartureIsReported(es: seq<Event>, e: Event)
    requires Run(es).binding.Some? && Run(es).binding.value.link.ready
    requires Departure(e) && e.guild == Run(es).binding.value.target.guild
    ensures Step(Run(es), e).1.Some? && Step(Run(es), e).1.value.kind == Disconnected
    ensures !Step(Run(es), e).0.binding.value.link.connected
  {
    RunsAreConsistent(es);
  }

  /** Replacing another session's binding announces a departure although that
      binding is never connected. */
  lemma TakenOverIsNotConnected(g: Gateway, e: Event)
    requires e.Bind? && Announces(g, e)
    ensures !g.binding.value.link.connected
  {
  }

  lemma RunAppend(es: seq<Event>, e: Event)
    ensures Run(es + [e]) == Step(Run(es), e).0
  {
    hide Step;
    assert (es + [e])[..|es|] == es;
  }

  /** A session that was ready is released: its departure is expected. */
  lemma ReleasedWhileReady() returns (es: seq<Event>)
    ensures Run(es) == Gateway(None, true)
  {
    var bind := Bind(Target("a", 1, 2, 1), 1);
    var ready := OnReady(1, true, "x", 2, true, true);
    RunAppend([], bind);
    RunAppend([bind], ready);
    RunAppend([bind, ready], Release("a"));
    assert [] + [bind] == [bind] && [bind] + [ready] == [bind, ready];
    es := [bind, ready] + [Release("a")];
  }

  /** A connected binding whose loss is dropped: the departure of a released
      session is still outstanding when a deferred ready callback connects the
      next one. */
  lemma EarlyDepartureCanBeDropped() returns (es: seq<Event>, e: Event)
    ensures Departure(e) && Run(es).binding.Some? && Run(es).binding.value.link.connected
    ensures e.guild == Run(es).binding.value.target.guild
    ensures Step(Run(es), e).1.None? && Step(Run(es), e).0.binding.value.link.connected
  {
    var released := ReleasedWhileReady();
    var again := Bind(Target("b", 1, 2, 2), 1);
    var deferred := OnReady(1, true, "y", 2, true, false);
    e := OnVoiceState(true, 1, 0, "", None);
    RunAppend(released, again);
    RunAppend(released + [again], deferred);
    hide Run;
    es := released + [again] + [deferred];
  }

  /** Another one: the departure was announced for a session that the gateway
      never saw connected. */
  lemma UnseenSessionHidesDeparture() returns (es: seq<Event>, e: Event)
    ensures |es| == 3 && Departure(e) && Run(es).binding.Some? && Run(es).binding.value.link.connected
    ensures forall k :: 0 <= k <= 2 && Run(es[..k]).binding.Some? ==> !Run(es[..k]).binding.value.link.connected
    ensures e.guild == Run(es).binding.value.target.guild
    ensures Step(Run(es), e).1.None? && Step(Run(es), e).0.binding.value.link.connected
  {
    var first := Bind(Target("a", 1, 2, 1), 1);
    var second := Bind(Target("b", 1, 2, 2), 1);
    var deferred := OnReady(1, true, "y", 2, true, false);
    e := OnVoiceState(true, 1, 0, "", None);
    RunAppend([], first);
    RunAppend([first], second);
    RunAppend([first, second], deferred);
    assert [] + [first] == [first] && [first] + [second] == [first, second];
    es := [first, second] + [deferred];
    assert es[..0] == [] && es[..1] == [first] && es[..2] == [first, second];
  }

  // --------------------------------------------------------------- markers

  predicate Sent(g: Gateway, e: Event) {
    e.SendPcm? && Playable(e.audio, e.track) && SendAccepted(g, e.session)
  }

  /** `k` is the accepted send whose marker the binding is waiting for. */
  predicate LastSend(es: seq<Event>, k: nat) {
    && k < |es| && es[k].SendPcm? && Sent(Run(es[..k]), es[k])
    && forall j :: k < j <= |es| ==> Expects(Run(es[..j]), Run(es[..k]).binding.value.target, es[k].track)
  }

  predicate Expects(g: Gateway, target: Target, track: string) {
    g.binding.Some? && g.binding.value.target == target && g.binding.value.marker.expected == track
  }

  lemma ExpectationStep(g: Gateway, e: Event)
    requires Step(g, e).0.binding.Some? && Step(g, e).0.binding.value.marker.expected != ""
    ensures || (Sent(g, e)
                && Expects(Step(g, e).0, g.binding.value.target, e.track))
            || (g.binding.Some?
                && Expects(g, Step(g, e).0.binding.value.target, Step(g, e).0.binding.value.marker.expected))
  {
  }

  lemma {:induction false} ExpectedWasSent(es: seq<Event>)
    requires Run(es).binding.Some? && Run(es).binding.value.marker.expected != ""
    ensures exists k :: LastSend(es, k)
    decreases |es|
  {
    hide Step;
    var n := |es| - 1;
    var before := Run(es[..n]);
    assert es[..n + 1] == es;
    RunOneMore(es, n);
    ExpectationStep(before, es[n]);
    if Sent(before, es[n])
       && Expects(Run(es), before.binding.value.target, es[n].track) {
      assert LastSend(es, n);
    } else {
      ExpectedWasSent(es[..n]);
      var k: nat :| LastSend(es[..n], k);
      assert es[..n][..k] == es[..k];
      forall j | k < j <= |es|
        ensures Expects(Run(es[..j]), Run(es[..k]).binding.value.target, es[k].track)
      {
        if j <= n {
          assert es[..n][..j] == es[..j];
        }
        assert es[..n][..n] == es[..n];
      }
      assert LastSend(es, k);
    }
  }

  /** A non-empty marker is reported only for the last audio accepted for this
      binding, and only once that audio is the one being waited for. */
  lemma MarkersWereSent(es: seq<Event>, e: Event) returns (k: nat)
    requires e.OnMarker? && e.track != "" && Step(Run(es), e).1.Some?
    ensures LastSend(es, k) && es[k].track == e.track
    ensures Step(Run(es), e).1.value.kind == TrackMarker && Step(Run(es), e).1.value.marker == es[k].track
  {
    ExpectedWasSent(es);
    k :| LastSend(es, k);
    assert es[..|es|] == es;
    assert Expects(Run(es[..|es|]), Run(es[..k]).binding.value.target, es[k].track);
  }

  // --------------------------------------- what each request and callback does

  /** A request is bound unless another session's binding is connected; the new
      binding knows its target and nothing else yet. */
  lemma BindDecides(g: Gateway, target: Target, humans: nat)
    ensures var after, refused := Step(g, Bind(target, humans)).0,
                    g.binding.Some? && g.binding.value.target.session != target.session && g.binding.value.link.connected;
            && (refused ==> after == g)
            && (!refused ==>
                  && after.binding.Some? && after.binding.value.target == target && after.binding.value.humans == humans
                  && after.binding.value.discordSession == "" && after.binding.value.link.observed == target.channel
                  && !after.binding.value.link.connected && !after.binding.value.link.ready
                  && !after.binding.value.link.botMoved && after.binding.value.marker.expected == "")
  {
  }

  lemma ReleaseDecides(g: Gateway, session: string)
    ensures Step(g, Release(session)).0.binding ==
              if g.binding.Some? && g.binding.value.target.session == session then None else g.binding
    ensures Step(g, JoinFailed).0 == g.(binding := None) && Step(g, Shutdown).0 == Gateway(None, false)
  {
  }

  /** The callback is the one that the binding waits for: of the bound guild, from
      the shard's current client, which has a voice session, and no other one
      than the binding has seen. */
  predicate Current(b: Binding, e: Event) {
    && e.OnReady? && e.server == b.target.guild && e.currentClient && e.clientSession != ""
    && b.discordSession in {"", e.clientSession}
  }

  /** Any other ready callback changes nothing and tells nobody. */
  lemma StaleReadyIsIgnored(g: Gateway, e: Event)
    requires e.OnReady? && (g.binding.Some? ==> !Current(g.binding.value, e))
    ensures Step(g, e) == (g, None)
  {
  }

  /** The gateway becomes ready, and says so, exactly on a callback for the bound
      channel with a ready and encrypted client; the flag for a departure is
      cleared with it. */
  lemma ReadyDecides(g: Gateway, e: Event)
    requires g.binding.Some? && Current(g.binding.value, e) && !g.binding.value.link.botMoved
    ensures var b, after, event := g.binding.value, Step(g, e).0.binding, Step(g, e).1;
            var bound := e.voiceChannel == b.target.channel;
            && after.Some? && after.value.link.connected && after.value.discordSession == e.clientSession
            && after.value.target == b.target && after.value.marker == b.marker && after.value.humans == b.humans
            && after.value.link.observed == e.voiceChannel
            && (after.value.link.ready <==> bound && e.clientReady && e.encrypted)
            && (after.value.link.dave <==> bound && e.clientReady && e.encrypted)
            && (after.value.link.botMoved <==> !bound)
            && (event.Some? && event.value.kind == Ready <==> bound && e.clientReady && e.encrypted)
            && (event.Some? && event.value.kind == Error <==> bound && !e.clientReady)
            && (event.Some? && event.value.kind == BotMoved <==> !bound)
            && (event.None? <==> bound && e.clientReady && !e.encrypted)
            && Step(g, e).0.suppress == (g.suppress && !(bound && e.clientReady && e.encrypted))
  {
  }

  /** For a moved binding the callback only repeats the move. */
  lemma MovedReadyRepeats(g: Gateway, e: Event)
    requires g.binding.Some? && Current(g.binding.value, e) && g.binding.value.link.botMoved
    ensures Step(g, e).0 == g.(binding := Some(g.binding.value.(discordSession := e.clientSession)))
    ensures Step(g, e).1.Some? && Step(g, e).1.value.kind == BotMoved
    ensures Step(g, e).1.value.channel == g.binding.value.link.observed
  {
  }

  /** From a fresh binding the bot is ready after one good callback. */
  lemma BoundThenReady(es: seq<Event>, target: Target, humans: nat, e: Event)
    requires MayReplaceBinding(Run(es).binding, target.session)
    requires e.OnReady? && e.server == target.guild && e.currentClient && e.clientSession != ""
    requires e.voiceChannel == target.channel && e.clientReady && e.encrypted
    ensures var g := Run(es + [Bind(target, humans)] + [e]);
            g.binding.Some? && g.binding.value.target == target && g.binding.value.link.ready && !g.suppress
  {
    hide Run, Step;
    var bind := Bind(target, humans);
    RunAppend(es, bind);
    RunAppend(es + [bind], e);
    BindDecides(Run(es), target, humans);
    ReadyDecides(Run(es + [bind]), e);
  }

  /** The bot's own state in the guild, when it is in a channel: elsewhere it is
      moved, and says so; in the bound channel it is connected, silently. */
  lemma StateDecides(g: Gateway, e: Event)
    requires g.binding.Some? && e.OnVoiceState? && e.isBot && e.guild == g.binding.value.target.guild && e.stateChannel != 0
    ensures var b, after, event := g.binding.value, Step(g, e).0.binding.value, Step(g, e).1;
            var bound := e.stateChannel == b.target.channel;
            && Step(g, e).0.binding.Some? && after.link.connected
            && after.discordSession == (if e.stateSession != "" then e.stateSession else b.discordSession)
            && (event.Some? <==> !bound)
            && (!bound ==> event.value.kind == BotMoved && event.value.channel == e.stateChannel
                           && after.link == Link(e.stateChannel, true, false, false, true))
            && (bound ==> after.link.botMoved == b.link.botMoved && after.link.ready == b.link.ready
                          && (!b.link.botMoved ==> after.link.observed == b.target.channel))
            && Step(g, e).0.suppress == (g.suppress && !bound)
  {
  }

  /** A reported departure leaves nothing of the transport but a move. */
  lemma DepartureLeaves(g: Gateway, e: Event)
    requires g.binding.Some? && Departure(e) && e.guild == g.binding.value.target.guild && !g.suppress
    ensures var b, after := g.binding.value, Step(g, e).0.binding;
            && after == Some(b.(link := after.value.link))
            && !after.value.link.connected && !after.value.link.ready && !after.value.link.dave
            && after.value.link.botMoved == b.link.botMoved
            && after.value.link.observed == (if b.link.botMoved then b.link.observed else 0)
  {
  }

  /** Members coming and going are reported exactly when the head count changes. */
  lemma OccupancyDecides(g: Gateway, e: Event)
    requires g.binding.Some? && e.OnVoiceState? && !e.isBot && e.guild == g.binding.value.target.guild
    ensures var b, event := g.binding.value, Step(g, e).1;
            && (event.Some? <==> e.count.Some? && e.count.value != b.humans)
            && (event.Some? ==> event.value.kind == OccupancyChanged && event.value.humans == e.count.value)
            && Step(g, e).0 == g.(binding := Some(b.(humans := if e.count.Some? then e.count.value else b.humans)))
  {
  }

  /** Audio is accepted exactly for a ready, encrypted binding of its session; its
      marker is then reported when the track reaches it. */
  lemma SentMarkerIsReported(g: Gateway, session: string, audio: Pcm, track: string)
    requires Playable(audio, track) && g.binding.Some? && g.binding.value.target.session == session
    requires g.binding.value.link.ready && g.binding.value.link.dave
    ensures var sent := Step(g, SendPcm(session, audio, track)).0;
            var (after, event) := Step(sent, OnMarker(g.binding.value.target.guild, track));
            && sent.binding.Some? && !sent.binding.value.marker.done && sent.binding.value.marker.expected == track
            && event.Some? && event.value.kind == TrackMarker && event.value.marker == track
            && after.binding.value.marker == Marker(track, true, track)
  {
  }

  /** A marker is reported exactly when it comes from the bound guild and is the
      one being waited for; any other changes nothing. */
  lemma MarkerDecides(g: Gateway, server: nat, track: string)
    ensures var (after, event) := Step(g, OnMarker(server, track));
            if g.binding.Some? && server == g.binding.value.target.guild && track == g.binding.value.marker.expected
            then event.Some? && event.value.kind == TrackMarker && event.value.marker == track
                 && after == g.(binding := Some(g.binding.value.(marker := Marker(track, true, track))))
            else after == g && event.None?
  {
  }

  /** Audio changes something exactly when it is 48 kHz, 16 bit, stereo, whole frames
      of at most 20 seconds, named, and for a ready encrypted binding of its session. */
  lemma SendDecides(g: Gateway, session: string, audio: Pcm, track: string)
    ensures var after := Step(g, SendPcm(session, audio, track)).0;
            if audio.rate == 48_000 && audio.channels == 2 && audio.bits == 16 && track != ""
               && 4 <= audio.bytes <= 20 * 48_000 * 4 && audio.bytes % 4 == 0
               && g.binding.Some? && g.binding.value.target.session == session
               && g.binding.value.link.ready && g.binding.value.link.dave
            then after == g.(binding := Some(g.binding.value.(marker := Marker(track, false, ""))))
            else after == g
  {
  }
}
