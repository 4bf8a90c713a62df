/**
  The guest VPN owner: Controller (state machine and flags) over LinuxBackend (its own
  flags and the external commands).  Every external command may fail before or after
  taking effect.  Beside the flags the model carries what really exists in the guest:
  the nftables drop table, the proton0 link and the online application.
 */
module GuestVpn {
  /** Outcome of one external command; a reported success is truthful. */
  datatype Effect =
    | Done      // took effect, success reported
    | Refused   // no effect, failure reported
    | Lost      // took effect, failure reported
  {
    predicate Took() { !Refused? }
  }

  // ----- the backend

  /** `exposed` records whether any command so far left a link without the drop table. */
  datatype Net = Net(killArmed: bool, tunnel: bool, table: bool, link: bool, exposed: bool) {
    /** The facts after one external command. */
    function Noted(table: bool, link: bool): Net {
      this.(table := table, link := link, exposed := exposed || (link && !table))
    }
  }

  function Arm(n: Net, rulesBuilt: bool, nft: Effect): (Net, bool) {
    if n.killArmed || n.tunnel || !rulesBuilt then (n, false) else
    var n' := n.Noted(n.table || nft.Took(), n.link);
    (n'.(killArmed := nft.Done?), nft.Done?)
  }

  /** ConfigureTunnel: underlay batch, `link add`, then WireGuard, routes and DNS. */
  function Configure(n: Net, underlay: bool, add: Effect, rest: bool): (Net, bool) {
    if !n.killArmed || n.tunnel || !underlay then (n, false) else
    (n.(tunnel := true).Noted(n.table, n.link || add.Took()), add.Done? && rest)
  }

  function RemoveTunnel(n: Net, dnsCleared: bool, del: Effect): (Net, bool) {
    if !n.tunnel then (n, true) else
    if !dnsCleared then (n, false) else
    var n' := n.Noted(n.table, n.link && !del.Took());
    (n'.(tunnel := !del.Done?), del.Done?)
  }

  function RemoveKillSwitch(n: Net, del: Effect): (Net, bool) {
    if n.tunnel then (n, false) else
    if !n.killArmed then (n, true) else
    var n' := n.Noted(n.table && !del.Took(), n.link);
    (n'.(killArmed := !del.Done?), del.Done?)
  }

  class LinuxBackend {
    var killArmed: bool
    var tunnel: bool
    ghost var table: bool
    ghost var link: bool
    ghost var exposed: bool

    ghost function View(): Net
      reads this
    {
      Net(killArmed, tunnel, table, link, exposed)
    }

    constructor ()
      ensures View() == Net(false, false, false, false, false)
    {
      killArmed, tunnel, table, link, exposed := false, false, false, false, false;
    }

    ghost method Note(newTable: bool, newLink: bool)
      modifies this`table, this`link, this`exposed
      ensures View() == old(View()).Noted(newTable, newLink)
    {
      table, link := newTable, newLink;
      exposed := exposed || (link && !table);
    }

    method ArmKillSwitch(rulesBuilt: bool, nft: Effect) returns (ok: bool)
      modifies this
      ensures (View(), ok) == Arm(old(View()), rulesBuilt, nft)
    {
      if killArmed || tunnel {
        return false;
      }
      if !rulesBuilt {
        return false;
      }
      Note(table || nft.Took(), link);
      if !nft.Done? {
        return false;
      }
      killArmed := true;
      return true;
    }

    method ConfigureTunnel(underlay: bool, add: Effect, rest: bool) returns (ok: bool)
      modifies this
      ensures (View(), ok) == Configure(old(View()), underlay, add, rest)
    {
      if !killArmed || tunnel {
        return false;
      }
      if !underlay {
        return false;
      }
      // marked before the mutation, so that a lost result still forces cleanup
      tunnel := true;
      Note(table, link || add.Took());
      if !add.Done? {
        return false;
      }
      return rest;
    }

    method RemoveTunnelInterface(dnsCleared: bool, del: Effect) returns (ok: bool)
      modifies this
      ensures (View(), ok) == RemoveTunnel(old(View()), dnsCleared, del)
    {
      if !tunnel {
        return true;
      }
      if !dnsCleared {
        return false;
      }
      Note(table, link && !del.Took());
      if !del.Done? {
        return false;
      }
      tunnel := false;
      return true;
    }

    method RemoveKillSwitchTable(del: Effect) returns (ok: bool)
      modifies this
      ensures (View(), ok) == RemoveKillSwitch(old(View()), del)
    {
      if tunnel {
        return false;
      }
      if !killArmed {
        return true;
      }
      Note(table && !del.Took(), link);
      if !del.Done? {
        return false;
      }
      killArmed := false;
      return true;
    }
  }

  // ----- the controller

  datatype State = Unconfigured | KillSwitchArmed | Configured | Verified | Degraded | Stopped

  datatype Proof = Proof(
    handshake: bool, dnsThroughTunnel: bool, dnsBypassBlocked: bool, ipv4ThroughTunnel: bool,
    ipv6ThroughTunnel: bool, ipv4BypassBlocked: bool, ipv6BypassBlocked: bool, torrentBound: bool)
  {
    predicate Complete(requireIPv6: bool, requireTorrent: bool) {
      && handshake && dnsThroughTunnel && dnsBypassBlocked
      && ipv4ThroughTunnel && ipv4BypassBlocked && ipv6BypassBlocked
      && (!requireIPv6 || ipv6ThroughTunnel) && (!requireTorrent || torrentBound)
    }
  }

  const NoProof := Proof(false, false, false, false, false, false, false, false)

  /** Outcomes of the commands one Configure may issue. */
  datatype ConfigureCommands = ConfigureCommands(
    inspected: bool, ipv6: bool,                          // profile.Inspect
    rulesBuilt: bool, arm: Effect,
    underlay: bool, add: Effect, rest: bool,
    undoDns: bool, undoLink: Effect,                      // detached tunnel removal
    start: Effect, halt: Effect,                          // online service, detached stop
    proof: Proof, proofFailed: bool)

  datatype VerifyCommands = VerifyCommands(start: Effect, halt: Effect, proof: Proof, proofFailed: bool)

  datatype StopCommands = StopCommands(halt: Effect, dns: bool, link: Effect, table: Effect)

  /** `running`: the online application really runs; `stopFailed`: a Stop failed since the last Configure. */
  datatype World = World(
    net: Net, hasOnline: bool, requireTorrent: bool,
    state: State, proof: Proof, requireIPv6: bool,
    killSwitchArmed: bool, configured: bool, onlineActive: bool,
    running: bool, stopFailed: bool)

  function Fresh(hasOnline: bool, requireTorrent: bool): World {
    World(Net(false, false, false, false, false), hasOnline, requireTorrent,
          Unconfigured, NoProof, false, false, false, false, false, false)
  }

  function StartOnline(w: World, start: Effect): (World, bool) {
    if !w.hasOnline then (w, true)
    else (w.(onlineActive := true, running := w.running || start.Took()), start.Done?)
  }

  function HaltOnline(w: World, halt: Effect): (World, bool) {
    if !w.hasOnline || !w.onlineActive then (w, true)
    else (w.(onlineActive := !halt.Done?, running := w.running && !halt.Took()), halt.Done?)
  }

  function Judge(w: World, proof: Proof, failed: bool): (World, bool) {
    var ok := !failed && proof.Complete(w.requireIPv6, w.requireTorrent);
    (w.(proof := proof, state := if ok then Verified else Degraded), ok)
  }

  function ConfigureStep(w: World, c: ConfigureCommands): (World, bool) {
    if w.state != Unconfigured && w.state != Stopped then (w, false) else
    if !c.inspected then (w, false) else
    var (n, armed) := Arm(w.net, c.rulesBuilt, c.arm);
    var w' := w.(requireIPv6 := c.ipv6, stopFailed := false, net := n);
    if !armed then (w', false)
    else RaiseTunnel(w'.(state := KillSwitchArmed, killSwitchArmed := true), c)
  }

  function RaiseTunnel(w: World, c: ConfigureCommands): (World, bool) {
    var (n, up) := Configure(w.net, c.underlay, c.add, c.rest);
    if !up then (w.(net := RemoveTunnel(n, c.undoDns, c.undoLink).0), false)
    else FirstProof(w.(net := n, state := Configured, configured := true), c)
  }

  function FirstProof(w: World, c: ConfigureCommands): (World, bool) {
    var (w1, started) := StartOnline(w, c.start);
    if !started then (HaltOnline(w1.(state := Degraded), c.halt).0, false) else
    var (w2, ok) := Judge(w1, c.proof, c.proofFailed);
    if ok then (w2, true) else (HaltOnline(w2, c.halt).0, false)
  }

  predicate VerifyAdmitted(w: World) {
    w.state == Configured || w.state == Verified || w.state == Degraded
  }

  function VerifyStep(w: World, c: VerifyCommands): (World, bool) {
    if !VerifyAdmitted(w) then (w, false) else
    var (w1, started) := if w.onlineActive then (w, true) else StartOnline(w, c.start);
    if !started then (HaltOnline(w1.(state := Degraded), c.halt).0, false)
    else Judge(w1, c.proof, c.proofFailed)
  }

  function StopStep(w: World, c: StopCommands): (World, bool) {
    var (w1, halted) := HaltOnline(w, c.halt);
    if w.state == Unconfigured || w.state == Stopped then
      if !halted then (w1.(stopFailed := true), false)
      else
        var w2 := w1.(state := Stopped, proof := NoProof, requireIPv6 := false);
        (w2.(killSwitchArmed := false, configured := false), true)
    else
      if !halted then (w1.(state := Degraded, stopFailed := true), false) else TearDown(w1, c)
  }

  function TearDown(w: World, c: StopCommands): (World, bool) {
    var (n, down) := RemoveTunnel(w.net, c.dns, c.link);
    if !down then (w.(net := n, state := Degraded, stopFailed := true), false) else
    var (n', off) := RemoveKillSwitch(n, c.table);
    var w' := w.(net := n', proof := NoProof, requireIPv6 := false, configured := false);
    if !off then (w'.(state := Degraded, stopFailed := true), false)
    else (w'.(killSwitchArmed := false, state := Stopped), true)
  }

  class Controller {
    const backend: LinuxBackend
    const hasOnline: bool
    const requireTorrent: bool
    var state: State
    var proof: Proof
    var requireIPv6: bool
    var killSwitchArmed: bool
    var configured: bool
    var onlineActive: bool
    ghost var running: bool
    ghost var stopFailed: bool

    ghost function View(): World
      reads this, backend
    {
      World(backend.View(), hasOnline, requireTorrent, state, proof, requireIPv6,
            killSwitchArmed, configured, onlineActive, running, stopFailed)
    }

    constructor (backend: LinuxBackend, hasOnline: bool, requireTorrent: bool)
      ensures this.backend == backend
      ensures View() == Fresh(hasOnline, requireTorrent).(net := backend.View())
    {
      this.backend, this.hasOnline, this.requireTorrent := backend, hasOnline, requireTorrent;
      state, proof, requireIPv6 := Unconfigured, NoProof, false;
      killSwitchArmed, configured, onlineActive, running, stopFailed := false, false, false, false, false;
    }

    method StartOnlineService(start: Effect) returns (ok: bool)
      modifies this`onlineActive, this`running
      ensures (View(), ok) == StartOnline(old(View()), start)
    {
      if !hasOnline {
        return true;
      }
      onlineActive := true;
      running := running || start.Took();
      return start.Done?;
    }

    method JudgeProof(candidate: Proof, failed: bool) returns (ok: bool)
      modifies this`proof, this`state
      ensures (View(), ok) == Judge(old(View()), candidate, failed)
    {
      proof := candidate;
      if failed || !proof.Complete(requireIPv6, requireTorrent) {
        state := Degraded;
        return false;
      }
      state := Verified;
      return true;
    }

    method StopOnlineDetached(halt: Effect) returns (ok: bool)
      modifies this`onlineActive, this`running
      ensures (View(), ok) == HaltOnline(old(View()), halt)
    {
      if !hasOnline || !onlineActive {
        return true;
      }
      running := running && !halt.Took();
      if halt.Done? {
        onlineActive := false;
      }
      return halt.Done?;
    }

    method ConfigureVpn(c: ConfigureCommands) returns (ok: bool)
      modifies this, backend
      ensures (View(), ok) == ConfigureStep(old(View()), c)
    {
      if state != Unconfigured && state != Stopped {
        return false;
      }
      if !c.inspected {
        return false;
      }
      requireIPv6, stopFailed := c.ipv6, false;
      var done := backend.ArmKillSwitch(c.rulesBuilt, c.arm);
      if !done {
        return false;
      }
      state := KillSwitchArmed;
      killSwitchArmed := true;
      ok := RaiseVpnTunnel(c);
    }

    method RaiseVpnTunnel(c: ConfigureCommands) returns (ok: bool)
      modifies this, backend
      ensures (View(), ok) == RaiseTunnel(old(View()), c)
    {
      var done := backend.ConfigureTunnel(c.underlay, c.add, c.rest);
      if !done {
        var _ := backend.RemoveTunnelInterface(c.undoDns, c.undoLink);
        return false;
      }
      state := Configured;
      configured := true;
      ok := FirstVpnProof(c);
    }

    method FirstVpnProof(c: ConfigureCommands) returns (ok: bool)
      modifies this
      ensures (View(), ok) == FirstProof(old(View()), c)
    {
      ok := StartOnlineService(c.start);
      if !ok {
        state := Degraded;
        var _ := StopOnlineDetached(c.halt);
        return false;
      }
      ok := JudgeProof(c.proof, c.proofFailed);
      if !ok {
        var _ := StopOnlineDetached(c.halt);
      }
    }

    method Verify(c: VerifyCommands) returns (ok: bool)
      modifies this
      ensures (View(), ok) == VerifyStep(old(View()), c)
    {
      if state != Configured && state != Verified && state != Degraded {
        return false;
      }
      if !onlineActive {
        ok := StartOnlineService(c.start);
        if !ok {
          state := Degraded;
          var _ := StopOnlineDetached(c.halt);
          return false;
        }
      }
      ok := JudgeProof(c.proof, c.proofFailed);
    }

    method Stop(c: StopCommands) returns (ok: bool)
      modifies this, backend
      ensures (View(), ok) == StopStep(old(View()), c)
    {
      var idle := state == Unconfigured || state == Stopped;
      var done := StopOnlineDetached(c.halt);
      if !done {
        stopFailed := true;
        state := if idle then state else Degraded;
        return false;
      }
      if idle {
        state := Stopped;
        proof, requireIPv6, killSwitchArmed, configured := NoProof, false, false, false;
        return true;
      }
      ok := TearDownVpn(c);
    }

    method TearDownVpn(c: StopCommands) returns (ok: bool)
      modifies this, backend
      ensures (View(), ok) == TearDown(old(View()), c)
    {
      var done := backend.RemoveTunnelInterface(c.dns, c.link);
      if !done {
        state, stopFailed := Degraded, true;
        return false;
      }
      proof, requireIPv6, configured := NoProof, false, false;
      state := KillSwitchArmed;
      done := backend.RemoveKillSwitchTable(c.table);
      if !done {
        state, stopFailed := Degraded, true;
        return false;
      }
      killSwitchArmed := false;
      state := Stopped;
      return true;
    }
  }

  // ----- every run

  datatype Call = CallConfigure(c: ConfigureCommands) | CallVerify(v: VerifyCommands) | CallStop(s: StopCommands)

  function Step(w: World, call: Call): World {
    match call
    case CallConfigure(c) => ConfigureStep(w, c).0
    case CallVerify(c) => VerifyStep(w, c).0
    case CallStop(c) => StopStep(w, c).0
  }

  function Run(w: World, calls: seq<Call>): World
    decreases |calls|
  {
    if calls == [] then w else Run(Step(w, calls[0]), calls[1..])
  }

  predicate FailClosed(n: Net) {
    !n.exposed && (n.link ==> n.table)
  }

  predicate NetInv(n: Net) {
    FailClosed(n) && (n.link ==> n.tunnel) && (n.tunnel ==> n.killArmed && n.table)
  }

  predicate Idle(w: World) {
    w.state == Unconfigured || w.state == Stopped
  }

  predicate Inv(w: World) {
    && NetInv(w.net)
    && w.killSwitchArmed == w.net.killArmed
    && (Idle(w) <==> !w.net.killArmed)
    && (w.configured ==> w.net.tunnel)
    && (w.running ==> w.onlineActive)
    && (w.onlineActive ==> w.hasOnline && w.net.killArmed)
    && (w.state == Verified ==> w.proof.Complete(w.requireIPv6, w.requireTorrent))
    && (!w.stopFailed ==>
          && (VerifyAdmitted(w) ==> w.configured)
          && (w.onlineActive ==> w.configured)
          && (w.net.killArmed ==> w.net.table)
          && (w.configured ==> w.net.link))
  }

  lemma FirstProofKeepsInv(w: World, c: ConfigureCommands)
    requires Inv(w) && w.configured && w.state == Configured
    ensures Inv(FirstProof(w, c).0)
  {
  }

  lemma RaiseTunnelKeepsInv(w: World, c: ConfigureCommands)
    requires Inv(w) && w.state == KillSwitchArmed && w.net.table && !w.net.tunnel && !w.onlineActive
    ensures Inv(RaiseTunnel(w, c).0)
  {
    var (n, up) := Configure(w.net, c.underlay, c.add, c.rest);
    if up {
      FirstProofKeepsInv(w.(net := n, state := Configured, configured := true), c);
    }
  }

  lemma ConfigureKeepsInv(w: World, c: ConfigureCommands)
    requires Inv(w)
    ensures Inv(ConfigureStep(w, c).0)
  {
    if Idle(w) && c.inspected {
      var (n, armed) := Arm(w.net, c.rulesBuilt, c.arm);
      if armed {
        var w' := w.(requireIPv6 := c.ipv6, stopFailed := false, net := n);
        RaiseTunnelKeepsInv(w'.(state := KillSwitchArmed, killSwitchArmed := true), c);
      }
    }
  }

  lemma VerifyKeepsInv(w: World, c: VerifyCommands)
    requires Inv(w)
    ensures Inv(VerifyStep(w, c).0)
  {
  }

  lemma RemovalKeepsNetInv(n: Net, dns: bool, link: Effect, table: Effect)
    requires NetInv(n)
    ensures var (n', down) := RemoveTunnel(n, dns, link);
      && NetInv(n') && n'.killArmed == n.killArmed && (down ==> !n'.tunnel) && (n'.tunnel ==> n.tunnel)
      && (down ==> NetInv(RemoveKillSwitch(n', table).0) && !RemoveKillSwitch(n', table).0.tunnel)
  {
  }

  lemma TearDownKeepsInv(w: World, c: StopCommands)
    requires Inv(w) && !Idle(w) && !w.onlineActive
    ensures Inv(TearDown(w, c).0)
  {
    RemovalKeepsNetInv(w.net, c.dns, c.link, c.table);
    var (n, down) := RemoveTunnel(w.net, c.dns, c.link);
    if down {
      var off := RemoveKillSwitch(n, c.table).1;
      assert off <==> !RemoveKillSwitch(n, c.table).0.killArmed;
    }
  }

  lemma StopKeepsInv(w: World, c: StopCommands)
    requires Inv(w)
    ensures Inv(StopStep(w, c).0)
  {
    var (w', halted) := HaltOnline(w, c.halt);
    if !Idle(w) && halted {
      TearDownKeepsInv(w', c);
    }
  }

  lemma {:induction false} RunKeepsInv(w: World, calls: seq<Call>)
    requires Inv(w)
    ensures Inv(Run(w, calls))
    decreases |calls|
  {
    if calls == [] {
    } else {
      match calls[0] {
        case CallConfigure(c) => ConfigureKeepsInv(w, c);
        case CallVerify(c) => VerifyKeepsInv(w, c);
        case CallStop(c) => StopKeepsInv(w, c);
      }
      RunKeepsInv(Step(w, calls[0]), calls[1..]);
    }
  }

  /** Whenever the link really exists the drop table really exists: now and after every past command. */
  lemma FailClosedAlways(hasOnline: bool, requireTorrent: bool, calls: seq<Call>)
    ensures FailClosed(Run(Fresh(hasOnline, requireTorrent), calls).net)
  {
    RunKeepsInv(Fresh(hasOnline, requireTorrent), calls);
  }

  /** The two layers agree in every reachable state. */
  lemma LayersAgree(hasOnline: bool, requireTorrent: bool, calls: seq<Call>)
    ensures var w := Run(Fresh(hasOnline, requireTorrent), calls);
      && w.killSwitchArmed == w.net.killArmed
      && (w.configured ==> w.net.tunnel && w.killSwitchArmed)
      && (Idle(w) ==> !w.net.killArmed && !w.net.tunnel && !w.net.link)
      && (Idle(w) ==> !w.configured && !w.onlineActive && !w.running)
      && (w.state == Verified ==> w.proof.Complete(w.requireIPv6, w.requireTorrent))
      && (w.onlineActive ==> w.killSwitchArmed)
      && (!w.stopFailed && w.onlineActive ==> w.configured && w.net.tunnel && w.net.link && w.net.table)
  {
    RunKeepsInv(Fresh(hasOnline, requireTorrent), calls);
  }

  /**
    One Stop whose commands all succeed ends every reachable state in `stopped`: no link, no flags, no application.  The
    table remains exactly when it exists without being owned, after an arming whose result was lost.
   */
  lemma CleanStopStops(hasOnline: bool, requireTorrent: bool, calls: seq<Call>)
    ensures var w := Run(Fresh(hasOnline, requireTorrent), calls);
      var (w', ok) := StopStep(w, StopCommands(Done, true, Done, Done));
      && ok && w'.state == Stopped
      && !w'.net.link && !w'.net.tunnel && !w'.net.killArmed && !w'.onlineActive && !w'.running
      && (w'.net.table <==> w.net.table && !w.net.killArmed)
      && StopStep(w', StopCommands(Done, true, Done, Done)) == (w', true)
  {
    RunKeepsInv(Fresh(hasOnline, requireTorrent), calls);
  }

  // ----- the application only over the tunnel: when it holds and when not

  /** By the flags: online only with a configured tunnel. */
  predicate OnlineOverTunnel(w: World) {
    w.onlineActive ==> w.configured && w.net.tunnel
  }

  /** In reality: the application runs only while the link exists. */
  predicate RunsOverLink(w: World) {
    w.running ==> w.net.link
  }

  /** In reality: the application runs only behind the drop table. */
  predicate RunsBehindTable(w: World) {
    w.running ==> w.net.table
  }

  predicate Contained(w: World) {
    OnlineOverTunnel(w) && RunsOverLink(w) && RunsBehindTable(w)
  }

  /** A Verify leaves the network and `configured` alone; only an admitted one can start a service. */
  lemma VerifyEffect(w: World, c: VerifyCommands)
    ensures var w' := VerifyStep(w, c).0;
      && w'.net == w.net && w'.configured == w.configured
      && (w'.onlineActive ==> w.onlineActive || (w.hasOnline && VerifyAdmitted(w)))
      && (w'.running ==> w.running || (w.hasOnline && VerifyAdmitted(w) && !w.onlineActive))
  {
    if VerifyAdmitted(w) {
      var (w1, started) := if w.onlineActive then (w, true) else StartOnline(w, c.start);
      assert w1.net == w.net && w1.configured == w.configured;
      var w2 := HaltOnline(w1.(state := Degraded), c.halt).0;
      assert w2.net == w.net && (w2.onlineActive ==> w1.onlineActive) && (w2.running ==> w1.running);
      var w3 := Judge(w1, c.proof, c.proofFailed).0;
      assert w3 == w1.(proof := w3.proof, state := w3.state);
      assert VerifyStep(w, c).0 == if started then w3 else w2;
    }
  }

  /** A Verify whose start succeeds; the proof may then fail. */
  const STARTS := VerifyCommands(Done, Done, NoProof, false)

  lemma VerifyStarts(w: World)
    requires w.hasOnline && VerifyAdmitted(w)
    ensures var w' := VerifyStep(w, STARTS).0;
      w'.onlineActive && (!w.onlineActive ==> w'.running)
  {
  }

  /** By the flags Verify can expose the service exactly when it is admitted without a configured tunnel. */
  lemma FlagsExposedExactly(w: World)
    requires Inv(w) && OnlineOverTunnel(w)
    ensures (exists c :: !OnlineOverTunnel(VerifyStep(w, c).0)) <==> w.hasOnline && VerifyAdmitted(w) && !w.configured
  {
    if w.hasOnline && VerifyAdmitted(w) && !w.configured {
      VerifyStarts(w);
      VerifyEffect(w, STARTS);
      assert !OnlineOverTunnel(VerifyStep(w, STARTS).0);
    } else {
      forall c ensures OnlineOverTunnel(VerifyStep(w, c).0) {
        VerifyEffect(w, c);
      }
    }
  }

  /** In reality Verify can leave the application running without the link exactly when it starts it there. */
  lemma VerifyExposesExactly(w: World)
    requires Inv(w) && RunsOverLink(w)
    ensures (exists c :: !RunsOverLink(VerifyStep(w, c).0)) <==>
            w.hasOnline && VerifyAdmitted(w) && !w.onlineActive && !w.net.link
  {
    if w.hasOnline && VerifyAdmitted(w) && !w.onlineActive && !w.net.link {
      VerifyStarts(w);
      VerifyEffect(w, STARTS);
      assert !RunsOverLink(VerifyStep(w, STARTS).0);
    } else {
      forall c ensures RunsOverLink(VerifyStep(w, c).0) {
        VerifyEffect(w, c);
      }
    }
  }

  /** The same for the drop table. */
  lemma TableExposedExactly(w: World)
    requires Inv(w) && RunsBehindTable(w)
    ensures (exists c :: !RunsBehindTable(VerifyStep(w, c).0)) <==>
            w.hasOnline && VerifyAdmitted(w) && !w.onlineActive && !w.net.table
  {
    if w.hasOnline && VerifyAdmitted(w) && !w.onlineActive && !w.net.table {
      VerifyStarts(w);
      VerifyEffect(w, STARTS);
      assert !RunsBehindTable(VerifyStep(w, STARTS).0);
    } else {
      forall c ensures RunsBehindTable(VerifyStep(w, c).0) {
        VerifyEffect(w, c);
      }
    }
  }

  /** Without a failed Stop since Configure, no Verify can. */
  lemma VerifyContained(w: World, c: VerifyCommands)
    requires Inv(w) && Contained(w) && (!w.stopFailed || Idle(w))
    ensures Contained(VerifyStep(w, c).0)
  {
    VerifyEffect(w, c);
    assert VerifyAdmitted(w) ==> w.configured && w.net.link && w.net.table;
  }

  /** Stopping the service first: after that nothing runs, or nothing else was touched. */
  lemma HaltEffect(w: World, halt: Effect)
    requires Inv(w)
    ensures var (w', halted) := HaltOnline(w, halt);
      && w'.net == w.net && w'.configured == w.configured
      && (w'.running ==> w.running) && (w'.onlineActive ==> w.onlineActive)
      && (halted ==> !w'.onlineActive && !w'.running)
  {
  }

  lemma TearDownContained(w: World, c: StopCommands)
    requires !w.onlineActive && !w.running
    ensures Contained(TearDown(w, c).0)
  {
  }

  lemma StopContained(w: World, c: StopCommands)
    requires Inv(w) && Contained(w)
    ensures Contained(StopStep(w, c).0)
  {
    HaltEffect(w, c.halt);
    var (w', halted) := HaltOnline(w, c.halt);
    if !Idle(w) && halted {
      TearDownContained(w', c);
    }
  }

  lemma FirstProofContained(w: World, c: ConfigureCommands)
    requires w.configured && w.net.tunnel && w.net.link && w.net.table
    ensures Contained(FirstProof(w, c).0)
  {
  }

  lemma ConfigureContained(w: World, c: ConfigureCommands)
    requires Inv(w) && Contained(w)
    ensures Contained(ConfigureStep(w, c).0)
  {
    if Idle(w) && c.inspected {
      var (n, armed) := Arm(w.net, c.rulesBuilt, c.arm);
      var (n', up) := Configure(n, c.underlay, c.add, c.rest);
      if armed && up {
        var w' := w.(requireIPv6 := c.ipv6, stopFailed := false, net := n', killSwitchArmed := true);
        FirstProofContained(w'.(state := Configured, configured := true), c);
      }
    }
  }

  /** Neither Configure nor Stop can, whatever fails. */
  lemma OthersKeepContained(w: World, call: Call)
    requires Inv(w) && Contained(w) && !call.CallVerify?
    ensures Contained(Step(w, call))
  {
    match call {
      case CallConfigure(c) => ConfigureContained(w, c);
      case CallStop(c) => StopContained(w, c);
    }
  }

  /** What the caller knows after a call: whether its latest Stop failed. */
  function LatestStopFailed(w: World, call: Call, failed: bool): bool {
    if call.CallStop? then !StopStep(w, call.s).1 else failed
  }

  /** No Verify is called while the latest Stop has failed. */
  predicate Careful(w: World, failed: bool, calls: seq<Call>)
    decreases |calls|
  {
    calls != [] ==>
      && (calls[0].CallVerify? ==> !failed)
      && Careful(Step(w, calls[0]), LatestStopFailed(w, calls[0], failed), calls[1..])
  }

  lemma ConfigureClears(w: World, c: ConfigureCommands)
    ensures var w' := ConfigureStep(w, c).0; w'.stopFailed ==> w' == w
  {
  }

  lemma VerifyLeaves(w: World, c: VerifyCommands)
    ensures var w' := VerifyStep(w, c).0; w'.stopFailed == w.stopFailed && (Idle(w) ==> Idle(w'))
  {
  }

  lemma StopTells(w: World, c: StopCommands)
    ensures var (w', done) := StopStep(w, c); done ==> Idle(w')
  {
  }

  /** The caller's knowledge covers the flag: a Stop that failed shows until another one succeeds. */
  lemma CallerKnows(w: World, call: Call, failed: bool)
    requires Inv(w) && (w.stopFailed && !Idle(w) ==> failed)
    ensures var w' := Step(w, call);
      w'.stopFailed && !Idle(w') ==> LatestStopFailed(w, call, failed)
  {
    match call {
      case CallConfigure(c) => ConfigureClears(w, c);
      case CallVerify(c) => VerifyLeaves(w, c);
      case CallStop(c) => StopTells(w, c);
    }
  }

  lemma {:induction false} CarefulRunsStayContained(w: World, failed: bool, calls: seq<Call>)
    requires Inv(w) && Contained(w) && (w.stopFailed && !Idle(w) ==> failed) && Careful(w, failed, calls)
    ensures Contained(Run(w, calls))
    decreases |calls|
  {
    if calls == [] {
    } else {
      var call := calls[0];
      RunKeepsInv(w, [call]);
      assert Run(w, [call]) == Step(w, call);
      CallerKnows(w, call, failed);
      if call.CallVerify? {
        VerifyContained(w, call.v);
      } else {
        OthersKeepContained(w, call);
      }
      CarefulRunsStayContained(Step(w, call), LatestStopFailed(w, call, failed), calls[1..]);
    }
  }

  /** Every run in which no Verify follows a failed Stop keeps the application over the link and behind the table. */
  lemma CarefulRunsStayOverTunnel(hasOnline: bool, requireTorrent: bool, calls: seq<Call>)
    requires Careful(Fresh(hasOnline, requireTorrent), false, calls)
    ensures Contained(Run(Fresh(hasOnline, requireTorrent), calls))
  {
    CarefulRunsStayContained(Fresh(hasOnline, requireTorrent), false, calls);
  }

  lemma RunOfThree(w: World, a: Call, b: Call, c: Call)
    ensures Run(w, [a, b, c]) == Step(Step(Step(w, a), b), c)
  {
    assert [a, b, c][1..] == [b, c] && [b, c][1..] == [c] && [c][1..] == [];
    assert Run(Step(w, a), [b, c]) == Run(Step(Step(w, a), b), [c]);
    assert Run(Step(Step(w, a), b), [c]) == Run(Step(Step(Step(w, a), b), c), []);
  }

  /** A Configure whose commands all succeed; a Stop that loses one result; a Verify that starts the service. */
  function Relapse(link: Effect, table: Effect): seq<Call> {
    var proof := Proof(true, true, true, true, true, true, true, true);
    [CallConfigure(ConfigureCommands(true, true, true, Done, true, Done, true, true, Done, Done, Done, proof, false)),
     CallStop(StopCommands(Done, true, link, table)),
     CallVerify(VerifyCommands(Done, Done, NoProof, false))]
  }

  /**
    Both ways of failing are reachable.  A lost table removal leaves the application running with neither link nor
    table; a lost link removal leaves it running without the link while every flag says that the tunnel is up.
   */
  lemma ExposureIsReachable()
    ensures var w := Run(Fresh(true, true), Relapse(Done, Lost));
      w.running && !w.configured && !w.net.link && !w.net.table
    ensures var w := Run(Fresh(true, true), Relapse(Lost, Done));
      w.running && w.onlineActive && w.configured && w.net.tunnel && w.net.table && !w.net.link
  {
    var calls := Relapse(Done, Lost);
    var w1 := Step(Fresh(true, true), calls[0]);
    assert w1.state == Verified && w1.configured && w1.net.link && w1.net.table;
    RunOfThree(Fresh(true, true), calls[0], calls[1], calls[2]);
    var other := Relapse(Lost, Done);
    assert other[0] == calls[0];
    RunOfThree(Fresh(true, true), other[0], other[1], other[2]);
  }

  /** An arming whose result was lost leaves a table that no later Stop removes. */
  lemma TableCanRemain()
    ensures var c := ConfigureCommands(true, true, true, Lost, true, Done, true, true, Done, Done, Done, NoProof,
                                       false);
      var w := Step(Fresh(true, true), CallConfigure(c));
      var (w', ok) := StopStep(w, StopCommands(Done, true, Done, Done));
      ok && w'.state == Stopped && w'.net.table
  {
  }

  /** Fail-closed rests on the controller's order of calls: the backend's own guards do not give it. */
  lemma BackendAloneCanExpose()
    ensures var n0 := Net(false, false, false, false, false);
      var n1 := Arm(n0, true, Done).0;
      var n2 := RemoveKillSwitch(n1, Lost).0;
      Configure(n2, true, Done, true).0.exposed
  {
  }
}
