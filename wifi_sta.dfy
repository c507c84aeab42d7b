/**
 * The WiFi station with a static address: `start_wifi` parses the static
 * address and gateway, creates the network stack, spawns the connection
 * and network tasks and waits until the link is up and has its address;
 * `connection_task` keeps the station connected, forever.
 */
module WifiSta {
  import opened Ints
  import opened Wrappers
  import opened Ipv4
  import opened Radio

  /** The period of both polling loops of `wait_for_connection`. */
  const PollMs: nat := 500

  /** What one turn of `connection_task` observes: the radio's state and the outcome of each call. */
  datatype Turn = Turn(state: WifiState, started: StartedQuery, configOk: bool, startOk: bool, connectOk: bool)

  const Intro: seq<Action> := [Say("start connection task"), Say("Device capabilities")]

  /** While connected, wait for the disconnection and back off. */
  function WaitEvents(state: WifiState): seq<Action> {
    if state == StaConnected then [AwaitEvent(StaDisconnectedEvent), Sleep(BackoffMs)] else []
  }

  /**
   * One connect attempt; a failure is followed by the back-off. The attempt
   * is the only connect, nothing waits for an event, and the block ends with
   * the success message or the back-off.
   */
  function ConnectEvents(ok: bool): (ev: seq<Action>)
    ensures forall i | 0 <= i < |ev| :: (ev[i].Connect? <==> i == 1) && !ev[i].AwaitEvent?
    ensures |ev| >= 3 && ev[|ev| - 1] == if ok then Say("Wifi connected!") else Sleep(BackoffMs)
  {
    [Say("About to connect..."), Connect] +
    if ok then [Say("Wifi connected!")] else [Say("Failed to connect to wifi"), Sleep(BackoffMs)]
  }

  /**
   * The actions of one turn of `connection_task`. It waits for the
   * disconnect event, and then backs off, exactly when it finds the station
   * connected.
   */
  function TurnEvents(ssid: string, password: string, t: Turn): (ev: seq<Action>)
    ensures AwaitEvent(StaDisconnectedEvent) in ev <==> t.state == StaConnected
    ensures t.state == StaConnected ==> |ev| >= 2 && ev[..2] == [AwaitEvent(StaDisconnectedEvent), Sleep(BackoffMs)]
  {
    var setup := SetupEvents(Client(ssid, password), t.started, t.configOk, t.startOk);
    var rest := if Halted(setup) then [] else ConnectEvents(t.connectOk);
    if t.state == StaConnected then WaitEvents(t.state) + setup + rest
    else
      NoAwaitIn(WaitEvents(t.state), setup, rest);
      WaitEvents(t.state) + setup + rest
  }

  function TurnFn(ssid: string, password: string): Turn -> seq<Action> {
    t => TurnEvents(ssid, password, t)
  }

  /** The actions of `connection_task` over the given turns; it stops at the first panic. */
  function TaskLog(ssid: string, password: string, turns: seq<Turn>): (log: seq<Action>)
    ensures |log| >= 2 && log[..2] == [Say("start connection task"), Say("Device capabilities")]
    ensures turns == [] ==> log == Intro
  {
    TaskTrace(Intro, TurnFn(ssid, password), turns)
  }

  method ConnectionTask(ssid: string, password: string, turns: seq<Turn>) returns (log: seq<Action>)
    ensures log == TaskLog(ssid, password, turns)
  {
    log := [Say("start connection task"), Say("Device capabilities")];
    for i := 0 to |turns|
      invariant log == TaskLog(ssid, password, turns[..i]) && !Halted(log)
    {
      assert turns[..i + 1][..i] == turns[..i];
      var halted;
      log, halted := StationTurn(ssid, password, turns[i], log);
      if halted {
        TraceStaysHalted(Intro, TurnFn(ssid, password), turns, i + 1, |turns|);
        assert turns[..|turns|] == turns;
        return;
      }
    }
    assert turns[..|turns|] == turns;
  }

  /** The body of the loop of `connection_task`. */
  method StationTurn(ssid: string, password: string, t: Turn, before: seq<Action>) returns (log: seq<Action>, halted: bool)
    ensures log == before + TurnEvents(ssid, password, t)
    ensures halted <==> Halted(log)
  {
    log := before;
    if t.state == StaConnected {
      log := log + [AwaitEvent(StaDisconnectedEvent), Sleep(BackoffMs)];
    }
    var setup := StartIfStopped(Client(ssid, password), t.started, t.configOk, t.startOk);
    assert log == before + WaitEvents(t.state);
    log := log + setup;
    ghost var prepared := log;
    var rest: seq<Action> := [];
    if !Halted(setup) {
      rest := ConnectAttempt(t.connectOk);
      log := log + rest;
    }
    assert log == before + WaitEvents(t.state) + setup + rest;
    assert TurnEvents(ssid, password, t) == WaitEvents(t.state) + setup + rest;
    LogAssoc(before, WaitEvents(t.state), setup, rest);
    halted := Halted(log);
  }

  lemma LogAssoc(a: seq<Action>, b: seq<Action>, c: seq<Action>, d: seq<Action>)
    ensures a + b + c + d == a + (b + c + d)
  {
  }

  /** The connect step of a turn: one attempt, backing off after a failure. */
  method ConnectAttempt(connectOk: bool) returns (events: seq<Action>)
    ensures events == ConnectEvents(connectOk)
  {
    events := [Say("About to connect..."), Connect];
    if connectOk {
      events := events + [Say("Wifi connected!")];
    } else {
      events := events + [Say("Failed to connect to wifi"), Sleep(BackoffMs)];
    }
  }

  /** A turn panics exactly when its setup does, and otherwise makes exactly one connect attempt. */
  lemma TurnConnects(ssid: string, password: string, t: Turn)
    ensures var setup := SetupEvents(Client(ssid, password), t.started, t.configOk, t.startOk);
      var ev := TurnEvents(ssid, password, t);
      (Halted(ev) <==> Halted(setup)) &&
      Connects(ev) == if Halted(setup) then 0 else 1
  {
    var setup := SetupEvents(Client(ssid, password), t.started, t.configOk, t.startOk);
    SetupShape(Client(ssid, password), t.started, t.configOk, t.startOk);
    NoConnects(setup);
    NoConnects(WaitEvents(t.state));
    ConnectsConcat(WaitEvents(t.state), setup);
    var c := ConnectEvents(t.connectOk);
    ConnectOnce(t.connectOk);
    if !Halted(setup) {
      ConnectsConcat(WaitEvents(t.state) + setup, c);
      HaltedConcat(WaitEvents(t.state) + setup, c);
    } else {
      assert TurnEvents(ssid, password, t) == WaitEvents(t.state) + setup + [];
      assert WaitEvents(t.state) + setup + [] == WaitEvents(t.state) + setup;
      HaltedConcat(WaitEvents(t.state), setup);
    }
  }

  /** The connect block counts as one attempt and never halts. */
  lemma ConnectOnce(ok: bool)
    ensures Connects(ConnectEvents(ok)) == 1 && ConnectEvents(ok) != [] && !Halted(ConnectEvents(ok))
  {
    var c := ConnectEvents(ok);
    ConnectsConcat([Say("About to connect..."), Connect], c[2..]);
    assert c == [Say("About to connect..."), Connect] + c[2..];
    NoConnects(c[2..]);
    assert [Say("About to connect..."), Connect][..1] == [Say("About to connect...")];
  }

  /**
   * There is no cap on reconnect attempts: as long as no setup step has
   * failed, every turn has made exactly one connect attempt.
   */
  lemma {:induction false} UnboundedRetries(ssid: string, password: string, turns: seq<Turn>)
    requires !Halted(TaskLog(ssid, password, turns))
    ensures Connects(TaskLog(ssid, password, turns)) == |turns|
  {
    if turns == [] {
      NoConnects(Intro);
    } else {
      var init := turns[..|turns| - 1];
      var before := TaskLog(ssid, password, init);
      assert !Halted(before);
      UnboundedRetries(ssid, password, init);
      TurnConnects(ssid, password, turns[|turns| - 1]);
      ConnectsConcat(before, TurnEvents(ssid, password, turns[|turns| - 1]));
    }
  }

  lemma NoAwaitIn(w: seq<Action>, setup: seq<Action>, rest: seq<Action>)
    requires w == []
    requires forall i | 0 <= i < |setup| :: !setup[i].AwaitEvent?
    requires forall i | 0 <= i < |rest| :: !rest[i].AwaitEvent?
    ensures !(AwaitEvent(StaDisconnectedEvent) in w + setup + rest)
  {
    var ev := w + setup + rest;
    assert forall i | 0 <= i < |ev| :: !ev[i].AwaitEvent? by {
      assert forall i | |setup| <= i < |ev| :: ev[i] == rest[i - |setup|];
    }
  }

  /** After a connect the turn stops, having backed off 5000 ms exactly when the attempt failed. */
  lemma TurnTiming(ssid: string, password: string, t: Turn)
    ensures var ev := TurnEvents(ssid, password, t);
      !Halted(ev) ==>
        ev[|ev| - 1] == (if t.connectOk then Say("Wifi connected!") else Sleep(BackoffMs)) &&
        ev[|ev| - (if t.connectOk then 2 else 3)] == Connect
  {
    var setup := SetupEvents(Client(ssid, password), t.started, t.configOk, t.startOk);
    var ev := TurnEvents(ssid, password, t);
    var w := WaitEvents(t.state);
    if Halted(setup) {
      assert ev == w + setup + [];
      HaltedConcat(w, setup);
    } else {
      assert ev == (w + setup) + ConnectEvents(t.connectOk);
    }
  }

  /**
   * The actions of `wait_for_connection`, given what the link-up and the
   * address polls see. Both phases poll every 500 ms.
   */
  function WaitLog(link: seq<bool>, cfg: seq<Option<NetConfig>>): (log: seq<Action>)
    ensures |log| >= 1 && log[0] == Say("Waiting for link to be up")
    ensures forall i | 0 <= i < |log| && log[i].Sleep? :: log[i].ms == PollMs
  {
    [Say("Waiting for link to be up")] + Sleeps(FirstTrue(link), PollMs) +
    if FirstTrue(link) == |link| then []
    else
      [Say("Waiting to get IP address...")] + Sleeps(FirstSome(cfg), PollMs) +
      if FirstSome(cfg) == |cfg| then []
      else [Say("Got IP: " + ShowCidr(cfg[FirstSome(cfg)].value.address))]
  }

  /** Both phases finished: the link was seen up, and then an address. */
  predicate Connected(link: seq<bool>, cfg: seq<Option<NetConfig>>) {
    FirstTrue(link) < |link| && FirstSome(cfg) < |cfg|
  }

  method WaitForConnection(link: seq<bool>, cfg: seq<Option<NetConfig>>) returns (log: seq<Action>, done: bool)
    ensures done <==> Connected(link, cfg)
    ensures log == WaitLog(link, cfg)
  {
    log := [Say("Waiting for link to be up")];
    var sleeps, up := PollUntil(link, PollMs);
    log := log + sleeps;
    if !up {
      done := false;
      assert log == log + [];
      return;
    }
    log := log + [Say("Waiting to get IP address...")];
    FirstSomeAnswered(cfg);
    sleeps, up := PollUntil(Answered(cfg), PollMs);
    log := log + sleeps;
    if !up {
      done := false;
      assert log == log + [];
      return;
    }
    var k := |sleeps|;
    log := log + [Say("Got IP: " + ShowCidr(cfg[k].value.address))];
    done := true;
  }

  /**
   * Waiting ends only after the link was seen up and then an address was
   * obtained; the address shown is the obtained one, in a form that reads
   * back to it. With no link the wait only sleeps.
   */
  lemma WaitOutcome(link: seq<bool>, cfg: seq<Option<NetConfig>>)
    ensures Connected(link, cfg) ==>
      var log := WaitLog(link, cfg);
      var address := cfg[FirstSome(cfg)].value.address;
      |log| == 3 + FirstTrue(link) + FirstSome(cfg) &&
      log[|log| - 1] == Say("Got IP: " + ShowCidr(address)) &&
      ParseCidr(ShowCidr(address)) == Some(address)
    ensures FirstTrue(link) == |link| ==> WaitLog(link, cfg) == [Say("Waiting for link to be up")] + Sleeps(|link|, PollMs)
  {
    if Connected(link, cfg) {
      CidrRoundTrip(cfg[FirstSome(cfg)].value.address);
    }
    if FirstTrue(link) == |link| {
      assert WaitLog(link, cfg) == [Say("Waiting for link to be up")] + Sleeps(|link|, PollMs) + [];
    }
  }

  /** How `start_wifi` ends: halted on a malformed constant, with the stack once connected, or still waiting. */
  datatype Start = StartHalted | Ready(config: NetConfig) | StillWaiting

  /** The static configuration: the parsed address, the parsed gateway and no DNS servers. */
  function StaticConfig(address: Cidr, gateway: Addr): NetConfig {
    StaticV4(address, Some(gateway), [])
  }

  /**
   * `start_wifi` from the parse of the static address on. The network
   * library's address parsers, the random words drawn for the seed and what
   * the polls of `wait_for_connection` see are parameters.
   */
  method StartWifi(parseCidr: string -> Option<Cidr>, parseAddr: string -> Option<Addr>,
                   staticIp: string, gatewayIp: string, r1: U32, r2: U32, link: seq<bool>, cfg: seq<Option<NetConfig>>)
    returns (log: seq<Action>, result: Start)
    ensures parseCidr(staticIp).None? ==> log == [Say("Invalid STATIC_IP"), HaltForever] && result == StartHalted
    ensures parseCidr(staticIp).Some? && parseAddr(gatewayIp).None? ==>
      log == [Say("Invalid GATEWAY_IP"), HaltForever] && result == StartHalted
    ensures parseCidr(staticIp).Some? && parseAddr(gatewayIp).Some? ==>
      var config := StaticConfig(parseCidr(staticIp).value, parseAddr(gatewayIp).value);
      log == [CreateStack(config, NetSeed(r1, r2)), SpawnConnectionTask, SpawnNetTask] + WaitLog(link, cfg) &&
      result == if Connected(link, cfg) then Ready(config) else StillWaiting
  {
    var seed := NetSeed(r1, r2);
    var ip := parseCidr(staticIp);
    if ip.None? {
      log := [Say("Invalid STATIC_IP"), HaltForever];
      result := StartHalted;
      return;
    }
    var gateway := parseAddr(gatewayIp);
    if gateway.None? {
      log := [Say("Invalid GATEWAY_IP"), HaltForever];
      result := StartHalted;
      return;
    }
    var config := StaticV4(ip.value, Some(gateway.value), []);
    log := [CreateStack(config, seed), SpawnConnectionTask, SpawnNetTask];
    var waited, done := WaitForConnection(link, cfg);
    log := log + waited;
    result := if done then Ready(config) else StillWaiting;
  }

  /**
   * A malformed static address or gateway stops start-up before any
   * network activity; a well-formed pair configures exactly the address and
   * gateway their texts denote, with no DNS server.
   */
  lemma StartConfig(staticIp: string, gatewayIp: string)
    ensures ParseCidr(staticIp).Some? && ParseAddr(gatewayIp).Some? ==>
      var config := StaticConfig(ParseCidr(staticIp).value, ParseAddr(gatewayIp).value);
      ShowCidr(config.address) == staticIp && ShowAddr(config.gateway.value) == gatewayIp &&
      config.dnsServers == []
  {
    if ParseCidr(staticIp).Some? && ParseAddr(gatewayIp).Some? {
      CidrExact(staticIp);
      AddrExact(gatewayIp);
    }
  }
}
