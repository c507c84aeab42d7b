/**
 * The WiFi access point: `start_wifi` parses its fixed address and
 * gateway, returning an error when either is malformed, creates the network
 * stack, spawns the connection and network tasks and waits for the link and
 * its configuration; `connection_task` keeps the access point started.
 */
module WifiAp {
  import opened Ints
  import opened Wrappers
  import opened Ipv4
  import opened Radio
  import opened Text

  const StaticIp: string := "192.168.4.1/24"
  const GatewayIp: string := "192.168.4.1"

  /** The periods of the link-up and of the configuration-up polls. */
  const LinkPollMs: nat := 500
  const ConfigPollMs: nat := 100

  /** What one turn of `connection_task` observes. */
  datatype Turn = Turn(state: WifiState, started: StartedQuery, configOk: bool, startOk: bool)

  const Intro: seq<Action> := [Say("start connection task"), Say("Device capabilities")]

  /** The access point configuration, with WPA2 personal authentication. */
  function ApConfig(ssid: string, password: string): WifiConfig {
    AccessPoint(ssid, password, Wpa2Personal)
  }

  /** While the access point runs, wait for it to stop and back off. */
  function WaitEvents(state: WifiState): seq<Action> {
    if state == ApStarted then [AwaitEvent(ApStopEvent), Sleep(BackoffMs)] else []
  }

  /**
   * The actions of one turn of `connection_task`. It never connects; while
   * the access point runs it first waits for it to stop and backs off; with
   * the radio running and the access point not started it does nothing.
   */
  function TurnEvents(ssid: string, password: string, t: Turn): (ev: seq<Action>)
    ensures forall i | 0 <= i < |ev| :: !ev[i].Connect?
    ensures t.state == ApStarted ==> |ev| >= 2 && ev[..2] == [AwaitEvent(ApStopEvent), Sleep(BackoffMs)]
    ensures t.state != ApStarted && t.started == Started(true) ==> ev == []
  {
    var w, setup := WaitEvents(t.state), SetupEvents(ApConfig(ssid, password), t.started, t.configOk, t.startOk);
    assert forall i | |w| <= i < |w + setup| :: (w + setup)[i] == setup[i - |w|];
    w + setup
  }

  function TurnFn(ssid: string, password: string): Turn -> seq<Action> {
    t => TurnEvents(ssid, password, t)
  }

  /** The actions of `connection_task` over the given turns; it stops at the first panic. */
  function TaskLog(ssid: string, password: string, turns: seq<Turn>): (log: seq<Action>)
    ensures |log| >= 2 && log[..2] == [Say("start connection task"), Say("Device capabilities")]
    ensures turns == [] ==> log == Intro
  {
    TaskTrace(Intro, TurnFn(ssid, password), turns)
  }

  method ConnectionTask(ssid: string, password: string, turns: seq<Turn>) returns (log: seq<Action>)
    ensures log == TaskLog(ssid, password, turns)
  {
    log := [Say("start connection task"), Say("Device capabilities")];
    for i := 0 to |turns|
      invariant log == TaskLog(ssid, password, turns[..i]) && !Halted(log)
    {
      assert turns[..i + 1][..i] == turns[..i];
      var halted;
      log, halted := AccessPointTurn(ssid, password, turns[i], log);
      if halted {
        TraceStaysHalted(Intro, TurnFn(ssid, password), turns, i + 1, |turns|);
        assert turns[..|turns|] == turns;
        return;
      }
    }
    assert turns[..|turns|] == turns;
  }

  /** The body of the loop of `connection_task`. */
  method AccessPointTurn(ssid: string, password: string, t: Turn, before: seq<Action>) returns (log: seq<Action>, halted: bool)
    ensures log == before + TurnEvents(ssid, password, t)
    ensures halted <==> Halted(log)
  {
    log := before;
    if t.state == ApStarted {
      log := log + [AwaitEvent(ApStopEvent), Sleep(BackoffMs)];
    }
    var setup := StartIfStopped(AccessPoint(ssid, password, Wpa2Personal), t.started, t.configOk, t.startOk);
    log := log + setup;
    halted := Halted(log);
  }

  /**
   * A turn configures the radio only as a WPA2 personal access point, and
   * does so exactly when it is not already started and the strings fit.
   */
  lemma TurnShape(ssid: string, password: string, t: Turn)
    ensures var ev := TurnEvents(ssid, password, t);
      var fits := Fits(ssid, SsidCapacity) && Fits(password, PasswordCapacity);
      (forall i | 0 <= i < |ev| && ev[i].SetConfiguration? :: ev[i].config == AccessPoint(ssid, password, Wpa2Personal)) &&
      (SetConfiguration(ApConfig(ssid, password)) in ev <==> t.started != Started(true) && fits)
  {
    var w := WaitEvents(t.state);
    var setup := SetupEvents(ApConfig(ssid, password), t.started, t.configOk, t.startOk);
    SetupShape(ApConfig(ssid, password), t.started, t.configOk, t.startOk);
    var ev := TurnEvents(ssid, password, t);
    forall i | 0 <= i < |ev| && ev[i].SetConfiguration?
      ensures ev[i].config == AccessPoint(ssid, password, Wpa2Personal)
    {
      assert i >= |w|;
      assert setup[i - |w|] == ev[i];
    }
  }

  /** The access point task never issues a connect, over any number of turns. */
  lemma {:induction false} NeverConnects(ssid: string, password: string, turns: seq<Turn>)
    ensures Connects(TaskLog(ssid, password, turns)) == 0
  {
    if turns == [] {
      NoConnects(Intro);
    } else {
      var init := turns[..|turns| - 1];
      var before := TaskLog(ssid, password, init);
      NeverConnects(ssid, password, init);
      if !Halted(before) {
        var ev := TurnEvents(ssid, password, turns[|turns| - 1]);
        TurnShape(ssid, password, turns[|turns| - 1]);
        NoConnects(ev);
        ConnectsConcat(before, ev);
      }
    }
  }

  /**
   * The line `wait_for_connection` shows once the link is up: it ends with a
   * URL made of the static address text as given. For the shipped
   * `STATIC_IP` that text carries the prefix length, so the URL is
   * `http://192.168.4.1/24/`.
   */
  function BrowserHint(staticIp: string): (hint: string)
    ensures |hint| >= |staticIp| + 8 && hint[|hint| - |staticIp| - 8..] == "http://" + staticIp + "/"
    ensures staticIp == StaticIp ==> hint[|hint| - 22..] == "http://192.168.4.1/24/"
  {
    var url := "http://" + staticIp + "/";
    assert staticIp == StaticIp ==> url == "http://192.168.4.1/24/";
    HintPrefix + url
  }

  const HintPrefix: string := "Connect to the AP `esp-wifi` and point your browser to "

  /**
   * The actions of `wait_for_connection`, given what the link-up and the
   * configuration-up polls see and what `config_v4` then returns. It ends
   * only after the link and then the configuration were seen up: the link
   * is polled every 500 ms, then the browser hint appears, then the
   * configuration is polled every 100 ms.
   */
  function WaitLog(staticIp: string, link: seq<bool>, configUp: seq<bool>, shown: Option<NetConfig>): (log: seq<Action>)
    ensures var k := FirstTrue(link);
      |log| >= k + 1 && log[0] == Say("Waiting for link to be up") &&
      (forall i | 1 <= i <= k :: log[i] == Sleep(LinkPollMs)) &&
      (k < |link| ==> (|log| >= k + 2 && log[k + 1] == Say(BrowserHint(staticIp)) &&
        forall i | k + 2 <= i < |log| && log[i].Sleep? :: log[i] == Sleep(ConfigPollMs)))
    ensures Connected(link, configUp) ==>
      |log| == 2 + FirstTrue(link) + FirstTrue(configUp) + (if shown.Some? then 1 else 0)
  {
    [Say("Waiting for link to be up")] + Sleeps(FirstTrue(link), LinkPollMs) +
    if FirstTrue(link) == |link| then []
    else
      [Say(BrowserHint(staticIp))] + Sleeps(FirstTrue(configUp), ConfigPollMs) +
      if FirstTrue(configUp) == |configUp| then []
      else if shown.Some? then [ShowConfig(shown.value)] else []
  }

  predicate Connected(link: seq<bool>, configUp: seq<bool>) {
    FirstTrue(link) < |link| && FirstTrue(configUp) < |configUp|
  }

  method WaitForConnection(staticIp: string, link: seq<bool>, configUp: seq<bool>, shown: Option<NetConfig>)
    returns (log: seq<Action>, done: bool)
    ensures done <==> Connected(link, configUp)
    ensures log == WaitLog(staticIp, link, configUp, shown)
  {
    log := [Say("Waiting for link to be up")];
    var sleeps, up := PollUntil(link, LinkPollMs);
    log := log + sleeps;
    if !up {
      assert log == log + [];
      return log, false;
    }
    log := log + [Say(HintPrefix + ("http://" + staticIp + "/"))];
    sleeps, up := PollUntil(configUp, ConfigPollMs);
    log := log + sleeps;
    if !up {
      assert log == log + [];
      return log, false;
    }
    if shown.Some? {
      log := log + [ShowConfig(shown.value)];
    } else {
      assert log == log + [];
    }
    done := true;
  }

  /** How `start_wifi` ends: an error for a malformed constant, the stack once connected, or still waiting. */
  datatype StartResult = Err(message: string) | Ok(config: NetConfig) | StillWaiting

  /**
   * `start_wifi` from the parse of the static address on, for the given
   * address and gateway texts. The network library's address parsers, the
   * random words of the seed and what the polls see are parameters.
   */
  method StartWifi(parseCidr: string -> Option<Cidr>, parseAddr: string -> Option<Addr>,
                   staticIp: string, gatewayIp: string, r1: U32, r2: U32,
                   link: seq<bool>, configUp: seq<bool>, shown: Option<NetConfig>)
    returns (log: seq<Action>, result: StartResult)
    ensures parseCidr(staticIp).None? ==> log == [] && result == Err("Invalid STATIC_IP: " + staticIp)
    ensures parseCidr(staticIp).Some? && parseAddr(gatewayIp).None? ==>
      log == [] && result == Err("Invalid GATEWAY_IP: " + gatewayIp)
    ensures parseCidr(staticIp).Some? && parseAddr(gatewayIp).Some? ==>
      var config := StaticV4(parseCidr(staticIp).value, Some(parseAddr(gatewayIp).value), []);
      log == [CreateStack(config, NetSeed(r1, r2)), SpawnConnectionTask, SpawnNetTask] +
        WaitLog(staticIp, link, configUp, shown) &&
      result == if Connected(link, configUp) then Ok(config) else StillWaiting
  {
    var seed := NetSeed(r1, r2);
    var ip := parseCidr(staticIp);
    if ip.None? {
      return [], Err("Invalid STATIC_IP: " + staticIp);
    }
    var gateway := parseAddr(gatewayIp);
    if gateway.None? {
      return [], Err("Invalid GATEWAY_IP: " + gatewayIp);
    }
    var config := StaticV4(ip.value, Some(gateway.value), []);
    log := [CreateStack(config, seed), SpawnConnectionTask, SpawnNetTask];
    var waited, done := WaitForConnection(staticIp, link, configUp, shown);
    log := log + waited;
    result := if done then Ok(config) else StillWaiting;
  }

  /** The access point's own address: 192.168.4.1 in a /24 network. */
  const ApAddr: Addr := Addr([192, 168, 4, 1])

  /**
   * The shipped constants are well formed: read in canonical dotted-quad
   * form they denote 192.168.4.1/24 and the gateway 192.168.4.1.
   */
  lemma ShippedConstantsParse()
    ensures ParseCidr(StaticIp) == Some(Cidr(ApAddr, 24))
    ensures ParseAddr(GatewayIp) == Some(ApAddr)
  {
    assert ShowAddr(ApAddr) == GatewayIp by {
      assert Decimal(192) == "192" && Decimal(168) == "168" && Decimal(4) == "4" && Decimal(1) == "1";
      assert ApAddr.octets[1..][1..][1..] == [1];
    }
    assert ShowCidr(Cidr(ApAddr, 24)) == StaticIp by {
      assert Decimal(24) == "24";
    }
    CidrRoundTrip(Cidr(ApAddr, 24));
    AddrRoundTrip(ApAddr);
  }

  /**
   * `start_wifi` as built, with the shipped `STATIC_IP` and `GATEWAY_IP`:
   * with library parsers that read those two texts as the canonical reader
   * does, it never returns an error, and once connected it serves
   * 192.168.4.1/24 with gateway 192.168.4.1 and no DNS server.
   */
  method StartShipped(parseCidr: string -> Option<Cidr>, parseAddr: string -> Option<Addr>, r1: U32, r2: U32,
                      link: seq<bool>, configUp: seq<bool>, shown: Option<NetConfig>)
    returns (log: seq<Action>, result: StartResult)
    requires parseCidr(StaticIp) == ParseCidr(StaticIp) && parseAddr(GatewayIp) == ParseAddr(GatewayIp)
    ensures !result.Err?
    ensures result == if Connected(link, configUp) then Ok(StaticV4(Cidr(ApAddr, 24), Some(ApAddr), [])) else StillWaiting
  {
    ShippedConstantsParse();
    log, result := StartWifi(parseCidr, parseAddr, StaticIp, GatewayIp, r1, r2, link, configUp, shown);
  }
}
