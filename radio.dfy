/**
 * What the two WiFi examples share: the radio's states and events, the
 * configurations they hand to the controller, the actions their tasks take,
 * the polling loops of `wait_for_connection`, the start-the-radio-if-stopped
 * block of `connection_task`, and the network stack's random seed.
 */
module Radio {
  import opened Ints
  import opened Wrappers
  import opened Ipv4

  /** Capacities of the `heapless` strings `esp_wifi` keeps the network name and the passphrase in. */
  const SsidCapacity: nat := 32
  const PasswordCapacity: nat := 64

  /** The back-off after a lost connection, a stopped access point or a failed connect. */
  const BackoffMs: nat := 5000

  /** `esp_wifi::wifi::WifiState`. */
  datatype WifiState = StaStarted | StaConnected | StaDisconnected | StaStopped | ApStarted | ApStopped | Invalid

  /** The events the tasks wait for. */
  datatype WifiEvent = StaDisconnectedEvent | ApStopEvent

  /** `controller.is_started()`: `Ok(running)` or an error. */
  datatype StartedQuery = Started(running: bool) | QueryFailed

  datatype AuthMethod = Wpa2Personal

  /** The controller configurations: a station joining a network, or an access point with its authentication. */
  datatype WifiConfig =
    | Client(ssid: string, password: string)
    | AccessPoint(ssid: string, password: string, auth: AuthMethod)

  /** `embassy_net::StaticConfigV4`. */
  datatype NetConfig = StaticV4(address: Cidr, gateway: Option<Addr>, dnsServers: seq<Addr>)

  /** What the firmware does, in order. */
  datatype Action =
    | Say(text: string)                        // a `println!` line
    | Sleep(ms: nat)                           // `Timer::after`
    | AwaitEvent(event: WifiEvent)             // `controller.wait_for_event`
    | SetConfiguration(config: WifiConfig)
    | StartRadio                               // `controller.start_async()`
    | Connect                                  // `controller.connect_async()`
    | CreateStack(netConfig: NetConfig, seed: U64)
    | SpawnConnectionTask
    | SpawnNetTask
    | ShowConfig(shown: NetConfig)             // the `{:?}` line of the access point's IPv4 configuration
    | Panic                                    // an `unwrap` failed
    | HaltForever                              // `loop {}`

  /** The firmware stopped for good: a panic or an endless empty loop. */
  predicate Halted(log: seq<Action>) {
    |log| > 0 && (log[|log| - 1].Panic? || log[|log| - 1].HaltForever?)
  }

  /** Whether a log has halted depends on its last action only. */
  lemma HaltedConcat(a: seq<Action>, b: seq<Action>)
    ensures b != [] ==> (Halted(a + b) <==> Halted(b))
    ensures b == [] ==> a + b == a
  {
    if b != [] {
      assert (a + b)[|a + b| - 1] == b[|b| - 1];
    }
  }

  /**
   * The actions of a connection task over the given turns: its
   * introduction, then the actions of each turn, up to the first panic.
   */
  function TaskTrace<T>(intro: seq<Action>, turn: T -> seq<Action>, turns: seq<T>): (log: seq<Action>)
    ensures |intro| <= |log| && log[..|intro|] == intro
    ensures Halted(intro) ==> log == intro
  {
    if turns == [] then intro
    else
      var before := TaskTrace(intro, turn, turns[..|turns| - 1]);
      if Halted(before) then before else before + turn(turns[|turns| - 1])
  }

  /** A failure is never retried: once the task has panicked, later turns add nothing. */
  lemma {:induction false} TraceStaysHalted<T>(intro: seq<Action>, turn: T -> seq<Action>, turns: seq<T>, i: nat, j: nat)
    requires i <= j <= |turns|
    requires Halted(TaskTrace(intro, turn, turns[..i]))
    ensures TaskTrace(intro, turn, turns[..j]) == TaskTrace(intro, turn, turns[..i])
    decreases j - i
  {
    if i < j {
      TraceStaysHalted(intro, turn, turns, i, j - 1);
      assert turns[..j][..j - 1] == turns[..j - 1];
    }
  }

  /** `try_into()` of a `&str` into a `heapless::String` of the given capacity (ASCII text). */
  predicate Fits(s: string, capacity: nat) {
    |s| <= capacity
  }

  /**
   * The block both connection tasks run when `is_started()` is not
   * `Ok(true)`: set the configuration, whose strings must fit, then start
   * the radio; each failure panics. It does nothing when the radio runs,
   * and otherwise it neither waits, sleeps nor connects.
   */
  function SetupEvents(config: WifiConfig, started: StartedQuery, configOk: bool, startOk: bool): (ev: seq<Action>)
    ensures ev == [] <==> started == Started(true)
    ensures forall i | 0 <= i < |ev| :: !ev[i].AwaitEvent? && !ev[i].Sleep? && !ev[i].Connect?
  {
    if started == Started(true) then []
    else if !Fits(config.ssid, SsidCapacity) || !Fits(config.password, PasswordCapacity) then [Panic]
    else
      [SetConfiguration(config)] +
      if !configOk then [Panic]
      else [Say("Starting wifi"), StartRadio] + if startOk then [Say("Wifi started!")] else [Panic]
  }

  /** The start-the-radio-if-stopped block of both connection tasks. */
  method StartIfStopped(config: WifiConfig, started: StartedQuery, configOk: bool, startOk: bool) returns (events: seq<Action>)
    ensures events == SetupEvents(config, started, configOk, startOk)
  {
    events := [];
    if started != Started(true) {
      if !Fits(config.ssid, SsidCapacity) || !Fits(config.password, PasswordCapacity) {
        return [Panic];
      }
      events := [SetConfiguration(config)];
      if !configOk {
        return events + [Panic];
      }
      events := events + [Say("Starting wifi"), StartRadio];
      if !startOk {
        return events + [Panic];
      }
      events := events + [Say("Wifi started!")];
    }
  }

  /**
   * The radio is configured, and then started, exactly when it was not
   * already running and the strings fit; configuring comes first; the block
   * panics exactly when one of its steps fails.
   */
  lemma SetupShape(config: WifiConfig, started: StartedQuery, configOk: bool, startOk: bool)
    ensures var ev := SetupEvents(config, started, configOk, startOk);
      var fits := Fits(config.ssid, SsidCapacity) && Fits(config.password, PasswordCapacity);
      (SetConfiguration(config) in ev <==> started != Started(true) && fits) &&
      (StartRadio in ev <==> started != Started(true) && fits && configOk) &&
      (StartRadio in ev ==> ev[0] == SetConfiguration(config) && ev[2] == StartRadio) &&
      (Halted(ev) <==> started != Started(true) && (!fits || !configOk || !startOk)) &&
      (forall i | 0 <= i < |ev| - 1 :: !ev[i].Panic?) &&
      !(Connect in ev) && !(Sleep(BackoffMs) in ev)
  {
    var ev := SetupEvents(config, started, configOk, startOk);
    if started != Started(true) && Fits(config.ssid, SsidCapacity) && Fits(config.password, PasswordCapacity) {
      assert ev[0] == SetConfiguration(config);
      if configOk {
        assert ev[2] == StartRadio;
      } else {
        assert ev == [SetConfiguration(config), Panic];
      }
    }
  }

  /**
   * The seed of the network stack, `r1 as u64 | ((r2 as u64) << 32)`: the
   * halves do not overlap, so `|` adds them. The seed keeps both random
   * words, the first in its low half and the second in its high half.
   */
  function NetSeed(r1: U32, r2: U32): (seed: U64)
    ensures seed % U32_LIMIT == r1 && seed / U32_LIMIT == r2
  {
    r1 + r2 * U32_LIMIT
  }

  /** The number of polls that see `false` before the first that sees `true`, or `|obs|` when none does. */
  function FirstTrue(obs: seq<bool>): (k: nat)
    ensures k <= |obs|
    ensures forall i | 0 <= i < k :: !obs[i]
    ensures k < |obs| ==> obs[k]
  {
    if obs == [] || obs[0] then 0 else 1 + FirstTrue(obs[1..])
  }

  function Sleeps(n: nat, ms: nat): (s: seq<Action>)
    ensures |s| == n && forall i | 0 <= i < n :: s[i] == Sleep(ms)
  {
    seq(n, _ => Sleep(ms))
  }

  /**
   * A `wait_for_connection` loop over what successive polls see: it sleeps
   * `periodMs` after every poll that sees `false` and stops at the first that
   * sees `true`; `up` says whether that happened.
   */
  method PollUntil(obs: seq<bool>, periodMs: nat) returns (log: seq<Action>, up: bool)
    ensures up <==> FirstTrue(obs) < |obs|
    ensures log == Sleeps(FirstTrue(obs), periodMs)
  {
    log := [];
    var i := 0;
    while i < |obs|
      invariant i <= FirstTrue(obs)
      invariant log == Sleeps(i, periodMs)
    {
      if obs[i] {
        up := true;
        return;
      }
      log := log + [Sleep(periodMs)];
      i := i + 1;
    }
    up := false;
  }

  /** The first configuration a poll returns, or `|cfg|` when none does. */
  function FirstSome<T>(cfg: seq<Option<T>>): (k: nat)
    ensures k <= |cfg|
    ensures forall i | 0 <= i < k :: cfg[i].None?
    ensures k < |cfg| ==> cfg[k].Some?
  {
    if cfg == [] || cfg[0].Some? then 0 else 1 + FirstSome(cfg[1..])
  }

  /** Whether each poll returned something. */
  function Answered<T>(cfg: seq<Option<T>>): (obs: seq<bool>)
    ensures |obs| == |cfg| && forall i | 0 <= i < |cfg| :: obs[i] == cfg[i].Some?
  {
    seq(|cfg|, i requires 0 <= i < |cfg| => cfg[i].Some?)
  }

  lemma FirstSomeAnswered<T>(cfg: seq<Option<T>>)
    ensures FirstTrue(Answered(cfg)) == FirstSome(cfg)
  {
  }

  /** The number of connect attempts in a log. */
  function Connects(log: seq<Action>): nat {
    if log == [] then 0
    else Connects(log[..|log| - 1]) + (if log[|log| - 1] == Connect then 1 else 0)
  }

  lemma {:induction false} ConnectsConcat(a: seq<Action>, b: seq<Action>)
    ensures Connects(a + b) == Connects(a) + Connects(b)
    decreases |b|
  {
    if b == [] {
      assert a + b == a;
    } else {
      assert (a + b)[..|a + b| - 1] == a + b[..|b| - 1];
      assert (a + b)[|a + b| - 1] == b[|b| - 1];
      ConnectsConcat(a, b[..|b| - 1]);
    }
  }

  /** A log without a connect action counts none. */
  lemma {:induction false} NoConnects(log: seq<Action>)
    requires !(Connect in log)
    ensures Connects(log) == 0
    decreases |log|
  {
    if log != [] {
      assert log[|log| - 1] != Connect;
      assert !(Connect in log[..|log| - 1]) by {
        assert forall i | 0 <= i < |log| - 1 :: log[..|log| - 1][i] == log[i];
      }
      NoConnects(log[..|log| - 1]);
    }
  }
}
