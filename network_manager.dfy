/**
 * `NetworkManager` (network/NetworkManager.kt): the connection establisher
 * `connectToServer`, a bounded retry loop with a manual-override branch and an
 * auto-discovery branch, and the dispatcher `sendToServer`, which skips
 * refused endpoints and records new refusals.
 *
 * The network is an input. `Network` says, round by round, which candidates
 * the sweep finds online and how each testConnection ends. The overall
 * `withTimeout(CONNECTION_TIMEOUT)` is a budget: the number of awaited
 * operations (a probe, a sweep, a delay) that may start before it fires.
 */
module Network {
  import opened Wrappers
  import opened Lists
  import opened Commons
  import opened Subnet
  import opened Probes
  import opened ViewModel

  const MaxRetries: nat := 3

  /**
   * `cbManualIP.value == true && !etManualIP.value.isNullOrEmpty()`: the
   * override address when the override is active. It is read once, before
   * the retry loop or the dispatch.
   */
  function ManualTarget(cbManualIP: bool, etManualIP: string): Option<string> {
    if cbManualIP && etManualIP != "" then Some(etManualIP) else None
  }

  // ---------------------------------------------------------------------------
  // getLocalIpAddress

  /**
   * getLocalIpAddress: the candidates judged online (`isHostOnline ||
   * isHostInArpCache`). The source runs one job per candidate; the result set
   * does not depend on the order the jobs finish, so the sweep is taken in
   * candidate order.
   */
  function GetLocalIpAddress(dns1: Int32, online: string -> bool): (found: seq<string>)
    ensures NoDup(found)
    ensures forall ip :: ip in found <==> ip in Candidates(dns1) && online(ip)
  {
    CandidatesNoDup(dns1);
    Reachable(Candidates(dns1), online)
  }

  // ---------------------------------------------------------------------------
  // connectToServer

  /**
   * getLocalIpAddress as called in round `round` of connectToServer;
   * `online(round, ip)` is the sweep's verdict on candidate ip then.
   */
  function SweepRound(dns1: Int32, online: (nat, string) -> bool, round: nat): seq<string> {
    GetLocalIpAddress(dns1, ip => online(round, ip))
  }

  /** What connectToServer sees of the network; rounds count from 0. */
  datatype Network = Network(
    sweep: nat -> seq<string>,              // what getLocalIpAddress returns in a round
    probe: (nat, string) -> TimedAttempt)   // how testConnection(ip) ends in a round

  /**
   * The network seen by a device whose DHCP record names dns1: each sweep is
   * a set of candidates of dns1's /24 network, namely those judged online in
   * that round.
   */
  function Subnetwork(dns1: Int32, online: (nat, string) -> bool, probe: (nat, string) -> TimedAttempt): (net: Network)
    ensures net.probe == probe
    ensures SweepsAreSets(net)
    ensures forall round: nat, ip :: ip in net.sweep(round) <==> ip in Candidates(dns1) && online(round, ip)
  {
    Network((round: nat) => SweepRound(dns1, online, round), probe)
  }

  /** Counters of one connectToServer call; delays are the `delay(1500)` calls. */
  datatype Tally = Tally(rounds: nat, delays: nat, scans: nat, timedOut: bool)

  /** The session, the counters, and the awaited operations the deadline still allows. */
  datatype Progress = Progress(session: Session, tally: Tally, budget: nat)

  function Found(net: Network, round: nat): seq<string> {
    net.sweep(round)
  }

  /** Every sweep yields a set: no address twice. */
  ghost predicate SweepsAreSets(net: Network) {
    forall round :: NoDup(net.sweep(round))
  }

  function Accepts(net: Network, round: nat): string -> bool {
    ip => TestConnection(net.probe(round, ip))
  }

  /** Whether a round that runs to its end connects. */
  predicate RoundSucceeds(manual: Option<string>, net: Network, round: nat) {
    match manual
    case Some(m) => TestConnection(net.probe(round, m))
    case None => FirstAccepted(Found(net, round), Accepts(net, round)) < |Found(net, round)|
  }

  /**
   * An endpoint set that holds exactly the address an auto round settles on:
   * the first address of the round's sweep that tests true.
   */
  predicate SettledOn(ipList: seq<string>, net: Network, round: nat) {
    var found := Found(net, round);
    var k := FirstAccepted(found, Accepts(net, round));
    k < |found| && ipList == [found[k]]
  }

  /** The index of the last round run; rounds count from 0. */
  function LastRound(t: Tally): nat {
    if t.rounds == 0 then 0 else t.rounds - 1
  }

  function TimeOut(p: Progress): Progress {
    p.(tally := p.tally.(timedOut := true))
  }

  /** A manual round: test the override address; on success it becomes the only endpoint. */
  function ManualRound(p: Progress, m: string, net: Network, round: nat): Progress {
    if p.budget == 0 then TimeOut(p)
    else if TestConnection(net.probe(round, m)) then
      Progress(p.session.(ipList := [m], isConnected := true), p.tally, p.budget - 1)
    else
      p.(budget := p.budget - 1)
  }

  /**
   * An auto round: sweep, make the sweep's result the endpoint set, then test
   * its members in order until one connects; that one becomes the only
   * endpoint and the refused list is emptied.
   */
  function AutoRound(p: Progress, net: Network, round: nat): Progress {
    if p.budget == 0 then TimeOut(p)
    else
      var found := Found(net, round);
      var k := FirstAccepted(found, Accepts(net, round));
      var tests := if k < |found| then k + 1 else |found|;
      var budget := p.budget - 1;
      var tally := p.tally.(scans := p.tally.scans + 1);
      if budget < tests then
        Progress(p.session.(ipList := found), tally.(timedOut := true), 0)
      else if k < |found| then
        Progress(Session([found[k]], [], true), tally, budget - tests)
      else
        Progress(p.session.(ipList := found), tally, budget - tests)
  }

  function Round(p: Progress, manual: Option<string>, net: Network, round: nat): Progress {
    match manual
    case Some(m) => ManualRound(p, m, net, round)
    case None => AutoRound(p, net, round)
  }

  /**
   * The retry loop from `currentRetry == retry` on: a round starts by posting
   * false; the loop ends on success, on the deadline, or after MaxRetries
   * rounds; a failed round that is not the last is followed by a delay.
   */
  function Rounds(p: Progress, manual: Option<string>, net: Network, retry: nat): Progress
    decreases MaxRetries - retry
  {
    if retry >= MaxRetries then p
    else
      var q := FirstRound(p, manual, net, retry);
      if q.tally.timedOut || q.session.isConnected || retry + 1 >= MaxRetries then q
      else if q.budget == 0 then TimeOut(q)
      else Rounds(AfterDelay(q), manual, net, retry + 1)
  }

  /** The round that `Rounds(p, manual, net, retry)` runs first: it starts by posting false. */
  function FirstRound(p: Progress, manual: Option<string>, net: Network, retry: nat): Progress {
    Round(Progress(p.session.(isConnected := false), p.tally.(rounds := p.tally.rounds + 1), p.budget), manual, net, retry)
  }

  /** The state after the delay that follows a failed round. */
  function AfterDelay(q: Progress): Progress
    requires q.budget > 0
  {
    Progress(q.session, q.tally.(delays := q.tally.delays + 1), q.budget - 1)
  }

  /** One connectToServer call from session s with the given deadline budget. */
  function Establish(s: Session, manual: Option<string>, net: Network, budget: nat): Progress {
    Rounds(Progress(s, Tally(0, 0, 0, false), budget), manual, net, 0)
  }

  /** The counters of one round, for a round that starts disconnected. */
  lemma RoundCounters(p: Progress, manual: Option<string>, net: Network, round: nat)
    requires !p.session.isConnected && !p.tally.timedOut
    ensures var q := Round(p, manual, net, round);
      && q.tally.rounds == p.tally.rounds && q.tally.delays == p.tally.delays
      && (manual.Some? ==> q.tally.scans == p.tally.scans)
      && (q.session.isConnected ==> !q.tally.timedOut)
  {
  }

  /** A round connects exactly when it can, unless the deadline cuts it short. */
  lemma RoundOutcome(p: Progress, manual: Option<string>, net: Network, round: nat)
    requires !p.session.isConnected && !p.tally.timedOut
    ensures var q := Round(p, manual, net, round);
      && (q.session.isConnected ==> RoundSucceeds(manual, net, round))
      && (!q.session.isConnected && !q.tally.timedOut ==> !RoundSucceeds(manual, net, round))
  {
  }

  /** The session a manual round leaves behind. */
  lemma ManualRoundSession(p: Progress, m: string, net: Network, round: nat)
    requires !p.session.isConnected
    ensures var q := Round(p, Some(m), net, round);
      && q.session.refusedList == p.session.refusedList
      && q.session.ipList == (if q.session.isConnected then [m] else p.session.ipList)
  {
  }

  /** The session a successful auto round leaves behind. */
  lemma AutoRoundSession(p: Progress, net: Network, round: nat)
    requires !p.session.isConnected && !p.tally.timedOut
    ensures var q := Round(p, None, net, round);
      q.session.isConnected ==> SettledOn(q.session.ipList, net, round) && q.session.refusedList == []
  {
  }

  /** The counters and the outcome of the round a retry loop runs first. */
  lemma FirstRoundFacts(p: Progress, manual: Option<string>, net: Network, retry: nat)
    requires !p.tally.timedOut
    ensures var q := FirstRound(p, manual, net, retry);
      && q.tally.rounds == p.tally.rounds + 1 && q.tally.delays == p.tally.delays
      && (manual.Some? ==> q.tally.scans == p.tally.scans)
      && (q.session.isConnected ==> !q.tally.timedOut && RoundSucceeds(manual, net, retry))
      && (!q.session.isConnected && !q.tally.timedOut ==> !RoundSucceeds(manual, net, retry))
  {
    var start := Progress(p.session.(isConnected := false), p.tally.(rounds := p.tally.rounds + 1), p.budget);
    assert FirstRound(p, manual, net, retry) == Round(start, manual, net, retry);
    RoundCounters(start, manual, net, retry);
    RoundOutcome(start, manual, net, retry);
  }

  /** The counters of the retry loop from round `retry` on, by induction on the rounds left. */
  lemma {:induction false} RoundsCounters(p: Progress, manual: Option<string>, net: Network, retry: nat)
    requires retry < MaxRetries
    requires p.tally.rounds == retry && p.tally.delays == retry && !p.tally.timedOut
    decreases MaxRetries - retry
    ensures var z := Rounds(p, manual, net, retry);
      && retry < z.tally.rounds <= MaxRetries
      && z.tally.delays == z.tally.rounds - 1
      && (z.session.isConnected || z.tally.timedOut || z.tally.rounds == MaxRetries)
      && (z.session.isConnected ==> !z.tally.timedOut)
      && (manual.Some? ==> z.tally.scans == p.tally.scans)
  {
    var q := FirstRound(p, manual, net, retry);
    FirstRoundFacts(p, manual, net, retry);
    var z := Rounds(p, manual, net, retry);
    if q.tally.timedOut || q.session.isConnected || retry + 1 >= MaxRetries {
      assert z == q;
    } else if q.budget == 0 {
      assert z == TimeOut(q);
    } else {
      var p' := AfterDelay(q);
      assert z == Rounds(p', manual, net, retry + 1);
      RoundsCounters(p', manual, net, retry + 1);
    }
  }

  /** Every round of the retry loop before the last one failed, by induction on the rounds left. */
  lemma {:induction false} RoundsEarlierFail(p: Progress, manual: Option<string>, net: Network, retry: nat)
    requires retry < MaxRetries
    requires p.tally.rounds == retry && p.tally.delays == retry && !p.tally.timedOut
    decreases MaxRetries - retry
    ensures var z := Rounds(p, manual, net, retry);
      forall r :: retry <= r < LastRound(z.tally) ==> !RoundSucceeds(manual, net, r)
  {
    var q := FirstRound(p, manual, net, retry);
    FirstRoundFacts(p, manual, net, retry);
    var z := Rounds(p, manual, net, retry);
    if q.tally.timedOut || q.session.isConnected || retry + 1 >= MaxRetries {
      assert z == q;
    } else if q.budget == 0 {
      assert z == TimeOut(q);
    } else {
      var p' := AfterDelay(q);
      assert z == Rounds(p', manual, net, retry + 1);
      RoundsEarlierFail(p', manual, net, retry + 1);
      forall r | retry <= r < LastRound(z.tally)
        ensures !RoundSucceeds(manual, net, r)
      {
        if r == retry {
          assert RoundSucceeds(manual, net, retry) == RoundSucceeds(manual, net, r);
        }
      }
    }
  }

  /**
   * The last round of the retry loop succeeded exactly when the loop ends
   * connected, unless the deadline cut it; by induction on the rounds left.
   */
  lemma {:induction false} RoundsLastOutcome(p: Progress, manual: Option<string>, net: Network, retry: nat)
    requires retry < MaxRetries
    requires p.tally.rounds == retry && p.tally.delays == retry && !p.tally.timedOut
    decreases MaxRetries - retry
    ensures var z := Rounds(p, manual, net, retry);
      && (z.session.isConnected ==> RoundSucceeds(manual, net, LastRound(z.tally)))
      && (!z.session.isConnected && !z.tally.timedOut ==> !RoundSucceeds(manual, net, LastRound(z.tally)))
  {
    var q := FirstRound(p, manual, net, retry);
    FirstRoundFacts(p, manual, net, retry);
    var z := Rounds(p, manual, net, retry);
    if q.tally.timedOut || q.session.isConnected || retry + 1 >= MaxRetries {
      assert z == q;
      assert LastRound(z.tally) == retry;
      assert RoundSucceeds(manual, net, retry) == RoundSucceeds(manual, net, LastRound(z.tally));
    } else if q.budget == 0 {
      assert z == TimeOut(q);
    } else {
      var p' := AfterDelay(q);
      assert z == Rounds(p', manual, net, retry + 1);
      RoundsLastOutcome(p', manual, net, retry + 1);
    }
  }

  /** The session the retry loop leaves in manual mode, by induction on the rounds left. */
  lemma {:induction false} RoundsManualSession(p: Progress, m: string, net: Network, retry: nat)
    requires retry < MaxRetries
    decreases MaxRetries - retry
    ensures var z := Rounds(p, Some(m), net, retry);
      && z.session.refusedList == p.session.refusedList
      && z.session.ipList == (if z.session.isConnected then [m] else p.session.ipList)
  {
    var start := Progress(p.session.(isConnected := false), p.tally.(rounds := p.tally.rounds + 1), p.budget);
    var q := FirstRound(p, Some(m), net, retry);
    ManualRoundSession(start, m, net, retry);
    if !(q.tally.timedOut || q.session.isConnected || retry + 1 >= MaxRetries) && q.budget != 0 {
      RoundsManualSession(AfterDelay(q), m, net, retry + 1);
    }
  }

  /** The session the retry loop leaves in auto mode, by induction on the rounds left. */
  lemma {:induction false} RoundsAutoSession(p: Progress, net: Network, retry: nat)
    requires retry < MaxRetries
    requires p.tally.rounds == retry && !p.tally.timedOut
    decreases MaxRetries - retry
    ensures var z := Rounds(p, None, net, retry);
      z.session.isConnected ==> SettledOn(z.session.ipList, net, LastRound(z.tally)) && z.session.refusedList == []
  {
    var start := Progress(p.session.(isConnected := false), p.tally.(rounds := p.tally.rounds + 1), p.budget);
    var q := FirstRound(p, None, net, retry);
    assert q == Round(start, None, net, retry);
    RoundCounters(start, None, net, retry);
    AutoRoundSession(start, net, retry);
    var z := Rounds(p, None, net, retry);
    if q.tally.timedOut || q.session.isConnected || retry + 1 >= MaxRetries {
      assert z == q;
      if z.session.isConnected {
        assert SettledOn(q.session.ipList, net, retry) == SettledOn(z.session.ipList, net, LastRound(z.tally));
      }
    } else if q.budget == 0 {
      assert z == TimeOut(q);
      assert !z.session.isConnected;
    } else {
      assert z == Rounds(AfterDelay(q), None, net, retry + 1);
      RoundsAutoSession(AfterDelay(q), net, retry + 1);
    }
  }

  /**
   * The retry bound: at least one and at most MaxRetries rounds, with a delay
   * between consecutive rounds and none after the last.
   */
  lemma EstablishRetryBound(s: Session, manual: Option<string>, net: Network, budget: nat)
    ensures var q := Establish(s, manual, net, budget);
      1 <= q.tally.rounds <= MaxRetries && q.tally.delays == q.tally.rounds - 1
  {
    RoundsCounters(Progress(s, Tally(0, 0, 0, false), budget), manual, net, 0);
  }

  /** When every round fails before the deadline: exactly 3 rounds and 2 delays. */
  lemma EstablishAllFail(s: Session, manual: Option<string>, net: Network, budget: nat)
    ensures var q := Establish(s, manual, net, budget);
      !q.session.isConnected && !q.tally.timedOut ==>
        && q.tally.rounds == MaxRetries && q.tally.delays == MaxRetries - 1
        && forall r :: 0 <= r < MaxRetries ==> !RoundSucceeds(manual, net, r)
  {
    RoundsCounters(Progress(s, Tally(0, 0, 0, false), budget), manual, net, 0);
    RoundsEarlierFail(Progress(s, Tally(0, 0, 0, false), budget), manual, net, 0);
    RoundsLastOutcome(Progress(s, Tally(0, 0, 0, false), budget), manual, net, 0);
  }

  /**
   * The loop ends with the first round that connects: that round succeeded
   * and every earlier one failed. A connected session never timed out.
   */
  lemma EstablishStopsAtFirstSuccess(s: Session, manual: Option<string>, net: Network, budget: nat)
    ensures var q := Establish(s, manual, net, budget);
      && (forall r :: 0 <= r < LastRound(q.tally) ==> !RoundSucceeds(manual, net, r))
      && (q.session.isConnected ==> !q.tally.timedOut && RoundSucceeds(manual, net, LastRound(q.tally)))
  {
    RoundsCounters(Progress(s, Tally(0, 0, 0, false), budget), manual, net, 0);
    RoundsEarlierFail(Progress(s, Tally(0, 0, 0, false), budget), manual, net, 0);
    RoundsLastOutcome(Progress(s, Tally(0, 0, 0, false), budget), manual, net, 0);
  }

  /**
   * Manual mode never sweeps and never touches the refused list; on success
   * the endpoint set is exactly the override address, otherwise it is left
   * as it was.
   */
  lemma EstablishManual(s: Session, m: string, net: Network, budget: nat)
    ensures var q := Establish(s, Some(m), net, budget);
      && q.tally.scans == 0
      && q.session.refusedList == s.refusedList
      && (q.session.isConnected ==> q.session.ipList == [m])
      && (!q.session.isConnected ==> q.session.ipList == s.ipList)
  {
    RoundsCounters(Progress(s, Tally(0, 0, 0, false), budget), Some(m), net, 0);
    RoundsManualSession(Progress(s, Tally(0, 0, 0, false), budget), m, net, 0);
  }

  /**
   * Auto mode: a connected session holds exactly one endpoint, found by the
   * last round's sweep, which tested true while every address before it in
   * that sweep tested false; the refused list is emptied.
   */
  lemma EstablishAuto(s: Session, net: Network, budget: nat)
    ensures var q := Establish(s, None, net, budget);
      q.session.isConnected ==>
        var r := LastRound(q.tally);
        var found := Found(net, r);
        var k := FirstAccepted(found, Accepts(net, r));
        && k < |found|
        && q.session.ipList == [found[k]]
        && TestConnection(net.probe(r, found[k]))
        && (forall j :: 0 <= j < k ==> !TestConnection(net.probe(r, found[j])))
        && q.session.refusedList == []
  {
    RoundsCounters(Progress(s, Tally(0, 0, 0, false), budget), None, net, 0);
    RoundsAutoSession(Progress(s, Tally(0, 0, 0, false), budget), net, 0);
    var q := Establish(s, None, net, budget);
    if q.session.isConnected {
      var r := LastRound(q.tally);
      var found := Found(net, r);
      var k := FirstAccepted(found, Accepts(net, r));
      assert forall j :: 0 <= j < k ==> !Accepts(net, r)(found[j]);
    }
  }

  // ---------------------------------------------------------------------------
  // sendToServer

  /** What the automatic branch of sendToServer leaves behind, and where it sent the text. */
  datatype Dispatched = Dispatched(refusedList: seq<string>, isConnected: bool, sentTo: seq<string>)

  /**
   * The automatic branch of sendToServer for one endpoint `ip`, after the
   * endpoints before it left `d`: an endpoint on the refused list is
   * skipped; any other is probed with attemptConnection, which posts its
   * result to isConnected; on success the text is sent to it, on failure it
   * joins the refused list.
   */
  function DispatchStep(d: Dispatched, ip: string, probe: string -> SocketResult): Dispatched {
    if ip in d.refusedList then d
    else if AttemptConnection(probe(ip)) then d.(isConnected := true, sentTo := d.sentTo + [ip])
    else Dispatched(d.refusedList + [ip], false, d.sentTo)
  }

  /** The automatic branch of sendToServer over the endpoints `ips`, in iteration order. */
  function Dispatch(ips: seq<string>, refused: seq<string>, connected: bool, probe: string -> SocketResult): Dispatched
    decreases |ips|
  {
    if ips == [] then Dispatched(refused, connected, [])
    else DispatchStep(Dispatch(ips[..|ips| - 1], refused, connected, probe), Last(ips), probe)
  }

  /**
   * The refused list only grows, and it ends up holding exactly the addresses
   * it held before plus every endpoint whose probe failed; it stays free of
   * repeats.
   */
  lemma {:induction false} DispatchRefused(ips: seq<string>, refused: seq<string>, connected: bool, probe: string -> SocketResult)
    decreases |ips|
    ensures var d := Dispatch(ips, refused, connected, probe);
      && refused <= d.refusedList
      && (forall x :: x in d.refusedList <==> x in refused || (x in ips && !AttemptConnection(probe(x))))
      && (NoDup(refused) ==> NoDup(d.refusedList))
  {
    if ips != [] {
      var pre := ips[..|ips| - 1];
      assert ips == pre + [Last(ips)];
      DispatchRefused(pre, refused, connected, probe);
    }
  }

  /**
   * The text goes exactly to the endpoints that were not refused beforehand
   * and whose probe succeeds, each once.
   */
  lemma {:induction false} DispatchSends(ips: seq<string>, refused: seq<string>, connected: bool, probe: string -> SocketResult)
    decreases |ips|
    ensures var d := Dispatch(ips, refused, connected, probe);
      && (forall x :: x in d.sentTo <==> x in ips && x !in refused && AttemptConnection(probe(x)))
      && (NoDup(ips) ==> NoDup(d.sentTo))
  {
    if ips != [] {
      var pre := ips[..|ips| - 1];
      assert ips == pre + [Last(ips)];
      DispatchSends(pre, refused, connected, probe);
      DispatchRefused(pre, refused, connected, probe);
    }
  }

  /** Position j holds the last endpoint of `ips` that is not on the refused list. */
  predicate LastProbedAt(ips: seq<string>, refused: seq<string>, j: nat) {
    j < |ips| && ips[j] !in refused && forall l :: j < l < |ips| ==> ips[l] in refused
  }

  /**
   * isConnected ends as the result of the last probe, that is of the last
   * endpoint not refused beforehand; when every endpoint was refused nothing
   * is probed and isConnected keeps its value.
   */
  lemma {:induction false} DispatchConnected(ips: seq<string>, refused: seq<string>, connected: bool, probe: string -> SocketResult)
    requires NoDup(ips)
    decreases |ips|
    ensures var d := Dispatch(ips, refused, connected, probe);
      && ((forall j :: 0 <= j < |ips| ==> ips[j] in refused) ==> d.isConnected == connected)
      && (forall j: nat :: LastProbedAt(ips, refused, j) ==> d.isConnected == AttemptConnection(probe(ips[j])))
  {
    if ips != [] {
      var pre := ips[..|ips| - 1];
      var ip := Last(ips);
      assert ips == pre + [ip];
      assert ip !in pre;
      DispatchConnected(pre, refused, connected, probe);
      DispatchRefused(pre, refused, connected, probe);
      forall j: nat | LastProbedAt(ips, refused, j) && j < |pre|
        ensures LastProbedAt(pre, refused, j)
      {
      }
    }
  }

  /**
   * Dispatching again over the same endpoints, with the network unchanged,
   * refuses nothing new and sends to the same endpoints: the refused list
   * settles after one call.
   */
  lemma DispatchSettles(ips: seq<string>, refused: seq<string>, c1: bool, c2: bool, probe: string -> SocketResult)
    requires NoDup(refused)
    ensures var d1 := Dispatch(ips, refused, c1, probe);
      var d2 := Dispatch(ips, d1.refusedList, c2, probe);
      && d2.refusedList == d1.refusedList
      && forall x :: x in d2.sentTo <==> x in d1.sentTo
  {
    var d1 := Dispatch(ips, refused, c1, probe);
    var d2 := Dispatch(ips, d1.refusedList, c2, probe);
    DispatchRefused(ips, refused, c1, probe);
    DispatchRefused(ips, d1.refusedList, c2, probe);
    DispatchSends(ips, refused, c1, probe);
    DispatchSends(ips, d1.refusedList, c2, probe);
    NoDupPrefixSameElements(d1.refusedList, d2.refusedList);
  }

  /** Dispatching one more endpoint of `ips`: the step the dispatch loop takes. */
  lemma DispatchPrefix(ips: seq<string>, i: nat, refused: seq<string>, connected: bool, probe: string -> SocketResult)
    requires i < |ips|
    ensures Dispatch(ips[..i + 1], refused, connected, probe) ==
      DispatchStep(Dispatch(ips[..i], refused, connected, probe), ips[i], probe)
  {
    assert ips[..i + 1][..i] == ips[..i];
  }

  // ---------------------------------------------------------------------------
  // The manager object

  class NetworkManager {
    const viewModel: MainViewModel
    /** Every text handed to sendToIp, with its address; whether the write succeeds is not modelled. */
    ghost var deliveries: seq<Delivery>

    constructor (viewModel: MainViewModel)
      ensures this.viewModel == viewModel && deliveries == []
    {
      this.viewModel := viewModel;
      deliveries := [];
    }

    /** sendToIp: open a socket to (ip, PORT) and write the text. */
    method SendToIp(ip: string, text: string)
      modifies this
      ensures deliveries == old(deliveries) + [Delivery(ip, text)]
    {
      deliveries := deliveries + [Delivery(ip, text)];
    }

    /**
     * The manual branch of one round: testConnection on the override address;
     * on success the endpoint set becomes that address alone.
     */
    method ManualAttempt(m: string, net: Network, round: nat, ghost tally: Tally, left: nat) returns (left': nat)
      requires viewModel.Valid() && !viewModel.isConnected && !tally.timedOut && left > 0
      modifies viewModel
      ensures viewModel.Valid()
      ensures Progress(viewModel.Snapshot(), tally, left') == ManualRound(Progress(old(viewModel.Snapshot()), tally, left), m, net, round)
      ensures viewModel.cbManualIP == old(viewModel.cbManualIP) && viewModel.etManualIP == old(viewModel.etManualIP)
      ensures viewModel.etInput == old(viewModel.etInput)
    {
      left' := left - 1;
      if TestConnection(net.probe(round, m)) {
        viewModel.ipList := [m];
        viewModel.isConnected := true;
      }
    }

    /**
     * The automatic branch of one round: sweep the subnet, make the result
     * the endpoint set, then test its members in iteration order; the first
     * that connects becomes the only endpoint and the refused list is
     * cleared. Each awaited operation uses one unit of the deadline.
     */
    method AutoAttempt(net: Network, round: nat, ghost tally: Tally, left: nat) returns (ghost tally': Tally, left': nat, timedOut: bool)
      requires SweepsAreSets(net)
      requires viewModel.Valid() && !viewModel.isConnected && !tally.timedOut && left > 0
      modifies viewModel
      ensures viewModel.Valid()
      ensures Progress(viewModel.Snapshot(), tally', left') == AutoRound(Progress(old(viewModel.Snapshot()), tally, left), net, round)
      ensures timedOut == tally'.timedOut
      ensures viewModel.cbManualIP == old(viewModel.cbManualIP) && viewModel.etManualIP == old(viewModel.etManualIP)
      ensures viewModel.etInput == old(viewModel.etInput)
    {
      ghost var refused := viewModel.refusedList;
      left' := left - 1;
      var found := net.sweep(round);
      viewModel.ipList := found;
      tally' := tally.(scans := tally.scans + 1);
      timedOut := false;
      var i := 0;
      while i < |found|
        invariant i <= |found| && left' + i == left - 1
        invariant forall j :: 0 <= j < i ==> !TestConnection(net.probe(round, found[j]))
        invariant viewModel.Snapshot() == Session(found, refused, false)
        invariant viewModel.Valid() && !timedOut
        invariant tally' == tally.(scans := tally.scans + 1)
        invariant viewModel.cbManualIP == old(viewModel.cbManualIP) && viewModel.etManualIP == old(viewModel.etManualIP)
        invariant viewModel.etInput == old(viewModel.etInput)
      {
        if left' == 0 {
          tally' := tally'.(timedOut := true);
          timedOut := true;
          return;
        }
        left' := left' - 1;
        var ip := found[i];
        if TestConnection(net.probe(round, ip)) {
          viewModel.isConnected := true;
          viewModel.ipList := [];
          viewModel.refusedList := [];
          viewModel.ipList := viewModel.ipList + [ip];
          FirstAcceptedAt(found, Accepts(net, round), i);
          return;
        }
        i := i + 1;
      }
    }

    /**
     * One pass of connectToServer's retry loop, `currentRetry == retry`: post
     * false, run the round, then either stop (connected, or the deadline
     * fired) or count the failure and, unless it was the last round, wait.
     * The loop from here on ends where it would have ended before the pass.
     */
    method RetryPass(manual: Option<string>, net: Network, retry: nat, ghost tally: Tally, left: nat)
      returns (ghost tally': Tally, left': nat, stop: bool)
      requires retry < MaxRetries && SweepsAreSets(net)
      requires viewModel.Valid() && !tally.timedOut
      modifies viewModel
      ensures viewModel.Valid()
      ensures var before := Rounds(Progress(old(viewModel.Snapshot()), tally, left), manual, net, retry);
        if stop then Progress(viewModel.Snapshot(), tally', left') == before
        else !tally'.timedOut && before == Rounds(Progress(viewModel.Snapshot(), tally', left'), manual, net, retry + 1)
      ensures viewModel.cbManualIP == old(viewModel.cbManualIP) && viewModel.etManualIP == old(viewModel.etManualIP)
      ensures viewModel.etInput == old(viewModel.etInput)
    {
      ghost var p := Progress(viewModel.Snapshot(), tally, left);
      ghost var q := FirstRound(p, manual, net, retry);
      viewModel.isConnected := false;
      tally' := tally.(rounds := tally.rounds + 1);
      left' := left;
      stop := true;
      if left == 0 {
        tally' := tally'.(timedOut := true);
        assert Progress(viewModel.Snapshot(), tally', left') == q;
        return;
      }
      if manual.Some? {
        left' := ManualAttempt(manual.value, net, retry, tally', left);
      } else {
        var timedOut;
        tally', left', timedOut := AutoAttempt(net, retry, tally', left);
        if timedOut {
          return;
        }
      }
      assert Progress(viewModel.Snapshot(), tally', left') == q;
      if viewModel.isConnected {
        return;
      }
      if retry + 1 < MaxRetries {
        if left' == 0 {
          tally' := tally'.(timedOut := true);
          return;
        }
        left' := left' - 1;
        tally' := tally'.(delays := tally'.delays + 1);
        assert Progress(viewModel.Snapshot(), tally', left') == AfterDelay(q);
      }
      stop := false;
    }

    /**
     * connectToServer's retry loop over the network `net`, proved to end in
     * the state `Establish` describes. `tally` reports the rounds, delays
     * and sweeps it ran and whether the deadline fired.
     */
    method RetryLoop(manual: Option<string>, net: Network, budget: nat) returns (ghost tally: Tally)
      requires SweepsAreSets(net) && viewModel.Valid()
      modifies viewModel
      ensures viewModel.Valid()
      ensures var q := Establish(old(viewModel.Snapshot()), manual, net, budget);
        viewModel.Snapshot() == q.session && tally == q.tally
      ensures viewModel.cbManualIP == old(viewModel.cbManualIP) && viewModel.etManualIP == old(viewModel.etManualIP)
      ensures viewModel.etInput == old(viewModel.etInput)
    {
      ghost var goal := Establish(viewModel.Snapshot(), manual, net, budget);
      tally := Tally(0, 0, 0, false);
      var left: nat := budget;
      var currentRetry := 0;
      while currentRetry < MaxRetries
        invariant currentRetry <= MaxRetries
        invariant viewModel.Valid() && !tally.timedOut
        invariant viewModel.cbManualIP == old(viewModel.cbManualIP) && viewModel.etManualIP == old(viewModel.etManualIP)
        invariant viewModel.etInput == old(viewModel.etInput)
        invariant Rounds(Progress(viewModel.Snapshot(), tally, left), manual, net, currentRetry) == goal
        decreases MaxRetries - currentRetry
      {
        var stop;
        tally, left, stop := RetryPass(manual, net, currentRetry, tally, left);
        if stop {
          break;
        }
        currentRetry := currentRetry + 1;
      }
    }

    /**
     * connectToServer on a device whose DHCP record names dns1: the override
     * is read once, then the retry loop runs over the subnet dns1 names.
     */
    method ConnectToServer(dns1: Int32, online: (nat, string) -> bool, probe: (nat, string) -> TimedAttempt, budget: nat)
      returns (ghost tally: Tally)
      requires viewModel.Valid()
      modifies viewModel
      ensures viewModel.Valid()
      ensures var q := Establish(old(viewModel.Snapshot()), ManualTarget(old(viewModel.cbManualIP), old(viewModel.etManualIP)),
          Subnetwork(dns1, online, probe), budget);
        viewModel.Snapshot() == q.session && tally == q.tally
      ensures viewModel.cbManualIP == old(viewModel.cbManualIP) && viewModel.etManualIP == old(viewModel.etManualIP)
      ensures viewModel.etInput == old(viewModel.etInput)
    {
      var manual := ManualTarget(viewModel.cbManualIP, viewModel.etManualIP);
      var net := Subnetwork(dns1, online, probe);
      tally := RetryLoop(manual, net, budget);
    }

    /**
     * The manual branch of sendToServer: attemptConnection on the override
     * address, which posts its result; the text is sent only on success.
     */
    method SendManual(m: string, text: string, probe: string -> SocketResult)
      modifies this, viewModel
      ensures viewModel.Snapshot() == old(viewModel.Snapshot()).(isConnected := AttemptConnection(probe(m)))
      ensures deliveries == old(deliveries) + (if AttemptConnection(probe(m)) then [Delivery(m, text)] else [])
      ensures viewModel.cbManualIP == old(viewModel.cbManualIP) && viewModel.etManualIP == old(viewModel.etManualIP)
      ensures viewModel.etInput == old(viewModel.etInput)
    {
      var ok := AttemptConnection(probe(m));
      viewModel.isConnected := ok;
      if ok {
        SendToIp(m, text);
      }
    }

    /** One endpoint of the automatic send loop: the step `DispatchStep` takes from `d`. */
    method DispatchEntry(ip: string, text: string, probe: string -> SocketResult, ghost d: Dispatched, ghost base: seq<Delivery>)
      requires viewModel.Valid() && viewModel.refusedList == d.refusedList && viewModel.isConnected == d.isConnected
      requires deliveries == base + Deliveries(d.sentTo, text)
      modifies this, viewModel
      ensures var e := DispatchStep(d, ip, probe);
        && viewModel.Valid() && viewModel.refusedList == e.refusedList && viewModel.isConnected == e.isConnected
        && deliveries == base + Deliveries(e.sentTo, text)
      ensures viewModel.ipList == old(viewModel.ipList) && viewModel.etInput == old(viewModel.etInput)
      ensures viewModel.cbManualIP == old(viewModel.cbManualIP) && viewModel.etManualIP == old(viewModel.etManualIP)
    {
      if ip !in viewModel.refusedList {
        var ok := AttemptConnection(probe(ip));
        viewModel.isConnected := ok;
        if ok {
          SendToIp(ip, text);
          DeliveriesSnoc(d.sentTo, ip, text);
          AppendAssoc(base, Deliveries(d.sentTo, text), [Delivery(ip, text)]);
        } else {
          NoDupAppend(viewModel.refusedList, ip);
          viewModel.refusedList := viewModel.refusedList + [ip];
        }
      }
    }

    /** The automatic branch of sendToServer: the loop over the endpoint set that `Dispatch` specifies. */
    method SendAuto(text: string, probe: string -> SocketResult)
      requires viewModel.Valid()
      modifies this, viewModel
      ensures viewModel.Valid()
      ensures var d := Dispatch(old(viewModel.ipList), old(viewModel.refusedList), old(viewModel.isConnected), probe);
        && viewModel.Snapshot() == Session(old(viewModel.ipList), d.refusedList, d.isConnected)
        && deliveries == old(deliveries) + Deliveries(d.sentTo, text)
      ensures viewModel.cbManualIP == old(viewModel.cbManualIP) && viewModel.etManualIP == old(viewModel.etManualIP)
      ensures viewModel.etInput == old(viewModel.etInput)
    {
      var ips := viewModel.ipList;
      ghost var refused0, connected0, sent0 := viewModel.refusedList, viewModel.isConnected, deliveries;
      ghost var d := Dispatched(refused0, connected0, []);
      var i := 0;
      while i < |ips|
        invariant i <= |ips|
        invariant d == Dispatch(ips[..i], refused0, connected0, probe)
        invariant viewModel.Snapshot() == Session(ips, d.refusedList, d.isConnected)
        invariant deliveries == sent0 + Deliveries(d.sentTo, text)
        invariant viewModel.Valid()
        invariant viewModel.cbManualIP == old(viewModel.cbManualIP) && viewModel.etManualIP == old(viewModel.etManualIP)
        invariant viewModel.etInput == old(viewModel.etInput)
      {
        DispatchPrefix(ips, i, refused0, connected0, probe);
        DispatchEntry(ips[i], text, probe, d, sent0);
        d := DispatchStep(d, ips[i], probe);
        i := i + 1;
      }
      assert ips[..|ips|] == ips;
    }

    /**
     * sendToServer: with the override active only the override address is
     * probed and written to, and the endpoint and refused lists are left
     * alone; otherwise the endpoints are dispatched as `Dispatch` says.
     */
    method SendToServer(text: string, probe: string -> SocketResult)
      requires viewModel.Valid()
      modifies this, viewModel
      ensures viewModel.Valid()
      ensures viewModel.ipList == old(viewModel.ipList)
      ensures viewModel.cbManualIP == old(viewModel.cbManualIP) && viewModel.etManualIP == old(viewModel.etManualIP)
      ensures viewModel.etInput == old(viewModel.etInput)
      ensures match ManualTarget(old(viewModel.cbManualIP), old(viewModel.etManualIP))
        case Some(m) =>
          && viewModel.refusedList == old(viewModel.refusedList)
          && viewModel.isConnected == AttemptConnection(probe(m))
          && deliveries == old(deliveries) + (if AttemptConnection(probe(m)) then [Delivery(m, text)] else [])
        case None =>
          var d := Dispatch(old(viewModel.ipList), old(viewModel.refusedList), old(viewModel.isConnected), probe);
          && viewModel.refusedList == d.refusedList
          && viewModel.isConnected == d.isConnected
          && deliveries == old(deliveries) + Deliveries(d.sentTo, text)
    {
      var manual := ManualTarget(viewModel.cbManualIP, viewModel.etManualIP);
      if manual.Some? {
        SendManual(manual.value, text, probe);
      } else {
        SendAuto(text, probe);
      }
    }
  }
}
