/**
 * The connection logic of `MainActivity` (MainActivity.kt), which keeps its
 * own endpoint set, refused list and saved server address instead of using
 * the view model: the start-up restore, `connectToServer` (override, then the
 * saved address, then a scan), `testConnection`, `sendToServer`,
 * `resetConnection`, the sequential `getLocalIpAddress` and `intToIp`.
 *
 * The network is an input: `open(host)` is how `Socket(host, 8000)` ends,
 * `reachable(ip)` is `isReachable(100)`. The second connect that
 * sendToServer makes through testConnection is answered by `recheck`, since
 * the server may accept one connection and not the next.
 */
module Activity {
  import opened Wrappers
  import opened Lists
  import opened Commons
  import opened Subnet
  import opened Probes

  // ---------------------------------------------------------------------------
  // intToIp and the byte buffer of getLocalIpAddress

  /**
   * MainActivity's own `intToIp`: the same masked shifts as
   * `Commons.intToIp`, and so the same text.
   */
  function PrivateIntToIp(i: Int32): (s: string)
    ensures s == Commons.IntToIp(i)
  {
    var x := i as int;
    ShiftsAsDivisions(x);
    assert Shr8(x, 0) == x;
    Decimal(x % 0x100) + "." + (Decimal(x / 0x100 % 0x100) + "." + (Decimal(x / 0x1_0000 % 0x100) + "." + Decimal(x / 0x100_0000 % 0x100)))
  }

  /** Kotlin's `Int.toByte()`: the low eight bits read as a signed byte. */
  function ToByte(i: int): (b: int)
    ensures -0x80 <= b < 0x80
    ensures (b - i) % 0x100 == 0
  {
    (i + 0x80) % 0x100 - 0x80
  }

  /** How `InetAddress` reads an address byte: as an unsigned value. */
  function Unsigned(b: int): (u: nat)
    ensures u < 0x100
  {
    b % 0x100
  }

  /** A value 0..255 survives the trip through a signed byte. */
  lemma ByteRoundTrip(i: int)
    requires 0 <= i < 0x100
    ensures Unsigned(ToByte(i)) == i
  {
    if i >= 0x80 {
      assert ToByte(i) == i - 0x100;
    }
  }

  /** `InetAddress.getByAddress(ip).toString().drop(1)` for a four-byte buffer. */
  function AddressText(ip: seq<int>): string
    requires |ip| == 4
  {
    FormatQuad(Unsigned(ip[0]), Unsigned(ip[1]), Unsigned(ip[2]), Unsigned(ip[3]))
  }

  /** The buffer holding the DNS server's first three bytes and `i` reads as candidate i - 1. */
  lemma AddressIsCandidate(dns1: Int32, ip: seq<int>, i: int)
    requires |ip| == 4 && FirstHost <= i <= LastHost
    requires Unsigned(ip[0]) == Octets(dns1).a && Unsigned(ip[1]) == Octets(dns1).b && Unsigned(ip[2]) == Octets(dns1).c
    requires Unsigned(ip[3]) == i
    ensures AddressText(ip) == Candidates(dns1)[i - 1]
  {
  }

  // ---------------------------------------------------------------------------
  // connectToServer

  /** The endpoint set connectToServer leaves, and whether it reports success. */
  datatype Selection = Selection(ipList: seq<string>, connected: bool)

  /**
   * connectToServer: with the override active, only the override address is
   * tested and, on success, becomes the endpoint set. Otherwise a saved
   * address that tests true becomes the endpoint set; failing that, the scan
   * result becomes the endpoint set in full, and the call succeeds when any
   * scanned address tests true. `open` is how a connection to a host ends.
   */
  ghost function Connect(ipList: seq<string>, manual: Option<string>, saved: Option<string>,
                         open: string -> SocketResult, found: seq<string>): (c: Selection)
    ensures c.connected ==> exists x :: x in c.ipList && open(x) == Connected
    ensures manual.Some? ==>
      && (c.connected <==> open(manual.value) == Connected)
      && c.ipList == (if c.connected then [manual.value] else ipList)
    ensures manual.None? && saved.Some? && open(saved.value) == Connected ==> c == Selection([saved.value], true)
    ensures manual.None? && !(saved.Some? && open(saved.value) == Connected) ==>
      c.ipList == found && (c.connected <==> exists x :: x in found && open(x) == Connected)
  {
    match manual
    case Some(m) =>
      if open(m) == Connected then Selection([m], true) else Selection(ipList, false)
    case None =>
      if saved.Some? && open(saved.value) == Connected then Selection([saved.value], true)
      else Selection(found, exists x :: x in found && open(x) == Connected)
  }

  // ---------------------------------------------------------------------------
  // sendToServer

  /** What sendToServer leaves behind, and the hosts it wrote the text to. */
  datatype Sent = Sent(ipList: seq<string>, refusedList: seq<string>, serverIp: Option<string>, sentTo: seq<string>)

  /** `usedIp`: the override address when the override is active, else the entry itself. */
  function UsedIp(manual: Option<string>, ip: string): string {
    manual.GetOr(ip)
  }

  /**
   * sendToServer's handling of one entry `ip`, after the entries before it
   * left `d`. An entry on the refused list is skipped. Otherwise a socket is
   * opened to its usedIp:
   * - if it opens, testConnection(entry) connects once more (`recheck`);
   *   when that fails the entry is removed from the set; either way the
   *   entry is saved as `server_ip` and the text is written to usedIp;
   * - if it is refused ("Connection refused"), the entry joins the refused
   *   list;
   * - any other failure changes nothing.
   * An entry that is not removed stays in the set, in its place.
   */
  function SendStep(d: Sent, ip: string, manual: Option<string>,
                    open: string -> SocketResult, recheck: string -> SocketResult): Sent
  {
    var used := UsedIp(manual, ip);
    if ip in d.refusedList then d.(ipList := d.ipList + [ip])
    else if open(used) == Connected then
      Sent(d.ipList + (if recheck(used) == Connected then [ip] else []), d.refusedList, Some(ip), d.sentTo + [used])
    else if open(used) == ConnectFailed(true) then Sent(d.ipList + [ip], d.refusedList + [ip], d.serverIp, d.sentTo)
    else d.(ipList := d.ipList + [ip])
  }

  /** sendToServer over the entries `ips`, in iteration order. */
  function SendAll(ips: seq<string>, refused: seq<string>, saved: Option<string>, manual: Option<string>,
                   open: string -> SocketResult, recheck: string -> SocketResult): Sent
    decreases |ips|
  {
    if ips == [] then Sent([], refused, saved, [])
    else SendStep(SendAll(ips[..|ips| - 1], refused, saved, manual, open, recheck), Last(ips), manual, open, recheck)
  }

  /**
   * sendToServer continued from the state `d` over the entries `rest` the
   * iterator has not yet returned.
   */
  function SendRest(rest: seq<string>, d: Sent, manual: Option<string>,
                    open: string -> SocketResult, recheck: string -> SocketResult): Sent
    decreases |rest|
  {
    if rest == [] then d
    else SendRest(rest[1..], SendStep(d, rest[0], manual, open, recheck), manual, open, recheck)
  }

  /** Continuing from the state the entries `done` left gives `SendAll` over all entries. */
  lemma {:induction false} SendRestAll(done: seq<string>, rest: seq<string>, refused: seq<string>, saved: Option<string>,
                                       manual: Option<string>, open: string -> SocketResult, recheck: string -> SocketResult)
    decreases |rest|
    ensures SendRest(rest, SendAll(done, refused, saved, manual, open, recheck), manual, open, recheck) ==
      SendAll(done + rest, refused, saved, manual, open, recheck)
  {
    if rest != [] {
      var done' := done + [rest[0]];
      assert done'[..|done'| - 1] == done;
      assert done' + rest[1..] == done + rest;
      SendRestAll(done', rest[1..], refused, saved, manual, open, recheck);
    } else {
      assert done + rest == done;
    }
  }

  /**
   * The refused list only grows, and only by entries whose connect was
   * refused: it ends holding what it held plus exactly those entries. It
   * stays free of repeats.
   */
  lemma {:induction false} SendRefused(ips: seq<string>, refused: seq<string>, saved: Option<string>, manual: Option<string>,
                                       open: string -> SocketResult, recheck: string -> SocketResult)
    decreases |ips|
    ensures var r := SendAll(ips, refused, saved, manual, open, recheck);
      && refused <= r.refusedList
      && (forall x :: x in r.refusedList <==> x in refused || (x in ips && open(UsedIp(manual, x)) == ConnectFailed(true)))
      && (NoDup(refused) ==> NoDup(r.refusedList))
  {
    if ips != [] {
      var pre := ips[..|ips| - 1];
      assert ips == pre + [Last(ips)];
      SendRefused(pre, refused, saved, manual, open, recheck);
    }
  }

  /**
   * The endpoint set never grows: it keeps every entry except those that
   * were not refused beforehand, opened, and then failed testConnection.
   */
  lemma {:induction false} SendKeeps(ips: seq<string>, refused: seq<string>, saved: Option<string>, manual: Option<string>,
                                     open: string -> SocketResult, recheck: string -> SocketResult)
    decreases |ips|
    ensures var r := SendAll(ips, refused, saved, manual, open, recheck);
      && |r.ipList| <= |ips|
      && (NoDup(ips) ==> NoDup(r.ipList))
      && forall x :: x in r.ipList <==>
        x in ips && !(x !in refused && open(UsedIp(manual, x)) == Connected && recheck(UsedIp(manual, x)) != Connected)
  {
    if ips != [] {
      var pre := ips[..|ips| - 1];
      assert ips == pre + [Last(ips)];
      SendKeeps(pre, refused, saved, manual, open, recheck);
      SendRefused(pre, refused, saved, manual, open, recheck);
      var d := SendAll(pre, refused, saved, manual, open, recheck);
      var r := SendAll(ips, refused, saved, manual, open, recheck);
      assert r == SendStep(d, Last(ips), manual, open, recheck);
      assert r.ipList == d.ipList || r.ipList == d.ipList + [Last(ips)];
      if NoDup(ips) {
        assert Last(ips) !in pre;
        assert Last(ips) !in d.ipList;
        if r.ipList != d.ipList {
          NoDupAppend(d.ipList, Last(ips));
        }
      }
    }
  }

  /** Neither list gains a repeat. */
  lemma SendKeepsValid(ips: seq<string>, refused: seq<string>, saved: Option<string>, manual: Option<string>,
                       open: string -> SocketResult, recheck: string -> SocketResult)
    requires NoDup(ips) && NoDup(refused)
    ensures NoDup(SendAll(ips, refused, saved, manual, open, recheck).ipList)
    ensures NoDup(SendAll(ips, refused, saved, manual, open, recheck).refusedList)
  {
    SendKeeps(ips, refused, saved, manual, open, recheck);
    SendRefused(ips, refused, saved, manual, open, recheck);
  }

  /** Entry j of `ips` is the last one that was not refused beforehand and whose socket opened. */
  predicate LastOpenedAt(ips: seq<string>, refused: seq<string>, manual: Option<string>, open: string -> SocketResult, j: nat) {
    && j < |ips| && ips[j] !in refused && open(UsedIp(manual, ips[j])) == Connected
    && forall l :: j < l < |ips| ==> ips[l] in refused || open(UsedIp(manual, ips[l])) != Connected
  }

  /**
   * `server_ip` ends as the last entry whose socket opened, whether or not
   * its recheck failed; when no socket opened it keeps its value.
   */
  lemma {:induction false} SendSavesLastOpened(ips: seq<string>, refused: seq<string>, saved: Option<string>, manual: Option<string>,
                                               open: string -> SocketResult, recheck: string -> SocketResult)
    decreases |ips|
    ensures var r := SendAll(ips, refused, saved, manual, open, recheck);
      && ((forall j :: 0 <= j < |ips| ==> ips[j] in refused || open(UsedIp(manual, ips[j])) != Connected) ==> r.serverIp == saved)
      && (forall j: nat :: LastOpenedAt(ips, refused, manual, open, j) ==> r.serverIp == Some(ips[j]))
  {
    if ips != [] {
      var pre := ips[..|ips| - 1];
      var ip := Last(ips);
      assert ips == pre + [ip];
      SendSavesLastOpened(pre, refused, saved, manual, open, recheck);
      SendRefused(pre, refused, saved, manual, open, recheck);
      assert SendAll(ips, refused, saved, manual, open, recheck) ==
        SendStep(SendAll(pre, refused, saved, manual, open, recheck), ip, manual, open, recheck);
      forall j: nat | LastOpenedAt(ips, refused, manual, open, j) && j < |pre|
        ensures LastOpenedAt(pre, refused, manual, open, j)
      {
      }
    }
  }

  /**
   * The text goes only to hosts whose socket opened: with the override active
   * always to the override address, otherwise to the entries themselves. It
   * goes to every entry not refused beforehand whose socket opened, even when
   * the recheck then fails, and nowhere when no such entry exists.
   */
  lemma {:induction false} SendDeliveries(ips: seq<string>, refused: seq<string>, saved: Option<string>, manual: Option<string>,
                                          open: string -> SocketResult, recheck: string -> SocketResult)
    decreases |ips|
    ensures var r := SendAll(ips, refused, saved, manual, open, recheck);
      && (forall a :: a in r.sentTo ==>
            open(a) == Connected && (manual.Some? ==> a == manual.value) && (manual.None? ==> a in ips))
      && (forall x :: x in ips && x !in refused && open(UsedIp(manual, x)) == Connected ==> UsedIp(manual, x) in r.sentTo)
      && ((forall x :: x in ips ==> x in refused || open(UsedIp(manual, x)) != Connected) ==> r.sentTo == [])
      && (manual.None? ==> forall a :: a in r.sentTo ==> a !in refused)
  {
    if ips != [] {
      var pre := ips[..|ips| - 1];
      assert ips == pre + [Last(ips)];
      SendDeliveries(pre, refused, saved, manual, open, recheck);
      SendRefused(pre, refused, saved, manual, open, recheck);
    }
  }

  /**
   * With the override active, the override address is dialled once for each
   * entry not yet refused. When every such dial is refused (the `open`
   * oracle answers every dial of the override the same way within a pass),
   * every entry joins the refused list, although no entry was dialled itself,
   * and no text goes out.
   */
  lemma ManualRefusalBlocksAll(ips: seq<string>, refused: seq<string>, saved: Option<string>, m: string,
                               open: string -> SocketResult, recheck: string -> SocketResult)
    requires open(m) == ConnectFailed(true)
    ensures var r := SendAll(ips, refused, saved, Some(m), open, recheck);
      (forall x :: x in ips ==> x in r.refusedList) && r.sentTo == [] && r.serverIp == saved
  {
    SendRefused(ips, refused, saved, Some(m), open, recheck);
    SendDeliveries(ips, refused, saved, Some(m), open, recheck);
    SendSavesLastOpened(ips, refused, saved, Some(m), open, recheck);
  }

  // ---------------------------------------------------------------------------
  // The activity object

  class MainActivity {
    /** The endpoint set (`HashSet`), in its iteration order. */
    var ipList: seq<string>
    /** The refused list created in onCreate and shared by every send. */
    var refusedList: seq<string>
    var cbManualIP: bool
    var etManualIP: string
    /** The `server_ip` entry of the "app_preferences" store. */
    var serverIp: Option<string>
    /** Every text written to a socket, with the host the socket was opened to. */
    ghost var deliveries: seq<Delivery>

    ghost predicate Valid()
      reads this
    {
      NoDup(ipList) && NoDup(refusedList)
    }

    /** The override address when the override is active. */
    function Manual(): Option<string>
      reads this
    {
      if cbManualIP && etManualIP != "" then Some(etManualIP) else None
    }

    /**
     * onCreate's synchronous part: empty endpoint set and refused list; the
     * check box, the override text and `server_ip` are what was restored.
     */
    constructor (cbManualIP: bool, etManualIP: string, serverIp: Option<string>)
      ensures Valid()
      ensures ipList == [] && refusedList == [] && deliveries == []
      ensures this.cbManualIP == cbManualIP && this.etManualIP == etManualIP && this.serverIp == serverIp
    {
      ipList := [];
      refusedList := [];
      this.cbManualIP := cbManualIP;
      this.etManualIP := etManualIP;
      this.serverIp := serverIp;
      deliveries := [];
    }

    /**
     * testConnection(ip): one connect and close. With the override active
     * it dials the override address, whatever `ip` is; otherwise it dials
     * `ip`. Every failure yields false.
     */
    function TestConnection(open: string -> SocketResult, ip: string): (ok: bool)
      reads this
      ensures Manual().Some? ==> (ok <==> open(etManualIP) == Connected)
      ensures Manual().None? ==> (ok <==> open(ip) == Connected)
    {
      var host := if cbManualIP && etManualIP != "" then etManualIP else ip;
      match open(host)
      case Connected => true
      case ConnectFailed(_) => false
      case UnknownHost => false
      case IoFailure => false
      case SocketTimeout => false
    }

    /**
     * getLocalIpAddress (sequential): fill the last byte of the DNS server's
     * address with 1..254 in turn and keep the addresses that answer.
     */
    method GetLocalIpAddress(dns1: Int32, reachable: string -> bool) returns (found: seq<string>)
      ensures found == Reachable(Candidates(dns1), reachable)
      ensures NoDup(found)
      ensures forall x :: x in found <==> x in Candidates(dns1) && reachable(x)
    {
      found := [];
      IntToIpRoundTrip(dns1);
      var host := ParseQuad(PrivateIntToIp(dns1)).value;
      var cs := Candidates(dns1);
      var ip := new int[4];
      ip[0], ip[1], ip[2], ip[3] := ToByte(host.a), ToByte(host.b), ToByte(host.c), ToByte(host.d);
      ByteRoundTrip(host.a); ByteRoundTrip(host.b); ByteRoundTrip(host.c);
      for i := 1 to 255
        invariant Unsigned(ip[0]) == Octets(dns1).a && Unsigned(ip[1]) == Octets(dns1).b && Unsigned(ip[2]) == Octets(dns1).c
        invariant found == Reachable(cs[..i - 1], reachable)
      {
        ip[3] := ToByte(i);
        ByteRoundTrip(i);
        var address := AddressText(ip[..]);
        AddressIsCandidate(dns1, ip[..], i);
        ReachableSnoc(cs[..i - 1], address, reachable);
        PrefixSnoc(cs, i);
        if reachable(address) {
          found := found + [address];
        }
      }
      assert cs[..254] == cs;
      CandidatesNoDup(dns1);
    }

    /** onCreate's coroutine: keep a saved address that tests true, else scan. */
    method RestoreEndpoints(dns1: Int32, open: string -> SocketResult, reachable: string -> bool)
      requires Valid()
      modifies this
      ensures Valid()
      ensures match old(serverIp)
        case Some(saved) =>
          if old(TestConnection(open, saved)) then ipList == (if saved in old(ipList) then old(ipList) else old(ipList) + [saved])
          else ipList == Reachable(Candidates(dns1), reachable)
        case None => ipList == Reachable(Candidates(dns1), reachable)
      ensures refusedList == old(refusedList) && serverIp == old(serverIp) && deliveries == old(deliveries)
      ensures cbManualIP == old(cbManualIP) && etManualIP == old(etManualIP)
    {
      if serverIp.Some? && TestConnection(open, serverIp.value) {
        if serverIp.value !in ipList {
          ipList := ipList + [serverIp.value];
        }
      } else {
        ipList := GetLocalIpAddress(dns1, reachable);
      }
      if serverIp.Some? && serverIp.value !in old(ipList) && ipList == old(ipList) + [serverIp.value] {
        NoDupAppend(old(ipList), serverIp.value);
      }
    }

    /**
     * connectToServer's loop over a scanned set: test the entries in turn
     * and stop at the first that connects. Reached only with the override
     * off, so each test dials the entry itself.
     */
    method AnyConnects(ips: seq<string>, open: string -> SocketResult) returns (ok: bool)
      requires Manual().None?
      ensures ok <==> exists x :: x in ips && open(x) == Connected
    {
      ok := false;
      var i := 0;
      while i < |ips|
        invariant i <= |ips|
        invariant forall j :: 0 <= j < i ==> open(ips[j]) != Connected
      {
        if TestConnection(open, ips[i]) {
          return true;
        }
        i := i + 1;
      }
      forall x | x in ips
        ensures open(x) != Connected
      {
        var j :| 0 <= j < |ips| && ips[j] == x;
      }
    }

    /**
     * connectToServer, proved to end as `Connect` says: the override first,
     * then the saved address, then a scan tested entry by entry until one
     * connects. Nothing is saved and the endpoint set is not narrowed.
     */
    method ConnectToServer(dns1: Int32, open: string -> SocketResult, reachable: string -> bool) returns (isConnected: bool)
      requires Valid()
      modifies this
      ensures Valid()
      ensures var c := Connect(old(ipList), old(Manual()), old(serverIp), open, Reachable(Candidates(dns1), reachable));
        ipList == c.ipList && isConnected == c.connected
      ensures refusedList == old(refusedList) && serverIp == old(serverIp) && deliveries == old(deliveries)
      ensures cbManualIP == old(cbManualIP) && etManualIP == old(etManualIP)
    {
      ghost var c := Connect(ipList, Manual(), serverIp, open, Reachable(Candidates(dns1), reachable));
      isConnected := false;
      if cbManualIP && etManualIP != "" {
        var manualIp := etManualIP;
        if TestConnection(open, manualIp) {
          ipList := [manualIp];
          isConnected := true;
        }
      } else {
        var savedIp := serverIp;
        if savedIp.Some? && TestConnection(open, savedIp.value) {
          ipList := [savedIp.value];
          isConnected := true;
        } else {
          ipList := [];
          var found := GetLocalIpAddress(dns1, reachable);
          ipList := found;
          isConnected := AnyConnects(found, open);
        }
      }
    }

    /** resetConnection: uncheck the override and forget `server_ip`. */
    method ResetConnection()
      modifies this
      ensures !cbManualIP && serverIp == None
      ensures ipList == old(ipList) && refusedList == old(refusedList) && etManualIP == old(etManualIP)
      ensures deliveries == old(deliveries)
    {
      cbManualIP := false;
      serverIp := None;
    }

    /**
     * One pass of sendToServer's loop, for the first entry of the entries
     * `rest` not yet visited, which follow the visited entries `kept` still
     * in the set: the step `SendStep` takes from `d`, the state the earlier
     * entries left.
     */
    method SendEntry(text: string, open: string -> SocketResult, recheck: string -> SocketResult,
                     kept: seq<string>, rest: seq<string>, ghost manual: Option<string>, ghost d: Sent, ghost base: seq<Delivery>)
      returns (kept': seq<string>)
      requires |rest| > 0 && manual == Manual()
      requires kept == d.ipList && ipList == kept + rest
      requires refusedList == d.refusedList && serverIp == d.serverIp
      requires deliveries == base + Deliveries(d.sentTo, text)
      modifies this
      ensures var e := SendStep(d, rest[0], manual, open, recheck);
        && kept' == e.ipList && ipList == kept' + rest[1..]
        && refusedList == e.refusedList && serverIp == e.serverIp
        && deliveries == base + Deliveries(e.sentTo, text)
      ensures cbManualIP == old(cbManualIP) && etManualIP == old(etManualIP)
    {
      var ip := rest[0];
      SuffixCons(rest, 0);
      kept' := kept + [ip];
      AppendAssoc(kept, [ip], rest[1..]);
      if ip !in refusedList {
        var usedIp := if cbManualIP && etManualIP != "" then etManualIP else ip;
        match open(usedIp)
        case Connected =>
          var isConnected := TestConnection(recheck, ip);
          if !isConnected {
            // iterator.remove()
            kept' := kept;
            ipList := kept + rest[1..];
          }
          serverIp := Some(ip);
          deliveries := deliveries + [Delivery(usedIp, text)];
          DeliveriesSnoc(d.sentTo, usedIp, text);
          AppendAssoc(base, Deliveries(d.sentTo, text), [Delivery(usedIp, text)]);
        case ConnectFailed(refusedError) =>
          if refusedError {
            refusedList := refusedList + [ip];
          }
        case UnknownHost =>
        case IoFailure =>
        case SocketTimeout =>
      }
    }

    /**
     * sendToServer's loop over the entries `ips` the set held when it
     * started, proved to end as `SendAll` says. `rest` is what the
     * iterator has not yet returned.
     */
    method SendEach(text: string, open: string -> SocketResult, recheck: string -> SocketResult,
                    ips: seq<string>, ghost manual: Option<string>, ghost refused0: seq<string>,
                    ghost saved0: Option<string>, ghost sent0: seq<Delivery>)
      requires manual == Manual() && ipList == ips
      requires refusedList == refused0 && serverIp == saved0 && deliveries == sent0
      modifies this
      ensures var r := SendAll(ips, refused0, saved0, manual, open, recheck);
        && ipList == r.ipList && refusedList == r.refusedList && serverIp == r.serverIp
        && deliveries == sent0 + Deliveries(r.sentTo, text)
      ensures cbManualIP == old(cbManualIP) && etManualIP == old(etManualIP)
    {
      ghost var goal := SendAll(ips, refused0, saved0, manual, open, recheck);
      SendRestAll([], ips, refused0, saved0, manual, open, recheck);
      AppendNil(ips);
      // the visited entries still in the set
      var kept: seq<string> := [];
      var rest := ips;
      ghost var r := Sent([], refused0, saved0, []);
      while rest != []
        invariant manual == Manual() && SendRest(rest, r, manual, open, recheck) == goal
        invariant kept == r.ipList && ipList == kept + rest
        invariant refusedList == r.refusedList && serverIp == r.serverIp
        invariant deliveries == sent0 + Deliveries(r.sentTo, text)
        invariant cbManualIP == old(cbManualIP) && etManualIP == old(etManualIP)
        decreases |rest|
      {
        kept := SendEntry(text, open, recheck, kept, rest, manual, r, sent0);
        r := SendStep(r, rest[0], manual, open, recheck);
        rest := rest[1..];
      }
      AppendNil(kept);
    }

    /**
     * sendToServer, proved to end as `SendAll` says. `open` answers the
     * socket each entry opens to its usedIp, `recheck` the connection
     * testConnection makes after it.
     */
    method SendToServer(text: string, open: string -> SocketResult, recheck: string -> SocketResult)
      requires Valid()
      modifies this
      ensures Valid()
      ensures var r := SendAll(old(ipList), old(refusedList), old(serverIp), old(Manual()), open, recheck);
        && ipList == r.ipList && refusedList == r.refusedList && serverIp == r.serverIp
        && deliveries == old(deliveries) + Deliveries(r.sentTo, text)
      ensures cbManualIP == old(cbManualIP) && etManualIP == old(etManualIP)
    {
      var ips := ipList;
      ghost var manual := Manual();
      ghost var refused0, saved0 := refusedList, serverIp;
      SendEach(text, open, recheck, ips, manual, refused0, saved0, deliveries);
      SendKeepsValid(ips, refused0, saved0, manual, open, recheck);
    }
  }
}
