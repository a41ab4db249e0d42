/**
 * The candidate generator and the sweep shared by both `getLocalIpAddress`
 * variants (network/NetworkManager.kt and MainActivity.kt): the 254 host
 * addresses of the /24 network of `dns1`, the ones among them judged online,
 * and the first address in iteration order that a probe accepts.
 */
module Subnet {
  import opened Wrappers
  import opened Lists
  import opened Commons

  const FirstHost: nat := 1
  const LastHost: nat := 254

  /**
   * `InetAddress.getByName(intToIp(dns1)).address`: the literal is parsed, no
   * lookup is made. None would be the UnknownHostException the callers catch.
   */
  function HostAddress(dns1: Int32): (q: Option<Quad>)
    ensures q == Some(Octets(dns1))
  {
    IntToIpRoundTrip(dns1);
    ParseQuad(IntToIp(dns1))
  }

  /**
   * For i in 1..254: `ip[3] = i.toByte()`, `InetAddress.getByAddress(ip)`, and
   * its text without the leading '/'. The byte is printed unsigned, so host
   * 200 reads "200" although `200.toByte()` is negative.
   */
  function Candidates(dns1: Int32): seq<string> {
    match HostAddress(dns1)
    case None => []
    case Some(q) => seq(LastHost, k requires 0 <= k < LastHost => FormatQuad(q.a, q.b, q.c, k + FirstHost))
  }

  /**
   * There are 254 candidates; each keeps the first three fields of
   * intToIp(dns1) and has host field 1..254, in ascending order.
   */
  lemma CandidatesShape(dns1: Int32)
    ensures |Candidates(dns1)| == LastHost
    ensures forall k :: 0 <= k < LastHost ==>
      var f, g := Split(Candidates(dns1)[k]), Split(IntToIp(dns1));
      |f| == 4 && f[..3] == g[..3] && f[3] == Decimal(k + 1) && NumeralValue(f[3]) == k + 1
  {
    var q := Octets(dns1);
    IntToIpFormat(dns1);
    FormatQuadSplit(q.a, q.b, q.c, q.d);
    forall k | 0 <= k < LastHost
      ensures var f := Split(Candidates(dns1)[k]);
        |f| == 4 && f[..3] == Split(IntToIp(dns1))[..3] && f[3] == Decimal(k + 1) && NumeralValue(f[3]) == k + 1
    {
      FormatQuadSplit(q.a, q.b, q.c, k + 1);
      DecimalRoundTrip(k + 1);
    }
  }

  /** Every candidate is an address the literal parser accepts, with host octet k + 1. */
  lemma CandidatesParse(dns1: Int32)
    ensures forall k :: 0 <= k < |Candidates(dns1)| ==>
      var o := Octets(dns1);
      ParseQuad(Candidates(dns1)[k]) == Some(Quad(o.a, o.b, o.c, k + 1))
  {
    var q := Octets(dns1);
    forall k | 0 <= k < |Candidates(dns1)|
      ensures ParseQuad(Candidates(dns1)[k]) == Some(Quad(q.a, q.b, q.c, k + 1))
    {
      FormatParse(q.a, q.b, q.c, k + 1);
    }
  }

  /** The candidates are pairwise distinct, so the sweep builds a set. */
  lemma CandidatesNoDup(dns1: Int32)
    ensures NoDup(Candidates(dns1))
  {
    var cs := Candidates(dns1);
    CandidatesParse(dns1);
    forall i, j | 0 <= i < j < |cs|
      ensures cs[i] != cs[j]
    {
      assert ParseQuad(cs[i]) != ParseQuad(cs[j]);
    }
  }

  /**
   * The addresses of `cs` that `online` judges on, in the order of `cs`: what
   * the sweep adds to its result set.
   */
  function Reachable(cs: seq<string>, online: string -> bool): (r: seq<string>)
    ensures forall x :: x in r <==> x in cs && online(x)
    ensures NoDup(cs) ==> NoDup(r)
    ensures |r| <= |cs|
  {
    if cs == [] then []
    else
      var rest := Reachable(cs[1..], online);
      assert NoDup(cs) ==> cs[0] !in cs[1..] && NoDup(cs[1..]) by {
        if NoDup(cs) {
          NoDupTail(cs);
        }
      }
      if online(cs[0]) then [cs[0]] + rest else rest
  }

  /** Sweeping one more candidate extends the result by it exactly when it is online. */
  lemma {:induction false} ReachableSnoc(cs: seq<string>, x: string, online: string -> bool)
    ensures Reachable(cs + [x], online) == Reachable(cs, online) + (if online(x) then [x] else [])
  {
    if cs != [] {
      assert (cs + [x])[1..] == cs[1..] + [x];
      ReachableSnoc(cs[1..], x, online);
    }
  }

  /**
   * The index of the first address in `ips` that `ok` accepts, or |ips| when
   * none does: where a "test each, stop at the first success" loop stops.
   */
  function FirstAccepted(ips: seq<string>, ok: string -> bool): (k: nat)
    ensures k <= |ips|
    ensures forall j :: 0 <= j < k ==> !ok(ips[j])
    ensures k < |ips| ==> ok(ips[k])
  {
    if ips == [] then 0
    else if ok(ips[0]) then 0
    else 1 + FirstAccepted(ips[1..], ok)
  }

  /** The position where the scan stops is determined by the two facts a loop establishes. */
  lemma {:induction false} FirstAcceptedAt(ips: seq<string>, ok: string -> bool, i: nat)
    requires i <= |ips|
    requires forall j :: 0 <= j < i ==> !ok(ips[j])
    requires i < |ips| ==> ok(ips[i])
    ensures FirstAccepted(ips, ok) == i
  {
    if i > 0 {
      FirstAcceptedAt(ips[1..], ok, i - 1);
    }
  }

  /** Some address is accepted exactly when the search stops before the end. */
  lemma FirstAcceptedExists(ips: seq<string>, ok: string -> bool)
    ensures FirstAccepted(ips, ok) < |ips| <==> exists x :: x in ips && ok(x)
  {
    var k := FirstAccepted(ips, ok);
    if k < |ips| {
      assert ips[k] in ips && ok(ips[k]);
    } else {
      forall x | x in ips
        ensures !ok(x)
      {
        var j :| 0 <= j < |ips| && ips[j] == x;
      }
    }
  }
}
