/** Longest-prefix matching of an address against the router's own networks. An address
    is its string of bits, most significant first; a network is the string of bits its
    addresses begin with. Reading the texts is the library's: `ParseCidr` and `ParseIp`
    are parameters. */
module Subnets {
  import opened Text

  type Bits = seq<bool>

  /** What the library makes of a CIDR text. `mapped` marks an IPv4 network written in
      IPv4-mapped IPv6 form, whose mask counts the 96 bits in front of the IPv4 address. */
  datatype Block = Block(width: nat, net: Bits, mapped: bool)

  datatype Network = Network(cidr: string, prefix: nat, block: Block)

  function MaskSize(b: Block): nat {
    if b.mapped then 96 + |b.net| else |b.net|
  }

  function NetworkOf(cidr: string, b: Block): Network {
    Network(cidr, MaskSize(b), b)
  }

  predicate InBlock(b: Block, ip: Bits) {
    |ip| == b.width && b.net <= ip
  }

  /** IPv4 networks are 32 bits wide in either notation; IPv6 ones 128. */
  predicate BlockOk(b: Block) {
    (b.width == 32 || b.width == 128) && |b.net| <= b.width && (b.mapped ==> b.width == 32)
  }

  predicate Listed(nets: seq<Network>) {
    forall n | n in nets :: BlockOk(n.block) && n.prefix == MaskSize(n.block)
  }

  /** The networks that `WithAddresses` keeps: trimmed, non-blank, parseable. */
  function Networks(parseCidr: string -> Option<Block>, addresses: seq<string>): seq<Network> {
    if addresses == [] then []
    else
      var nets := Networks(parseCidr, addresses[..|addresses| - 1]);
      var cidr := Trim(addresses[|addresses| - 1]);
      if cidr == "" || parseCidr(cidr).None? then nets
      else nets + [NetworkOf(cidr, parseCidr(cidr).value)]
  }

  /** The first network of greatest mask size that contains the address. */
  function Chosen(nets: seq<Network>, ip: Bits): Option<Network> {
    if nets == [] then None
    else
      var best := Chosen(nets[..|nets| - 1], ip);
      var n := nets[|nets| - 1];
      if InBlock(n.block, ip) && (best.None? || n.prefix > best.value.prefix) then Some(n) else best
  }

  class Matcher {
    var networks: seq<Network>

    constructor (parseCidr: string -> Option<Block>, addresses: seq<string>)
      ensures networks == Networks(parseCidr, addresses)
    {
      var nets := [];
      for i := 0 to |addresses|
        invariant nets == Networks(parseCidr, addresses[..i])
      {
        assert addresses[..i + 1][..i] == addresses[..i];
        var cidr := Trim(addresses[i]);
        if cidr == "" { continue; }
        var block := parseCidr(cidr);
        if block.None? { continue; }
        nets := nets + [NetworkOf(cidr, block.value)];
      }
      assert addresses[..|addresses|] == addresses;
      networks := nets;
    }

    /** Returns the CIDR text of the match, or "" for none. */
    method Match(parseIp: string -> Option<Bits>, ipText: string) returns (best: string)
      ensures parseIp(Trim(ipText)).None? ==> best == ""
      ensures parseIp(Trim(ipText)).Some? ==>
                best == match Chosen(networks, parseIp(Trim(ipText)).value) { case None => "" case Some(n) => n.cidr }
    {
      var ip := parseIp(Trim(ipText));
      if ip.None? {
        return "";
      }
      var bestPrefix: int := -1;
      best := "";
      for i := 0 to |networks|
        invariant match Chosen(networks[..i], ip.value)
                  case None => bestPrefix == -1 && best == ""
                  case Some(n) => bestPrefix == n.prefix && best == n.cidr
      {
        assert networks[..i + 1][..i] == networks[..i];
        var n := networks[i];
        if InBlock(n.block, ip.value) && n.prefix > bestPrefix {
          bestPrefix := n.prefix;
          best := n.cidr;
        }
      }
      assert networks[..|networks|] == networks;
    }
  }

  // ---- What the choice means ----

  ghost predicate Candidate(nets: seq<Network>, ip: Bits, n: Network) {
    n in nets && InBlock(n.block, ip)
  }

  /** The choice is a listed network around the address with the greatest mask size. */
  lemma {:induction false} ChosenIsWidestMask(nets: seq<Network>, ip: Bits)
    ensures Chosen(nets, ip).None? <==> forall n :: !Candidate(nets, ip, n)
    ensures Chosen(nets, ip).Some? ==>
              && Candidate(nets, ip, Chosen(nets, ip).value)
              && forall n | Candidate(nets, ip, n) :: n.prefix <= Chosen(nets, ip).value.prefix
  {
    if nets != [] {
      var front := nets[..|nets| - 1];
      var last := nets[|nets| - 1];
      ChosenIsWidestMask(front, ip);
      assert nets == front + [last];
      assert forall n :: Candidate(nets, ip, n) <==> Candidate(front, ip, n) || (n == last && InBlock(last.block, ip));
    }
  }

  /** Every address of `inner` is one of `outer`. */
  ghost predicate Encloses(outer: Block, inner: Block) {
    forall a: Bits :: InBlock(inner, a) ==> InBlock(outer, a)
  }

  /** Two networks around one address are nested, the longer bit string inside. */
  lemma NestedByLength(outer: Block, inner: Block, ip: Bits)
    requires InBlock(outer, ip) && InBlock(inner, ip)
    ensures Encloses(outer, inner) <==> |outer.net| <= |inner.net|
  {
    if |outer.net| <= |inner.net| {
      assert outer.net == inner.net[..|outer.net|];
      assert outer.net <= inner.net;
    } else {
      var k := |inner.net|;
      var other := ip[..k] + [!ip[k]] + ip[k + 1..];
      assert other[..k] == inner.net && InBlock(inner, other);
      assert other[k] != outer.net[k];
      assert !InBlock(outer, other);
    }
  }

  /** A network around `ip` written plainly is smaller than every mapped one around it,
      although there are such. */
  ghost predicate MappedHidesLonger(nets: seq<Network>, ip: Bits) {
    exists m, p ::
      && Candidate(nets, ip, m) && m.block.mapped
      && Candidate(nets, ip, p) && !p.block.mapped
      && forall q :: Candidate(nets, ip, q) && q.block.mapped ==> |q.block.net| < |p.block.net|
  }

  /** Among listed networks the widest mask is the longest match unless a mapped one hides it. */
  lemma WidestIsLongestExactly(nets: seq<Network>, ip: Bits)
    requires Listed(nets) && Chosen(nets, ip).Some?
    ensures (forall n | Candidate(nets, ip, n) :: Encloses(n.block, Chosen(nets, ip).value.block))
            <==> !MappedHidesLonger(nets, ip)
  {
    ChosenIsWidestMask(nets, ip);
    var c := Chosen(nets, ip).value;
    forall n | Candidate(nets, ip, n)
      ensures Encloses(n.block, c.block) <==> |n.block.net| <= |c.block.net|
    {
      NestedByLength(n.block, c.block, ip);
    }
    if MappedHidesLonger(nets, ip) {
      var m, p :| && Candidate(nets, ip, m) && m.block.mapped
                  && Candidate(nets, ip, p) && !p.block.mapped
                  && forall q :: Candidate(nets, ip, q) && q.block.mapped ==> |q.block.net| < |p.block.net|;
      assert p.prefix <= 32 && m.prefix >= 96;
      assert c.block.mapped;
      assert |c.block.net| < |p.block.net|;
    } else {
      forall n | Candidate(nets, ip, n)
        ensures |n.block.net| <= |c.block.net|
      {
        if c.block.mapped && !n.block.mapped {
          var q :| Candidate(nets, ip, q) && q.block.mapped && |q.block.net| >= |n.block.net|;
          assert q.prefix <= c.prefix;
        }
      }
    }
  }

  /** What reading a CIDR text promises. */
  ghost predicate ReadsBlocks(parseCidr: string -> Option<Block>) {
    forall cidr :: parseCidr(cidr).Some? ==> BlockOk(parseCidr(cidr).value)
  }

  lemma {:induction false} NetworksAreListed(parseCidr: string -> Option<Block>, addresses: seq<string>)
    requires ReadsBlocks(parseCidr)
    ensures Listed(Networks(parseCidr, addresses))
    ensures forall n :: n in Networks(parseCidr, addresses) <==> exists a | a in addresses :: KeptAs(parseCidr, a, n)
  {
    hide BlockOk;
    if addresses != [] {
      var front, last := addresses[..|addresses| - 1], addresses[|addresses| - 1];
      NetworksAreListed(parseCidr, front);
      assert addresses == front + [last];
      forall n ensures n in Networks(parseCidr, addresses) <==> exists a | a in addresses :: KeptAs(parseCidr, a, n) {
        assert (exists a | a in addresses :: KeptAs(parseCidr, a, n))
          <==> (exists a | a in front :: KeptAs(parseCidr, a, n)) || KeptAs(parseCidr, last, n);
      }
    }
  }

  /** The network that the matcher keeps for an address text. */
  predicate KeptAs(parseCidr: string -> Option<Block>, address: string, n: Network) {
    var cidr := Trim(address);
    cidr != "" && parseCidr(cidr).Some? && n == NetworkOf(cidr, parseCidr(cidr).value)
  }

  /** Longest match (RFC 4632, section 5.1), from the texts given to the matcher: the chosen
      network lies inside every kept network around the address, exactly when no IPv4-mapped
      notation among them hides a longer plain prefix. */
  lemma LongestMatchExactly(parseCidr: string -> Option<Block>, addresses: seq<string>, ip: Bits)
    requires ReadsBlocks(parseCidr) && Chosen(Networks(parseCidr, addresses), ip).Some?
    ensures var nets := Networks(parseCidr, addresses);
            (forall n | Candidate(nets, ip, n) :: Encloses(n.block, Chosen(nets, ip).value.block))
            <==> !MappedHidesLonger(nets, ip)
  {
    NetworksAreListed(parseCidr, addresses);
    WidestIsLongestExactly(Networks(parseCidr, addresses), ip);
  }

  /** Where no text is in mapped notation the match is always the longest. */
  lemma PlainListsMatchLongest(parseCidr: string -> Option<Block>, addresses: seq<string>, ip: Bits)
    requires ReadsBlocks(parseCidr) && Chosen(Networks(parseCidr, addresses), ip).Some?
    requires forall a | a in addresses :: parseCidr(Trim(a)).Some? ==> !parseCidr(Trim(a)).value.mapped
    ensures var nets := Networks(parseCidr, addresses);
            forall n | Candidate(nets, ip, n) :: Encloses(n.block, Chosen(nets, ip).value.block)
  {
    hide Trim;
    NetworksAreListed(parseCidr, addresses);
    WidestIsLongestExactly(Networks(parseCidr, addresses), ip);
  }

  /** A /104 in mapped notation, which is an IPv4 /8, is chosen over an IPv4 /24 inside it. */
  lemma MappedNotationBeatsLongerPrefix(ip: Bits)
    requires |ip| == 32
    ensures var wide := NetworkOf("::ffff:10.0.0.0/104", Block(32, ip[..8], true));
            var narrow := NetworkOf("10.1.2.0/24", Block(32, ip[..24], false));
            && Listed([narrow, wide])
            && Chosen([narrow, wide], ip) == Some(wide)
            && !Encloses(narrow.block, wide.block)
  {
    var wide := NetworkOf("::ffff:10.0.0.0/104", Block(32, ip[..8], true));
    var narrow := NetworkOf("10.1.2.0/24", Block(32, ip[..24], false));
    assert [narrow, wide][..1] == [narrow] && [narrow][..0] == [];
    assert Chosen([narrow], ip) == Some(narrow);
    NestedByLength(narrow.block, wide.block, ip);
  }

  lemma SameNetworksSameChoice(nets: seq<Network>, others: seq<Network>, ip: Bits)
    requires Listed(nets) && forall n :: n in nets <==> n in others
    ensures Chosen(nets, ip).Some? <==> Chosen(others, ip).Some?
    ensures Chosen(nets, ip).Some? ==> Chosen(nets, ip).value.block == Chosen(others, ip).value.block
  {
    ChosenIsWidestMask(nets, ip);
    ChosenIsWidestMask(others, ip);
    assert forall n :: Candidate(nets, ip, n) <==> Candidate(others, ip, n);
    if Chosen(nets, ip).Some? {
      var a, b := Chosen(nets, ip).value.block, Chosen(others, ip).value.block;
      assert Candidate(nets, ip, Chosen(others, ip).value);
      assert MaskSize(a) == MaskSize(b);
      assert |a.net| == |b.net|;
      assert a.net == ip[..|a.net|] == b.net;
    }
  }

  /** The chosen network does not depend on the order, or the repetition, of the addresses. */
  lemma ChosenNetworkIgnoresOrder(parseCidr: string -> Option<Block>, addresses: seq<string>, others: seq<string>,
                                  ip: Bits)
    requires ReadsBlocks(parseCidr) && forall a :: a in addresses <==> a in others
    ensures var (mine, yours) := (Chosen(Networks(parseCidr, addresses), ip), Chosen(Networks(parseCidr, others), ip));
            (mine.Some? <==> yours.Some?) && (mine.Some? ==> mine.value.block == yours.value.block)
  {
    NetworksAreListed(parseCidr, addresses);
    NetworksAreListed(parseCidr, others);
    SameNetworksSameChoice(Networks(parseCidr, addresses), Networks(parseCidr, others), ip);
  }

  // ---- The text that is returned ----

  /** The address text names a network around the address. */
  predicate Around(parseCidr: string -> Option<Block>, address: string, ip: Bits) {
    var cidr := Trim(address);
    cidr != "" && parseCidr(cidr).Some? && InBlock(parseCidr(cidr).value, ip)
  }

  /** The `k`-th text names a network around the address; no other such network has a wider
      mask, and none before it one as wide. */
  ghost predicate FirstWidest(parseCidr: string -> Option<Block>, addresses: seq<string>, ip: Bits, k: int) {
    && 0 <= k < |addresses| && Around(parseCidr, addresses[k], ip)
    && forall j | 0 <= j < |addresses| && Around(parseCidr, addresses[j], ip) ::
         var (mine, other) := (parseCidr(Trim(addresses[k])).value, parseCidr(Trim(addresses[j])).value);
         MaskSize(other) <= MaskSize(mine) && (j < k ==> MaskSize(other) < MaskSize(mine))
  }

  lemma {:induction false} ChosenText(parseCidr: string -> Option<Block>, addresses: seq<string>, ip: Bits)
    returns (k: int)
    ensures Chosen(Networks(parseCidr, addresses), ip).None? <==>
            forall a | a in addresses :: !Around(parseCidr, a, ip)
    ensures Chosen(Networks(parseCidr, addresses), ip).Some? ==>
            && FirstWidest(parseCidr, addresses, ip, k)
            && Chosen(Networks(parseCidr, addresses), ip).value
               == NetworkOf(Trim(addresses[k]), parseCidr(Trim(addresses[k])).value)
  {
    hide Trim, MaskSize, InBlock, FirstWidest, Networks, Chosen;
    k := 0;
    if addresses == [] {
      NoTexts(parseCidr, ip);
    } else {
      var n := |addresses| - 1;
      var (front, last) := (addresses[..n], addresses[n]);
      k := ChosenText(parseCidr, front, ip);
      assert addresses == front + [last];
      OneMoreNetwork(parseCidr, front, last, ip);
      var before := Chosen(Networks(parseCidr, front), ip);
      if before.Some? { FirstWidestReads(parseCidr, front, ip, k); }
      forall a ensures a in addresses <==> a in front || a == last {}
      if before.None? {
        if Around(parseCidr, last, ip) {
          OnlyOne(parseCidr, front, last, ip);
          k := n;
        }
      } else if Around(parseCidr, last, ip) && Wider(parseCidr, last, front[k]) {
        WiderWins(parseCidr, front, last, ip, k);
        k := n;
      } else {
        FirstStays(parseCidr, front, last, ip, k);
      }
    }
  }

  lemma NoTexts(parseCidr: string -> Option<Block>, ip: Bits)
    ensures Chosen(Networks(parseCidr, []), ip) == None
  {}

  lemma FirstWidestReads(parseCidr: string -> Option<Block>, addresses: seq<string>, ip: Bits, k: int)
    requires FirstWidest(parseCidr, addresses, ip, k)
    ensures 0 <= k < |addresses| && Around(parseCidr, addresses[k], ip) && addresses[k] in addresses
  {}

  predicate Wider(parseCidr: string -> Option<Block>, a: string, b: string)
    requires parseCidr(Trim(a)).Some? && parseCidr(Trim(b)).Some?
  {
    MaskSize(parseCidr(Trim(a)).value) > MaskSize(parseCidr(Trim(b)).value)
  }

  lemma OnlyOne(parseCidr: string -> Option<Block>, front: seq<string>, last: string, ip: Bits)
    requires Around(parseCidr, last, ip) && forall a | a in front :: !Around(parseCidr, a, ip)
    ensures FirstWidest(parseCidr, front + [last], ip, |front|)
  {
    hide Trim, MaskSize, InBlock, Around;
    var all := front + [last];
    forall j | 0 <= j < |front| ensures !Around(parseCidr, all[j], ip) { assert all[j] in front; }
    AroundReads(parseCidr, last, ip);
  }

  lemma AroundReads(parseCidr: string -> Option<Block>, a: string, ip: Bits)
    requires Around(parseCidr, a, ip)
    ensures parseCidr(Trim(a)).Some? && Trim(a) != ""
  {}

  lemma WiderWins(parseCidr: string -> Option<Block>, front: seq<string>, last: string, ip: Bits, k: int)
    requires FirstWidest(parseCidr, front, ip, k) && Around(parseCidr, last, ip) && Wider(parseCidr, last, front[k])
    ensures FirstWidest(parseCidr, front + [last], ip, |front|)
  {
    hide Trim, MaskSize, InBlock;
    var all := front + [last];
    assert forall j | 0 <= j < |front| :: all[j] == front[j];
  }

  lemma FirstStays(parseCidr: string -> Option<Block>, front: seq<string>, last: string, ip: Bits, k: int)
    requires FirstWidest(parseCidr, front, ip, k)
    requires Around(parseCidr, last, ip) ==> !Wider(parseCidr, last, front[k])
    ensures FirstWidest(parseCidr, front + [last], ip, k)
  {
    hide Trim, MaskSize, InBlock;
    var all := front + [last];
    assert forall j | 0 <= j < |front| :: all[j] == front[j];
  }

  lemma OneMoreNetwork(parseCidr: string -> Option<Block>, front: seq<string>, last: string, ip: Bits)
    ensures var before := Chosen(Networks(parseCidr, front), ip);
            Chosen(Networks(parseCidr, front + [last]), ip)
            == if Around(parseCidr, last, ip)
                  && (before.None? || MaskSize(parseCidr(Trim(last)).value) > before.value.prefix)
               then Some(NetworkOf(Trim(last), parseCidr(Trim(last)).value)) else before
  {
    hide Trim, MaskSize, InBlock;
    var all := front + [last];
    assert all[..|all| - 1] == front;
    var nets := Networks(parseCidr, front);
    assert Networks(parseCidr, all) == nets
        || Networks(parseCidr, all)[..|Networks(parseCidr, all)| - 1] == nets;
  }

  /** What a caller gets who builds a matcher from address texts and asks it for an address:
      nothing exactly when the address is unreadable or in none of the networks; otherwise one
      of the texts, trimmed, namely the first with the widest mask around the address. */
  method SubnetOf(parseCidr: string -> Option<Block>, addresses: seq<string>,
                  parseIp: string -> Option<Bits>, ipText: string) returns (subnet: string)
    ensures subnet == "" <==>
            || parseIp(Trim(ipText)).None?
            || forall a | a in addresses :: !Around(parseCidr, a, parseIp(Trim(ipText)).value)
    ensures subnet != "" ==> exists k :: FirstWidest(parseCidr, addresses, parseIp(Trim(ipText)).value, k)
                                          && subnet == Trim(addresses[k])
  {
    hide Trim, MaskSize, InBlock;
    var matcher := new Matcher(parseCidr, addresses);
    subnet := matcher.Match(parseIp, ipText);
    var ip := parseIp(Trim(ipText));
    if ip.Some? {
      ghost var k := ChosenText(parseCidr, addresses, ip.value);
      if subnet != "" { assert FirstWidest(parseCidr, addresses, ip.value, k); }
    }
  }
}
