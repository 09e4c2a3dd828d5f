/** Allow-listed networks: parsing's prefix bound, the masked comparison over 32 and
    128 bits, and the form peers are compared in. */
module Cidr {
  import opened Prelude

  // --------------------------------------------------------- words of bits

  function Pow2(n: nat): (r: nat)
    ensures r > 0
  {
    if n == 0 then 1 else 2 * Pow2(n - 1)
  }

  /** Bitwise and. */
  function And(a: nat, b: nat): nat {
    if a == 0 || b == 0 then 0
    else 2 * And(a / 2, b / 2) + if a % 2 == 1 && b % 2 == 1 then 1 else 0
  }

  /** A left shift in a word of `width` bits drops what leaves the word. */
  function Shl(width: nat, x: nat, k: nat): nat {
    x * Pow2(k) % Pow2(width)
  }

  /** The bits of `x` from position `k` up. */
  function Above(x: nat, k: nat): nat {
    if k == 0 then x else Above(x / 2, k - 1)
  }

  /** Bit `i`, counted from the leading one, in a word of `width` bits. */
  function LeadingBit(x: nat, width: nat, i: nat): nat
    requires i < width
  {
    Above(x, width - 1 - i) % 2
  }

  // --------------------------------------------------------------- networks

  const V4_BITS: nat := 32
  const V6_BITS: nat := 128

  datatype Address = V4(bits: nat) | V6(bits: nat) {
    function Width(): nat {
      if V4? then V4_BITS else V6_BITS
    }

    predicate Valid() {
      bits < Pow2(Width())
    }
  }

  datatype Network = Network(address: Address, prefix: nat) {
    predicate Valid() {
      address.Valid() && prefix <= address.Width()
    }

    /** Number of bits below the prefix. */
    function Host(): nat
      requires Valid()
    {
      address.Width() - prefix
    }
  }

  datatype ParseError = MissingPrefix | InvalidAddress | InvalidPrefix | PrefixTooLong
  datatype Result = Ok(network: Network) | Err(error: ParseError)

  /** `split_once('/')`: what comes before and after the first slash. */
  function SplitOnce(s: string): Option<(string, string)> {
    if s == "" then None
    else if s[0] == '/' then Some(("", s[1..]))
    else
      match SplitOnce(s[1..])
      case None => None
      case Some((before, after)) => Some(([s[0]] + before, after))
  }

  predicate IsDigit(c: char) {
    '0' <= c <= '9'
  }

  /** Value of a decimal numeral, if it is one. */
  function Numeral(s: string): Option<nat> {
    if s == "" then Some(0)
    else
      match Numeral(s[..|s| - 1])
      case None => None
      case Some(n) =>
        var c := s[|s| - 1];
        if IsDigit(c) then Some(10 * n + (c as nat - '0' as nat)) else None
  }

  /** `u8::from_str`: digits after an optional plus sign, up to 255. */
  function ParseU8(s: string): Option<nat> {
    var digits := if s != "" && s[0] == '+' then s[1..] else s;
    if digits == "" then None
    else
      match Numeral(digits)
      case Some(n) => if n <= 255 then Some(n) else None
      case None => None
  }

  /** Parse `addr/prefix`; `addressOf` is the standard library's address parser. */
  function Parse(s: string, addressOf: string -> Option<Address>): Result {
    match SplitOnce(s)
    case None => Err(MissingPrefix)
    case Some((address, prefix)) =>
      match (addressOf(address), ParseU8(prefix))
      case (None, _) => Err(InvalidAddress)
      case (Some(_), None) => Err(InvalidPrefix)
      case (Some(network), Some(bits)) =>
        if bits > network.Width() then Err(PrefixTooLong) else Ok(Network(network, bits))
  }

  function Masked(width: nat, net: nat, ip: nat, prefix: nat): bool
    requires prefix <= width
  {
    if prefix == 0 then true
    else
      var mask := Shl(width, Pow2(width) - 1, width - prefix);
      And(net, mask) == And(ip, mask)
  }

  function Contains(n: Network, ip: Address): bool
    requires n.Valid()
  {
    match (n.address, ip)
    case (V4(net), V4(peer)) => Masked(V4_BITS, net, peer, n.prefix)
    case (V6(net), V6(peer)) => Masked(V6_BITS, net, peer, n.prefix)
    case _ => false
  }

  const MAPPED: nat := 0xffff

  /** An IPv4-mapped IPv6 address becomes the IPv4 address it carries. */
  function Normalize(ip: Address): Address {
    if ip.V6? && Above(ip.bits, V4_BITS) == MAPPED then V4(ip.bits % Pow2(V4_BITS)) else ip
  }

  // ------------------------------------------------------- facts about words

  lemma {:induction false} AboveInterval(x: nat, k: nat, q: nat)
    ensures Above(x, k) == q <==> q * Pow2(k) <= x < q * Pow2(k) + Pow2(k)
  {
    if k > 0 {
      AboveInterval(x / 2, k - 1, q);
      Twice(q, Pow2(k - 1));
      HalfInterval(x, q * Pow2(k - 1), Pow2(k - 1));
    }
  }

  lemma Twice(q: nat, p: nat)
    ensures q * (2 * p) == 2 * (q * p)
  {
  }

  lemma HalfInterval(x: nat, low: nat, size: nat)
    ensures low <= x / 2 < low + size <==> 2 * low <= x < 2 * low + 2 * size
  {
  }

  lemma {:induction false} AboveStep(x: nat, k: nat)
    ensures Above(x, k) == 2 * Above(x, k + 1) + Above(x, k) % 2
  {
    if k > 0 {
      AboveStep(x / 2, k - 1);
    }
  }

  lemma {:induction false} AboveAbove(x: nat, j: nat, k: nat)
    ensures Above(Above(x, j), k) == Above(x, j + k)
  {
    if j > 0 {
      AboveAbove(x / 2, j - 1, k);
    }
  }

  lemma {:induction false} AndAllOnes(a: nat, width: nat)
    requires a < Pow2(width)
    ensures And(a, Pow2(width) - 1) == a
  {
    if a > 0 {
      AndAllOnes(a / 2, width - 1);
      assert (Pow2(width) - 1) / 2 == Pow2(width - 1) - 1;
    }
  }

  lemma AndStep(a: nat, b: nat)
    ensures And(a, b) == 2 * And(a / 2, b / 2) + if a % 2 == 1 && b % 2 == 1 then 1 else 0
  {
  }

  lemma AboveScaled(a: nat, k: nat)
    requires k > 0
    ensures Above(a, k) * Pow2(k) == 2 * (Above(a / 2, k - 1) * Pow2(k - 1))
  {
  }

  lemma {:induction false} AndMask(a: nat, width: nat, k: nat)
    requires a < Pow2(width) && k <= width
    ensures Pow2(k) <= Pow2(width)
    ensures And(a, Pow2(width) - Pow2(k)) == Above(a, k) * Pow2(k)
  {
    if k == 0 {
      AndAllOnes(a, width);
    } else {
      AndMask(a / 2, width - 1, k - 1);
      AndStep(a, Pow2(width) - Pow2(k));
      AboveScaled(a, k);
    }
  }

  lemma {:induction false} Pow2Add(j: nat, k: nat)
    ensures Pow2(j + k) == Pow2(j) * Pow2(k)
  {
    if j > 0 {
      Pow2Add(j - 1, k);
    }
  }

  lemma MaskValue(width: nat, k: nat)
    requires k <= width
    ensures Pow2(k) <= Pow2(width) && Shl(width, Pow2(width) - 1, k) == Pow2(width) - Pow2(k)
  {
    if k < width {
      Pow2Grows(k, width);
    }
    ShiftedOnes(Pow2(width), Pow2(k));
  }

  lemma ShiftedOnes(w: nat, h: nat)
    requires 0 < h <= w
    ensures (w - 1) * h % w == w - h
  {
    assert (w - 1) * h == (h - 1) * w + (w - h);
    ModOf((w - 1) * h, h - 1, w, w - h);
  }

  lemma ModOf(x: nat, q: nat, w: nat, r: nat)
    requires r < w && x == q * w + r
    ensures x % w == r
  {
    var d := x / w - q;
    assert x == x / w * w + x % w;
    assert d * w == r - x % w;
    Multiple(d, w);
  }

  lemma Multiple(d: int, w: nat)
    ensures d >= 1 ==> d * w >= w
    ensures d <= -1 ==> d * w <= 0 - w
  {
    if d >= 1 {
      assert (d - 1) * w >= 0;
    } else if d <= -1 {
      assert (0 - d - 1) * w >= 0;
    }
  }

  lemma {:induction false} Pow2Grows(j: nat, k: nat)
    requires j < k
    ensures Pow2(j) < Pow2(k)
  {
    if j + 1 < k {
      Pow2Grows(j, k - 1);
    }
  }

  // ---------------------------------------------------------------- theorems

  lemma MaskedIsAbove(width: nat, net: nat, ip: nat, prefix: nat)
    requires prefix <= width && net < Pow2(width) && ip < Pow2(width)
    ensures Masked(width, net, ip, prefix) <==> Above(net, width - prefix) == Above(ip, width - prefix)
  {
    var k := width - prefix;
    if prefix == 0 {
      AboveInterval(net, width, 0);
      AboveInterval(ip, width, 0);
    } else {
      MaskValue(width, k);
      AndMask(net, width, k);
      AndMask(ip, width, k);
      Injective(Above(net, k), Above(ip, k), Pow2(k));
    }
  }

  lemma Injective(x: nat, y: nat, w: nat)
    requires w > 0
    ensures x * w == y * w <==> x == y
  {
    if x < y {
      assert (x + 1) * w <= y * w;
    } else if y < x {
      assert (y + 1) * w <= x * w;
    }
  }

  lemma ContainsIsAbove(n: Network, ip: Address)
    requires n.Valid() && ip.Valid()
    ensures Contains(n, ip)
      <==> n.address.V4? == ip.V4? && Above(n.address.bits, n.Host()) == Above(ip.bits, n.Host())
  {
    if n.address.V4? == ip.V4? {
      MaskedIsAbove(ip.Width(), n.address.bits, ip.bits, n.prefix);
    }
  }

  lemma {:induction false} AboveIsLeadingBits(x: nat, y: nat, width: nat, prefix: nat)
    requires prefix <= width && x < Pow2(width) && y < Pow2(width)
    ensures Above(x, width - prefix) == Above(y, width - prefix)
      <==> forall i :: 0 <= i < prefix ==> LeadingBit(x, width, i) == LeadingBit(y, width, i)
  {
    if prefix == 0 {
      AboveInterval(x, width, 0);
      AboveInterval(y, width, 0);
    } else {
      AboveIsLeadingBits(x, y, width, prefix - 1);
      AboveStep(x, width - prefix);
      AboveStep(y, width - prefix);
      assert LeadingBit(x, width, prefix - 1) == Above(x, width - prefix) % 2;
    }
  }

  /** A network contains an address exactly when the families match and the leading
      `prefix` bits agree. */
  lemma ContainsIffLeadingBits(n: Network, ip: Address)
    requires n.Valid() && ip.Valid()
    ensures Contains(n, ip) <==>
      && n.address.V4? == ip.V4?
      && forall i :: 0 <= i < n.prefix ==>
           LeadingBit(n.address.bits, n.address.Width(), i) == LeadingBit(ip.bits, n.address.Width(), i)
  {
    ContainsIsAbove(n, ip);
    if n.address.V4? == ip.V4? {
      AboveIsLeadingBits(n.address.bits, ip.bits, ip.Width(), n.prefix);
    }
  }

  /** The lowest address of a network. */
  function First(n: Network): nat
    requires n.Valid()
  {
    Above(n.address.bits, n.Host()) * Pow2(n.Host())
  }

  /** A network is the aligned interval of 2^host addresses around its own address. */
  lemma ContainsIffInterval(n: Network, ip: Address)
    requires n.Valid() && ip.Valid()
    ensures Contains(n, ip)
      <==> n.address.V4? == ip.V4? && First(n) <= ip.bits < First(n) + Pow2(n.Host())
    ensures First(n) <= n.address.bits < First(n) + Pow2(n.Host()) <= Pow2(n.address.Width())
  {
    ContainsIsAbove(n, ip);
    var q := Above(n.address.bits, n.Host());
    AboveInterval(ip.bits, n.Host(), q);
    AboveInterval(n.address.bits, n.Host(), q);
    BlockFits(q, n.prefix, n.Host(), n.address.bits);
  }

  /** An aligned block that starts in a word ends in it. */
  lemma BlockFits(q: nat, p: nat, k: nat, x: nat)
    requires q * Pow2(k) <= x < Pow2(p + k)
    ensures q * Pow2(k) + Pow2(k) <= Pow2(p + k)
  {
    Pow2Add(p, k);
    BlockBelow(q, Pow2(p), Pow2(k), x);
  }

  lemma BlockBelow(q: nat, blocks: nat, size: nat, x: nat)
    requires q * size <= x < blocks * size
    ensures q * size + size <= blocks * size
  {
    var d := blocks - q;
    assert d * size == blocks * size - q * size;
    Multiple(d, size);
  }

  ghost predicate Within(inner: Network, outer: Network)
    requires inner.Valid() && outer.Valid()
  {
    forall ip: Address :: ip.Valid() && Contains(inner, ip) ==> Contains(outer, ip)
  }

  ghost predicate Disjoint(a: Network, b: Network)
    requires a.Valid() && b.Valid()
  {
    forall ip: Address :: ip.Valid() && Contains(a, ip) ==> !Contains(b, ip)
  }

  /** Of two networks of a family, the one with the longer prefix lies inside the
      other or the two share nothing; its own address decides which. */
  lemma NestedOrDisjoint(outer: Network, inner: Network)
    requires outer.Valid() && inner.Valid() && outer.address.V4? == inner.address.V4?
    requires outer.prefix <= inner.prefix
    ensures if Contains(outer, inner.address) then Within(inner, outer) else Disjoint(inner, outer)
  {
    var k, gap := inner.Host(), outer.Host() - inner.Host();
    ContainsIsAbove(outer, inner.address);
    AboveAbove(inner.address.bits, k, gap);
    forall ip: Address | ip.Valid() && Contains(inner, ip)
      ensures Contains(outer, ip) <==> Contains(outer, inner.address)
    {
      ContainsIsAbove(inner, ip);
      ContainsIsAbove(outer, ip);
      AboveAbove(ip.bits, k, gap);
    }
  }

  lemma Member(n: Network, bits: nat) returns (ip: Address)
    requires n.Valid() && First(n) <= bits < First(n) + Pow2(n.Host())
    ensures ip.Valid() && ip.V4? == n.address.V4? && ip.bits == bits && Contains(n, ip)
  {
    ContainsIffInterval(n, n.address);
    ip := if n.address.V4? then V4(bits) else V6(bits);
    ContainsIffInterval(n, ip);
  }

  /** One network lies inside another exactly when its prefix is no shorter and its
      address lies there. */
  lemma WithinIff(inner: Network, outer: Network)
    requires outer.Valid() && inner.Valid()
    ensures Within(inner, outer) <==> outer.prefix <= inner.prefix && Contains(outer, inner.address)
  {
    ContainsIffInterval(inner, inner.address);
    if Within(inner, outer) {
      var low := Member(inner, First(inner));
      var high := Member(inner, First(inner) + Pow2(inner.Host()) - 1);
      ContainsIffInterval(outer, low);
      ContainsIffInterval(outer, high);
      if inner.Host() > outer.Host() {
        Pow2Grows(outer.Host(), inner.Host());
      }
    } else if outer.address.V4? == inner.address.V4? && outer.prefix <= inner.prefix {
      NestedOrDisjoint(outer, inner);
    } else {
      ContainsIffInterval(outer, inner.address);
    }
  }

  // ---------------------------------------------------------------- parsing

  /** Decimal numeral of a number, without leading zeros. */
  function Decimal(n: nat): string {
    (if n < 10 then "" else Decimal(n / 10)) + [('0' as nat + n % 10) as char]
  }

  lemma {:induction false} NumeralOfDecimal(n: nat)
    ensures Numeral(Decimal(n)) == Some(n) && Decimal(n) != "" && IsDigit(Decimal(n)[0])
  {
    var s := Decimal(n);
    if n >= 10 {
      NumeralOfDecimal(n / 10);
      assert s[..|s| - 1] == Decimal(n / 10);
    } else {
      assert s[..|s| - 1] == "";
    }
  }

  lemma {:induction false} SplitsAtFirstSlash(before: string, after: string)
    requires '/' !in before
    ensures SplitOnce(before + "/" + after) == Some((before, after))
  {
    var s := before + "/" + after;
    if before == "" {
      assert s[1..] == after;
    } else {
      assert s[1..] == before[1..] + "/" + after;
      SplitsAtFirstSlash(before[1..], after);
      assert before == [before[0]] + before[1..];
    }
  }

  /** Of the texts `addr/n`, exactly those with a readable address and a prefix no
      longer than it parse, and to what they say: no network shifts by more than a
      word. Prefix 0 stands for the whole family and nothing else. */
  lemma ParseBounds(text: string, n: nat, addressOf: string -> Option<Address>)
    requires '/' !in text
    requires forall s :: addressOf(s).Some? ==> addressOf(s).value.Valid()
    ensures var r := Parse(text + "/" + Decimal(n), addressOf);
      && (r.Ok? <==> addressOf(text).Some? && n <= if addressOf(text).value.V4? then 32 else 128)
      && (r.Ok? ==> r.network == Network(addressOf(text).value, n) && r.network.Valid())
      && (r.Ok? && n == 0 ==>
            forall ip: Address :: Contains(r.network, ip) <==> ip.V4? == r.network.address.V4?)
  {
    SplitsAtFirstSlash(text, Decimal(n));
    DecimalIsU8(n);
  }

  lemma DecimalIsU8(n: nat)
    ensures ParseU8(Decimal(n)) == if n <= 255 then Some(n) else None
  {
    NumeralOfDecimal(n);
  }

  /** Why a text of that form does not parse. */
  lemma ParseErrors(text: string, n: nat, addressOf: string -> Option<Address>)
    requires '/' !in text
    ensures var r := Parse(text + "/" + Decimal(n), addressOf);
      && (r == Err(InvalidAddress) <==> addressOf(text).None?)
      && (r == Err(InvalidPrefix) <==> addressOf(text).Some? && n > 255)
      && r != Err(MissingPrefix)
  {
    SplitsAtFirstSlash(text, Decimal(n));
    DecimalIsU8(n);
  }

  ghost predicate AllDigits(s: string) {
    forall i :: 0 <= i < |s| ==> '0' <= s[i] <= '9'
  }

  lemma {:induction false} NumeralIsDigits(s: string)
    ensures Numeral(s).Some? <==> AllDigits(s)
  {
    if s != "" {
      NumeralIsDigits(s[..|s| - 1]);
    }
  }

  /** A prefix that is empty, or holds anything but digits after an optional plus
      sign, never parses. */
  lemma PrefixNeedsDigits(text: string, prefix: string, addressOf: string -> Option<Address>)
    requires '/' !in text
    ensures var digits := if prefix != "" && prefix[0] == '+' then prefix[1..] else prefix;
      digits == "" || !AllDigits(digits) ==> Parse(text + "/" + prefix, addressOf).Err?
    ensures '/' in prefix ==> Parse(text + "/" + prefix, addressOf).Err?
  {
    SplitsAtFirstSlash(text, prefix);
    NumeralIsDigits(if prefix != "" && prefix[0] == '+' then prefix[1..] else prefix);
  }

  /** Nothing without a slash parses. */
  lemma {:induction false} NeedsSlash(s: string)
    requires '/' !in s
    ensures SplitOnce(s) == None && forall addressOf :: Parse(s, addressOf) == Err(MissingPrefix)
  {
    if s != "" {
      NeedsSlash(s[1..]);
    }
  }

  // ------------------------------------------------------------ mapped peers

  lemma {:induction false} AboveAdd(c: nat, x: nat, k: nat)
    ensures Above(c * Pow2(k) + x, k) == c + Above(x, k)
  {
    var q := Above(x, k);
    AboveInterval(x, k, q);
    assert (c + q) * Pow2(k) == c * Pow2(k) + q * Pow2(k);
    AboveInterval(c * Pow2(k) + x, k, c + q);
  }

  /** The IPv6 network of the IPv4-mapped forms of a network's addresses. */
  function MappedNetwork(n: Network): Network
    requires n.Valid() && n.address.V4?
  {
    Network(V6(MAPPED * Pow2(V4_BITS) + n.address.bits), V6_BITS - V4_BITS + n.prefix)
  }

  lemma MappedValid(n: Network)
    requires n.Valid() && n.address.V4?
    ensures MappedNetwork(n).Valid() && MappedNetwork(n).Host() == n.Host()
  {
    MappedFits(n.address.bits);
  }

  lemma MappedLowest(n: Network)
    requires n.Valid() && n.address.V4? && MappedNetwork(n).Valid()
    requires MappedNetwork(n).Host() == n.Host()
    ensures First(MappedNetwork(n)) == MAPPED * Pow2(V4_BITS) + First(n)
  {
    MappedFirst(n.address.bits, n.prefix, n.Host());
  }

  lemma MappedFirst(x: nat, p: nat, k: nat)
    requires p + k == V4_BITS
    ensures Above(MAPPED * Pow2(V4_BITS) + x, k) * Pow2(k) == MAPPED * Pow2(V4_BITS) + Above(x, k) * Pow2(k)
  {
    FirstShifted(MAPPED, x, p, k);
  }

  lemma MappedFits(x: nat)
    requires x < Pow2(V4_BITS)
    ensures MAPPED * Pow2(V4_BITS) + x < Pow2(V6_BITS)
  {
    Pow2Of16();
    Pow2Grows(16 + V4_BITS, V6_BITS);
    Pow2Add(16, V4_BITS);
  }

  lemma FirstShifted(c: nat, x: nat, p: nat, k: nat)
    ensures Above(c * Pow2(p + k) + x, k) * Pow2(k) == c * Pow2(p + k) + Above(x, k) * Pow2(k)
  {
    Pow2Add(p, k);
    var a := Above(x, k);
    assert c * Pow2(p + k) == c * Pow2(p) * Pow2(k) by { Regroup(c, Pow2(p), Pow2(k), a); }
    AboveAdd(c * Pow2(p), x, k);
    Regroup(c, Pow2(p), Pow2(k), a);
  }

  lemma Regroup(c: nat, p: nat, k: nat, a: nat)
    ensures c * (p * k) == c * p * k && (c * p + a) * k == c * p * k + a * k
  {
  }

  lemma Pow2Of16()
    ensures Pow2(16) == 0x1_0000
  {
    assert Pow2(4) == 16;
    Pow2Add(4, 4);
    Pow2Add(8, 8);
  }

  /** Comparing normalized peers with an IPv4 network admits its own addresses and
      their IPv4-mapped forms, and nothing else. */
  lemma NormalizedPeers(n: Network, ip: Address)
    requires n.Valid() && n.address.V4? && ip.Valid()
    ensures MappedNetwork(n).Valid()
    ensures Contains(n, Normalize(ip)) <==> Contains(n, ip) || Contains(MappedNetwork(n), ip)
  {
    MappedValid(n);
    MappedLowest(n);
    ContainsIffInterval(MappedNetwork(n), ip);
    ContainsIffInterval(n, n.address);
    if ip.V6? {
      AboveInterval(ip.bits, V4_BITS, MAPPED);
      if Normalize(ip).V4? {
        ModOf(ip.bits, MAPPED, Pow2(V4_BITS), ip.bits - MAPPED * Pow2(V4_BITS));
      }
      if Normalize(ip).V4? {
        ContainsIffInterval(n, Normalize(ip));
      }
    }
  }

  /** Whether every address of an IPv6 network is an IPv4-mapped one. */
  predicate InMappedRange(n: Network)
    requires n.Valid() && n.address.V6?
  {
    n.prefix >= V6_BITS - V4_BITS && Above(n.address.bits, V4_BITS) == MAPPED
  }

  predicate IsMapped(ip: Address) {
    ip.V6? && Above(ip.bits, V4_BITS) == MAPPED
  }

  /** Comparing normalized peers with an IPv6 network loses exactly the mapped ones. */
  lemma NormalizedAgainstV6(n: Network, ip: Address)
    requires n.Valid() && n.address.V6?
    ensures Contains(n, Normalize(ip)) <==> Contains(n, ip) && !IsMapped(ip)
  {
  }

  /** Addresses that agree above a position agree above every higher one. */
  lemma AboveHigher(x: nat, y: nat, j: nat, k: nat)
    requires j <= k && Above(x, j) == Above(y, j)
    ensures Above(x, k) == Above(y, k)
  {
    AboveAbove(x, j, k - j);
    AboveAbove(y, j, k - j);
  }

  /** An IPv6 network that is not inside the mapped range holds an unmapped address:
      its own if that is unmapped, else its first or its last. */
  lemma UnmappedMember(n: Network) returns (ip: Address)
    requires n.Valid() && n.address.V6? && !InMappedRange(n)
    ensures ip.Valid() && Contains(n, ip) && !IsMapped(ip)
  {
    if Above(n.address.bits, V4_BITS) != MAPPED {
      ContainsIffInterval(n, n.address);
      ip := n.address;
    } else {
      var first := First(n);
      LongBlockLeaves(first, V4_BITS, n.Host(), MAPPED);
      ip := Member(n, if Above(first, V4_BITS) == MAPPED then first + Pow2(n.Host()) - 1 else first);
    }
  }

  /** The first and last address of a block of more than 2^k do not share their bits
      above position `k`. */
  lemma LongBlockLeaves(first: nat, k: nat, host: nat, q: nat)
    requires k < host
    ensures Above(first, k) == q ==> Above(first + Pow2(host) - 1, k) != q
  {
    Pow2Grows(k, host);
    AboveInterval(first, k, q);
    AboveInterval(first + Pow2(host) - 1, k, q);
  }

  /** An IPv6 network admits some normalized peer unless it lies inside the mapped
      range, and then it admits none at all. */
  lemma MappedNetworkAdmitsNobody(n: Network)
    requires n.Valid() && n.address.V6?
    ensures (exists ip: Address :: ip.Valid() && Contains(n, Normalize(ip))) <==> !InMappedRange(n)
  {
    if InMappedRange(n) {
      forall ip: Address | ip.Valid() ensures !Contains(n, Normalize(ip)) {
        NormalizedAgainstV6(n, ip);
        ContainsIsAbove(n, ip);
        if Contains(n, ip) {
          AboveHigher(ip.bits, n.address.bits, n.Host(), V4_BITS);
        }
      }
    } else {
      var ip := UnmappedMember(n);
      NormalizedAgainstV6(n, ip);
    }
  }

  // ------------------------------------------------------------------ tokens

  function Difference(a: seq<bv8>, b: seq<bv8>): bv8
    requires |a| == |b|
  {
    if a == [] then 0 else Difference(a[..|a| - 1], b[..|b| - 1]) | (a[|a| - 1] ^ b[|b| - 1])
  }

  lemma OrXorZero(d: bv8, x: bv8, y: bv8)
    ensures d | (x ^ y) == 0 <==> d == 0 && x == y
  {
  }

  lemma {:induction false} DifferenceZero(a: seq<bv8>, b: seq<bv8>)
    requires |a| == |b|
    ensures Difference(a, b) == 0 <==> a == b
  {
    if a != [] {
      var n := |a| - 1;
      DifferenceZero(a[..n], b[..n]);
      OrXorZero(Difference(a[..n], b[..n]), a[n], b[n]);
      assert a == a[..n] + [a[n]] && b == b[..n] + [b[n]];
    }
  }

  /** Compare the expected digest with the digest of what was presented, looking at
      every byte whatever the earlier ones say. */
  method Matches(expected: seq<bv8>, presented: seq<bv8>) returns (same: bool)
    requires |expected| == 32 && |presented| == 32
    ensures same <==> expected == presented
  {
    var diff: bv8 := 0;
    for i := 0 to 32
      invariant diff == Difference(expected[..i], presented[..i])
    {
      assert expected[..i + 1][..i] == expected[..i] && presented[..i + 1][..i] == presented[..i];
      diff := diff | (expected[i] ^ presented[i]);
    }
    assert expected[..32] == expected && presented[..32] == presented;
    DifferenceZero(expected, presented);
    same := diff == 0;
  }
}
