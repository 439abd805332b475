/** Allow-list matching of addresses against CIDR blocks (crates/ngenorca-gateway/src/auth.rs). */
module Cidr {
  import opened Wrappers
  import opened Text

  datatype Ip = V4(bits: nat) | V6(bits: nat)

  function Pow2(n: nat): (r: nat)
    ensures r > 0
  {
    if n == 0 then 1 else 2 * Pow2(n - 1)
  }

  /** Bitwise and of two natural numbers. */
  function And(x: nat, y: nat): nat
    decreases x
  {
    if x == 0 then 0 else 2 * And(x / 2, y / 2) + (if x % 2 == 1 && y % 2 == 1 then 1 else 0)
  }

  /** `x << shift` on an unsigned word of `width` bits: what is shifted out at the top is lost. */
  function ShiftLeft(width: nat, x: nat, shift: nat): nat
    decreases shift
  {
    if shift == 0 then x else ShiftLeft(width, 2 * x % Pow2(width), shift - 1)
  }

  /** The mask of a prefix; the zero prefix is a case of its own because shifting by the full width is not allowed. */
  function Mask(width: nat, prefix: nat): nat
    requires prefix <= width
  {
    if prefix == 0 then 0 else ShiftLeft(width, Pow2(width) - 1, width - prefix)
  }

  predicate InBlock(width: nat, ip: nat, network: nat, prefix: nat) {
    prefix <= width && And(ip, Mask(width, prefix)) == And(network, Mask(width, prefix))
  }

  predicate IpInCidr(ip: Ip, network: Ip, prefix: nat) {
    match (ip, network)
    case (V4(a), V4(n)) => InBlock(32, a, n, prefix)
    case (V6(a), V6(n)) => InBlock(128, a, n, prefix)
    case _ => false
  }

  /** The parsers of the standard library, arbitrary here. */
  datatype Parsers = Parsers(address: string -> Option<Ip>, length: string -> Option<nat>)

  predicate EntryMatches(parsers: Parsers, source: Ip, entry: string) {
    match SplitOnce(entry, '/')
    case Some((net, len)) =>
      if parsers.address(net).Some? && parsers.length(len).Some?
      then IpInCidr(source, parsers.address(net).value, parsers.length(len).value)
      else parsers.address(entry) == Some(source)
    case None => parsers.address(entry) == Some(source)
  }

  predicate IpMatchesAllowlist(parsers: Parsers, source: Ip, allowed: seq<string>) {
    exists i :: 0 <= i < |allowed| && EntryMatches(parsers, source, allowed[i])
  }

  // ---------- the mask is the block boundary ----------

  lemma {:induction false} Pow2Grows(a: nat, b: nat)
    requires a <= b
    ensures Pow2(a) <= Pow2(b)
  {
    if a < b {
      Pow2Grows(a, b - 1);
    }
  }

  /** Ones above position `k`, shifted further left, are the ones above the new position. */
  lemma {:induction false} ShiftedOnes(width: nat, k: nat, shift: nat)
    requires k + shift <= width
    ensures Pow2(k) <= Pow2(width) && Pow2(k + shift) <= Pow2(width)
    ensures ShiftLeft(width, Pow2(width) - Pow2(k), shift) == Pow2(width) - Pow2(k + shift)
    decreases shift
  {
    Pow2Grows(k, width);
    Pow2Grows(k + shift, width);
    if shift > 0 {
      Pow2Grows(k + 1, width);
      DoubledOnes(Pow2(width), Pow2(k));
      ShiftedOnes(width, k + 1, shift - 1);
    }
  }

  lemma DoubledOnes(w: nat, k: nat)
    requires 0 < k && 2 * k <= w
    ensures 2 * (w - k) % w == w - 2 * k
  {
    DivUnique(2 * (w - k), w, 1, w - 2 * k);
  }

  /** Integer division by two, `n` times over. */
  function Half(x: nat, n: nat): nat {
    if n == 0 then x else Half(x / 2, n - 1)
  }

  function Double(x: nat, n: nat): nat {
    if n == 0 then x else 2 * Double(x, n - 1)
  }

  lemma {:induction false} HalfStep(x: nat, n: nat)
    ensures Half(x, n + 1) == Half(x, n) / 2
  {
    if n > 0 {
      HalfStep(x / 2, n - 1);
    }
  }

  lemma {:induction false} HalfIsQuotient(x: nat, n: nat)
    ensures Half(x, n) == x / Pow2(n)
  {
    if n > 0 {
      HalfIsQuotient(x / 2, n - 1);
      HalfDivision(x, Pow2(n - 1));
    }
  }

  lemma HalfDivision(x: nat, s: nat)
    requires s > 0
    ensures x / (2 * s) == x / 2 / s
  {
    var q, r := x / 2 / s, x / 2 % s;
    assert x / 2 == q * s + r;
    assert x == q * (2 * s) + (2 * r + x % 2);
    DivUnique(x, 2 * s, q, 2 * r + x % 2);
  }

  lemma DivUnique(x: int, m: nat, q: int, r: nat)
    requires r < m && x == q * m + r
    ensures x / m == q
  {
    var d: int := x / m - q;
    assert x == (x / m) * m + x % m;
    assert d * m == r - x % m;
    MultipleAtLeast(d, m);
  }

  lemma MultipleAtLeast(d: int, m: nat)
    ensures d > 0 ==> d * m >= m
    ensures d < 0 ==> d * m + m <= 0
  {
  }

  lemma {:induction false} DoubleInjective(x: nat, y: nat, n: nat)
    ensures Double(x, n) == Double(y, n) <==> x == y
  {
    if n > 0 {
      DoubleInjective(x, y, n - 1);
    }
  }

  lemma {:induction false} AndOnes(width: nat, x: nat)
    requires x < Pow2(width)
    ensures And(x, Pow2(width) - 1) == x
  {
    if width > 0 && x > 0 {
      AndOnes(width - 1, x / 2);
      var ones := Pow2(width) - 1;
      assert ones == 2 * (Pow2(width - 1) - 1) + 1;
      assert ones / 2 == Pow2(width - 1) - 1 && ones % 2 == 1;
      assert And(x, ones) == 2 * And(x / 2, ones / 2) + x % 2;
    }
  }

  lemma {:induction false} HalfOfZero(n: nat)
    ensures Half(0, n) == 0 && Double(0, n) == 0
  {
    if n > 0 {
      HalfOfZero(n - 1);
    }
  }

  /** Masking with the ones above position `shift` clears the low `shift` bits. */
  lemma {:induction false} AndMask(width: nat, shift: nat, x: nat)
    requires shift <= width && x < Pow2(width)
    ensures Pow2(shift) <= Pow2(width)
    ensures And(x, Pow2(width) - Pow2(shift)) == Double(Half(x, shift), shift)
  {
    Pow2Grows(shift, width);
    if shift == 0 {
      AndOnes(width, x);
    } else {
      AndMask(width - 1, shift - 1, x / 2);
      if x == 0 {
        HalfOfZero(shift);
      }
    }
  }

  lemma {:induction false} AndZero(x: nat)
    ensures And(x, 0) == 0
  {
    if x > 0 {
      AndZero(x / 2);
    }
  }

  lemma {:induction false} HalfVanishes(width: nat, x: nat)
    requires x < Pow2(width)
    ensures Half(x, width) == 0
  {
    if width > 0 {
      HalfVanishes(width - 1, x / 2);
    }
  }

  lemma MaskedValue(width: nat, prefix: nat, x: nat)
    requires prefix <= width && x < Pow2(width)
    ensures And(x, Mask(width, prefix)) == Double(Half(x, width - prefix), width - prefix)
  {
    if prefix == 0 {
      AndZero(x);
      HalfVanishes(width, x);
      HalfOfZero(width);
    } else {
      ShiftedOnes(width, 0, width - prefix);
      AndMask(width, width - prefix, x);
    }
  }

  /** The mask test agrees with equality of the quotients by the block size (section 3.1 of RFC 4632). */
  lemma MaskTestIsQuotientTest(width: nat, a: nat, b: nat, prefix: nat)
    requires prefix <= width && a < Pow2(width) && b < Pow2(width)
    ensures InBlock(width, a, b, prefix) <==> a / Pow2(width - prefix) == b / Pow2(width - prefix)
  {
    hide Mask, And, Half, Double, Pow2;
    MaskedValue(width, prefix, a);
    MaskedValue(width, prefix, b);
    DoubleInjective(Half(a, width - prefix), Half(b, width - prefix), width - prefix);
    HalfIsQuotient(a, width - prefix);
    HalfIsQuotient(b, width - prefix);
  }

  /** Bit `i` of a word, counted from the most significant one. */
  function Bit(width: nat, x: nat, i: nat): nat
    requires i < width
  {
    x / Pow2(width - 1 - i) % 2
  }

  ghost predicate SameLeadingBits(width: nat, a: nat, b: nat, prefix: nat)
    requires prefix <= width
  {
    forall i :: 0 <= i < prefix ==> Bit(width, a, i) == Bit(width, b, i)
  }

  lemma {:induction false} QuotientTestIsBitTest(width: nat, a: nat, b: nat, prefix: nat)
    requires prefix <= width && a < Pow2(width) && b < Pow2(width)
    ensures Half(a, width - prefix) == Half(b, width - prefix) <==> SameLeadingBits(width, a, b, prefix)
  {
    hide Bit, Half, Pow2;
    if prefix == 0 {
      HalfVanishes(width, a);
      HalfVanishes(width, b);
    } else {
      QuotientTestIsBitTest(width, a, b, prefix - 1);
      HalfStep(a, width - prefix);
      HalfStep(b, width - prefix);
      BitIsParity(width, a, prefix - 1);
      BitIsParity(width, b, prefix - 1);
      assert SameLeadingBits(width, a, b, prefix) <==>
             SameLeadingBits(width, a, b, prefix - 1) && Bit(width, a, prefix - 1) == Bit(width, b, prefix - 1);
    }
  }

  lemma BitIsParity(width: nat, x: nat, i: nat)
    requires i < width
    ensures Bit(width, x, i) == Half(x, width - 1 - i) % 2
  {
    HalfIsQuotient(x, width - 1 - i);
  }

  predicate Fits(ip: Ip) {
    match ip case V4(b) => b < Pow2(32) case V6(b) => b < Pow2(128)
  }

  function Width(ip: Ip): nat {
    if ip.V4? then 32 else 128
  }

  /** For every address of either family, matching a block means the same family, a legal prefix length
      and agreement on that many leading bits. */
  lemma CidrMeaning(ip: Ip, network: Ip, prefix: nat)
    requires Fits(ip) && Fits(network)
    ensures IpInCidr(ip, network, prefix) <==>
            ip.V4? == network.V4? && prefix <= Width(ip) && SameLeadingBits(Width(ip), ip.bits, network.bits, prefix)
  {
    hide Mask, SameLeadingBits, Pow2, Half;
    if ip.V4? == network.V4? && prefix <= Width(ip) {
      MaskTestIsQuotientTest(Width(ip), ip.bits, network.bits, prefix);
      QuotientTestIsBitTest(Width(ip), ip.bits, network.bits, prefix);
      HalfIsQuotient(ip.bits, Width(ip) - prefix);
      HalfIsQuotient(network.bits, Width(ip) - prefix);
    }
  }

  /** A shorter prefix only enlarges a block. */
  lemma ShorterPrefixIsLarger(ip: Ip, network: Ip, prefix: nat, shorter: nat)
    requires Fits(ip) && Fits(network) && shorter <= prefix && IpInCidr(ip, network, prefix)
    ensures IpInCidr(ip, network, shorter)
  {
    hide IpInCidr;
    CidrMeaning(ip, network, prefix);
    CidrMeaning(ip, network, shorter);
  }

  /** Two blocks of one family that share an address are nested: the longer prefix lies inside the shorter. */
  lemma BlocksNestOrAreDisjoint(n1: Ip, p1: nat, n2: Ip, p2: nat, shared: Ip, ip: Ip)
    requires Fits(n1) && Fits(n2) && Fits(shared) && Fits(ip) && p1 <= p2
    requires IpInCidr(shared, n1, p1) && IpInCidr(shared, n2, p2)
    requires IpInCidr(ip, n2, p2)
    ensures IpInCidr(ip, n1, p1)
  {
    hide IpInCidr;
    CidrMeaning(shared, n1, p1);
    CidrMeaning(shared, n2, p2);
    CidrMeaning(ip, n2, p2);
    CidrMeaning(ip, n1, p1);
  }

  // ---------- the allow-list ----------

  /** The entry reads as a network and a prefix length, around its first slash. */
  ghost predicate NamesBlock(parsers: Parsers, entry: string, network: Ip, prefix: nat) {
    exists a, b ::
      entry == a + ['/'] + b && '/' !in a && parsers.address(a) == Some(network) && parsers.length(b) == Some(prefix)
  }

  /** The parser of addresses yields addresses of the width of their family. */
  ghost predicate ParsesAddresses(parsers: Parsers) {
    forall a :: parsers.address(a).Some? ==> Fits(parsers.address(a).value)
  }

  /** What an entry lets in: its block, if it names one, and otherwise the address it is. */
  ghost predicate LetsIn(parsers: Parsers, entry: string, source: Ip) {
    if exists network, prefix: nat :: NamesBlock(parsers, entry, network, prefix)
    then exists network, prefix: nat :: NamesBlock(parsers, entry, network, prefix) && LiesIn(source, network, prefix)
    else parsers.address(entry) == Some(source)
  }

  /** The addresses are of one family and agree on that many leading bits. */
  ghost predicate LiesIn(ip: Ip, network: Ip, prefix: nat) {
    ip.V4? == network.V4? && prefix <= Width(ip) && SameLeadingBits(Width(ip), ip.bits, network.bits, prefix)
  }

  lemma EntryMeaning(parsers: Parsers, source: Ip, entry: string)
    requires Fits(source) && ParsesAddresses(parsers)
    ensures EntryMatches(parsers, source, entry) <==> LetsIn(parsers, entry, source)
  {
    hide IpInCidr, SameLeadingBits, SplitOnce, Pow2;
    forall a, b
      ensures entry == a + ['/'] + b && '/' !in a ==> SplitOnce(entry, '/') == Some((a, b))
    {
      if entry == a + ['/'] + b && '/' !in a {
        SplitUnique(a, '/', b);
      }
    }
    var split := SplitOnce(entry, '/');
    if split.Some? {
      var (a, b) := split.value;
      if parsers.address(a).Some? && parsers.length(b).Some? {
        var network, prefix := parsers.address(a).value, parsers.length(b).value;
        CidrMeaning(source, network, prefix);
        assert NamesBlock(parsers, entry, network, prefix);
      }
    }
  }

  /** An address is let through exactly if some entry lets it in. */
  lemma AllowlistMeaning(parsers: Parsers, source: Ip, allowed: seq<string>)
    requires Fits(source) && ParsesAddresses(parsers)
    ensures IpMatchesAllowlist(parsers, source, allowed) <==>
              exists entry :: entry in allowed && LetsIn(parsers, entry, source)
  {
    hide EntryMatches, LetsIn;
    forall entry
      ensures EntryMatches(parsers, source, entry) <==> LetsIn(parsers, entry, source)
    {
      EntryMeaning(parsers, source, entry);
    }
  }
}
