/** Prefix arithmetic and the whitelist of src/config.rs:17-100. Words are numbers below
    `2^width`; `And` and the shift are written out bit by bit. */
module Cidr {
  import opened Wrappers
  import opened Modular
  import opened Net

  function Pow2(k: nat): (p: nat)
    ensures p > 0
  {
    if k == 0 then 1 else 2 * Pow2(k - 1)
  }

  /** Bitwise and. */
  function And(x: nat, y: nat): nat
    decreases x
  {
    if x == 0 || y == 0 then 0 else (x % 2) * (y % 2) + 2 * And(x / 2, y / 2)
  }

  /** `checked_shl` of a word of `width` bits: the bits shifted out are lost, and a shift by
      the width or more is refused. */
  function CheckedShl(x: nat, k: nat, width: nat): Option<nat> {
    if k < width then Some(x * Pow2(k) % Pow2(width)) else None
  }

  /** The mask of `prefix_matches`. */
  function Mask(bits: nat, width: nat): nat
    requires bits <= width
  {
    match CheckedShl(Pow2(width) - 1, width - bits, width) case Some(m) => m case None => 0
  }

  predicate BitsFit(network: IpAddr, bits: nat) {
    bits <= if network.V4? then 32 else 128
  }

  /** `prefix_matches`. */
  predicate PrefixMatches(network: IpAddr, address: IpAddr, bits: nat)
    requires BitsFit(network, bits)
  {
    match (network, address)
    case (V4(a), V4(b)) => And(a, Mask(bits, 32)) == And(b, Mask(bits, 32))
    case (V6(a), V6(b)) => And(a, Mask(bits, 128)) == And(b, Mask(bits, 128))
    case _ => false
  }

  // ---- What a mask comparison means ----

  /** `x` shifted right by `k`. */
  function Top(x: nat, k: nat): nat {
    if k == 0 then x else Top(x / 2, k - 1)
  }

  /** `t` shifted left by `k`. */
  function Up(t: nat, k: nat): nat {
    if k == 0 then t else 2 * Up(t, k - 1)
  }

  function Bit(x: nat, i: nat): nat {
    Top(x, i) % 2
  }

  lemma {:induction false} PowSum(i: nat, j: nat)
    ensures Pow2(i + j) == Pow2(i) * Pow2(j)
    decreases i
  {
    if i == 0 {
    } else {
      PowSum(i - 1, j);
      assert Pow2(i + j) == 2 * Pow2(i - 1 + j);
      assert Pow2(i) * Pow2(j) == (2 * Pow2(i - 1)) * Pow2(j) == 2 * (Pow2(i - 1) * Pow2(j));
    }
  }

  lemma {:induction false} PowGrows(i: nat, j: nat)
    requires i <= j
    ensures Pow2(i) <= Pow2(j)
    decreases j
  {
    if i == j {
    } else {
      PowGrows(i, j - 1);
    }
  }

  /** The mask has zeros below bit `k` and ones from there on. */
  lemma MaskValue(bits: nat, width: nat)
    requires bits <= width
    ensures Mask(bits, width) == Pow2(width) - Pow2(width - bits)
  {
    var k := width - bits;
    if k < width {
      PowGrows(k, width);
      assert (Pow2(width) - 1) * Pow2(k) == (Pow2(k) - 1) * Pow2(width) + (Pow2(width) - Pow2(k)) by {
        assert (Pow2(width) - 1) * Pow2(k) == Pow2(width) * Pow2(k) - Pow2(k);
        assert (Pow2(k) - 1) * Pow2(width) == Pow2(k) * Pow2(width) - Pow2(width);
      }
      Remainder((Pow2(width) - 1) * Pow2(k), Pow2(k) - 1, Pow2(width) - Pow2(k), Pow2(width));
    }
  }

  lemma {:induction false} AndZeroOnes(x: nat, width: nat)
    requires x < Pow2(width)
    ensures And(x, Pow2(width) - 1) == x
    decreases width
  {
    if width == 0 || x == 0 {
    } else {
      AndZeroOnes(x / 2, width - 1);
      assert (Pow2(width) - 1) % 2 == 1 && (Pow2(width) - 1) / 2 == Pow2(width - 1) - 1;
    }
  }

  lemma AndZero(x: nat, y: nat)
    requires x == 0 || y == 0
    ensures And(x, y) == 0
  {}

  lemma AndEven(x: nat, half: nat)
    ensures And(x, 2 * half) == 2 * And(x / 2, half)
  {
    assert (2 * half) % 2 == 0 && (2 * half) / 2 == half;
    if x == 0 || half == 0 {
      AndZero(x, 2 * half);
      AndZero(x / 2, half);
    } else {
      assert And(x, 2 * half) == (x % 2) * 0 + 2 * And(x / 2, half);
    }
  }

  /** Masking keeps the top bits in their place. */
  lemma {:induction false} AndMask(x: nat, k: nat, width: nat)
    requires x < Pow2(width) && k <= width
    ensures Pow2(k) <= Pow2(width)
    ensures And(x, Pow2(width) - Pow2(k)) == Up(Top(x, k), k)
    decreases k
  {
    PowGrows(k, width);
    if k == 0 {
      AndZeroOnes(x, width);
    } else {
      var half := Pow2(width - 1) - Pow2(k - 1);
      AndMask(x / 2, k - 1, width - 1);
      AndEven(x, half);
      assert Pow2(width) - Pow2(k) == 2 * half;
    }
  }

  lemma {:induction false} UpInjective(p: nat, q: nat, k: nat)
    ensures Up(p, k) == Up(q, k) <==> p == q
    decreases k
  {
    if k == 0 {
    } else {
      UpInjective(p, q, k - 1);
    }
  }

  /** Equal after masking is equal after shifting. */
  lemma MaskedIsShifted(a: nat, b: nat, bits: nat, width: nat)
    requires a < Pow2(width) && b < Pow2(width) && bits <= width
    ensures And(a, Mask(bits, width)) == And(b, Mask(bits, width)) <==> Top(a, width - bits) == Top(b, width - bits)
  {
    var k := width - bits;
    MaskValue(bits, width);
    AndMask(a, k, width);
    AndMask(b, k, width);
    UpInjective(Top(a, k), Top(b, k), k);
  }

  lemma {:induction false} TopPlus(x: nat, i: nat, j: nat)
    ensures Top(x, i + j) == Top(Top(x, i), j)
    decreases i
  {
    if i == 0 {
    } else {
      TopPlus(x / 2, i - 1, j);
    }
  }

  lemma {:induction false} TopAll(x: nat, width: nat)
    requires x < Pow2(width)
    ensures Top(x, width) == 0
    decreases width
  {
    if width == 0 {
    } else {
      TopAll(x / 2, width - 1);
    }
  }

  /** Equal after shifting is agreement of all the bits that are left. */
  lemma {:induction false} ShiftedIsAgreeing(a: nat, b: nat, k: nat, width: nat)
    requires a < Pow2(width) && b < Pow2(width) && k <= width
    ensures Top(a, k) == Top(b, k) <==> forall i :: k <= i < width ==> Bit(a, i) == Bit(b, i)
    decreases width - k
  {
    if k == width {
      TopAll(a, width);
      TopAll(b, width);
    } else {
      ShiftedIsAgreeing(a, b, k + 1, width);
      TopPlus(a, k, 1);
      TopPlus(b, k, 1);
      assert Top(a, k + 1) == Top(a, k) / 2 && Top(b, k + 1) == Top(b, k) / 2;
      if Top(a, k) == Top(b, k) {
        forall i | k <= i < width ensures Bit(a, i) == Bit(b, i) {}
      }
      if forall i :: k <= i < width ==> Bit(a, i) == Bit(b, i) {
        assert Bit(a, k) == Bit(b, k);
      }
    }
  }

  predicate SameTop(a: nat, b: nat, bits: nat, width: nat)
    requires bits <= width
  {
    Top(a, width - bits) == Top(b, width - bits)
  }

  lemma PowIs(k: nat, value: nat, twice: nat)
    requires twice == k + k && Pow2(k) == value
    ensures Pow2(twice) == value * value
  {
    PowSum(k, k);
  }

  lemma Widths()
    ensures Pow2(32) == 0x1_0000_0000
    ensures Pow2(128) == 0x1_0000_0000_0000_0000_0000_0000_0000_0000
  {
    PowIs(4, 16, 8);
    PowIs(8, 0x100, 16);
    PowIs(16, 0x1_0000, 32);
    PowIs(32, 0x1_0000_0000, 64);
    PowIs(64, 0x1_0000_0000_0000_0000, 128);
  }

  /** `prefix_matches` holds exactly for addresses of the network's family whose top `bits`
      bits agree with the network's. */
  lemma PrefixMeaning(network: IpAddr, address: IpAddr, bits: nat)
    requires BitsFit(network, bits)
    ensures PrefixMatches(network, address, bits) <==>
      match (network, address)
      case (V4(a), V4(b)) => forall i :: 32 - bits <= i < 32 ==> Bit(a, i) == Bit(b, i)
      case (V6(a), V6(b)) => forall i :: 128 - bits <= i < 128 ==> Bit(a, i) == Bit(b, i)
      case _ => false
    ensures PrefixMatches(network, address, bits) <==>
      match (network, address)
      case (V4(a), V4(b)) => SameTop(a, b, bits, 32)
      case (V6(a), V6(b)) => SameTop(a, b, bits, 128)
      case _ => false
  {
    Widths();
    match (network, address)
    case (V4(a), V4(b)) =>
      MaskedIsShifted(a, b, bits, 32);
      ShiftedIsAgreeing(a, b, 32 - bits, 32);
    case (V6(a), V6(b)) =>
      MaskedIsShifted(a, b, bits, 128);
      ShiftedIsAgreeing(a, b, 128 - bits, 128);
    case _ =>
  }

  // ---- IPv4-mapped networks ----

  /** Every address as an IPv6 address (section 2.5.5.2 of RFC 4291). */
  function ToV6(ip: IpAddr): u128 {
    match ip case V4(a) => MappedForm(a).v6 case V6(a) => a
  }

  lemma {:induction false} TopOfSum(c: nat, a: nat, j: nat, k: nat)
    requires k <= j && a < Pow2(j)
    ensures Top(Up(c, j) + a, k) == Up(c, j - k) + Top(a, k)
    decreases k
  {
    if k == 0 {
    } else {
      assert Up(c, j) == 2 * Up(c, j - 1);
      assert (Up(c, j) + a) / 2 == Up(c, j - 1) + a / 2;
      TopOfSum(c, a / 2, j - 1, k - 1);
    }
  }

  lemma {:induction false} UpIsTimes(c: nat, j: nat)
    ensures Up(c, j) == c * Pow2(j)
    decreases j
  {
    if j == 0 {
    } else {
      UpIsTimes(c, j - 1);
      assert c * (2 * Pow2(j - 1)) == 2 * (c * Pow2(j - 1));
    }
  }

  /** The low word of a number does not reach into its top part. */
  lemma SplitTop(x: u128)
    ensures x == Up(x / V4_SPAN, 32) + x % V4_SPAN
    ensures Top(x, 32) == x / V4_SPAN
  {
    Widths();
    UpIsTimes(x / V4_SPAN, 32);
    TopOfSum(x / V4_SPAN, x % V4_SPAN, 32, 32);
    TopAll(x % V4_SPAN, 32);
  }

  /** Rewriting a mapped IPv6 network of at least 96 bits to IPv4 keeps exactly the same
      addresses, taken up to mapping. */
  lemma MappedNetworkKeepsAddresses(network: u128, bits: nat, address: IpAddr)
    requires 96 <= bits <= 128 && ToIpv4Mapped(network).Some?
    ensures PrefixMatches(V4(ToIpv4Mapped(network).value), Normalize(address), bits - 96)
            <==> SameTop(network, ToV6(address), bits, 128)
  {
    var k := 128 - bits;
    var x := ToV6(address);
    SplitTop(network);
    SplitTop(x);
    Widths();
    TopPlus(network, k, 32 - k);
    TopPlus(x, k, 32 - k);
    if x / V4_SPAN == MAPPED_PREFIX {
      TopOfSum(MAPPED_PREFIX, network % V4_SPAN, 32, k);
      TopOfSum(MAPPED_PREFIX, x % V4_SPAN, 32, k);
      assert Normalize(address) == V4(x % V4_SPAN) by {
        if address.V4? { Remainder(x, MAPPED_PREFIX, address.v4, V4_SPAN); }
      }
      PrefixMeaning(V4(network % V4_SPAN), V4(x % V4_SPAN), bits - 96);
    } else {
      assert address.V6? by {
        if address.V4? { Remainder(x, MAPPED_PREFIX, address.v4, V4_SPAN); }
      }
    }
  }

  // ---- The whitelist ----

  /** An entry of the list whose text has been parsed. */
  datatype Item = Single(ip: IpAddr) | Network(ip: IpAddr, bits: nat)

  datatype Whitelist = Whitelist(addresses: seq<IpAddr>, networks: seq<(IpAddr, nat)>)

  predicate WellFormed(w: Whitelist) {
    forall n :: n in w.networks ==> BitsFit(n.0, n.1)
  }

  predicate IsEmpty(w: Whitelist) {
    w.addresses == [] && w.networks == []
  }

  /** `Whitelist::allows`. */
  predicate Allows(w: Whitelist, address: IpAddr)
    requires WellFormed(w)
  {
    IsEmpty(w)
    || Normalize(address) in w.addresses
    || exists n :: n in w.networks && (PrefixMatches(n.0, Normalize(address), n.1) || PrefixMatches(n.0, address, n.1))
  }

  predicate Acceptable(item: Item) {
    item.Network? ==> BitsFit(item.ip, item.bits)
  }

  predicate Rewritten(item: Item) {
    item.Network? && item.ip.V6? && ToIpv4Mapped(item.ip.v6).Some? && item.bits >= 96
  }

  /** What an entry stands for: one address up to mapping; an IPv4 network or a mapped one of
      at least 96 bits, up to mapping; any other IPv6 network taken literally. */
  predicate Denotes(item: Item, address: IpAddr)
    requires Acceptable(item)
  {
    match item
    case Single(ip) => Normalize(ip) == Normalize(address)
    case Network(V4(n), bits) => Normalize(address).V4? && SameTop(n, Normalize(address).v4, bits, 32)
    case Network(V6(n), bits) =>
      if n / 0x1_0000_0000 == 0xFFFF && bits >= 96 then SameTop(n, ToV6(address), bits, 128)
      else address.V6? && SameTop(n, address.v6, bits, 128)
  }

  /** The network an entry is stored as. */
  function Stored(item: Item): (IpAddr, nat)
    requires item.Network? && Acceptable(item)
  {
    if Rewritten(item) then (V4(ToIpv4Mapped(item.ip.v6).value), item.bits - 96) else (item.ip, item.bits)
  }

  lemma StoredMeans(item: Item, address: IpAddr)
    requires item.Network? && Acceptable(item)
    ensures BitsFit(Stored(item).0, Stored(item).1)
    ensures PrefixMatches(Stored(item).0, Normalize(address), Stored(item).1) || PrefixMatches(Stored(item).0, address, Stored(item).1)
            <==> Denotes(item, address)
  {
    var (network, bits) := Stored(item);
    PrefixMeaning(network, Normalize(address), bits);
    PrefixMeaning(network, address, bits);
    if Rewritten(item) { MappedNetworkKeepsAddresses(item.ip.v6, item.bits, address); }
  }

  /** What the entries pushed so far allow, leaving aside that an empty list allows all. */
  ghost predicate Covers(w: Whitelist, items: seq<Item>) {
    && WellFormed(w)
    && (forall a :: a in w.addresses <==> exists i :: i in items && i.Single? && Normalize(i.ip) == a)
    && (forall n :: n in w.networks <==> exists i :: i in items && i.Network? && Acceptable(i) && Stored(i) == n)
  }

  lemma PushNetwork(w: Whitelist, items: seq<Item>, item: Item)
    requires Covers(w, items) && item.Network? && Acceptable(item)
    ensures Covers(w.(networks := w.networks + [Stored(item)]), items + [item])
  {
    StoredMeans(item, item.ip);
    var w', items' := w.(networks := w.networks + [Stored(item)]), items + [item];
    assert forall i :: i in items' <==> i in items || i == item;
    assert forall n :: n in w'.networks <==> n in w.networks || n == Stored(item);
  }

  lemma PushAddress(w: Whitelist, items: seq<Item>, ip: IpAddr)
    requires Covers(w, items)
    ensures Covers(w.(addresses := w.addresses + [Normalize(ip)]), items + [Single(ip)])
  {
    var w', items' := w.(addresses := w.addresses + [Normalize(ip)]), items + [Single(ip)];
    assert forall i :: i in items' <==> i in items || i == Single(ip);
    assert forall a :: a in w'.addresses <==> a in w.addresses || a == Normalize(ip);
  }

  /** The stored list allows what its entries denote. */
  lemma CoveredIsDenoted(w: Whitelist, items: seq<Item>, x: IpAddr)
    requires Covers(w, items) && (IsEmpty(w) <==> items == []) && forall i :: i in items ==> Acceptable(i)
    ensures Allows(w, x) <==> items == [] || exists i :: i in items && Acceptable(i) && Denotes(i, x)
  {
    if i :| i in items && Denotes(i, x) {
      if i.Single? {
        assert Normalize(i.ip) in w.addresses;
      } else {
        assert Stored(i) in w.networks;
        StoredMeans(i, x);
      }
    }
    if Normalize(x) in w.addresses {
      var i :| i in items && i.Single? && Normalize(i.ip) == Normalize(x);
      assert Denotes(i, x);
    }
    if n :| n in w.networks && (PrefixMatches(n.0, Normalize(x), n.1) || PrefixMatches(n.0, x, n.1)) {
      var i :| i in items && i.Network? && Acceptable(i) && Stored(i) == n;
      StoredMeans(i, x);
      assert Denotes(i, x);
    }
  }

  /** `Whitelist::parse` once the text of each entry has been parsed; `blank` tells whether
      the value was empty or white space, in which case there are no entries. */
  method ParseWhitelist(blank: bool, items: seq<Item>) returns (r: Result<Whitelist, ()>)
    requires blank ==> items == []
    ensures r.Err? <==>
      (exists i :: i in items && i.Network? && i.bits > (if i.ip.V4? then 32 else 128)) || (!blank && items == [])
    ensures r.Ok? ==> WellFormed(r.value) && forall x ::
      Allows(r.value, x) <==> items == [] || exists i :: i in items && Acceptable(i) && Denotes(i, x)
  {
    var result := Whitelist([], []);
    for k := 0 to |items|
      invariant forall i :: i in items[..k] ==> Acceptable(i)
      invariant Covers(result, items[..k])
      invariant IsEmpty(result) <==> k == 0
    {
      assert items[..k + 1] == items[..k] + [items[k]];
      match items[k] {
        case Network(ip, bits) =>
          if bits > (if ip.V4? then 32 else 128) {
            assert items[k] in items && !Acceptable(items[k]);
            return Err(());
          }
          var stored := if ip.V6? && ToIpv4Mapped(ip.v6).Some? && bits >= 96
                        then (V4(ToIpv4Mapped(ip.v6).value), bits - 96) else (ip, bits);
          assert stored == Stored(items[k]);
          PushNetwork(result, items[..k], items[k]);
          result := result.(networks := result.networks + [stored]);
        case Single(ip) =>
          PushAddress(result, items[..k], ip);
          result := result.(addresses := result.addresses + [Normalize(ip)]);
      }
    }
    assert items[..|items|] == items;
    if !blank && IsEmpty(result) { return Err(()); }
    forall x ensures Allows(result, x) <==> items == [] || exists i :: i in items && Acceptable(i) && Denotes(i, x) {
      CoveredIsDenoted(result, items, x);
    }
    r := Ok(result);
  }

  /** An IPv6 network of the list contains the mapped form of `a`. */
  predicate InV6Network(w: Whitelist, a: u32)
    requires WellFormed(w)
  {
    exists n :: n in w.networks && n.0.V6? && PrefixMatches(n.0, MappedForm(a), n.1)
  }

  lemma NormalizeMapped(a: u32)
    ensures Normalize(MappedForm(a)) == V4(a)
  {
    Remainder(MAPPED_PREFIX * V4_SPAN + a, MAPPED_PREFIX, a, V4_SPAN);
  }

  /** The mapped form of an IPv4 address is allowed whenever the address itself is, and
      besides only if an IPv6 network of the list contains it. */
  lemma MappedFormAllowed(w: Whitelist, a: u32)
    requires WellFormed(w)
    ensures Allows(w, V4(a)) ==> Allows(w, MappedForm(a))
    ensures Allows(w, MappedForm(a)) <==> Allows(w, V4(a)) || InV6Network(w, a)
  {
    NormalizeMapped(a);
    if n :| n in w.networks && (PrefixMatches(n.0, V4(a), n.1) || PrefixMatches(n.0, MappedForm(a), n.1)) {
      assert n.0.V6? || PrefixMatches(n.0, V4(a), n.1);
    }
  }

  /** The converse fails: the list `::/0` allows every mapped address and no IPv4 address. */
  lemma EverythingV6ExcludesV4(a: u32)
    ensures var w := Whitelist([], [(V6(0), 0)]);
            WellFormed(w) && Allows(w, MappedForm(a)) && !Allows(w, V4(a))
  {
    var w := Whitelist([], [(V6(0), 0)]);
    Widths();
    TopAll(0, 128);
    TopAll(MappedForm(a).v6, 128);
    PrefixMeaning(V6(0), MappedForm(a), 0);
    assert (V6(0), 0) in w.networks;
  }
}
