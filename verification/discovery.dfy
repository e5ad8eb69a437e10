/**
 * HID interface discovery (core/discovery.py): the records `hid.enumerate`
 * returns are filtered, grouped by product id and by usage page, and the
 * endpoints of each group are paired into `HIDPPInterface`s.
 *
 * The enumeration itself is I/O; its records are the input. Paths are kept
 * decoded, so `bytes.decode` is not modelled.
 */
module Discovery {
  import opened Wrappers
  import opened Bits
  import opened Device
  import opened Text

  /** The usage page of the legacy HID++ collections. */
  const LegacyPage := 0xFF00

  /** The usage page of the modern HID++ collections. */
  const ModernPage := 0xFF43

  const PathSeparator := '#'

  // ------------------------------------------------------------ path names

  /**
   * `get_common_dev_name`: the third `#`-separated field of the path without
   * its last character. A path with fewer than two separators raises
   * IndexError.
   */
  function CommonName(path: string): (r: Result<string>)
    ensures r.Raised? ==> r.exc == IndexError
  {
    var fields := Split(path, PathSeparator);
    if |fields| < 3 then Raised(IndexError)
    else
      var f := fields[2];
      Ok(if f == [] then [] else f[..|f| - 1])
  }

  /** The name is missing exactly when the path has fewer than two separators. */
  lemma {:induction false} CommonNameNeedsTwoSeparators(path: string)
    ensures CommonName(path).Raised? <==> multiset(path)[PathSeparator] < 2
    ensures CommonName(path).Ok? ==> PathSeparator !in CommonName(path).value
  {
    SplitCounts(path, PathSeparator);
    var fields := Split(path, PathSeparator);
    if |fields| >= 3 {
      var f := fields[2];
      if f != [] {
        assert forall x :: x in f[..|f| - 1] ==> x in f;
      }
    }
  }

  /** The common name of `a#b#c`, alone or followed by more fields, is `c` less its last character. */
  lemma {:induction false} CommonNameOfFields(a: string, b: string, c: string, more: Option<string>)
    requires PathSeparator !in a && PathSeparator !in b && PathSeparator !in c
    ensures var path := a + [PathSeparator] + b + [PathSeparator] + c
                        + (if more.Some? then [PathSeparator] + more.value else []);
      CommonName(path) == Ok(if c == [] then [] else c[..|c| - 1])
  {
    var sep := PathSeparator;
    var tailC := c + (if more.Some? then [sep] + more.value else []);
    if more.Some? {
      SplitField(c, more.value, sep);
      assert tailC == c + [sep] + more.value;
    } else {
      SplitNone(c, sep);
      assert tailC == c;
    }
    SplitField(b, tailC, sep);
    SplitField(a, b + [sep] + tailC, sep);
    assert a + [sep] + b + [sep] + c + (if more.Some? then [sep] + more.value else [])
        == a + [sep] + (b + [sep] + tailC);
  }

  // ---------------------------------------------------------- capabilities

  datatype Capabilities = Capabilities(nb: int, hasShort: bool, hasLong: bool, hasXl: bool)

  function Count(b: bool): int { if b then 1 else 0 }

  /**
   * `get_capabilities` as written: bit 0 announces short reports, bit 1 long
   * and bit 2 extra-long, but the result is built positionally with the
   * extra-long flag first, so `has_short` receives bit 2 and `has_xl` bit 0.
   */
  function GetCapabilities(ord: int): (c: Capabilities)
    ensures c.nb == BitAt(ord, 0) + BitAt(ord, 1) + BitAt(ord, 2)
    ensures c.hasShort <==> BitAt(ord, 2) == 1
    ensures c.hasLong <==> BitAt(ord, 1) == 1
    ensures c.hasXl <==> BitAt(ord, 0) == 1
  {
    LowThreeBits(ord);
    var hasShort := ord % 2 == 1;
    var hasLong := ord % 4 >= 2;
    var hasExtraLong := ord % 8 >= 4;
    Capabilities(Count(hasExtraLong) + Count(hasLong) + Count(hasShort), hasExtraLong, hasLong, hasShort)
  }

  /** `get_capabilities` with each flag in its own field. */
  function GetCapabilitiesCorrected(ord: int): (c: Capabilities)
    ensures c.nb == BitAt(ord, 0) + BitAt(ord, 1) + BitAt(ord, 2)
    ensures c.hasShort <==> BitAt(ord, 0) == 1
    ensures c.hasLong <==> BitAt(ord, 1) == 1
    ensures c.hasXl <==> BitAt(ord, 2) == 1
  {
    LowThreeBits(ord);
    var hasShort := ord % 2 == 1;
    var hasLong := ord % 4 >= 2;
    var hasExtraLong := ord % 8 >= 4;
    Capabilities(Count(hasExtraLong) + Count(hasLong) + Count(hasShort), hasShort, hasLong, hasExtraLong)
  }

  /** The three low bits of a number, read by remainders as `get_capabilities` reads them. */
  lemma {:induction false} LowThreeBits(ord: int)
    ensures BitAt(ord, 0) == 1 <==> ord % 2 == 1
    ensures BitAt(ord, 1) == 1 <==> ord % 4 >= 2
    ensures BitAt(ord, 2) == 1 <==> ord % 8 >= 4
  {
    assert Pow2(0) == 1 && Pow2(1) == 2 && Pow2(2) == 4;
    var q := ord / 8;
    var m := ord % 8;
    var h, l := m / 2, m % 2;
    assert m == 2 * h + l && 0 <= h < 4;
    DivModUnique(ord, 2, 4 * q + h, l);
    DivModUnique(ord, 4, 2 * q + h / 2, 2 * (h % 2) + l);
    DivModUnique(4 * q + h, 2, 2 * q + h / 2, h % 2);
    DivModUnique(2 * q + h / 2, 2, q, h / 2);
  }

  // --------------------------------------------------------------- filters

  /** A list comprehension with a condition: the kept elements, in order. */
  function Filter(s: seq<Endpoint>, f: Endpoint -> bool): (r: seq<Endpoint>)
    ensures |r| <= |s|
    ensures forall i :: 0 <= i < |r| ==> f(r[i]) && r[i] in s
    ensures forall x :: x in s && f(x) ==> x in r
  {
    if s == [] then []
    else
      assert forall x :: x in s ==> x == s[0] || x in s[1..];
      (if f(s[0]) then [s[0]] else []) + Filter(s[1..], f)
  }

  /** An enumeration record the discovery keeps: the vendor asked for, and a usage, page and path. */
  predicate Kept(vid: int, d: Endpoint) {
    d.vendorId == vid && d.usage != 0 && d.usagePage != 0 && d.path != ""
  }

  /** The product ids of the records, each once, in order of first appearance. */
  function Pids(devs: seq<Endpoint>): (r: seq<int>)
    ensures forall i, j :: 0 <= i < j < |r| ==> r[i] != r[j]
    ensures forall d :: d in devs ==> d.productId in r
    ensures forall p :: p in r ==> exists d :: d in devs && d.productId == p
  {
    if devs == [] then []
    else
      var init := devs[..|devs| - 1];
      var last := devs[|devs| - 1];
      assert devs == init + [last];
      var p := Pids(init);
      if last.productId in p then p else p + [last.productId]
  }

  // -------------------------------------------------------------- pairing

  /**
   * The `next(...)` over the candidates: the first whose common name equals
   * the path's. Both names are computed for every candidate tried, the
   * candidate's first, so a malformed path raises IndexError.
   */
  function FirstMatch(cands: seq<Endpoint>, path: string): (r: Result<Option<Endpoint>>)
    ensures r.Raised? ==> r.exc == IndexError
    ensures r.Ok? && r.value.Some? ==>
      && r.value.value in cands
      && CommonName(r.value.value.path).Ok? && CommonName(path).Ok?
      && CommonName(r.value.value.path).value == CommonName(path).value
    ensures r.Ok? && r.value.None? ==>
      forall c :: c in cands ==>
        (CommonName(c.path).Ok? && CommonName(path).Ok? && CommonName(c.path).value != CommonName(path).value)
  {
    if cands == [] then Ok(None)
    else
      assert forall x :: x in cands ==> x == cands[0] || x in cands[1..];
      match CommonName(cands[0].path)
      case Raised(e) => Raised(e)
      case Ok(n1) =>
        match CommonName(path)
        case Raised(e) => Raised(e)
        case Ok(n2) => if n1 == n2 then Ok(Some(cands[0])) else FirstMatch(cands[1..], path)
  }

  /** The legacy loop over long endpoints: each is paired with its short, or dropped. */
  function PairLongs(longs: seq<Endpoint>, shorts: seq<Endpoint>): (r: Result<seq<Interface>>)
    ensures r.Raised? ==> r.exc == IndexError
    ensures r.Ok? ==> |r.value| <= |longs|
    ensures r.Ok? ==> forall i :: 0 <= i < |r.value| ==>
      && r.value[i].short.Some? && r.value[i].short.value in shorts
      && r.value[i].long.Some? && r.value[i].long.value in longs
      && r.value[i].extraLong.None?
      && CommonName(r.value[i].short.value.path) == CommonName(r.value[i].long.value.path)
  {
    if longs == [] then Ok([])
    else
      match FirstMatch(shorts, longs[0].path)
      case Raised(e) => Raised(e)
      case Ok(m) =>
        match PairLongs(longs[1..], shorts)
        case Raised(e) => Raised(e)
        case Ok(rest) =>
          assert forall x :: x in longs[1..] ==> x in longs;
          if m.Some? then Ok([Interface(m, Some(longs[0]), None)] + rest) else Ok(rest)
  }

  /**
   * The legacy collection of one product: a single short and a single long
   * endpoint are paired; otherwise each long endpoint is paired with the
   * first short one sharing its common name, and unmatched ones are dropped.
   */
  function Legacy(coll: seq<Endpoint>): (r: Result<seq<Interface>>)
    ensures r.Raised? ==> r.exc == IndexError
    ensures r.Ok? ==> forall i :: 0 <= i < |r.value| ==>
      && r.value[i].short.Some? && r.value[i].short.value in coll && r.value[i].short.value.usage == 1
      && r.value[i].long.Some? && r.value[i].long.value in coll && r.value[i].long.value.usage == 2
      && r.value[i].extraLong.None?
  {
    var short := Filter(coll, (d: Endpoint) => d.usage == 1);
    var long := Filter(coll, (d: Endpoint) => d.usage == 2);
    if |short| == 1 && |long| == 1 then Ok([Interface(Some(short[0]), Some(long[0]), None)])
    else PairLongs(long, short)
  }

  /** The modern loop over long endpoints: one interface each, with whatever matches. */
  function MatchLongs(longs: seq<Endpoint>, shorts: seq<Endpoint>, xls: seq<Endpoint>): (r: Result<seq<Interface>>)
    ensures r.Raised? ==> r.exc == IndexError
    ensures r.Ok? ==> |r.value| == |longs|
    ensures r.Ok? ==> forall i :: 0 <= i < |r.value| ==>
      && r.value[i].long == Some(longs[i])
      && (r.value[i].short.Some? ==> r.value[i].short.value in shorts)
      && (r.value[i].extraLong.Some? ==> r.value[i].extraLong.value in xls)
  {
    if longs == [] then Ok([])
    else
      match FirstMatch(shorts, longs[0].path)
      case Raised(e) => Raised(e)
      case Ok(m) =>
        match FirstMatch(xls, longs[0].path)
        case Raised(e) => Raised(e)
        case Ok(x) =>
          match MatchLongs(longs[1..], shorts, xls)
          case Raised(e) => Raised(e)
          case Ok(rest) => Ok([Interface(m, Some(longs[0]), x)] + rest)
  }

  /**
   * The modern collection of one product: the low byte of the usage tells
   * the report length, the high byte of the first record the capabilities.
   * When the capabilities count every record, one interface is built from
   * the first endpoint of each announced kind (IndexError if one is
   * missing); otherwise each long endpoint gets its own interface.
   */
  function Modern(coll: seq<Endpoint>, decode: int -> Capabilities): (r: Result<seq<Interface>>)
    requires coll != []
    ensures r.Raised? ==> r.exc == IndexError
    ensures r.Ok? ==> forall i :: 0 <= i < |r.value| ==>
      && r.value[i].long.Some? && r.value[i].long.value in coll && r.value[i].long.value.usage % 256 == 2
      && (r.value[i].short.Some? ==>
            r.value[i].short.value in coll && r.value[i].short.value.usage % 256 == 1)
      && (r.value[i].extraLong.Some? ==>
            r.value[i].extraLong.value in coll && r.value[i].extraLong.value.usage % 256 == 4)
  {
    var short := Filter(coll, (d: Endpoint) => d.usage % 256 == 1);
    var long := Filter(coll, (d: Endpoint) => d.usage % 256 == 2);
    var xl := Filter(coll, (d: Endpoint) => d.usage % 256 == 4);
    var caps := decode(coll[0].usage / 256);
    if caps.nb == |coll| then
      if (caps.hasShort && short == []) || long == [] || (caps.hasXl && xl == []) then Raised(IndexError)
      else Ok([Interface(if caps.hasShort then Some(short[0]) else None, Some(long[0]),
                         if caps.hasXl then Some(xl[0]) else None)])
    else MatchLongs(long, short, xl)
  }

  function Page(itf: Interface): int
  {
    if itf.long.Some? then itf.long.value.usagePage else 0
  }

  /**
   * The shape of an interface the discovery produces: a long endpoint on one
   * of the two HID++ pages, every other endpoint from the same product and
   * page, with the report length its usage announces. A legacy interface
   * always has its short endpoint and never an extra-long one.
   */
  predicate Shaped(itf: Interface)
  {
    && itf.long.Some?
    && var l := itf.long.value;
    && (l.usagePage == LegacyPage || l.usagePage == ModernPage)
    && (itf.short.Some? ==>
          itf.short.value.productId == l.productId && itf.short.value.usagePage == l.usagePage)
    && (itf.extraLong.Some? ==>
          itf.extraLong.value.productId == l.productId && itf.extraLong.value.usagePage == l.usagePage)
    && (l.usagePage == LegacyPage ==>
          itf.short.Some? && itf.extraLong.None? && l.usage == 2 && itf.short.value.usage == 1)
    && (l.usagePage == ModernPage ==>
          && l.usage % 256 == 2
          && (itf.short.Some? ==> itf.short.value.usage % 256 == 1)
          && (itf.extraLong.Some? ==> itf.extraLong.value.usage % 256 == 4))
  }

  /** Every endpoint of the interface is one of the records. */
  predicate From(itf: Interface, devs: seq<Endpoint>)
  {
    && (itf.short.Some? ==> itf.short.value in devs)
    && (itf.long.Some? ==> itf.long.value in devs)
    && (itf.extraLong.Some? ==> itf.extraLong.value in devs)
  }

  /** The records of one product. */
  function Group(kept: seq<Endpoint>, pid: int): seq<Endpoint>
  {
    Filter(kept, (d: Endpoint) => d.productId == pid)
  }

  /** The records of one product on one usage page. */
  function Collection(kept: seq<Endpoint>, pid: int, page: int): seq<Endpoint>
  {
    Filter(Group(kept, pid), (d: Endpoint) => d.usagePage == page)
  }

  lemma {:induction false} InCollection(kept: seq<Endpoint>, pid: int, page: int, x: Endpoint)
    requires x in Collection(kept, pid, page)
    ensures x in kept && x.productId == pid && x.usagePage == page
  {
    var g := Group(kept, pid);
    var c := Collection(kept, pid, page);
    var i :| 0 <= i < |c| && c[i] == x;
    assert x in g;
    var j :| 0 <= j < |g| && g[j] == x;
  }

  lemma {:induction false} LegacyShaped(kept: seq<Endpoint>, pid: int, a: seq<Interface>)
    requires Legacy(Collection(kept, pid, LegacyPage)) == Ok(a)
    ensures forall i :: 0 <= i < |a| ==>
      Shaped(a[i]) && From(a[i], kept) && a[i].long.value.productId == pid && Page(a[i]) == LegacyPage
  {
    forall i | 0 <= i < |a|
      ensures Shaped(a[i]) && From(a[i], kept) && a[i].long.value.productId == pid && Page(a[i]) == LegacyPage
    {
      InCollection(kept, pid, LegacyPage, a[i].short.value);
      InCollection(kept, pid, LegacyPage, a[i].long.value);
    }
  }

  lemma {:induction false} ModernShaped(kept: seq<Endpoint>, pid: int, decode: int -> Capabilities, b: seq<Interface>)
    requires Collection(kept, pid, ModernPage) != []
    requires Modern(Collection(kept, pid, ModernPage), decode) == Ok(b)
    ensures forall i :: 0 <= i < |b| ==>
      Shaped(b[i]) && From(b[i], kept) && b[i].long.value.productId == pid && Page(b[i]) == ModernPage
  {
    forall i | 0 <= i < |b|
      ensures Shaped(b[i]) && From(b[i], kept) && b[i].long.value.productId == pid && Page(b[i]) == ModernPage
    {
      InCollection(kept, pid, ModernPage, b[i].long.value);
      if b[i].short.Some? {
        InCollection(kept, pid, ModernPage, b[i].short.value);
      }
      if b[i].extraLong.Some? {
        InCollection(kept, pid, ModernPage, b[i].extraLong.value);
      }
    }
  }

  /**
   * The interfaces of one product: the records with its product id, split
   * by usage page, the legacy collection's interfaces first, then the
   * modern one's.
   */
  function ProductInterfaces(kept: seq<Endpoint>, pid: int, decode: int -> Capabilities)
    : (r: Result<seq<Interface>>)
    ensures r.Raised? ==> r.exc == IndexError
    ensures r.Ok? ==> forall i :: 0 <= i < |r.value| ==>
      Shaped(r.value[i]) && From(r.value[i], kept) && r.value[i].long.value.productId == pid
    ensures r.Ok? ==> forall i, j :: 0 <= i < j < |r.value| ==>
      Page(r.value[i]) == ModernPage ==> Page(r.value[j]) == ModernPage
  {
    var legacy := Collection(kept, pid, LegacyPage);
    var modern := Collection(kept, pid, ModernPage);
    match (if legacy != [] then Legacy(legacy) else Ok([]))
    case Raised(e) => Raised(e)
    case Ok(a) =>
      match (if modern != [] then Modern(modern, decode) else Ok([]))
      case Raised(e) => Raised(e)
      case Ok(b) =>
        LegacyShaped(kept, pid, a);
        if modern != [] then
          ModernShaped(kept, pid, decode, b);
          Ok(a + b)
        else Ok(a + b)
  }

  // ------------------------------------------------------------- the list

  /** The interfaces of the products in `pids`, product after product. */
  function InterfacesOf(kept: seq<Endpoint>, pids: seq<int>, decode: int -> Capabilities)
    : (r: Result<seq<Interface>>)
    ensures r.Raised? ==> r.exc == IndexError
    ensures r.Ok? ==> forall i :: 0 <= i < |r.value| ==>
      Shaped(r.value[i]) && From(r.value[i], kept) && r.value[i].long.value.productId in pids
    decreases |pids|
  {
    if pids == [] then Ok([])
    else
      match ProductInterfaces(kept, pids[0], decode)
      case Raised(e) => Raised(e)
      case Ok(a) =>
        match InterfacesOf(kept, pids[1..], decode)
        case Raised(e) => Raised(e)
        case Ok(b) =>
          assert forall p :: p in pids[1..] ==> p in pids;
          Ok(a + b)
  }

  /**
   * `get_interfaces_list` after the enumeration, with the capability decoder
   * as a parameter: the records of the vendor with a usage, a page and a
   * path, grouped by product in order of first appearance.
   */
  function Interfaces(raw: seq<Endpoint>, vid: int, decode: int -> Capabilities): (r: Result<seq<Interface>>)
    ensures r.Raised? ==> r.exc == IndexError
    ensures r.Ok? ==> forall i :: 0 <= i < |r.value| ==>
      && Shaped(r.value[i]) && From(r.value[i], raw)
      && Kept(vid, r.value[i].long.value)
      && (r.value[i].short.Some? ==> Kept(vid, r.value[i].short.value))
      && (r.value[i].extraLong.Some? ==> Kept(vid, r.value[i].extraLong.value))
  {
    var kept := Filter(raw, (d: Endpoint) => Kept(vid, d));
    var r := InterfacesOf(kept, Pids(kept), decode);
    if r.Ok? then
      KeptFrom(raw, vid, kept, r.value);
      r
    else r
  }

  lemma {:induction false} KeptFrom(raw: seq<Endpoint>, vid: int, kept: seq<Endpoint>, out: seq<Interface>)
    requires kept == Filter(raw, (d: Endpoint) => Kept(vid, d))
    requires forall i :: 0 <= i < |out| ==> Shaped(out[i]) && From(out[i], kept)
    ensures forall i :: 0 <= i < |out| ==>
      && Shaped(out[i]) && From(out[i], raw)
      && Kept(vid, out[i].long.value)
      && (out[i].short.Some? ==> Kept(vid, out[i].short.value))
      && (out[i].extraLong.Some? ==> Kept(vid, out[i].extraLong.value))
  {
    forall x | x in kept
      ensures x in raw && Kept(vid, x)
    {
      var i :| 0 <= i < |kept| && kept[i] == x;
    }
  }

  /** `get_interfaces_list` as written. */
  function GetInterfacesList(raw: seq<Endpoint>, vid: int): (r: Result<seq<Interface>>)
    ensures r.Raised? ==> r.exc == IndexError
    ensures r.Ok? ==> forall i :: 0 <= i < |r.value| ==>
      Shaped(r.value[i]) && From(r.value[i], raw) && Kept(vid, r.value[i].long.value)
  {
    Interfaces(raw, vid, GetCapabilities)
  }

  /** `get_interfaces_list` with the capability flags each in its own field. */
  function GetInterfacesListCorrected(raw: seq<Endpoint>, vid: int): (r: Result<seq<Interface>>)
    ensures r.Raised? ==> r.exc == IndexError
    ensures r.Ok? ==> forall i :: 0 <= i < |r.value| ==>
      Shaped(r.value[i]) && From(r.value[i], raw) && Kept(vid, r.value[i].long.value)
  {
    Interfaces(raw, vid, GetCapabilitiesCorrected)
  }

  // ------------------------------------------------------------- ordering

  /** The position of `x` in `s`, or `|s|` when absent. */
  function IndexOf(s: seq<int>, x: int): (k: nat)
    ensures k <= |s|
    ensures k < |s| <==> x in s
    ensures k < |s| ==> s[k] == x
  {
    if s == [] then 0 else if s[0] == x then 0 else 1 + IndexOf(s[1..], x)
  }

  /** Where an interface falls: its product's position, legacy before modern. */
  function Rank(pids: seq<int>, itf: Interface): int
  {
    if itf.long.None? then 0
    else 2 * IndexOf(pids, itf.long.value.productId) + (if itf.long.value.usagePage == LegacyPage then 0 else 1)
  }

  /**
   * The list is grouped by product, in the order the products first appear,
   * and within a product the legacy interfaces come before the modern ones.
   */
  lemma {:induction false} InterfacesOrdered(kept: seq<Endpoint>, pids: seq<int>, decode: int -> Capabilities)
    requires forall i, j :: 0 <= i < j < |pids| ==> pids[i] != pids[j]
    ensures var r := InterfacesOf(kept, pids, decode);
      r.Ok? ==> forall i, j :: 0 <= i < j < |r.value| ==> Rank(pids, r.value[i]) <= Rank(pids, r.value[j])
    decreases |pids|
  {
    if pids != [] {
      var r := InterfacesOf(kept, pids, decode);
      if r.Ok? {
        assert ProductInterfaces(kept, pids[0], decode).Ok? && InterfacesOf(kept, pids[1..], decode).Ok?;
        var a := ProductInterfaces(kept, pids[0], decode).value;
        var b := InterfacesOf(kept, pids[1..], decode).value;
        assert r.value == a + b;
        InterfacesOrdered(kept, pids[1..], decode);
        assert forall i, j :: 0 <= i < j < |b| ==> Rank(pids[1..], b[i]) <= Rank(pids[1..], b[j]);
        assert forall i :: 0 <= i < |b| ==> b[i].long.Some? && b[i].long.value.productId in pids[1..];
        assert forall i :: 0 <= i < |a| ==> Page(a[i]) == LegacyPage || Page(a[i]) == ModernPage;
        OrderedConcat(pids, a, b);
      }
    }
  }

  /** One product's interfaces, then later products' in order: the whole is in order. */
  lemma {:induction false} OrderedConcat(pids: seq<int>, a: seq<Interface>, b: seq<Interface>)
    requires pids != []
    requires forall i, j :: 0 <= i < j < |pids| ==> pids[i] != pids[j]
    requires forall i :: 0 <= i < |a| ==> a[i].long.Some? && a[i].long.value.productId == pids[0]
    requires forall i, j :: 0 <= i < j < |a| ==> Page(a[i]) == ModernPage ==> Page(a[j]) == ModernPage
    requires forall i :: 0 <= i < |a| ==> Page(a[i]) == LegacyPage || Page(a[i]) == ModernPage
    requires forall i :: 0 <= i < |b| ==> b[i].long.Some? && b[i].long.value.productId in pids[1..]
    requires forall i, j :: 0 <= i < j < |b| ==> Rank(pids[1..], b[i]) <= Rank(pids[1..], b[j])
    ensures forall i, j :: 0 <= i < j < |a + b| ==> Rank(pids, (a + b)[i]) <= Rank(pids, (a + b)[j])
  {
    forall k | 0 <= k < |b|
      ensures Rank(pids, b[k]) == Rank(pids[1..], b[k]) + 2
    {
      var p := b[k].long.value.productId;
      var m :| 0 <= m < |pids[1..]| && pids[1..][m] == p;
      assert pids[m + 1] == p;
    }
    forall i | 0 <= i < |a|
      ensures Rank(pids, a[i]) == (if Page(a[i]) == LegacyPage then 0 else 1)
    {
    }
    var r := a + b;
    forall i, j | 0 <= i < j < |r|
      ensures Rank(pids, r[i]) <= Rank(pids, r[j])
    {
      if j < |a| {
        assert r[i] == a[i] && r[j] == a[j];
      } else if i >= |a| {
        assert r[i] == b[i - |a|] && r[j] == b[j - |a|];
      } else {
        assert r[i] == a[i] && r[j] == b[j - |a|];
      }
    }
  }

  /** The whole list is ordered by product and page. */
  lemma {:induction false} ListOrdered(raw: seq<Endpoint>, vid: int, decode: int -> Capabilities)
    ensures var kept := Filter(raw, (d: Endpoint) => Kept(vid, d));
      var r := Interfaces(raw, vid, decode);
      r.Ok? ==> forall i, j :: 0 <= i < j < |r.value| ==> Rank(Pids(kept), r.value[i]) <= Rank(Pids(kept), r.value[j])
  {
    var kept := Filter(raw, (d: Endpoint) => Kept(vid, d));
    InterfacesOrdered(kept, Pids(kept), decode);
  }

  // ---------------------------------------------------- capability flags

  /**
   * A modern collection that holds one record per announced report length,
   * with the announced kinds present: the corrected decoding gives one
   * interface with a short endpoint exactly when bit 0 announces short
   * reports, and an extra-long one exactly when bit 2 announces them.
   */
  lemma {:induction false} CorrectedFollowsCapabilities(coll: seq<Endpoint>)
    requires coll != []
    requires var caps := coll[0].usage / 256; BitAt(caps, 0) + BitAt(caps, 1) + BitAt(caps, 2) == |coll|
    requires KindIn(coll, 2)
    requires BitAt(coll[0].usage / 256, 0) == 1 ==> KindIn(coll, 1)
    requires BitAt(coll[0].usage / 256, 2) == 1 ==> KindIn(coll, 4)
    ensures var r := Modern(coll, GetCapabilitiesCorrected);
      && r.Ok? && |r.value| == 1
      && (r.value[0].short.Some? <==> BitAt(coll[0].usage / 256, 0) == 1)
      && (r.value[0].extraLong.Some? <==> BitAt(coll[0].usage / 256, 2) == 1)
  {
    KindsPresent(coll);
  }

  /** As written, the same collection gets its short endpoint from bit 2 and its extra-long one from bit 0. */
  lemma {:induction false} AsWrittenSwapsShortAndExtraLong(coll: seq<Endpoint>)
    requires coll != []
    requires var caps := coll[0].usage / 256; BitAt(caps, 0) + BitAt(caps, 1) + BitAt(caps, 2) == |coll|
    ensures var r := Modern(coll, GetCapabilities);
      r.Ok? ==>
        && |r.value| == 1
        && (r.value[0].short.Some? <==> BitAt(coll[0].usage / 256, 2) == 1)
        && (r.value[0].extraLong.Some? <==> BitAt(coll[0].usage / 256, 0) == 1)
  {
  }

  lemma {:induction false} KindsPresent(coll: seq<Endpoint>)
    ensures forall k: int :: KindIn(coll, k) ==> Filter(coll, (d: Endpoint) => d.usage % 256 == k) != []
  {
    forall k: int | KindIn(coll, k)
      ensures Filter(coll, (d: Endpoint) => d.usage % 256 == k) != []
    {
      var d :| d in coll && d.usage % 256 == k;
      assert d in Filter(coll, (d: Endpoint) => d.usage % 256 == k);
    }
  }

  /** The collection has an endpoint of report kind k. */
  predicate KindIn(coll: seq<Endpoint>, k: int)
  {
    exists d :: d in coll && d.usage % 256 == k
  }

  lemma {:induction false} FilterTwo(a: Endpoint, b: Endpoint, f: Endpoint -> bool)
    ensures Filter([a, b], f) == (if f(a) then [a] else []) + (if f(b) then [b] else [])
  {
    assert [a, b][1..] == [b];
    assert [b][1..] == [];
  }

  /**
   * A device announcing short and long reports (capabilities 0b011) in the
   * high byte of its short record's usage, with one record of each kind.
   */
  predicate ShortLongDevice(s: Endpoint, l: Endpoint)
  {
    s.usage == 0x0301 && l.usage % 256 == 2
  }

  /**
   * As written, such a device is announced with extra-long reports and no
   * short ones, so the lookup of its missing extra-long endpoint raises
   * IndexError.
   */
  lemma {:induction false} ShortLongDeviceBreaksDiscovery(s: Endpoint, l: Endpoint)
    requires ShortLongDevice(s, l)
    ensures Modern([s, l], GetCapabilities) == Raised(IndexError)
  {
    var c := GetCapabilities(3);
    assert c.nb == 2 && c.hasXl;
    assert [s, l][0].usage / 256 == 3;
    FilterTwo(s, l, (d: Endpoint) => d.usage % 256 == 4);
    assert Filter([s, l], (d: Endpoint) => d.usage % 256 == 4) == [];
  }

  /** With the flags in place, the same device yields its interface: short and long, no extra-long. */
  lemma {:induction false} ShortLongDeviceCorrected(s: Endpoint, l: Endpoint)
    requires ShortLongDevice(s, l)
    ensures Modern([s, l], GetCapabilitiesCorrected) == Ok([Interface(Some(s), Some(l), None)])
  {
    var c := GetCapabilitiesCorrected(3);
    assert c.nb == 2 && c.hasShort && !c.hasXl;
    assert [s, l][0].usage / 256 == 3;
    FilterTwo(s, l, (d: Endpoint) => d.usage % 256 == 1);
    assert Filter([s, l], (d: Endpoint) => d.usage % 256 == 1) == [s];
    FilterTwo(s, l, (d: Endpoint) => d.usage % 256 == 2);
    assert Filter([s, l], (d: Endpoint) => d.usage % 256 == 2) == [l];
  }

  /** One product whose interfaces raise leaves the whole list unbuilt: the error escapes the loop. */
  lemma {:induction false} OneFailureSinksList(kept: seq<Endpoint>, pids: seq<int>, decode: int -> Capabilities, k: nat)
    requires k < |pids| && ProductInterfaces(kept, pids[k], decode).Raised?
    ensures InterfacesOf(kept, pids, decode).Raised?
    decreases k, 1
  {
    if k == 0 {
      HeadFailureStops(kept, pids, decode);
    } else {
      LaterFailureSinksList(kept, pids, decode, k);
    }
  }

  /** A failure after the first product leaves the rest of the list unbuilt, hence the whole of it. */
  lemma {:induction false} LaterFailureSinksList(kept: seq<Endpoint>, pids: seq<int>, decode: int -> Capabilities, k: nat)
    requires 0 < k < |pids| && ProductInterfaces(kept, pids[k], decode).Raised?
    ensures InterfacesOf(kept, pids, decode).Raised?
    decreases k, 0
  {
    assert pids[1..][k - 1] == pids[k];
    OneFailureSinksList(kept, pids[1..], decode, k - 1);
    TailFailureStops(kept, pids, decode);
  }

  /** The list is unbuilt when its first product raises. */
  lemma {:induction false} HeadFailureStops(kept: seq<Endpoint>, pids: seq<int>, decode: int -> Capabilities)
    requires pids != [] && ProductInterfaces(kept, pids[0], decode).Raised?
    ensures InterfacesOf(kept, pids, decode).Raised?
  {
  }

  /** The list is unbuilt when the rest of it is unbuilt. */
  lemma {:induction false} TailFailureStops(kept: seq<Endpoint>, pids: seq<int>, decode: int -> Capabilities)
    requires pids != [] && InterfacesOf(kept, pids[1..], decode).Raised?
    ensures InterfacesOf(kept, pids, decode).Raised?
  {
  }
}
