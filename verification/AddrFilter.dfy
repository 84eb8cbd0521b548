/** The allow and deny lists of a port forwarder: from the text of the option to
    the answer for an address and port. */
module AddrFilter {
  import opened Bytes
  import opened CStrings
  import opened AddrParser

  type Addr4 = a: seq<Byte> | |a| == 4 witness [0, 0, 0, 0]

  type Addr16 = a: seq<Byte> | |a| == 16 witness [0, 0, 0, 0, 0, 0, 0, 0, 0, 0, 0, 0, 0, 0, 0, 0]

  /** The address and port readers of the C library: `inet_pton` for both
      families, and `atoi` with `htons`. */
  datatype Library = Library(v4: string -> Option<Addr4>, v6: string -> Option<Addr16>, port: string -> nat)

  /** The IPv4-mapped address ::ffff:a (section 2.5.5.2 of RFC 4291). */
  function Mapped(a: Addr4): Addr16 {
    [0, 0, 0, 0, 0, 0, 0, 0, 0, 0, 0xff, 0xff] + a
  }

  predicate IsMapped(a: Addr16) {
    a[..12] == [0, 0, 0, 0, 0, 0, 0, 0, 0, 0, 0xff, 0xff]
  }

  lemma MappedIs(a: Addr16)
    ensures IsMapped(a) <==> a == Mapped(a[12..])
  {
    assert a == a[..12] + a[12..];
  }

  // ------------------------------------------------------------------ the list

  datatype Node = Node(ty: int, action: int, addr: Addr16, port: nat)

  datatype List = Nil | Cons(node: Node, next: List)

  predicate Matches(n: Node, ty: int, addr: Addr16, port: nat) {
    ty == n.ty && port == n.port && ((ty == 4 && addr[..4] == n.addr[..4]) || (ty == 6 && addr == n.addr))
  }

  /** The action of the first node that matches, or of the catch-all. */
  function Contains(l: List, ty: int, addr: Addr16, port: nat): int {
    match l
    case Nil => 0
    case Cons(n, next) =>
      if n.ty == 0 || Matches(n, ty, addr, port) then n.action else Contains(next, ty, addr, port)
  }

  /** What an item of a list stands for. */
  datatype Peer = V4(a4: Addr4, port: nat) | V6(a6: Addr16, port: nat)

  /** Addresses of both families in one space. */
  function Canonical(ty: int, addr: Addr16): Addr16 {
    if ty == 4 then Mapped(addr[..4]) else addr
  }

  predicate Denotes(p: Peer, ty: int, addr: Addr16, port: nat) {
    p.port == port && Canonical(ty, addr) == match p case V4(a, _) => Mapped(a) case V6(a, _) => a
  }

  function Padded(a: Addr4): Addr16 {
    a + [0, 0, 0, 0, 0, 0, 0, 0, 0, 0, 0, 0]
  }

  /** The list with the nodes of an item put in front: an IPv4 item under both
      families, an IPv6 item under IPv4 too if it is mapped. */
  function Added(l: List, p: Peer, action: int): List {
    match p
    case V4(a, port) => Cons(Node(6, action, Mapped(a), port), Cons(Node(4, action, Padded(a), port), l))
    case V6(a, port) =>
      var l6 := Cons(Node(6, action, a, port), l);
      if IsMapped(a) then Cons(Node(4, action, Padded(a[12..]), port), l6) else l6
  }

  /** An item takes effect on exactly the addresses it denotes, in either family. */
  lemma AddedContains(l: List, p: Peer, action: int, ty: int, addr: Addr16, port: nat)
    requires ty == 4 || ty == 6
    ensures Contains(Added(l, p, action), ty, addr, port)
            == if Denotes(p, ty, addr, port) then action else Contains(l, ty, addr, port)
  {
    match p
    case V4(a, q) =>
      assert Padded(a)[..4] == a;
      MappedInjective(addr[..4], a);
    case V6(a, q) =>
      MappedIs(a);
      if IsMapped(a) {
        assert Padded(a[12..])[..4] == a[12..];
        MappedInjective(addr[..4], a[12..]);
      } else {
        assert IsMapped(Mapped(addr[..4]));
      }
  }

  lemma MappedInjective(a: Addr4, b: Addr4)
    ensures Mapped(a) == Mapped(b) <==> a == b
  {
    assert Mapped(a)[12..] == a && Mapped(b)[12..] == b;
  }

  /** How lists come about: catch-alls and items, with any actions. */
  datatype Addition = CatchAll(action: int) | Item(peer: Peer, action: int)

  function Built(adds: seq<Addition>): List {
    if adds == [] then Nil
    else match adds[|adds| - 1]
      case CatchAll(action) => Cons(Node(0, action, Padded([0, 0, 0, 0]), 0), Built(adds[..|adds| - 1]))
      case Item(p, action) => Added(Built(adds[..|adds| - 1]), p, action)
  }

  /** Whatever has been added, in whatever order and with whatever actions, an
      address gets the same answer in every form it has: an IPv4 address as such
      and as its IPv4-mapped address. */
  lemma {:induction false} FormsAgree(adds: seq<Addition>, a: Addr4, port: nat)
    ensures Contains(Built(adds), 4, Padded(a), port) == Contains(Built(adds), 6, Mapped(a), port)
  {
    if adds != [] {
      var before := adds[..|adds| - 1];
      FormsAgree(before, a, port);
      assert Padded(a)[..4] == a;
      match adds[|adds| - 1]
      case CatchAll(action) =>
      case Item(p, action) =>
        AddedContains(Built(before), p, action, 4, Padded(a), port);
        AddedContains(Built(before), p, action, 6, Mapped(a), port);
    }
  }

  // ------------------------------------------------------- items of the option

  /** What one item names, if it can be read. */
  function PeerOf(str: string, lib: Library): Option<Peer> {
    var o := Parse(str, false);
    if o.None? then None
    else
      var host, port := Read(o.value.0, o.value.1.addr), Read(o.value.0, o.value.1.port);
      if host.None? || port.None? then None
      else if lib.v4(host.value).Some? then Some(V4(lib.v4(host.value).value, lib.port(port.value)))
      else if lib.v6(host.value).Some? then Some(V6(lib.v6(host.value).value, lib.port(port.value)))
      else None
  }

  /** An item printed as ADDR:PORT, in brackets if need be, names what the library
      makes of its address, IPv4 first, and of its port. */
  lemma PeerOfPrinted(host: string, bracketed: bool, port: string, lib: Library)
    requires Printable(host, bracketed, Some(port), None)
    ensures PeerOf(Print(host, bracketed, Some(port), None), lib) ==
            if lib.v4(host).Some? then Some(V4(lib.v4(host).value, lib.port(port)))
            else if lib.v6(host).Some? then Some(V6(lib.v6(host).value, lib.port(port)))
            else None
  {
    var item := Print(host, bracketed, Some(port), None);
    ParseInvertsPrint(host, bracketed, Some(port), None, "", false);
    assert item + "" == item;
  }

  /** The text up to the next comma or the end. */
  function ItemEnd(str: string): (n: nat)
    ensures n <= |str| && ',' !in str[..n] && '\0' !in str[..n]
    ensures n < |str| ==> str[n] == ',' || str[n] == '\0'
  {
    if str == "" || str[0] == ',' || str[0] == '\0' then 0
    else
      var n := ItemEnd(str[1..]) + 1;
      assert str[..n] == [str[0]] + str[1..][..n - 1];
      n
  }

  /** The non-empty pieces between commas. */
  function Items(str: string): seq<string>
    decreases |str|
  {
    if str == "" || str[0] == '\0' then []
    else if str[0] == ',' then Items(str[1..])
    else
      var n := ItemEnd(str);
      assert n > 0;
      [str[..n]] + Items(str[n..])
  }

  /** Texts with commas between them. */
  function Commas(parts: seq<string>): string {
    if parts == [] then "" else if |parts| == 1 then parts[0] else parts[0] + "," + Commas(parts[1..])
  }

  function NonEmpty(parts: seq<string>): seq<string> {
    if parts == [] then [] else (if parts[0] == "" then [] else [parts[0]]) + NonEmpty(parts[1..])
  }

  /** The items of a list are the texts that it was joined from, but for empty ones. */
  lemma {:induction false} ItemsOfCommas(parts: seq<string>)
    requires forall p :: p in parts ==> ',' !in p && '\0' !in p
    ensures Items(Commas(parts)) == NonEmpty(parts)
  {
    hide ItemEnd;
    if parts != [] {
      var x, rest := parts[0], Commas(parts[1..]);
      ItemsOfCommas(parts[1..]);
      if |parts| == 1 {
        assert parts[1..] == [];
        ItemsBehind(x, "");
        assert x + "" == x;
      } else {
        ItemsBehind(x, "," + rest);
        assert x + "," + rest == x + ("," + rest);
        assert ("," + rest)[1..] == rest;
      }
    }
  }

  /** One text, and what follows behind a comma. */
  lemma ItemsBehind(x: string, tail: string)
    requires ',' !in x && '\0' !in x && (tail == "" || tail[0] == ',')
    ensures Items(x + tail) == (if x == "" then [] else [x]) + Items(tail)
  {
    hide ItemEnd;
    var str := x + tail;
    if x == "" {
      assert str == tail;
    } else {
      assert str[0] == x[0];
      ItemEndIs(str, |x|);
      assert str[..|x|] == x && str[|x|..] == tail;
    }
  }

  lemma {:induction false} ItemEndIs(str: string, n: nat)
    requires n <= |str| && (n < |str| ==> str[n] == ',' || str[n] == '\0')
    requires forall k :: 0 <= k < n ==> str[k] != ',' && str[k] != '\0'
    ensures ItemEnd(str) == n
  {
    if n > 0 {
      ItemEndIs(str[1..], n - 1);
    }
  }

  /** Two buffers that agree up to n and end there, one of them perhaps by a comma. */
  predicate SameText(b: string, c: string, n: nat) {
    && n < |b| && |c| == n + 1 && b[|b| - 1] == '\0' && c[n] == '\0'
    && b[..n] == c[..n] && (b[n] == '\0' || b[n] == ',')
  }

  /** They are cut alike, and the same parts are found. */
  predicate SameOutcome(o: Outcome, p: Outcome, len: nat, n: nat) {
    (o.Some? <==> p.Some?)
    && (o.Some? ==> |p.value.0| == n + 1 <= |o.value.0| == len && o.value.0[..n + 1] == p.value.0
                    && p.value.0[n] == '\0' && o.value.1 == p.value.1)
  }

  lemma SameCut(b: string, c: string, n: nat, i: nat)
    requires SameText(b, c, n) && i < n
    ensures SameText(b[i := '\0'], c[i := '\0'], n) && b[i] == c[i]
  {
    assert b[i] == b[..n][i] == c[i];
    assert b[i := '\0'][..n] == b[..n][i := '\0'] && c[i := '\0'][..n] == c[..n][i := '\0'];
  }

  lemma SameEnd(b: string, c: string, n: nat, s: nat, r: Refs)
    requires SameText(b, c, n)
    ensures SameOutcome(Scan(b, n, s, r, false), Scan(c, n, s, r, false), |b|, n)
  {
    assert b[n := '\0'][..n + 1] == c && (b[n] == '\0' ==> b[..n + 1] == c);
  }

  /** Two buffers that agree up to where the text ends are scanned alike. */
  lemma {:induction false} ScanAgrees(b: string, c: string, n: nat, i: nat, s: nat, r: Refs)
    requires SameText(b, c, n) && i <= n && forall k :: i <= k < n ==> b[k] != ',' && b[k] != '\0'
    ensures SameOutcome(Scan(b, i, s, r, false), Scan(c, i, s, r, false), |b|, n)
    decreases n - i, if s == 4 then 1 else 0
  {
    hide SameOutcome;
    if i == n {
      SameEnd(b, c, n, s, r);
    } else {
      SameCut(b, c, n, i);
      var b', c' := b[i := '\0'], c[i := '\0'];
      match b[i]
      case ':' =>
        if s == 1 {
          ScanAgrees(b', c', n, i + 1, 2, r.(port := Some(i + 1)));
        } else if s == 6 {
          ScanAgrees(b', c', n, i + 1, 7, r.(port := Some(i + 1)));
        } else if s == 4 || s == 5 {
          ScanAgrees(b, c, n, i + 1, 5, r);
        } else {
          BothFail(|b|, n);
        }
      case '/' =>
        if s == 1 || s == 2 || s == 6 || s == 7 {
          ScanAgrees(b', c', n, i + 1, s, r);
        } else {
          BothFail(|b|, n);
        }
      case '[' =>
        if s == 0 {
          ScanAgrees(b, c, n, i + 1, 4, r.(addr := Some(i + 1)));
        } else {
          BothFail(|b|, n);
        }
      case ']' =>
        if s == 5 {
          ScanAgrees(b', c', n, i + 1, 6, r);
        } else {
          BothFail(|b|, n);
        }
      case _ =>
        if s == 0 {
          ScanAgrees(b, c, n, i + 1, 1, r.(addr := Some(i)));
        } else if s == 4 {
          ScanAgrees(b, c, n, i, 5, r);
        } else {
          ScanAgrees(b, c, n, i + 1, s, r);
        }
    }
  }

  lemma BothFail(len: nat, n: nat)
    ensures SameOutcome(None, None, len, n)
  {}

  lemma {:induction false} CStringLocal(s: string, n: nat)
    requires n < |s| && s[n] == '\0'
    ensures CString(s) == CString(s[..n + 1])
    decreases n
  {
    if s[0] != '\0' {
      assert s[..n + 1][1..] == s[1..][..n];
      CStringLocal(s[1..], n - 1);
    }
  }

  /** An item is read the same whether more items follow it or not. */
  lemma PeerOfItem(str: string, lib: Library)
    ensures PeerOf(str, lib) == PeerOf(str[..ItemEnd(str)], lib)
  {
    hide Scan, CString, ItemEnd, Read;
    var n := ItemEnd(str);
    var b, c := str + "\0", str[..n] + "\0";
    ItemText(str);
    ScanAgrees(b, c, n, 0, 0, NO_REFS);
    var o, p := Scan(b, 0, 0, NO_REFS, false), Scan(c, 0, 0, NO_REFS, false);
    if o.Some? {
      ScanInBounds(c, 0, 0, NO_REFS, false);
      ReadLocal(o.value.0, p.value.0, n, o.value.1.addr);
      ReadLocal(o.value.0, p.value.0, n, o.value.1.port);
    }
  }

  lemma ItemText(str: string)
    ensures var n, b := ItemEnd(str), str + "\0";
            SameText(b, str[..n] + "\0", n) && forall k :: 0 <= k < n ==> b[k] != ',' && b[k] != '\0'
  {
    var n, b := ItemEnd(str), str + "\0";
    assert forall k :: 0 <= k < n ==> b[k] == str[..n][k];
    assert b[..n] == str[..n] == (str[..n] + "\0")[..n];
  }

  lemma ReadLocal(f: string, g: string, n: nat, at: Option<nat>)
    requires n < |f| && |g| == n + 1 && f[..n + 1] == g && g[n] == '\0' && (at.Some? ==> at.value <= n)
    ensures Read(f, at) == Read(g, at)
  {
    if at.Some? {
      var p := at.value;
      assert f[n] == f[..n + 1][n];
      CStringLocal(f[p..], n - p);
      assert f[p..][..n - p + 1] == g[p..];
    }
  }

  /** Adds the items one by one; false at the first that cannot be read. */
  function AddItems(l: List, items: seq<string>, action: int, lib: Library): (List, bool)
    decreases |items|
  {
    if items == [] then (l, true)
    else match PeerOf(items[0], lib)
      case None => (l, false)
      case Some(p) => AddItems(Added(l, p, action), items[1..], action, lib)
  }

  /** What the loop of the option parser does from state s on: 0 before an item,
      1 within one that has been read. */
  function Walk(l: List, str: string, s: nat, action: int, lib: Library): (List, bool)
    decreases |str|, if s == 0 then 1 else 0
  {
    if str == "" || str[0] == '\0' then (l, true)
    else if str[0] == ',' then Walk(l, str[1..], 0, action, lib)
    else if s == 0 then
      match PeerOf(str, lib)
      case None => (l, false)
      case Some(p) => Walk(Added(l, p, action), str, 1, action, lib)
    else Walk(l, str[1..], s, action, lib)
  }

  lemma {:induction false} WalkSkips(l: List, str: string, action: int, lib: Library)
    ensures Walk(l, str, 1, action, lib) == Walk(l, str[ItemEnd(str)..], 1, action, lib)
    decreases |str|
  {
    if str == "" || str[0] == ',' || str[0] == '\0' {
      assert str[0..] == str;
    } else {
      WalkSkips(l, str[1..], action, lib);
      assert str[ItemEnd(str)..] == str[1..][ItemEnd(str[1..])..];
    }
  }

  /** Each non-empty item is read exactly once, in order, empty ones not at all. */
  lemma {:induction false} WalkReadsItems(l: List, str: string, action: int, lib: Library)
    ensures Walk(l, str, 0, action, lib) == AddItems(l, Items(str), action, lib)
    decreases |str|
  {
    if str == "" || str[0] == '\0' {
    } else if str[0] == ',' {
      WalkReadsItems(l, str[1..], action, lib);
    } else {
      var n := ItemEnd(str);
      PeerOfItem(str, lib);
      assert Items(str)[0] == str[..n] && Items(str)[1..] == Items(str[n..]);
      var p := PeerOf(str, lib);
      if p.Some? {
        var l' := Added(l, p.value, action);
        WalkSkips(l', str, action, lib);
        WalkReadsItems(l', str[n..], action, lib);
        assert Walk(l', str[n..], 1, action, lib) == Walk(l', str[n..], 0, action, lib);
      }
    }
  }

  // ------------------------------------------------------------- what it means

  /** Some item of the option denotes the address and port. */
  ghost predicate Listed(items: seq<string>, lib: Library, ty: int, addr: Addr16, port: nat) {
    exists i :: i in items && ItemDenotes(i, lib, ty, addr, port)
  }

  predicate ItemDenotes(item: string, lib: Library, ty: int, addr: Addr16, port: nat) {
    PeerOf(item, lib).Some? && Denotes(PeerOf(item, lib).value, ty, addr, port)
  }

  lemma ListedFirst(items: seq<string>, lib: Library, ty: int, addr: Addr16, port: nat)
    requires items != []
    ensures Listed(items, lib, ty, addr, port)
            <==> ItemDenotes(items[0], lib, ty, addr, port) || Listed(items[1..], lib, ty, addr, port)
  {
    assert items == [items[0]] + items[1..];
    if i :| i in items && ItemDenotes(i, lib, ty, addr, port) {
      assert i == items[0] || i in items[1..];
    }
  }

  /** After all items of a list have been added with one action, exactly the
      addresses listed have it, and the others what they had before. */
  lemma {:induction false} ItemsContain(l: List, items: seq<string>, action: int, lib: Library,
                                        ty: int, addr: Addr16, port: nat)
    requires ty == 4 || ty == 6
    requires AddItems(l, items, action, lib).1
    ensures Contains(AddItems(l, items, action, lib).0, ty, addr, port)
            == if Listed(items, lib, ty, addr, port) then action else Contains(l, ty, addr, port)
    decreases |items|
  {
    if items != [] {
      var p := PeerOf(items[0], lib).value;
      AddedContains(l, p, action, ty, addr, port);
      ItemsContain(Added(l, p, action), items[1..], action, lib, ty, addr, port);
      ListedFirst(items, lib, ty, addr, port);
    }
  }

  // ---------------------------------------------------------------- the program

  class Config {
    var addrList: List

    constructor ()
      ensures addrList == Nil
    {
      addrList := Nil;
    }

    method AddrListAdd(ty: int, addr: seq<Byte>, port: nat, action: int)
      requires (ty == 4 ==> |addr| >= 4) && (ty == 6 ==> |addr| >= 16)
      modifies this
      ensures addrList == Cons(Node(ty, action, if ty == 4 then Padded(addr[..4])
                                                else if ty == 6 then addr[..16]
                                                else Padded([0, 0, 0, 0]), port), old(addrList))
    {
      var stored: Addr16 := Padded([0, 0, 0, 0]);
      if ty == 4 {
        stored := Padded(addr[..4]);
      } else if ty == 6 {
        stored := addr[..16];
      }
      addrList := Cons(Node(ty, action, stored, port), addrList);
    }

    method AddrListContains(ty: int, addr: Addr16, port: nat) returns (res: int)
      ensures res == Contains(addrList, ty, addr, port)
    {
      var iter := addrList;
      while iter.Cons?
        invariant Contains(iter, ty, addr, port) == Contains(addrList, ty, addr, port)
        decreases iter
      {
        var node := iter.node;
        if node.ty == 0 {
          return node.action;
        }
        if ty == node.ty && port == node.port {
          if ty == 4 && addr[..4] == node.addr[..4] {
            return node.action;
          }
          if ty == 6 && addr == node.addr {
            return node.action;
          }
        }
        iter := iter.next;
      }
      return 0;
    }

    method SetAddrList(str: string, action: int, lib: Library) returns (res: int)
      modifies this
      ensures res == if PeerOf(str, lib).Some? then 0 else -1
      ensures addrList == if res == 0 then Added(old(addrList), PeerOf(str, lib).value, action) else old(addrList)
    {
      hide Scan, CString;
      var b, refs := ParseAddr(str, false);
      if b.None? || refs.addr.None? || refs.port.None? {
        return -1;
      }
      ScanInBounds(str + "\0", 0, 0, NO_REFS, false);
      ghost var f := b.value[..];
      assert Parse(str, false) == Some((f, refs));
      var host := CString(b.value[refs.addr.value..]);
      assert b.value[refs.addr.value..] == f[refs.addr.value..];
      assert b.value[refs.port.value..] == f[refs.port.value..];
      var nport := lib.port(CString(b.value[refs.port.value..]));
      var v4 := lib.v4(host);
      if v4.Some? {
        var iaddr := Mapped(v4.value);
        assert v4.value[..4] == v4.value && iaddr[..16] == iaddr;
        AddrListAdd(4, v4.value, nport, action);
        AddrListAdd(6, iaddr, nport, action);
      } else {
        var v6 := lib.v6(host);
        if v6.None? {
          return -1;
        }
        assert v6.value[..16] == v6.value && v6.value[12..][..4] == v6.value[12..];
        AddrListAdd(6, v6.value, nport, action);
        if IsMapped(v6.value) {
          AddrListAdd(4, v6.value[12..], nport, action);
        }
      }
      return 0;
    }

    method ParseSetAddrList(str: string, action: int, lib: Library) returns (res: int)
      modifies this
      ensures res == if AddItems(old(addrList), Items(str), action, lib).1 then 0 else -1
      ensures addrList == AddItems(old(addrList), Items(str), action, lib).0
    {
      ghost var before := addrList;
      WalkReadsItems(addrList, str, action, lib);
      var p, s := 0, 0;
      assert str[0..] == str;
      while p < |str| && str[p] != '\0'
        invariant p <= |str| && (s == 0 || s == 1)
        invariant Walk(addrList, str[p..], s, action, lib) == Walk(before, str, 0, action, lib)
        decreases |str| - p, if s == 0 then 1 else 0
      {
        assert str[p..][0] == str[p] && str[p..][1..] == str[p + 1..];
        if str[p] == ',' {
          p := p + 1;
          s := 0;
        } else if s == 0 {
          var ok := SetAddrList(str[p..], action, lib);
          if ok < 0 {
            return -1;
          }
          s := 1;
        } else {
          p := p + 1;
        }
      }
      return 0;
    }

    /** The filter part of the client's options: an allow list, a deny list, or
        neither. */
    method ParseFilter(w: Option<string>, b: Option<string>, lib: Library) returns (res: int)
      requires addrList == Nil
      modifies this
      ensures w.Some? && b.Some? ==> res == -1
      ensures res == 0 ==>
                forall ty, addr: Addr16, port: nat {:trigger Contains(addrList, ty, addr, port)} ::
                  ty == 4 || ty == 6 ==>
                    Contains(addrList, ty, addr, port) ==
                    if w.Some? then (if Listed(Items(w.value), lib, ty, addr, port) then 1 else 0)
                    else if b.Some? then (if Listed(Items(b.value), lib, ty, addr, port) then 0 else 1)
                    else 1
      ensures (w.None? || b.None?) ==>
                (res == 0 <==> forall i :: (w.Some? && i in Items(w.value)) || (b.Some? && i in Items(b.value)) ==>
                                 PeerOf(i, lib).Some?)
    {
      res := 0;
      if w.Some? && b.Some? {
        return -1;
      }
      if w.Some? {
        AddrListAdd(0, [], 0, 0);
        ghost var l := addrList;
        res := ParseSetAddrList(w.value, 1, lib);
        AllReadable(l, Items(w.value), 1, lib);
        if res == 0 {
          forall ty, addr: Addr16, port: nat | ty == 4 || ty == 6
            ensures Contains(addrList, ty, addr, port) == if Listed(Items(w.value), lib, ty, addr, port) then 1 else 0
          {
            ItemsContain(l, Items(w.value), 1, lib, ty, addr, port);
          }
        }
      } else if b.Some? {
        AddrListAdd(0, [], 0, 1);
        ghost var l := addrList;
        res := ParseSetAddrList(b.value, 0, lib);
        AllReadable(l, Items(b.value), 0, lib);
        if res == 0 {
          forall ty, addr: Addr16, port: nat | ty == 4 || ty == 6
            ensures Contains(addrList, ty, addr, port) == if Listed(Items(b.value), lib, ty, addr, port) then 0 else 1
          {
            ItemsContain(l, Items(b.value), 0, lib, ty, addr, port);
          }
        }
      } else {
        AddrListAdd(0, [], 0, 1);
      }
    }
  }

  /** The option is accepted exactly if every item can be read. */
  lemma {:induction false} AllReadable(l: List, items: seq<string>, action: int, lib: Library)
    ensures AddItems(l, items, action, lib).1 <==> forall i :: i in items ==> PeerOf(i, lib).Some?
    decreases |items|
  {
    if items != [] {
      assert items == [items[0]] + items[1..];
      if PeerOf(items[0], lib).Some? {
        AllReadable(Added(l, PeerOf(items[0], lib).value, action), items[1..], action, lib);
      }
    }
  }
}
