/**
 UDP socket addresses and datagrams. An address is IPv4 or IPv6 plus a port.
 Text renders an address in the "host:port" form ("1.2.3.4:80",
 "[0:0:0:0:0:0:0:1]:11121"); Resolve reads a socket-address literal back,
 including the compressed IPv6 form ("[::1]:11121"). Resolve undoes Text,
 which is what lets one party send another's address inside a message and
 the receiver use it as a destination.
 */
module Net {
  import opened Optional
  import opened Textual

  type u8 = x: nat | x < 0x100
  type u16 = x: nat | x < 0x1_0000

  type Octets = s: seq<u8> | |s| == 4 witness [0, 0, 0, 0]
  type Segments = s: seq<u16> | |s| == 8 witness [0, 0, 0, 0, 0, 0, 0, 0]

  datatype Addr = V4(octets: Octets, port: u16) | V6(segments: Segments, port: u16)

  /** One UDP datagram: its message and the peer address (source when received, destination when sent). */
  datatype Datagram<M> = Datagram(msg: M, addr: Addr)

  /** The dotted-decimal host part of an IPv4 address. */
  function V4Host(octets: Octets): string {
    Join(ShowAll(octets, 10), '.')
  }

  /** The colon-separated hexadecimal host part of an IPv6 address (without brackets). */
  function V6Host(segments: Segments): string {
    Join(ShowAll(segments, 16), ':')
  }

  /** The address as text, like the standard display of a socket address, except that IPv6 is written uncompressed. */
  function Text(a: Addr): string {
    match a
    case V4(octets, port) => V4Host(octets) + ":" + Show(port, 10)
    case V6(segments, port) => "[" + V6Host(segments) + "]:" + Show(port, 10)
  }

  /** An IPv4 octet: decimal, at most three digits, no leading zero, below 256. */
  const Octet := NumeralFormat(10, 3, false, 0x100)

  /** An IPv6 group: hexadecimal, at most four digits, leading zeros allowed. */
  const Group := NumeralFormat(16, 4, true, 0x1_0000)

  /**
   A socket-address literal read back, as the standard parser reads "a.b.c.d:port" and
   "[h:...:h]:port" (with at most one "::"); None if s is not one.
   */
  function Resolve(s: string): (r: Option<Addr>)
  {
    if |s| > 0 && s[0] == '[' then ResolveV6(s[1..]) else ResolveV4(s)
  }

  /** "a.b.c.d:port" */
  function ResolveV4(s: string): Option<Addr> {
    var fields := Split(s, ':');
    if |fields| != 2 then None
    else
      match (ParseAll(Split(fields[0], '.'), Octet), ParseNum(fields[1], 10))
      case (Some(ip), Some(port)) =>
        if |ip| == 4 && port < 0x1_0000 then Some(V4(ip, port)) else None
      case _ => None
  }

  /** "h:...:h]:port", the text after the opening bracket */
  function ResolveV6(s: string): Option<Addr> {
    var fields := Split(s, ']');
    if |fields| != 2 || |fields[1]| == 0 || fields[1][0] != ':' then None
    else
      match (V6Groups(Split(fields[0], ':')), ParseNum(fields[1][1..], 10))
      case (Some(ip), Some(port)) =>
        if port < 0x1_0000 then Some(V6(ip, port)) else None
      case _ => None
  }

  /** The index of the first empty field, if any. */
  function FirstEmpty(fields: seq<string>): (r: Option<nat>)
    ensures r.Some? ==> r.value < |fields| && fields[r.value] == ""
    ensures r.None? ==> forall i :: 0 <= i < |fields| ==> fields[i] != ""
  {
    if fields == [] then None
    else if fields[0] == "" then Some(0)
    else
      match FirstEmpty(fields[1..])
      case None => None
      case Some(k) => Some(k + 1)
  }

  function Zeros(n: nat): (r: seq<nat>)
    ensures |r| == n && forall i :: 0 <= i < n ==> r[i] == 0
  {
    seq(n, _ => 0)
  }

  /**
   The eight groups of an IPv6 host, given as its fields (the host split at ':'): either eight
   groups written out, or one "::" (an empty field) standing for one or more zero groups.
   */
  function V6Groups(fields: seq<string>): (r: Option<seq<nat>>)
    ensures r.Some? ==> |r.value| == 8 && forall i :: 0 <= i < 8 ==> r.value[i] < 0x1_0000
  {
    match FirstEmpty(fields)
    case None => if |fields| == 8 then ParseAll(fields, Group) else None
    case Some(k) => Expand(fields, k)
  }

  /**
   The groups of a host whose first empty field is fields[k]. The gap is that field, or for a
   host starting with "::" the one after it: it must be followed by a field, so that colons
   stand on both sides of it. The groups before and after the gap are read, and zeros fill
   the rest; at least one group is filled.
   */
  function Expand(fields: seq<string>, k: nat): (r: Option<seq<nat>>)
    requires k < |fields| && fields[k] == ""
    ensures r.Some? ==> |r.value| == 8 && forall i :: 0 <= i < 8 ==> r.value[i] < 0x1_0000
  {
    var gap := if k == 0 then 1 else k;
    if gap + 1 >= |fields| || fields[gap] != "" then None
    else
      var rest := fields[gap + 1..];
      var tail := if rest == [""] then [] else rest;
      match (ParseAll(fields[..k], Group), ParseAll(tail, Group))
      case (Some(h), Some(t)) =>
        if |h| + |t| <= 7 then Some(h + Zeros(8 - |h| - |t|) + t) else None
      case _ => None
  }

  /** ResolveV4 on text whose fields parse to octets and port. */
  lemma ResolveV4Fields(s: string, host: string, port: string, octets: Octets, p: u16)
    requires Split(s, ':') == [host, port]
    requires ParseAll(Split(host, '.'), Octet) == Some(octets)
    requires ParseNum(port, 10) == Some(p)
    ensures ResolveV4(s) == Some(V4(octets, p))
  {
  }

  /** ResolveV6 on text whose fields parse to segments and port. */
  lemma ResolveV6Fields(s: string, host: string, rest: string, segments: Segments, p: u16)
    requires Split(s, ']') == [host, rest] && |rest| > 0 && rest[0] == ':'
    requires V6Groups(Split(host, ':')) == Some(segments)
    requires ParseNum(rest[1..], 10) == Some(p)
    ensures ResolveV6(s) == Some(V6(segments, p))
  {
  }

  /** Groups written out in full are read back without expansion. */
  lemma V6GroupsShowAll(segments: Segments)
    ensures V6Groups(ShowAll(segments, 16)) == Some(segments)
  {
    var fields := ShowAll(segments, 16);
    assert FirstEmpty(fields).None? by {
      forall i | 0 <= i < |fields| ensures fields[i] != "" {
        assert |Show(segments[i], 16)| >= 1;
      }
    }
    assert ParseAll(ShowAll(segments, 16), Group) == Some(segments) by {
      forall i | 0 <= i < |segments| ensures ReadNumeral(ShowAll(segments, 16)[i], Group) == Some(segments[i]) {
        assert Pow(16, 4) == 0x1_0000;
        ShowWidth(segments[i], 16, 4);
        ReadShow(segments[i], Group);
      }
      ParseAllEach(ShowAll(segments, 16), segments, Group);
    }
  }

  lemma ResolveV4Text(octets: Octets, port: u16)
    ensures ResolveV4(Text(V4(octets, port))) == Some(V4(octets, port))
  {
    var host := V4Host(octets);
    var digits := Show(port, 10);
    assert Split(host, '.') == ShowAll(octets, 10) by {
      ShowAllAvoids(octets, 10, '.');
      SplitJoin(ShowAll(octets, 10), '.');
    }
    assert ParseAll(Split(host, '.'), Octet) == Some(octets) by {
      forall i | 0 <= i < |octets| ensures ReadNumeral(ShowAll(octets, 10)[i], Octet) == Some(octets[i]) {
        assert Pow(10, 3) == 1000;
        ShowWidth(octets[i], 10, 3);
        ReadShow(octets[i], Octet);
      }
      ParseAllEach(ShowAll(octets, 10), octets, Octet);
    }
    assert Split(Text(V4(octets, port)), ':') == [host, digits] by {
      ShowAllAvoids(octets, 10, ':');
      JoinAvoids(ShowAll(octets, 10), '.', ':');
      ShowAllAvoids([port], 10, ':');
      SplitJoin([host, digits], ':');
      assert Text(V4(octets, port)) == Join([host, digits], ':');
    }
    assert ParseNum(digits, 10) == Some(port) by {
      ParseShow(port, 10);
    }
    ResolveV4Fields(Text(V4(octets, port)), host, digits, octets, port);
  }

  lemma ResolveV6Text(segments: Segments, port: u16)
    ensures ResolveV6(Text(V6(segments, port))[1..]) == Some(V6(segments, port))
  {
    var host := V6Host(segments);
    var rest := ":" + Show(port, 10);
    var t := Text(V6(segments, port))[1..];
    assert Split(host, ':') == ShowAll(segments, 16) by {
      ShowAllAvoids(segments, 16, ':');
      SplitJoin(ShowAll(segments, 16), ':');
    }
    assert V6Groups(Split(host, ':')) == Some(segments) by {
      V6GroupsShowAll(segments);
    }
    assert Split(t, ']') == [host, rest] by {
      ShowAllAvoids(segments, 16, ']');
      JoinAvoids(ShowAll(segments, 16), ':', ']');
      ShowAllAvoids([port], 10, ']');
      assert ']' !in rest;
      SplitJoin([host, rest], ']');
      JoinTwo(host, rest, ']');
      DropBracket(host, Show(port, 10));
    }
    assert ParseNum(rest[1..], 10) == Some(port) by {
      assert rest[1..] == Show(port, 10);
      ParseShow(port, 10);
    }
    ResolveV6Fields(t, host, rest, segments, port);
  }

  lemma JoinTwo(x: string, y: string, sep: char)
    ensures Join([x, y], sep) == x + [sep] + y
  {
    assert [x, y][1..] == [y];
  }

  lemma DropBracket(host: string, digits: string)
    ensures ("[" + host + "]:" + digits)[1..] == host + [']'] + (":" + digits)
  {
  }

  /** Resolving the text of an address gives back that address. */
  lemma ResolveText(a: Addr)
    ensures Resolve(Text(a)) == Some(a)
  {
    match a
    case V4(octets, port) =>
      ResolveV4Text(octets, port);
      var t := Text(a);
      assert t[0] == ShowAll(octets, 10)[0][0];
      assert IsDigit(t[0], 10);
    case V6(segments, port) =>
      ResolveV6Text(segments, port);
  }

  /** Distinct addresses have distinct texts. */
  lemma TextInjective(a: Addr, b: Addr)
    ensures Text(a) == Text(b) ==> a == b
  {
    ResolveText(a);
    ResolveText(b);
  }

  /** "[::1]:" followed by a port numeral names the IPv6 loopback address at that port. */
  lemma ResolveLoopback(digits: string, port: u16)
    requires ParseNum(digits, 10) == Some(port) && ']' !in digits
    ensures Resolve("[::1]:" + digits) == Some(V6([0, 0, 0, 0, 0, 0, 0, 1], port))
  {
    var t := "::1]:" + digits;
    assert ("[::1]:" + digits)[1..] == t;
    LoopbackSplit(digits);
    LoopbackGroups();
    assert (":" + digits)[1..] == digits;
    ResolveV6Fields(t, "::1", ":" + digits, [0, 0, 0, 0, 0, 0, 0, 1], port);
  }

  lemma LoopbackSplit(digits: string)
    requires ']' !in digits
    ensures Split("::1]:" + digits, ']') == ["::1", ":" + digits]
  {
    assert ']' !in ":" + digits;
    assert forall i :: 0 <= i < |"::1"| ==> "::1"[i] != ']';
    JoinTwo("::1", ":" + digits, ']');
    assert "::1]:" + digits == "::1" + [']'] + (":" + digits);
    SplitJoin(["::1", ":" + digits], ']');
  }

  /** "::1" is seven zero groups and then 1. */
  lemma LoopbackGroups()
    ensures V6Groups(Split("::1", ':')) == Some([0, 0, 0, 0, 0, 0, 0, 1])
  {
    assert Split("::1", ':') == ["", "", "1"] by {
      assert "::1"[1..] == ":1" && ":1"[1..] == "1" && "1"[1..] == "";
      assert Split("", ':') == [""];
      assert ['1'] + "" == "1";
      assert Split("1", ':') == ["1"];
      assert Split(":1", ':') == ["", "1"];
    }
    var fields: seq<string> := ["", "", "1"];
    assert FirstEmpty(fields) == Some(0);
    assert fields[..0] == [] && fields[2..] == ["1"];
    assert ReadNumeral("1", Group) == Some(1) by {
      DigitsSnoc("", '1', 16, 0, 1);
      assert "" + ['1'] == "1";
    }
    assert ParseAll(["1"], Group) == Some([1]) by {
      assert ["1"][1..] == [];
      assert ParseAll([], Group) == Some([]);
      ParseAllCons(["1"], Group, 1, []);
      assert [1] + [] == [1];
    }
    var z := Zeros(7);
    assert [] + z + [1] == [0, 0, 0, 0, 0, 0, 0, 1];
    assert Expand(fields, 0) == Some([] + z + [1]);
  }

  /** The ports the client binary uses, 11121 and 11122, are numerals "1112" and one more digit. */
  lemma PortNumeral(last: char, d: nat)
    requires DigitValue(last) == Some(d) && d < 10
    ensures ParseNum("1112" + [last], 10) == Some(11120 + d) && ']' !in "1112" + [last]
  {
    DigitsSnoc("", '1', 10, 0, 1);
    assert "" + ['1'] == "1";
    DigitsSnoc("1", '1', 10, 1, 1);
    assert "1" + ['1'] == "11";
    DigitsSnoc("11", '1', 10, 11, 1);
    assert "11" + ['1'] == "111";
    DigitsSnoc("111", '2', 10, 111, 2);
    assert "111" + ['2'] == "1112";
    DigitsSnoc("1112", last, 10, 1112, d);
  }

  /** The puncher address the client binary is given, "[::1]:11121", names the IPv6 loopback address. */
  lemma ResolveDefaultPuncher()
    ensures Resolve("[::1]:11121") == Some(V6([0, 0, 0, 0, 0, 0, 0, 1], 11121))
  {
    PortNumeral('1', 1);
    assert "1112" + ['1'] == "11121";
    assert "[::1]:" + "11121" == "[::1]:11121";
    ResolveLoopback("11121", 11121);
  }

  /** The host's address when both run on one machine, "[::1]:11122", names the IPv6 loopback address. */
  lemma ResolveLoopbackHost()
    ensures Resolve("[::1]:11122") == Some(V6([0, 0, 0, 0, 0, 0, 0, 1], 11122))
  {
    PortNumeral('2', 2);
    assert "1112" + ['2'] == "11122";
    assert "[::1]:" + "11122" == "[::1]:11122";
    ResolveLoopback("11122", 11122);
  }
}
