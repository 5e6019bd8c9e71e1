/** The passive traffic capturer of reverse_engineering_tool.py (class PacketCapture):
    the per-datagram record, its hex and ASCII views, the capture loop and the
    summary statistics over the captured log. */
module Capture {
  import opened Protocol
  import opened Counting

  type Byte = b: int | 0 <= b < 256

  /** `recvfrom(65535)` reads at most this many bytes of a datagram. */
  const RecvBufferSize: nat := 65535

  type Buffer = s: seq<Byte> | |s| <= RecvBufferSize

  /** The source recorded for a datagram without an address. */
  const UnknownSource: string := "unknown"

  // ---- the ASCII and hex views of a datagram ---------------------------------

  /** The printable view of a datagram: each byte in the printable ASCII range
      32..126 becomes its own character, every other byte becomes a dot. */
  function ToAscii(data: seq<Byte>): (s: string)
    ensures |s| == |data|
    ensures forall i :: 0 <= i < |data| ==>
              s[i] == if 32 <= data[i] <= 126 then data[i] as char else '.'
    ensures forall i :: 0 <= i < |s| ==> 32 <= s[i] as int <= 126
  {
    if data == [] then []
    else [if 32 <= data[0] <= 126 then data[0] as char else '.'] + ToAscii(data[1..])
  }

  /** A lowercase hex digit. */
  predicate IsHexDigit(c: char) {
    '0' <= c <= '9' || 'a' <= c <= 'f'
  }

  predicate IsLowerHex(s: string) {
    forall i :: 0 <= i < |s| ==> IsHexDigit(s[i])
  }

  /** The lowercase hex digit of a nibble. */
  function HexDigit(n: nat): (c: char)
    requires n < 16
    ensures IsHexDigit(c)
  {
    if n < 10 then ('0' as int + n) as char else ('a' as int + n - 10) as char
  }

  /** `data.hex()`: two lowercase hex digits per byte, high nibble first. */
  function ToHex(data: seq<Byte>): (h: string)
    ensures |h| == 2 * |data|
    ensures IsLowerHex(h)
  {
    if data == [] then []
    else [HexDigit(data[0] / 16), HexDigit(data[0] % 16)] + ToHex(data[1..])
  }

  /** The value of one lowercase hex digit. */
  function HexValue(c: char): (v: Option<nat>)
    ensures v.Some? <==> IsHexDigit(c)
    ensures v.Some? ==> v.value < 16 && HexDigit(v.value) == c
  {
    if '0' <= c <= '9' then Some(c as int - '0' as int)
    else if 'a' <= c <= 'f' then Some(c as int - 'a' as int + 10)
    else None
  }

  /** The inverse of `ToHex`: None for an odd length or a character that is not a
      lowercase hex digit. */
  function DecodeHex(h: string): Option<seq<Byte>>
    decreases |h|
  {
    if h == [] then Some([])
    else if |h| == 1 then None
    else
      match (HexValue(h[0]), HexValue(h[1]), DecodeHex(h[2..]))
      case (Some(hi), Some(lo), Some(rest)) => Some([hi * 16 + lo] + rest)
      case _ => None
  }

  /** Decoding a digit undoes encoding a nibble. */
  lemma HexValueOfDigit(n: nat)
    requires n < 16
    ensures HexValue(HexDigit(n)) == Some(n)
  {
  }

  /** The hex view determines the bytes. */
  lemma {:induction false} HexRoundTrip(data: seq<Byte>)
    ensures DecodeHex(ToHex(data)) == Some(data)
  {
    if data != [] {
      var h := ToHex(data);
      var b := data[0];
      var hi, lo := b / 16, b % 16;
      assert h == [HexDigit(hi), HexDigit(lo)] + ToHex(data[1..]);
      assert h[2..] == ToHex(data[1..]);
      HexRoundTrip(data[1..]);
      HexValueOfDigit(hi);
      HexValueOfDigit(lo);
      assert hi * 16 + lo == b;
      assert [b] + data[1..] == data;
    }
  }

  // ---- captured records ------------------------------------------------------

  /** One archived record; `timestamp` is the ISO-8601 clock reading. */
  datatype Packet = Packet(
    timestamp: string,
    source: string,
    dataLength: nat,
    dataHex: string,
    dataAscii: string)

  /** The record built for one received datagram. */
  function MakePacket(timestamp: string, addr: Option<string>, data: seq<Byte>): Packet {
    Packet(timestamp, addr.GetOr(UnknownSource), |data|, ToHex(data), ToAscii(data))
  }

  /** A record's length is the datagram's, its hex view is two lowercase digits per
      byte and decodes back to the datagram, its ASCII view has one character per
      byte, and a datagram without an address is recorded as "unknown". */
  lemma PacketFields(timestamp: string, addr: Option<string>, data: seq<Byte>)
    ensures MakePacket(timestamp, addr, data).timestamp == timestamp
    ensures MakePacket(timestamp, addr, data).source == if addr.Some? then addr.value else UnknownSource
    ensures MakePacket(timestamp, addr, data).dataLength == |data|
    ensures |MakePacket(timestamp, addr, data).dataHex| == 2 * |data|
    ensures IsLowerHex(MakePacket(timestamp, addr, data).dataHex)
    ensures DecodeHex(MakePacket(timestamp, addr, data).dataHex) == Some(data)
    ensures |MakePacket(timestamp, addr, data).dataAscii| == |data|
  {
    HexRoundTrip(data);
  }

  /** What one `recvfrom(65535)` on the raw socket produced: the bytes read (with
      the clock reading taken for them and the sender's address, if any) or a
      socket error. */
  datatype Arrival = Received(timestamp: string, addr: Option<string>, data: Buffer) | ReceiveError

  /** The record `start_capture` builds for a received datagram. */
  function RecordOf(a: Arrival): Packet
    requires a.Received?
  {
    MakePacket(a.timestamp, a.addr, a.data)
  }

  /** The records the capture loop appends for a run of arrivals: one per datagram,
      up to the first socket error, which ends the loop. */
  function Records(arrivals: seq<Arrival>): (ps: seq<Packet>)
    ensures |ps| <= |arrivals|
  {
    if arrivals == [] || arrivals[0].ReceiveError? then []
    else [RecordOf(arrivals[0])] + Records(arrivals[1..])
  }

  /** Records arrive in order and each reflects its datagram. */
  lemma {:induction false} RecordsAt(arrivals: seq<Arrival>, k: nat)
    requires k < |Records(arrivals)|
    ensures arrivals[k].Received?
    ensures Records(arrivals)[k] == RecordOf(arrivals[k])
    ensures forall j :: 0 <= j < k ==> arrivals[j].Received?
  {
    if k > 0 {
      RecordsAt(arrivals[1..], k - 1);
    }
  }

  /** Without a socket error, every datagram is recorded. */
  lemma {:induction false} RecordsAll(arrivals: seq<Arrival>)
    requires forall j :: 0 <= j < |arrivals| ==> arrivals[j].Received?
    ensures |Records(arrivals)| == |arrivals|
  {
    if arrivals != [] {
      RecordsAll(arrivals[1..]);
    }
  }

  /** Every read before the first socket error is recorded, and nothing after it. */
  lemma {:induction false} RecordsUpToError(arrivals: seq<Arrival>, e: nat)
    requires e < |arrivals| && arrivals[e].ReceiveError?
    requires forall j :: 0 <= j < e ==> arrivals[j].Received?
    ensures |Records(arrivals)| == e
  {
    if e > 0 {
      RecordsUpToError(arrivals[1..], e - 1);
    }
  }

  // ---- the keys the summary counts -------------------------------------------

  function Lengths(ps: seq<Packet>): (ls: seq<nat>)
    ensures |ls| == |ps| && forall i :: 0 <= i < |ps| ==> ls[i] == ps[i].dataLength
  {
    if ps == [] then [] else Lengths(ps[..|ps| - 1]) + [ps[|ps| - 1].dataLength]
  }

  function Sources(ps: seq<Packet>): (ss: seq<string>)
    ensures |ss| == |ps| && forall i :: 0 <= i < |ps| ==> ss[i] == ps[i].source
  {
    if ps == [] then [] else Sources(ps[..|ps| - 1]) + [ps[|ps| - 1].source]
  }

  /** `hex_data[:8]` of every record with at least 8 hex characters (4 bytes). */
  function Prefixes(ps: seq<Packet>): seq<string> {
    if ps == [] then []
    else
      var last := ps[|ps| - 1];
      Prefixes(ps[..|ps| - 1]) + (if |last.dataHex| >= 8 then [last.dataHex[..8]] else [])
  }

  /** A prefix key is the first 8 hex characters of a record at least that long. */
  lemma {:induction false} PrefixesFrom(ps: seq<Packet>, p: string)
    requires p in Prefixes(ps)
    ensures exists i :: 0 <= i < |ps| && HasPrefix(ps[i], p)
  {
    var init := ps[..|ps| - 1];
    var last := ps[|ps| - 1];
    if p in Prefixes(init) {
      PrefixesFrom(init, p);
      var i :| 0 <= i < |init| && HasPrefix(init[i], p);
      assert ps[i] == init[i];
    } else {
      assert HasPrefix(last, p);
    }
  }

  /** The record has at least 8 hex characters and they begin with p. */
  predicate HasPrefix(pk: Packet, p: string) {
    |pk.dataHex| >= 8 && pk.dataHex[..8] == p
  }

  /** The positions of the records counted under prefix p. */
  function WithPrefix(ps: seq<Packet>, p: string): set<nat> {
    set i | 0 <= i < |ps| && HasPrefix(ps[i], p)
  }

  lemma WithPrefixStep(ps: seq<Packet>, p: string)
    requires ps != []
    ensures WithPrefix(ps, p) ==
              WithPrefix(ps[..|ps| - 1], p) + (if HasPrefix(ps[|ps| - 1], p) then {|ps| - 1} else {})
    ensures |ps| - 1 !in WithPrefix(ps[..|ps| - 1], p)
  {
    var n := |ps| - 1;
    assert forall i :: 0 <= i < n ==> ps[..n][i] == ps[i];
  }

  lemma PrefixesStep(ps: seq<Packet>, p: string)
    requires ps != []
    ensures multiset(Prefixes(ps))[p] ==
              multiset(Prefixes(ps[..|ps| - 1]))[p] + (if HasPrefix(ps[|ps| - 1], p) then 1 else 0)
  {
    var last := ps[|ps| - 1];
    var extra := if |last.dataHex| >= 8 then [last.dataHex[..8]] else [];
    assert Prefixes(ps) == Prefixes(ps[..|ps| - 1]) + extra;
    assert multiset(Prefixes(ps)) == multiset(Prefixes(ps[..|ps| - 1])) + multiset(extra);
  }

  /** The prefix count of p is the number of records at least 8 hex characters long
      whose first 8 are p; shorter records are never counted. */
  lemma {:induction false} PrefixesCount(ps: seq<Packet>, p: string)
    ensures multiset(Prefixes(ps))[p] == |WithPrefix(ps, p)|
  {
    if ps == [] {
      assert WithPrefix(ps, p) == {};
    } else {
      PrefixesCount(ps[..|ps| - 1], p);
      PrefixesStep(ps, p);
      WithPrefixStep(ps, p);
    }
  }

  /** The summary `analyze_patterns` produces: the size histogram, the per-source
      counts (both in first-occurrence order) and the five most frequent 4-byte
      hex prefixes, most frequent first. */
  datatype PatternReport = PatternReport(
    packetCount: nat,
    sizes: Dict<nat>,
    sources: Dict<string>,
    topPrefixes: Dict<string>)

  const TopPrefixCount: nat := 5

  class PacketCapture {
    var interface: string
    var packets: seq<Packet>
    var running: bool

    constructor (interface: string)
      ensures this.interface == interface && packets == [] && !running
    {
      this.interface := interface;
      packets := [];
      running := false;
    }

    /** `start_capture`: without the privilege to open a raw socket nothing is
        captured (the running flag is still left set); otherwise one record per
        datagram is appended until the first socket error. */
    method StartCapture(privileged: bool, arrivals: seq<Arrival>)
      modifies this`packets, this`running
      ensures running
      ensures packets == old(packets) + (if privileged then Records(arrivals) else [])
    {
      running := true;
      if !privileged {
        return;
      }
      var i := 0;
      while i < |arrivals|
        invariant 0 <= i <= |arrivals|
        invariant running
        invariant packets + Records(arrivals[i..]) == old(packets) + Records(arrivals)
      {
        var arrival := arrivals[i];
        if arrival.ReceiveError? {
          break;
        }
        var record := RecordOf(arrival);
        assert Records(arrivals[i..]) == [record] + Records(arrivals[i + 1..]);
        packets := packets + [record];
        i := i + 1;
      }
      assert i == |arrivals| ==> arrivals[i..] == [];
    }

    /** `stop_capture`: clear the running flag. */
    method StopCapture()
      modifies this`running
      ensures !running
    {
      running := false;
    }

    /** `analyze_patterns`: nothing for an empty log; otherwise the histogram of
        record lengths, the per-source counts and the top five prefixes. */
    method AnalyzePatterns() returns (report: Option<PatternReport>)
      ensures report.None? <==> packets == []
      ensures report.Some? ==> report.value.packetCount == |packets|
      ensures report.Some? ==> report.value.sizes == Tally(Lengths(packets))
      ensures report.Some? ==> report.value.sources == Tally(Sources(packets))
      ensures report.Some? ==> report.value.topPrefixes == TopByCount(Tally(Prefixes(packets)), TopPrefixCount)
    {
      if packets == [] {
        return None;
      }
      var sizes := CountSizes(packets);
      var sources := CountSources(packets);
      var prefixes := CountPrefixes(packets);
      report := Some(PatternReport(|packets|, sizes, sources, TopByCount(prefixes, TopPrefixCount)));
    }
  }

  /** The size loop of `analyze_patterns`. */
  method CountSizes(packets: seq<Packet>) returns (sizes: Dict<nat>)
    ensures sizes == Tally(Lengths(packets))
  {
    sizes := [];
    var i := 0;
    while i < |packets|
      invariant 0 <= i <= |packets|
      invariant sizes == Tally(Lengths(packets[..i]))
    {
      assert packets[..i + 1][..i] == packets[..i];
      TallySnoc(Lengths(packets[..i]), packets[i].dataLength);
      sizes := Bump(sizes, packets[i].dataLength);
      i := i + 1;
    }
    assert packets[..i] == packets;
  }

  /** The source loop of `analyze_patterns`. */
  method CountSources(packets: seq<Packet>) returns (sources: Dict<string>)
    ensures sources == Tally(Sources(packets))
  {
    sources := [];
    var i := 0;
    while i < |packets|
      invariant 0 <= i <= |packets|
      invariant sources == Tally(Sources(packets[..i]))
    {
      assert packets[..i + 1][..i] == packets[..i];
      TallySnoc(Sources(packets[..i]), packets[i].source);
      sources := Bump(sources, packets[i].source);
      i := i + 1;
    }
    assert packets[..i] == packets;
  }

  /** The prefix loop of `analyze_patterns`: records shorter than 8 hex characters
      are skipped. */
  method CountPrefixes(packets: seq<Packet>) returns (prefixes: Dict<string>)
    ensures prefixes == Tally(Prefixes(packets))
  {
    prefixes := [];
    var i := 0;
    while i < |packets|
      invariant 0 <= i <= |packets|
      invariant prefixes == Tally(Prefixes(packets[..i]))
    {
      assert packets[..i + 1][..i] == packets[..i];
      var hex := packets[i].dataHex;
      if |hex| >= 8 {
        assert Prefixes(packets[..i + 1]) == Prefixes(packets[..i]) + [hex[..8]];
        TallySnoc(Prefixes(packets[..i]), hex[..8]);
        prefixes := Bump(prefixes, hex[..8]);
      } else {
        assert Prefixes(packets[..i + 1]) == Prefixes(packets[..i]) + [];
        assert Prefixes(packets[..i]) + [] == Prefixes(packets[..i]);
      }
      i := i + 1;
    }
    assert packets[..i] == packets;
  }

  /** The size histogram: each length occurs once, the keys are exactly the lengths
      of the records, and the counts add up to the number of records. */
  lemma SizeHistogram(ps: seq<Packet>)
    ensures DistinctKeys(Tally(Lengths(ps))) && Total(Tally(Lengths(ps))) == |ps|
    ensures forall n :: n in Keys(Tally(Lengths(ps))) <==> n in Lengths(ps)
  {
    TallyKeys(Lengths(ps));
    TallyTotal(Lengths(ps));
  }

  /** The count of a length is the number of records of that length. */
  lemma SizeCount(ps: seq<Packet>, n: nat)
    ensures Get(Tally(Lengths(ps)), n) == |Positions(Lengths(ps), n)|
  {
    TallyCounts(Lengths(ps), n);
    OccurrencesAsPositions(Lengths(ps), n);
  }

  /** The per-source counts: each source occurs once, the keys are exactly the
      sources of the records, and the counts add up to the number of records. */
  lemma SourceHistogram(ps: seq<Packet>)
    ensures DistinctKeys(Tally(Sources(ps))) && Total(Tally(Sources(ps))) == |ps|
    ensures forall s :: s in Keys(Tally(Sources(ps))) <==> s in Sources(ps)
  {
    TallyKeys(Sources(ps));
    TallyTotal(Sources(ps));
  }

  /** The count of a source is the number of records from it. */
  lemma SourceCount(ps: seq<Packet>, s: string)
    ensures Get(Tally(Sources(ps)), s) == |Positions(Sources(ps), s)|
  {
    TallyCounts(Sources(ps), s);
    OccurrencesAsPositions(Sources(ps), s);
  }

  /** The prefix statistics: every counted prefix comes from a record with at least
      8 hex characters, and its count is the number of such records. */
  lemma PrefixCounts(ps: seq<Packet>)
    ensures DistinctKeys(Tally(Prefixes(ps)))
    ensures forall p :: p in Keys(Tally(Prefixes(ps))) ==>
              exists i :: 0 <= i < |ps| && HasPrefix(ps[i], p)
    ensures forall p :: Get(Tally(Prefixes(ps)), p) == |WithPrefix(ps, p)|
  {
    TallyKeys(Prefixes(ps));
    forall p | p in Keys(Tally(Prefixes(ps)))
      ensures exists i :: 0 <= i < |ps| && HasPrefix(ps[i], p)
    {
      PrefixesFrom(ps, p);
    }
    forall p ensures Get(Tally(Prefixes(ps)), p) == |WithPrefix(ps, p)| {
      TallyCounts(Prefixes(ps), p);
      PrefixesCount(ps, p);
    }
  }

  /** At most five prefixes are reported, most frequent first, and no prefix left
      out is more frequent than one reported. */
  lemma TopPrefixes(ps: seq<Packet>)
    ensures var d := Tally(Prefixes(ps)); var top := TopByCount(d, TopPrefixCount);
      && |top| == (if |d| < TopPrefixCount then |d| else TopPrefixCount)
      && (forall x :: x in top ==> x in d)
      && (forall i, j :: 0 <= i < j < |top| ==> top[i].1 >= top[j].1)
      && multiset(top) + multiset(Leftover(d, TopPrefixCount)) == multiset(d)
      && (forall x, y :: x in Leftover(d, TopPrefixCount) && y in top ==> x.1 <= y.1)
  {
    var d := Tally(Prefixes(ps));
    TopByCountSize(d, TopPrefixCount);
    TopByCountSorted(d, TopPrefixCount);
    TopByCountSplit(d, TopPrefixCount);
    TopByCountDominates(d, TopPrefixCount);
  }
}
