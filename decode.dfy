/** nvdecinfo: probe the decoder for every codec, chroma format and bit depth
    and print one line per supported combination. The driver's
    cuvidGetDecoderCaps is an oracle from a query to its answer. */
module Decode {
  import opened Layout
  import opened Catalog

  // ---------------------------------------------------------------------
  // The names get_caps prints

  /** The codec switch of get_caps, by cudaVideoCodec enumerator. Enumerators
      the switch does not list leave the name unset: None. */
  function CodecName(codec: nat): (name: Option<string>)
    ensures name.Some? <==> codec <= 10
  {
    if codec == 0 then Some("MPEG1")
    else if codec == 1 then Some("MPEG2")
    else if codec == 2 then Some("MPEG4")
    else if codec == 3 then Some("VC1")
    else if codec == 4 then Some("H264")
    else if codec == 5 then Some("MJPEG")
    else if codec == 6 then Some("H264 SVC")
    else if codec == 7 then Some("H264 MVC")
    else if codec == 8 then Some("HEVC")
    else if codec == 9 then Some("VP8")
    else if codec == 10 then Some("VP9")
    else None
  }

  /** The chroma switch of get_caps: Monochrome, 420, 422, 444. */
  function ChromaName(chroma: nat): (name: Option<string>)
    ensures name.Some? <==> chroma <= 3
    ensures name.Some? ==> |name.value| == 3
  {
    if chroma == 0 then Some("400")
    else if chroma == 1 then Some("420")
    else if chroma == 2 then Some("422")
    else if chroma == 3 then Some("444")
    else None
  }

  /** A printed codec name identifies its enumerator. */
  lemma CodecNamesDistinct(a: nat, b: nat)
    requires a <= 10 && b <= 10 && a != b
    ensures CodecName(a) != CodecName(b)
  {
  }

  /** A printed chroma name identifies its format. */
  lemma ChromaNamesDistinct(a: nat, b: nat)
    requires a <= 3 && b <= 3 && a != b
    ensures ChromaName(a) != ChromaName(b)
  {
  }

  // ---------------------------------------------------------------------
  // The oracle and one probe

  /** `bit_depth - 8` on unsigned int: wraps below 8. */
  function BitDepthMinus8(bitDepth: Uint32): (r: Uint32)
    ensures bitDepth >= 8 ==> r == bitDepth - 8
    ensures bitDepth < 8 ==> r == bitDepth + 0x1_0000_0000 - 8
  {
    (bitDepth - 8) % 0x1_0000_0000
  }

  /** What get_caps fills into CUVIDDECODECAPS before the call. */
  datatype DecodeQuery = DecodeQuery(codecType: nat, chromaFormat: nat, bitDepthMinus8: Uint32)

  /** What cuvidGetDecoderCaps answers: its CUresult and the fields it sets. */
  datatype DecodeCaps = DecodeCaps(err: int, isSupported: bool, maxWidth: Uint32, maxHeight: Uint32)

  type Oracle = DecodeQuery -> DecodeCaps

  /** One (codec, chroma, depth) combination main hands to get_caps. */
  datatype Point = Point(codec: nat, chroma: nat, depth: Uint32)

  /** The line get_caps prints, before formatting: the two names (None where
      the switch leaves them unset), the depth and the two maxima. */
  datatype DecodeRow = DecodeRow(codec: Option<string>, chroma: Option<string>, depth: Uint32,
                                 maxWidth: Uint32, maxHeight: Uint32)

  /** get_caps' return value and the row it printed, if any. */
  datatype Probe = Probe(ret: int, row: Option<DecodeRow>)

  function QueryOf(p: Point): DecodeQuery {
    DecodeQuery(p.codec, p.chroma, BitDepthMinus8(p.depth))
  }

  /** get_caps(codec_type, chroma_format, bit_depth): the driver's error is
      returned as is, and a row is printed exactly when the driver answered and
      reported the combination supported. */
  function GetCaps(oracle: Oracle, p: Point): (r: Probe)
    ensures r.ret == oracle(QueryOf(p)).err
    ensures r.ret != 0 ==> r.row.None?
    ensures r.row.Some? <==> oracle(QueryOf(p)).err == 0 && oracle(QueryOf(p)).isSupported
    ensures r.row.Some? ==> r.row.value.codec == CodecName(p.codec) && r.row.value.chroma == ChromaName(p.chroma)
                            && r.row.value.depth == p.depth
  {
    var caps := oracle(QueryOf(p));
    if caps.err != 0 then Probe(caps.err, None)
    else if !caps.isSupported then Probe(0, None)
    else Probe(0, Some(DecodeRow(CodecName(p.codec), ChromaName(p.chroma), p.depth,
                                 caps.maxWidth, caps.maxHeight)))
  }

  /** The oracle accepted the query and reported the combination supported. */
  predicate Supported(oracle: Oracle, p: Point) {
    oracle(QueryOf(p)).err == 0 && oracle(QueryOf(p)).isSupported
  }

  /** get_caps asks about exactly its arguments, prints a row exactly for a
      supported combination, and returns the driver's error or 0. */
  lemma GetCapsSpec(oracle: Oracle, p: Point)
    requires p.depth >= 8
    ensures QueryOf(p) == DecodeQuery(p.codec, p.chroma, p.depth - 8)
    ensures GetCaps(oracle, p).row.Some? <==> Supported(oracle, p)
    ensures GetCaps(oracle, p).ret == oracle(QueryOf(p)).err
    ensures Supported(oracle, p) ==>
              var row := GetCaps(oracle, p).row.value;
              row.depth == p.depth
              && row.maxWidth == oracle(QueryOf(p)).maxWidth && row.maxHeight == oracle(QueryOf(p)).maxHeight
              && row.codec == CodecName(p.codec)
              && row.chroma == ChromaName(p.chroma)
  {
  }

  // ---------------------------------------------------------------------
  // The row text

  /** `%d` of an unsigned int: the bits read back as a signed 32-bit value. */
  function AsSigned32(v: Uint32): (r: int)
    ensures -0x8000_0000 <= r < 0x8000_0000
    ensures (r + 0x1_0000_0000) % 0x1_0000_0000 == v
  {
    if v < 0x8000_0000 then v else v - 0x1_0000_0000
  }

  const DecodeTitle: string := "Codec | Chroma | Depth | Max Width | Max Height"
  const DecodeRule: string := "-----------------------------------------------"

  /** printf("%5s | %6s | %5d | %9d | %10d\n", ...) for a row whose names are set. */
  function RowText(row: DecodeRow): (line: string)
    requires row.codec.Some? && row.chroma.Some?
    ensures |line| >= |DecodeTitle|
  {
    var codec := PadLeft(row.codec.value, 5);
    var chroma := PadLeft(row.chroma.value, 6);
    var depth := PadLeft(IntToText(AsSigned32(row.depth)), 5);
    var width := PadLeft(IntToText(AsSigned32(row.maxWidth)), 9);
    var height := PadLeft(IntToText(AsSigned32(row.maxHeight)), 10);
    assert |DecodeTitle| == 47;
    codec + " | " + chroma + " | " + depth + " | " + width + " | " + height
  }

  /** A row whose fields fit their columns is exactly as wide as the title and
      the rule under it; a wider field widens the row. */
  lemma RowTextWidth(row: DecodeRow)
    requires row.codec.Some? && row.chroma.Some?
    ensures |RowText(row)| >= |DecodeTitle| && |DecodeRule| == |DecodeTitle|
    ensures |row.codec.value| <= 5 && |row.chroma.value| <= 6 && |IntToText(AsSigned32(row.depth))| <= 5
            && |IntToText(AsSigned32(row.maxWidth))| <= 9 && |IntToText(AsSigned32(row.maxHeight))| <= 10
            ==> |RowText(row)| == |DecodeTitle|
  {
    assert |DecodeTitle| == 47 && |DecodeRule| == 47;
    var codec := PadLeft(row.codec.value, 5);
    var chroma := PadLeft(row.chroma.value, 6);
    var depth := PadLeft(IntToText(AsSigned32(row.depth)), 5);
    var width := PadLeft(IntToText(AsSigned32(row.maxWidth)), 9);
    var height := PadLeft(IntToText(AsSigned32(row.maxHeight)), 10);
    assert RowText(row) == codec + " | " + chroma + " | " + depth + " | " + width + " | " + height;
    assert |RowText(row)| == |codec| + |chroma| + |depth| + |width| + |height| + 12;
  }

  // ---------------------------------------------------------------------
  // main's enumeration

  /** The depths 8, 10, ... of one (codec, chroma) pair, `count` of them. */
  function DepthPoints(codec: nat, chroma: nat, count: nat): seq<Point>
    requires count <= 3
  {
    seq(count, k requires 0 <= k < count => Point(codec, chroma, 8 + 2 * k))
  }

  /** The first `count` chroma formats of one codec, each with its three depths. */
  function ChromaPoints(codec: nat, count: nat): seq<Point>
    requires count <= 4
  {
    if count == 0 then [] else ChromaPoints(codec, count - 1) + DepthPoints(codec, count - 1, 3)
  }

  /** Every point main probes for the first `count` codecs, in probing order. */
  function CodecPoints(count: nat): seq<Point> {
    if count == 0 then [] else CodecPoints(count - 1) + ChromaPoints(count - 1, 4)
  }

  /** The position of a point in the probing order: codec-major, then chroma,
      then depth. */
  function Rank(p: Point): int {
    12 * p.codec + 3 * p.chroma + (p.depth - 8) / 2
  }

  /** A point main probes: codec below `count`, chroma 0..3, depth 8, 10 or 12. */
  predicate Probed(p: Point, count: nat) {
    p.codec < count && p.chroma <= 3 && (p.depth == 8 || p.depth == 10 || p.depth == 12)
  }

  lemma {:induction false} ChromaPointsAt(codec: nat, count: nat, i: nat)
    requires count <= 4 && i < 3 * count
    ensures |ChromaPoints(codec, count)| == 3 * count
    ensures ChromaPoints(codec, count)[i] == Point(codec, i / 3, 8 + 2 * (i % 3))
    decreases count
  {
    ChromaPointsLength(codec, count - 1);
    if i < 3 * (count - 1) {
      ChromaPointsAt(codec, count - 1, i);
    }
  }

  lemma {:induction false} ChromaPointsLength(codec: nat, count: nat)
    requires count <= 4
    ensures |ChromaPoints(codec, count)| == 3 * count
    decreases count
  {
    if count > 0 {
      ChromaPointsLength(codec, count - 1);
    }
  }

  lemma {:induction false} CodecPointsLength(count: nat)
    ensures |CodecPoints(count)| == 12 * count
    decreases count
  {
    if count > 0 {
      CodecPointsLength(count - 1);
      ChromaPointsLength(count - 1, 4);
    }
  }

  /** Probe i is point (i / 12, i % 12 / 3, 8 + 2 (i % 3)): its rank is i. */
  lemma {:induction false} CodecPointsAt(count: nat, i: nat)
    requires i < 12 * count
    ensures |CodecPoints(count)| == 12 * count
    ensures CodecPoints(count)[i] == Point(i / 12, (i % 12) / 3, 8 + 2 * (i % 3))
    decreases count
  {
    CodecPointsLength(count);
    CodecPointsLength(count - 1);
    if i < 12 * (count - 1) {
      CodecPointsAt(count - 1, i);
    } else {
      var local := i - 12 * (count - 1);
      ChromaPointsAt(count - 1, 4, local);
      assert CodecPoints(count)[i] == ChromaPoints(count - 1, 4)[local];
      DivModTwelve(count - 1, local);
      DivModThree(4 * (count - 1) + local / 3, local % 3);
      assert i == 3 * (4 * (count - 1) + local / 3) + local % 3;
    }
  }

  /** Division by 12 of 12 q + r, for a remainder r below 12. */
  lemma DivModTwelve(q: nat, r: nat)
    requires r < 12
    ensures (12 * q + r) / 12 == q && (12 * q + r) % 12 == r
  {
  }

  /** Division by 3 of 3 q + r, for a remainder r below 3. */
  lemma DivModThree(q: nat, r: nat)
    requires r < 3
    ensures (3 * q + r) / 3 == q && (3 * q + r) % 3 == r
  {
  }

  /** main probes exactly the valid points, each exactly once, in codec-major,
      then chroma, then depth order: probe i has rank i, every probe is a valid
      point, and every valid point sits at its own rank. */
  lemma ProbingOrder(count: nat)
    ensures |CodecPoints(count)| == 12 * count
    ensures forall i :: 0 <= i < |CodecPoints(count)| ==>
              Probed(CodecPoints(count)[i], count) && Rank(CodecPoints(count)[i]) == i
    ensures forall p :: Probed(p, count) ==> 0 <= Rank(p) < 12 * count && CodecPoints(count)[Rank(p)] == p
  {
    CodecPointsLength(count);
    forall i | 0 <= i < 12 * count
      ensures Probed(CodecPoints(count)[i], count) && Rank(CodecPoints(count)[i]) == i
    {
      CodecPointsAt(count, i);
      RankOfIndex(i);
    }
    forall p | Probed(p, count)
      ensures 0 <= Rank(p) < 12 * count && CodecPoints(count)[Rank(p)] == p
    {
      IndexOfRank(p);
      CodecPointsAt(count, Rank(p));
    }
  }

  /** The point at index i has rank i. */
  lemma RankOfIndex(i: nat)
    ensures Rank(Point(i / 12, (i % 12) / 3, 8 + 2 * (i % 3))) == i
  {
    var q, r := i / 12, i % 12;
    assert i == 12 * q + r && r < 12;
    DivModThree(4 * q + r / 3, r % 3);
    assert r == 3 * (r / 3) + r % 3;
    assert i == 3 * (4 * q + r / 3) + r % 3;
  }

  /** A probed point is the point at index Rank(p). */
  lemma IndexOfRank(p: Point)
    requires p.chroma <= 3 && (p.depth == 8 || p.depth == 10 || p.depth == 12)
    ensures var i := Rank(p);
            i >= 0 && p == Point(i / 12, (i % 12) / 3, 8 + 2 * (i % 3))
  {
    var step := (p.depth - 8) / 2;
    assert step < 3 && p.depth == 8 + 2 * step;
    DivModTwelve(p.codec, 3 * p.chroma + step);
    DivModThree(p.chroma, step);
    DivModThree(4 * p.codec + p.chroma, step);
    assert Rank(p) == 12 * p.codec + (3 * p.chroma + step);
    assert Rank(p) == 3 * (4 * p.codec + p.chroma) + step;
  }

  /** The rank order is the lexicographic (codec, chroma, depth) order. */
  lemma RankIsLexicographic(p: Point, q: Point, count: nat)
    requires Probed(p, count) && Probed(q, count)
    ensures Rank(p) < Rank(q) <==>
              p.codec < q.codec
              || (p.codec == q.codec && (p.chroma < q.chroma || (p.chroma == q.chroma && p.depth < q.depth)))
  {
  }

  /** The row a probe prints, as a sequence of zero or one rows. */
  function RowOf(oracle: Oracle, p: Point): seq<DecodeRow> {
    match GetCaps(oracle, p).row
    case Some(row) => [row]
    case None => []
  }

  /** The rows printed for a sequence of probes, in probe order. */
  function RowsOf(oracle: Oracle, points: seq<Point>): seq<DecodeRow> {
    if points == [] then [] else RowsOf(oracle, points[..|points| - 1]) + RowOf(oracle, points[|points| - 1])
  }

  lemma {:induction false} RowsOfAppend(oracle: Oracle, a: seq<Point>, b: seq<Point>)
    ensures RowsOf(oracle, a + b) == RowsOf(oracle, a) + RowsOf(oracle, b)
    decreases |b|
  {
    if b == [] {
      assert a + b == a;
    } else {
      var init, last := b[..|b| - 1], b[|b| - 1];
      RowsOfAppend(oracle, a, init);
      assert (a + b)[..|a + b| - 1] == a + init;
      assert (a + b)[|a + b| - 1] == last;
      calc {
        RowsOf(oracle, a + b);
        RowsOf(oracle, a + init) + RowOf(oracle, last);
        RowsOf(oracle, a) + RowsOf(oracle, init) + RowOf(oracle, last);
        RowsOf(oracle, a) + RowsOf(oracle, b);
      }
    }
  }

  /** The number of supported probes. */
  function SupportedCount(oracle: Oracle, points: seq<Point>): nat {
    if points == [] then 0
    else SupportedCount(oracle, points[..|points| - 1]) + (if Supported(oracle, points[|points| - 1]) then 1 else 0)
  }

  /** One row per supported probe, none for an unsupported or failed one, and
      each row comes from a supported probe with that probe's depth and maxima. */
  lemma {:induction false} RowsOfSpec(oracle: Oracle, points: seq<Point>)
    ensures |RowsOf(oracle, points)| == SupportedCount(oracle, points)
    ensures forall r :: r in RowsOf(oracle, points) ==>
              exists i :: 0 <= i < |points| && Supported(oracle, points[i])
                          && GetCaps(oracle, points[i]).row == Some(r)
    decreases |points|
  {
    if points != [] {
      var init := points[..|points| - 1];
      var last := points[|points| - 1];
      RowsOfSpec(oracle, init);
      forall r | r in RowsOf(oracle, points)
        ensures exists i :: 0 <= i < |points| && Supported(oracle, points[i])
                            && GetCaps(oracle, points[i]).row == Some(r)
      {
        if r in RowsOf(oracle, init) {
          var i :| 0 <= i < |init| && Supported(oracle, init[i]) && GetCaps(oracle, init[i]).row == Some(r);
          assert points[i] == init[i];
        } else {
          assert r in RowOf(oracle, last);
          assert points[|points| - 1] == last;
        }
      }
    }
  }

  /** While codecs stay within the switch, every printed row has both names. */
  lemma RowsNamed(oracle: Oracle, count: nat)
    requires count <= 11
    ensures forall r :: r in RowsOf(oracle, CodecPoints(count)) ==> r.codec.Some? && r.chroma.Some?
  {
    RowsOfSpec(oracle, CodecPoints(count));
    ProbingOrder(count);
  }

  /** The two fixed lines main prints first. */
  function DecodeHead(): seq<string> {
    [DecodeTitle, DecodeRule]
  }

  /** The innermost loop of main: b = 8, 10, 12 for one codec and chroma
      format, a get_caps call each; the last call's result is left in `err`. */
  method ProbeDepths(oracle: Oracle, c: nat, f: nat) returns (calls: seq<Point>, rows: seq<DecodeRow>, err: int)
    ensures calls == DepthPoints(c, f, 3)
    ensures rows == RowsOf(oracle, calls)
    ensures err == GetCaps(oracle, Point(c, f, 12)).ret
  {
    calls, rows := [], [];
    var b := 8;
    err := 0;
    while b < 14
      invariant 8 <= b <= 14 && b % 2 == 0
      invariant calls == DepthPoints(c, f, (b - 8) / 2)
      invariant rows == RowsOf(oracle, calls)
      invariant b > 8 ==> err == GetCaps(oracle, Point(c, f, b - 2)).ret
    {
      var p := Point(c, f, b);
      var probe := GetCaps(oracle, p);
      err := probe.ret;
      assert DepthPoints(c, f, (b - 8) / 2 + 1) == calls + [p];
      assert (calls + [p])[..|calls|] == calls;
      calls := calls + [p];
      rows := rows + RowOf(oracle, p);
      b := b + 2;
    }
  }

  /** The middle loop of main: f = 0 .. 3 for one codec. */
  method ProbeChromas(oracle: Oracle, c: nat) returns (calls: seq<Point>, rows: seq<DecodeRow>, err: int)
    ensures calls == ChromaPoints(c, 4)
    ensures rows == RowsOf(oracle, calls)
    ensures err == GetCaps(oracle, Point(c, 3, 12)).ret
  {
    calls, rows, err := [], [], 0;
    for f := 0 to 4
      invariant calls == ChromaPoints(c, f)
      invariant rows == RowsOf(oracle, calls)
      invariant f > 0 ==> err == GetCaps(oracle, Point(c, f - 1, 12)).ret
    {
      var probed, printed, last := ProbeDepths(oracle, c, f);
      RowsOfAppend(oracle, calls, probed);
      calls := calls + probed;
      rows := rows + printed;
      err := last;
    }
  }

  /** main's loop: for c < numCodecs, f < 4 and b = 8, 10, 12, call get_caps and
      overwrite `err` with its result. Returns the head lines, the probes made,
      in order, and the rows printed. */
  method Enumerate(oracle: Oracle, numCodecs: nat)
    returns (head: seq<string>, calls: seq<Point>, rows: seq<DecodeRow>)
    ensures head == DecodeHead()
    ensures calls == CodecPoints(numCodecs)
    ensures rows == RowsOf(oracle, calls)
  {
    head := [DecodeTitle, DecodeRule];
    calls, rows := [], [];
    var err := 0;
    for c := 0 to numCodecs
      invariant calls == CodecPoints(c)
      invariant rows == RowsOf(oracle, calls)
    {
      var probed, printed, last := ProbeChromas(oracle, c);
      RowsOfAppend(oracle, calls, probed);
      calls := calls + probed;
      rows := rows + printed;
      err := last;
    }
  }

  /** At most one row per probe, and none at all from a driver that supports nothing. */
  lemma RowsBound(oracle: Oracle, numCodecs: nat)
    ensures |RowsOf(oracle, CodecPoints(numCodecs))| <= 12 * numCodecs
    ensures (forall p :: !Supported(oracle, p)) ==> RowsOf(oracle, CodecPoints(numCodecs)) == []
  {
    CodecPointsLength(numCodecs);
    RowsOfSpec(oracle, CodecPoints(numCodecs));
    SupportedAtMost(oracle, CodecPoints(numCodecs));
  }

  lemma {:induction false} SupportedAtMost(oracle: Oracle, points: seq<Point>)
    ensures SupportedCount(oracle, points) <= |points|
    ensures (forall p :: !Supported(oracle, p)) ==> SupportedCount(oracle, points) == 0
    decreases |points|
  {
    if points != [] {
      SupportedAtMost(oracle, points[..|points| - 1]);
    }
  }
}
