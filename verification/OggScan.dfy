/**
  Finding the duration of an Opus file by scanning its Ogg pages, and the page format of section 6 of
  RFC 3533 that the scan has to follow.
 */
module OggScan {
  import opened Bytes

  const HEADER := 27
  const SAMPLE_RATE := 48000.0
  const TWO63 := 0x8000_0000_0000_0000
  const TWO64 := 0x1_0000_0000_0000_0000

  /** "OggS" */
  function Capture(): seq<Byte> { [79, 103, 103, 83] }

  // ---------------------------------------------------------------- little-endian numbers

  function FromBytes(bytes: seq<Byte>): nat {
    if bytes == [] then 0 else bytes[0] + 256 * FromBytes(bytes[1..])
  }

  function ToBytes(n: nat, x: nat): (r: seq<Byte>)
    ensures |r| == n
  {
    if n == 0 then [] else [x % 256] + ToBytes(n - 1, x / 256)
  }

  function Power(n: nat): nat {
    if n == 0 then 1 else 256 * Power(n - 1)
  }

  lemma {:induction false} NumberRoundTrip(n: nat, x: nat)
    requires x < Power(n)
    ensures FromBytes(ToBytes(n, x)) == x
  {
    if n > 0 {
      NumberRoundTrip(n - 1, x / 256);
      assert ToBytes(n, x)[1..] == ToBytes(n - 1, x / 256);
    }
  }

  /** The 64-bit pattern read as a signed number. */
  function Signed(x: nat): int {
    if x >= TWO63 then x - TWO64 else x
  }

  function Unsigned(x: int): (r: nat)
    requires -TWO63 <= x < TWO63
    ensures r < TWO64 && Signed(r) == x
  {
    if x < 0 then x + TWO64 else x
  }

  lemma GranuleRoundTrip(x: int)
    requires -TWO63 <= x < TWO63
    ensures Signed(FromBytes(ToBytes(8, Unsigned(x)))) == x
  {
    assert Power(4) == 0x1_0000_0000;
    assert Power(8) == 256 * (256 * (256 * (256 * Power(4))));
    NumberRoundTrip(8, Unsigned(x));
  }

  // ---------------------------------------------------------------- the scan

  function Sum(bytes: seq<Byte>, n: nat): nat
    requires n <= |bytes|
  {
    if n == 0 then 0 else Sum(bytes, n - 1) + bytes[n - 1]
  }

  predicate HeaderAt(data: seq<Byte>, pos: nat) {
    pos + HEADER <= |data| && data[pos..pos + 4] == Capture()
  }

  function GranuleAt(data: seq<Byte>, pos: nat): int
    requires pos + HEADER <= |data|
  {
    Signed(FromBytes(data[pos + 6..pos + 14]))
  }

  /** Where the body of the page at `pos` starts, after the segment table. */
  function BodyStart(data: seq<Byte>, pos: nat): nat
    requires pos + HEADER <= |data|
  {
    pos + HEADER + data[pos + 26]
  }

  function PageEnd(data: seq<Byte>, pos: nat): nat
    requires pos + HEADER <= |data| && BodyStart(data, pos) <= |data|
  {
    BodyStart(data, pos) + Sum(data[pos + HEADER..BodyStart(data, pos)], data[pos + 26])
  }

  /** The positions the scan takes for page headers, starting from `pos`. */
  function Visited(data: seq<Byte>, pos: nat): seq<nat>
    decreases |data| - pos
  {
    if pos + HEADER > |data| then []
    else if !HeaderAt(data, pos) then Visited(data, pos + 1)
    else if BodyStart(data, pos) > |data| then [pos]
    else [pos] + Visited(data, PageEnd(data, pos))
  }

  predicate InData(data: seq<Byte>, headers: seq<nat>) {
    forall i :: 0 <= i < |headers| ==> headers[i] + HEADER <= |data|
  }

  function Max(a: int, b: int): int { if b > a then b else a }

  /** The largest granule position at the given headers, or `best` if none is larger. */
  function Largest(data: seq<Byte>, headers: seq<nat>, best: int): int
    requires InData(data, headers)
  {
    if headers == [] then best else Largest(data, headers[1..], Max(best, GranuleAt(data, headers[0])))
  }

  lemma {:induction false} VisitedAreHeaders(data: seq<Byte>, pos: nat)
    ensures forall i :: 0 <= i < |Visited(data, pos)| ==>
              HeaderAt(data, Visited(data, pos)[i]) && Visited(data, pos)[i] >= pos
    ensures forall i, j :: 0 <= i < j < |Visited(data, pos)| ==> Visited(data, pos)[i] + HEADER <= Visited(data, pos)[j]
    decreases |data| - pos
  {
    if pos + HEADER <= |data| {
      if !HeaderAt(data, pos) {
        VisitedAreHeaders(data, pos + 1);
      } else if BodyStart(data, pos) <= |data| {
        VisitedAreHeaders(data, PageEnd(data, pos));
      }
    }
  }

  lemma SliceOfSlice(data: seq<Byte>, a: nat, b: nat, c: nat, d: nat)
    requires a <= b <= |data| && c <= d <= b - a
    ensures data[a..b][c..d] == data[a + c..a + d]
  {
    forall i | 0 <= i < d - c ensures data[a..b][c..d][i] == data[a + c..a + d][i] {
    }
  }

  lemma VisitHeader(data: seq<Byte>, pos: nat, before: seq<nat>)
    requires HeaderAt(data, pos)
    ensures before + Visited(data, pos)
            == before + [pos] + if BodyStart(data, pos) > |data| then [] else Visited(data, PageEnd(data, pos))
  {
  }

  /** Read 27 bytes at `pos` and take the header apart; fewer bytes are not a header. */
  method ReadHeader(data: seq<Byte>, pos: nat) returns (next: nat, full: bool, marked: bool, granule: int, count: Byte)
    ensures full <==> pos + HEADER <= |data|
    ensures full ==> next == pos + HEADER && (marked <==> HeaderAt(data, pos))
    ensures full ==> granule == GranuleAt(data, pos) && count == data[pos + 26]
  {
    next, full, marked, granule, count := pos, false, false, 0, 0;
    if pos >= |data| {
      return;
    }
    var buf := if pos + HEADER <= |data| then data[pos..pos + HEADER] else data[pos..];
    next := pos + |buf|;
    if |buf| < HEADER {
      return;
    }
    SliceOfSlice(data, pos, pos + HEADER, 0, 4);
    SliceOfSlice(data, pos, pos + HEADER, 6, 14);
    full := true;
    marked := buf[0..4] == Capture();
    granule := Signed(FromBytes(buf[6..14]));
    count := buf[26];
  }

  /** The scan of `getOpusDuration` over a seekable byte source; the answer is in samples. */
  method ScanSamples(data: seq<Byte>) returns (total: int)
    ensures InData(data, Visited(data, 0))
    ensures total == Largest(data, Visited(data, 0), 0)
  {
    var pos: nat := 0;
    total := 0;
    ghost var visited: seq<nat> := [];
    ghost var all := Visited(data, pos);
    while true
      invariant visited + Visited(data, pos) == all
      invariant InData(data, visited)
      invariant total == Largest(data, visited, 0)
      decreases |data| - pos
    {
      var start := pos;
      var full, marked, granule, count;
      pos, full, marked, granule, count := ReadHeader(data, pos);
      if !full {
        break;
      }
      if !marked {
        pos := pos - 26;
        continue;
      }
      if granule > total {
        total := granule;
      }
      LargestAppend(data, visited, start, 0);
      VisitHeader(data, start, visited);
      visited := visited + [start];
      if pos + count > |data| {
        break;
      }
      pos := SkipPage(data, start, pos, count);
    }
    assert visited == Visited(data, 0);
  }

  /** Read the segment table and seek over the body it describes. */
  method SkipPage(data: seq<Byte>, start: nat, pos: nat, count: Byte) returns (next: nat)
    requires pos == start + HEADER && pos + count <= |data| && count == data[start + 26]
    ensures next == PageEnd(data, start)
  {
    var size := TableSum(data[pos..pos + count]);
    next := pos + count + size;
  }

  method TableSum(table: seq<Byte>) returns (size: nat)
    ensures size == Sum(table, |table|)
  {
    size := 0;
    for k := 0 to |table|
      invariant size == Sum(table, k)
    {
      size := size + table[k];
    }
  }

  method OpusDuration(data: seq<Byte>) returns (seconds: real)
    ensures InData(data, Visited(data, 0))
    ensures seconds == Largest(data, Visited(data, 0), 0) as real / 48000.0
  {
    var total := ScanSamples(data);
    seconds := total as real / SAMPLE_RATE;
  }

  lemma {:induction false} LargestAppend(data: seq<Byte>, headers: seq<nat>, h: nat, best: int)
    requires InData(data, headers)
    requires h + HEADER <= |data|
    ensures Largest(data, headers + [h], best) == Max(Largest(data, headers, best), GranuleAt(data, h))
    decreases |headers|
  {
    if headers != [] {
      LargestAppend(data, headers[1..], h, Max(best, GranuleAt(data, headers[0])));
      assert (headers + [h])[1..] == headers[1..] + [h];
    }
  }

  /** On every byte string the result is zero or a granule position met at a header, and no header has a larger one. */
  lemma {:induction false} LargestIs(data: seq<Byte>, headers: seq<nat>, best: int)
    requires InData(data, headers)
    ensures Largest(data, headers, best) >= best
    ensures forall i :: 0 <= i < |headers| ==> GranuleAt(data, headers[i]) <= Largest(data, headers, best)
    ensures Largest(data, headers, best) == best
            || exists i :: 0 <= i < |headers| && GranuleAt(data, headers[i]) == Largest(data, headers, best)
    decreases |headers|
  {
    if headers != [] {
      var granule := GranuleAt(data, headers[0]);
      LargestIs(data, headers[1..], Max(best, granule));
      var largest := Largest(data, headers, best);
      forall i | 0 <= i < |headers| ensures GranuleAt(data, headers[i]) <= largest {
        if i > 0 {
          assert headers[i] == headers[1..][i - 1];
        }
      }
      if largest != best && largest != granule {
        var i :| 0 <= i < |headers[1..]| && GranuleAt(data, headers[1..][i]) == largest;
        assert headers[i + 1] == headers[1..][i];
      }
    }
  }

  // ---------------------------------------------------------------- pages

  datatype Page = Page(
    version: Byte,
    flags: Byte,
    granule: int,
    serial: seq<Byte>,
    number: seq<Byte>,
    checksum: seq<Byte>,
    lacing: seq<Byte>,
    body: seq<Byte>)

  predicate WellFormed(p: Page) {
    && -TWO63 <= p.granule < TWO63
    && |p.serial| == |p.number| == |p.checksum| == 4
    && |p.lacing| < 256
    && |p.body| == Sum(p.lacing, |p.lacing|)
  }

  function Fields(p: Page): (r: seq<Byte>)
    requires WellFormed(p)
    ensures |r| == HEADER
  {
    Capture() + [p.version, p.flags] + ToBytes(8, Unsigned(p.granule)) + p.serial + p.number + p.checksum + [|p.lacing|]
  }

  function Length(p: Page): nat {
    HEADER + |p.lacing| + |p.body|
  }

  function Encode(p: Page): (r: seq<Byte>)
    requires WellFormed(p)
    ensures |r| == Length(p)
  {
    Fields(p) + p.lacing + p.body
  }

  predicate AllWellFormed(pages: seq<Page>) {
    forall i :: 0 <= i < |pages| ==> WellFormed(pages[i])
  }

  function Stream(pages: seq<Page>): seq<Byte>
    requires AllWellFormed(pages)
  {
    if pages == [] then [] else Encode(pages[0]) + Stream(pages[1..])
  }

  /** Where each page starts when the first one starts at `pos`. */
  function Offsets(pages: seq<Page>, pos: nat): seq<nat> {
    if pages == [] then [] else [pos] + Offsets(pages[1..], pos + Length(pages[0]))
  }

  function LargestGranule(pages: seq<Page>, best: int): int {
    if pages == [] then best else LargestGranule(pages[1..], Max(best, pages[0].granule))
  }

  lemma FieldsParts(p: Page)
    requires WellFormed(p)
    ensures Fields(p)[0..4] == Capture() && Fields(p)[6..14] == ToBytes(8, Unsigned(p.granule))
            && Fields(p)[26] == |p.lacing|
  {
    var granule := ToBytes(8, Unsigned(p.granule));
    var rest := p.serial + p.number + p.checksum + [|p.lacing|];
    var fields := Capture() + [p.version, p.flags] + granule + rest;
    assert Fields(p) == fields;
    assert |Capture() + [p.version, p.flags]| == 6 && |granule| == 8 && |rest| == 13;
    assert fields[0..4] == Capture();
    assert fields[6..14] == granule;
    assert fields[26] == rest[12];
  }

  /** A page written at `pos` is read back there. */
  lemma PageAt(data: seq<Byte>, pos: nat, p: Page)
    requires WellFormed(p) && pos + |Encode(p)| <= |data| && data[pos..pos + |Encode(p)|] == Encode(p)
    ensures HeaderAt(data, pos) && GranuleAt(data, pos) == p.granule
    ensures BodyStart(data, pos) <= |data| && PageEnd(data, pos) == pos + |Encode(p)|
  {
    var end := pos + |Encode(p)|;
    SliceOfSlice(data, pos, end, 0, HEADER);
    assert Encode(p)[0..HEADER] == Fields(p);
    var h := pos + HEADER;
    assert data[pos..h] == Fields(p);
    FieldsParts(p);
    SliceOfSlice(data, pos, h, 0, 4);
    SliceOfSlice(data, pos, h, 6, 14);
    GranuleRoundTrip(p.granule);
    assert data[pos + 26] == Fields(p)[26];
    SliceOfSlice(data, pos, end, HEADER, HEADER + |p.lacing|);
    assert Encode(p)[HEADER..HEADER + |p.lacing|] == p.lacing;
  }

  /** The scan meets the given pages one after the other from `pos` on, and nothing after them. */
  predicate Follows(data: seq<Byte>, pos: nat, pages: seq<Page>)
    decreases |pages|
  {
    if pages == [] then pos == |data|
    else
      && HeaderAt(data, pos) && GranuleAt(data, pos) == pages[0].granule
      && BodyStart(data, pos) <= |data| && PageEnd(data, pos) == pos + Length(pages[0])
      && Follows(data, pos + Length(pages[0]), pages[1..])
  }

  lemma {:induction false} StreamFollows(data: seq<Byte>, pos: nat, pages: seq<Page>)
    requires AllWellFormed(pages) && pos <= |data| && data[pos..] == Stream(pages)
    ensures Follows(data, pos, pages)
    decreases |pages|
  {
    if pages != [] {
      var page := Encode(pages[0]);
      var end := pos + |page|;
      assert |data[pos..]| == |page| + |Stream(pages[1..])|;
      assert data[pos..][..|page|] == page && data[pos..][|page|..] == Stream(pages[1..]);
      assert data[pos..end] == data[pos..][..|page|];
      assert data[end..] == data[pos..][|page|..];
      PageAt(data, pos, pages[0]);
      StreamFollows(data, end, pages[1..]);
    }
  }

  /** It then visits exactly their headers. */
  lemma {:induction false} VisitsFollow(data: seq<Byte>, pos: nat, pages: seq<Page>)
    requires Follows(data, pos, pages)
    ensures Visited(data, pos) == Offsets(pages, pos)
    decreases |pages|
  {
    if pages != [] {
      var end := pos + Length(pages[0]);
      VisitsFollow(data, end, pages[1..]);
      VisitPage(data, pos, end);
    }
  }

  lemma VisitPage(data: seq<Byte>, pos: nat, end: nat)
    requires HeaderAt(data, pos) && BodyStart(data, pos) <= |data| && PageEnd(data, pos) == end
    ensures Visited(data, pos) == [pos] + Visited(data, end)
  {
  }

  /** And it returns their largest granule position. */
  lemma {:induction false} LargestFollows(data: seq<Byte>, pos: nat, pages: seq<Page>, best: int)
    requires Follows(data, pos, pages)
    ensures InData(data, Offsets(pages, pos))
    ensures Largest(data, Offsets(pages, pos), best) == LargestGranule(pages, best)
    decreases |pages|
  {
    if pages != [] {
      var end := pos + Length(pages[0]);
      LargestFollows(data, end, pages[1..], Max(best, pages[0].granule));
      LargestStep(data, pos, Offsets(pages[1..], end), best);
    }
  }

  lemma LargestStep(data: seq<Byte>, pos: nat, rest: seq<nat>, best: int)
    requires InData(data, rest) && pos + HEADER <= |data|
    ensures InData(data, [pos] + rest)
    ensures Largest(data, [pos] + rest, best) == Largest(data, rest, Max(best, GranuleAt(data, pos)))
  {
    assert ([pos] + rest)[1..] == rest;
  }

  /**
    On a file of well-formed pages back to back the scan visits exactly the page headers and returns the
    largest granule position, or zero if none is positive.
   */
  lemma FileSamples(pages: seq<Page>)
    requires AllWellFormed(pages)
    ensures var data := Stream(pages);
            && Visited(data, 0) == Offsets(pages, 0)
            && InData(data, Visited(data, 0))
            && Largest(data, Visited(data, 0), 0) == LargestGranule(pages, 0)
  {
    assert Stream(pages)[0..] == Stream(pages);
    StreamFollows(Stream(pages), 0, pages);
    VisitsFollow(Stream(pages), 0, pages);
    LargestFollows(Stream(pages), 0, pages, 0);
  }

  /** Bytes in which no capture pattern starts are stepped over one by one, whatever follows them. */
  lemma {:induction false} SkipsJunk(data: seq<Byte>, pos: nat, end: nat)
    requires pos <= end && forall k :: pos <= k < end ==> !HeaderAt(data, k)
    ensures Visited(data, pos) == Visited(data, end)
    decreases end - pos
  {
    if pos < end {
      SkipsJunk(data, pos + 1, end);
    }
  }

  /** A file with leading junk is scanned as if it started at its first page. */
  lemma JunkThenPages(junk: seq<Byte>, pages: seq<Page>)
    requires AllWellFormed(pages)
    requires forall k :: 0 <= k < |junk| ==> !HeaderAt(junk + Stream(pages), k)
    ensures var data := junk + Stream(pages);
            && Visited(data, 0) == Offsets(pages, |junk|)
            && InData(data, Visited(data, 0))
            && Largest(data, Visited(data, 0), 0) == LargestGranule(pages, 0)
  {
    SkipsJunk(junk + Stream(pages), 0, |junk|);
    StreamFollows(junk + Stream(pages), |junk|, pages);
    VisitsFollow(junk + Stream(pages), |junk|, pages);
    LargestFollows(junk + Stream(pages), |junk|, pages, 0);
  }

  // ---------------------------------------------------------------- written out

  /** A header is 27 bytes that start with the characters of "OggS". */
  lemma HeaderWrittenOut(data: seq<Byte>, pos: nat)
    ensures HeaderAt(data, pos)
            <==> && pos + 27 <= |data| && data[pos] == 'O' as int && data[pos + 1] == 'g' as int
                 && data[pos + 2] == 'g' as int && data[pos + 3] == 'S' as int
  {
    if pos + 27 <= |data| {
      var mark := data[pos..pos + 4];
      assert mark == Capture() <==> mark[0] == 79 && mark[1] == 103 && mark[2] == 103 && mark[3] == 83;
    }
  }

  /** Later bytes weigh more: each 256 times the one before. */
  lemma {:induction false} LittleEndian(low: seq<Byte>, high: seq<Byte>)
    ensures FromBytes(low + high) == FromBytes(low) + Power(|low|) * FromBytes(high)
    ensures forall b: Byte :: FromBytes([b]) == b
  {
    if low == [] {
      assert low + high == high;
    } else {
      LittleEndian(low[1..], high);
      assert (low + high)[1..] == low[1..] + high;
      ShiftByte(low[0], FromBytes(low[1..]), Power(|low[1..]|), FromBytes(high));
    }
  }

  lemma ShiftByte(b: int, low: int, power: int, high: int)
    ensures b + 256 * (low + power * high) == (b + 256 * low) + (256 * power) * high
  {
  }

  /** A body is as long as the lacing values add up to. */
  lemma SumWrittenOut(a: Byte, b: Byte)
    ensures Sum([], 0) == 0 && Sum([a, b], 1) == a && Sum([a, b], 2) == a as int + b as int
  {
    var two := [a, b];
    assert Sum(two, 0) == 0 && Sum(two, 1) == Sum(two, 0) + two[0] && Sum(two, 2) == Sum(two, 1) + two[1];
  }
}
