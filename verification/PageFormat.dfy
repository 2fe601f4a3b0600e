/** The page format as the kernel writes it, and what the reader of `KBuffer.dfy` makes of it. The encoder
    and the meaning below are written from the format alone: a first word with five bits of kind and 27
    bits of time, for some kinds a second word, then data in whole words. */
module PageFormat {
  import opened KBuffer

  /** One record, with its time difference and contents as plain numbers and bytes. */
  datatype Record =
    | ShortData(delta: nat, payload: seq<Byte>)
    | LongData(delta: nat, payload: seq<Byte>, fill: seq<Byte>)
    | TimeExtend(delta: nat)
    | TimeStamp(time: nat)
    | Padding(delta: nat, fill: seq<Byte>)

  /** 2 to the power 27: what the time field holds. */
  const FIELD: nat := 134_217_728
  /** 2 to the power 59: what the time field and a second word hold together. */
  const WIDE: nat := 576_460_752_303_423_488

  /** What fits the format: small data comes in 1 to 28 words, other data carries its length and is
      filled up to whole words. */
  predicate Fits(r: Record) {
    match r
    case ShortData(delta, payload) => delta < FIELD && 4 <= |payload| <= 112 && |payload| % 4 == 0
    case LongData(delta, payload, fill) =>
      delta < FIELD && |payload| + 4 < WORD && |fill| < 4 && (|payload| + |fill|) % 4 == 0
    case TimeExtend(delta) => delta < WIDE
    case TimeStamp(time) => time < WIDE
    case Padding(delta, fill) => delta < FIELD && |fill| + 4 < WORD
  }

  /** The first word: the kind in the high bits of a big-endian word and in the low bits of a little-endian one. */
  function FirstWord(kind: nat, field: nat, big: bool): Word
    requires kind < 32 && field < FIELD
  {
    if big then 134_217_728 * kind + field else 32 * field + kind
  }

  function EncodeOne(r: Record, big: bool): seq<Byte>
    requires Fits(r)
  {
    match r
    case ShortData(delta, payload) => Bytes4(FirstWord(|payload| / 4, delta, big), big) + payload
    case LongData(delta, payload, fill) =>
      Bytes4(FirstWord(0, delta, big), big) + Bytes4(|payload| + 4, big) + (payload + fill)
    case TimeExtend(delta) => Bytes4(FirstWord(30, delta % FIELD, big), big) + Bytes4(delta / FIELD, big)
    case TimeStamp(time) => Bytes4(FirstWord(31, time % FIELD, big), big) + Bytes4(time / FIELD, big)
    case Padding(delta, fill) => Bytes4(FirstWord(29, delta, big), big) + Bytes4(|fill| + 4, big) + fill
  }

  /** The time after a record: all but stamps add a difference, modulo 2 to the power 64; a stamp replaces
      the lower 59 bits. */
  function TimeAfter(r: Record, ts: Long): Long
    requires Fits(r)
  {
    if r.TimeStamp? then r.time + ts / WIDE * WIDE else (ts + r.delta) % 18_446_744_073_709_551_616
  }

  /** The event of a record, if it is one. */
  function EventOf(r: Record, ts: Long): seq<Event> {
    match r
    case ShortData(_, payload) => [Event(ts, payload)]
    case LongData(_, payload, fill) => [Event(ts, payload + fill)]
    case _ => []
  }

  ghost predicate AllFit(rs: seq<Record>) { forall i :: 0 <= i < |rs| ==> Fits(rs[i]) }

  ghost function Encode(rs: seq<Record>, big: bool): seq<Byte>
    requires AllFit(rs)
  {
    if rs == [] then [] else EncodeOne(rs[0], big) + Encode(rs[1..], big)
  }

  /** The events of a list of records, coming with time `ts`. */
  ghost function Meaning(rs: seq<Record>, ts: Long): seq<Event>
    requires AllFit(rs)
  {
    if rs == [] then []
    else EventOf(rs[0], TimeAfter(rs[0], ts)) + Meaning(rs[1..], TimeAfter(rs[0], ts))
  }

  ghost function FinalTime(rs: seq<Record>, ts: Long): Long
    requires AllFit(rs)
  {
    if rs == [] then ts else FinalTime(rs[1..], TimeAfter(rs[0], ts))
  }

  // ---------------------------------------------------------------------------------------
  // The reader against the format
  // ---------------------------------------------------------------------------------------

  lemma FirstWordFields(kind: nat, field: nat, big: bool)
    requires kind < 32 && field < FIELD
    ensures TypeLen(FirstWord(kind, field, big), big) == kind && TimeField(FirstWord(kind, field, big), big) == field
  {
  }

  /** The first word of a record as the reader sees it. */
  lemma FirstWordRead(d: seq<Byte>, p: nat, kind: nat, field: nat, big: bool)
    requires kind < 32 && field < FIELD && p + 4 <= |d| && d[p..p+4] == Bytes4(FirstWord(kind, field, big), big)
    ensures Kind(d, p, big) == kind && TimeField(Read4(d, p, big), big) == field
  {
    hide Read4, Bytes4;
    Read4Back(d, p, FirstWord(kind, field, big), big);
    FirstWordFields(kind, field, big);
  }

  /** Positions in the bytes of a record. */
  lemma Prefixed(d: seq<Byte>, p: nat, a: seq<Byte>, b: seq<Byte>)
    requires p + |a + b| <= |d| && d[p..p + |a + b|] == a + b
    ensures d[p..p + |a|] == a && d[p + |a|..p + |a| + |b|] == b
  {
    assert d[p..p + |a|] == d[p..p + |a + b|][..|a|];
    assert d[p + |a|..p + |a| + |b|] == d[p..p + |a + b|][|a|..];
  }

  /** What the reader makes of the record at `p`: its end, the time after it and its event. */
  ghost predicate ReadsAs(d: seq<Byte>, p: nat, size: nat, after: Long, event: seq<Event>, ts: Long, big: bool) {
    && Readable(d, p, big) && HeaderEnd(d, p, big) <= NextAt(d, p, big) == p + size <= |d|
    && StampAt(d, p, ts, big) == after && p < IndexAt(d, p, big) <= NextAt(d, p, big)
    && event == if IsEvent(Kind(d, p, big)) then [Event(after, d[IndexAt(d, p, big)..NextAt(d, p, big)])] else []
  }

  lemma ShortRead(d: seq<Byte>, p: nat, delta: nat, payload: seq<Byte>, ts: Long, big: bool)
    requires Fits(ShortData(delta, payload)) && p + 4 + |payload| <= |d| < WORD
    requires d[p..p+4] == Bytes4(FirstWord(|payload| / 4, delta, big), big) && d[p+4..p+4+|payload|] == payload
    ensures ReadsAs(d, p, 4 + |payload|, (ts + delta) % LONG, [Event((ts + delta) % LONG, payload)], ts, big)
  {
    hide Read4, Bytes4, FirstWord, TypeLen, TimeField;
    FirstWordRead(d, p, |payload| / 4, delta, big);
  }

  lemma LongRead(d: seq<Byte>, p: nat, delta: nat, n: nat, padded: seq<Byte>, ts: Long, big: bool)
    requires delta < FIELD && n + 4 < WORD && n <= |padded| < n + 4 && |padded| % 4 == 0
    requires p + 8 + |padded| <= |d| < WORD && d[p..p+4] == Bytes4(FirstWord(0, delta, big), big)
    requires d[p+4..p+8] == Bytes4(n + 4, big) && d[p+8..p+8+|padded|] == padded
    ensures ReadsAs(d, p, 8 + |padded|, (ts + delta) % LONG, [Event((ts + delta) % LONG, padded)], ts, big)
  {
    hide Read4, Bytes4, FirstWord, TypeLen, TimeField, Align4;
    FirstWordRead(d, p, 0, delta, big);
    Read4Back(d, p + 4, n + 4, big);
    Aligned(n, |padded|);
  }

  lemma Aligned(n: nat, m: nat)
    requires n <= m < n + 4 && m % 4 == 0
    ensures Align4(n) == m
  {
  }

  lemma TimeRead(d: seq<Byte>, p: nat, kind: nat, time: nat, ts: Long, big: bool)
    requires (kind == 30 || kind == 31) && time < WIDE && p + 8 <= |d| < WORD
    requires d[p..p+4] == Bytes4(FirstWord(kind, time % FIELD, big), big) && d[p+4..p+8] == Bytes4(time / FIELD, big)
    ensures ReadsAs(d, p, 8, if kind == 31 then time + ts / WIDE * WIDE else (ts + time) % LONG, [], ts, big)
  {
    hide Read4, Bytes4, FirstWord, TypeLen, TimeField;
    FirstWordRead(d, p, kind, time % FIELD, big);
    Read4Back(d, p + 4, time / FIELD, big);
  }

  lemma PaddingRead(d: seq<Byte>, p: nat, delta: nat, n: nat, ts: Long, big: bool)
    requires delta < FIELD && n + 4 < WORD && p + 8 + n <= |d| < WORD
    requires d[p..p+4] == Bytes4(FirstWord(29, delta, big), big) && d[p+4..p+8] == Bytes4(n + 4, big)
    ensures ReadsAs(d, p, 8 + n, (ts + delta) % LONG, [], ts, big)
  {
    hide Read4, Bytes4, FirstWord, TypeLen, TimeField;
    FirstWordRead(d, p, 29, delta, big);
    Read4Back(d, p + 4, n + 4, big);
  }

  /** The bytes of a record stand at `p`. */
  ghost predicate Placed(d: seq<Byte>, p: nat, r: Record, big: bool) {
    Fits(r) && p + |EncodeOne(r, big)| <= |d| < WORD && d[p..p + |EncodeOne(r, big)|] == EncodeOne(r, big)
  }

  lemma ShortRecordRead(d: seq<Byte>, p: nat, r: Record, ts: Long, big: bool)
    requires Placed(d, p, r, big) && r.ShortData?
    ensures ReadsAs(d, p, |EncodeOne(r, big)|, TimeAfter(r, ts), EventOf(r, TimeAfter(r, ts)), ts, big)
  {
    hide Bytes4, FirstWord, ReadsAs;
    Prefixed(d, p, Bytes4(FirstWord(|r.payload| / 4, r.delta, big), big), r.payload);
    ShortRead(d, p, r.delta, r.payload, ts, big);
  }

  lemma LongRecordRead(d: seq<Byte>, p: nat, r: Record, ts: Long, big: bool)
    requires Placed(d, p, r, big) && r.LongData?
    ensures ReadsAs(d, p, |EncodeOne(r, big)|, TimeAfter(r, ts), EventOf(r, TimeAfter(r, ts)), ts, big)
  {
    hide Bytes4, FirstWord, ReadsAs;
    var first, second := Bytes4(FirstWord(0, r.delta, big), big), Bytes4(|r.payload| + 4, big);
    Prefixed(d, p, first + second, r.payload + r.fill);
    Prefixed(d, p, first, second);
    LongRead(d, p, r.delta, |r.payload|, r.payload + r.fill, ts, big);
  }

  lemma TimeRecordRead(d: seq<Byte>, p: nat, r: Record, ts: Long, big: bool)
    requires Placed(d, p, r, big) && (r.TimeExtend? || r.TimeStamp?)
    ensures ReadsAs(d, p, |EncodeOne(r, big)|, TimeAfter(r, ts), EventOf(r, TimeAfter(r, ts)), ts, big)
  {
    hide Bytes4, FirstWord, ReadsAs;
    var kind, time := if r.TimeExtend? then 30 else 31, if r.TimeExtend? then r.delta else r.time;
    Prefixed(d, p, Bytes4(FirstWord(kind, time % FIELD, big), big), Bytes4(time / FIELD, big));
    TimeRead(d, p, kind, time, ts, big);
  }

  lemma PaddingRecordRead(d: seq<Byte>, p: nat, r: Record, ts: Long, big: bool)
    requires Placed(d, p, r, big) && r.Padding?
    ensures ReadsAs(d, p, |EncodeOne(r, big)|, TimeAfter(r, ts), EventOf(r, TimeAfter(r, ts)), ts, big)
  {
    hide Bytes4, FirstWord, ReadsAs;
    var first, second := Bytes4(FirstWord(29, r.delta, big), big), Bytes4(|r.fill| + 4, big);
    Prefixed(d, p, first + second, r.fill);
    Prefixed(d, p, first, second);
    PaddingRead(d, p, r.delta, |r.fill|, ts, big);
  }

  /** The reader decodes one record to its time and event, wherever it stands. */
  lemma RecordRead(d: seq<Byte>, p: nat, r: Record, ts: Long, big: bool)
    requires Fits(r) && p + |EncodeOne(r, big)| <= |d| < WORD && d[p..p + |EncodeOne(r, big)|] == EncodeOne(r, big)
    ensures ReadsAs(d, p, |EncodeOne(r, big)|, TimeAfter(r, ts), EventOf(r, TimeAfter(r, ts)), ts, big)
  {
    hide EncodeOne, ReadsAs, TimeAfter, EventOf;
    match r
    case ShortData(_, _) => ShortRecordRead(d, p, r, ts, big);
    case LongData(_, _, _) => LongRecordRead(d, p, r, ts, big);
    case Padding(_, _) => PaddingRecordRead(d, p, r, ts, big);
    case _ => TimeRecordRead(d, p, r, ts, big);
  }

  /** Whatever records stand from `p` to `end`, the reader finds exactly their events. */
  lemma {:induction false} RecordsRead(d: seq<Byte>, p: nat, end: nat, rs: seq<Record>, ts: Long, big: bool)
    requires AllFit(rs) && p <= end <= |d| < WORD && d[p..end] == Encode(rs, big)
    ensures Tiled(d, p, end, big)
    ensures Events(d, p, end, ts, big) == Meaning(rs, ts) && TimeAt(d, p, end, ts, big) == FinalTime(rs, ts)
    decreases |rs|
  {
    hide EncodeOne, Kind, IndexAt, NextAt, StampAt, HeaderEnd, Readable, EventOf, TimeAfter, IsEvent;
    if rs != [] {
      var first, rest := EncodeOne(rs[0], big), Encode(rs[1..], big);
      assert end == p + |first + rest|;
      Prefixed(d, p, first, rest);
      RecordRead(d, p, rs[0], ts, big);
      RecordsRead(d, p + |first|, end, rs[1..], TimeAfter(rs[0], ts), big);
    }
  }

  /** Encoded records are well formed and mean what they say. */
  lemma DecodesEncoded(rs: seq<Record>, ts: Long, big: bool)
    requires AllFit(rs) && |Encode(rs, big)| < WORD
    ensures Tiled(Encode(rs, big), 0, |Encode(rs, big)|, big)
    ensures Events(Encode(rs, big), 0, |Encode(rs, big)|, ts, big) == Meaning(rs, ts)
  {
    var d := Encode(rs, big);
    assert d[0..|d|] == d;
    RecordsRead(d, 0, |d|, rs, ts, big);
  }

  // ---------------------------------------------------------------------------------------
  // Whole pages
  // ---------------------------------------------------------------------------------------

  /** Whether events were lost before the page, and how many if that is stored. */
  datatype Loss = NoLoss | UnknownLoss | CountedLoss(count: nat)

  /** A word of the header's width. */
  function LongBytes(v: nat, big: bool, long8: bool): seq<Byte>
    requires v < if long8 then LONG else WORD
  {
    if long8 then Bytes8(v, big) else Bytes4(v, big)
  }

  /** The length of the data, with bit 31 if events were lost and bit 30 if their number follows the data. */
  function LengthWord(size: nat, loss: Loss): nat {
    size + match loss
           case NoLoss => 0
           case UnknownLoss => 2_147_483_648
           case CountedLoss(_) => 2_147_483_648 + 1_073_741_824
  }

  ghost predicate PageFits(rs: seq<Record>, loss: Loss, big: bool, long8: bool) {
    AllFit(rs) && |Encode(rs, big)| < FIELD && (loss.CountedLoss? ==> loss.count < if long8 then LONG else WORD)
  }

  ghost function EncodePage(ts: Long, rs: seq<Record>, loss: Loss, big: bool, long8: bool): seq<Byte>
    requires PageFits(rs, loss, big, long8)
  {
    var d := Encode(rs, big);
    (Bytes8(ts, big) + LongBytes(LengthWord(|d|, loss), big, long8))
    + (d + if loss.CountedLoss? then LongBytes(loss.count, big, long8) else [])
  }

  lemma LongWordRead(s: seq<Byte>, p: nat, v: nat, big: bool, long8: bool)
    requires v < if long8 then LONG else WORD
    requires p + |LongBytes(v, big, long8)| <= |s| && s[p..p + |LongBytes(v, big, long8)|] == LongBytes(v, big, long8)
    ensures |LongBytes(v, big, long8)| == HeaderSize(long8) - 8 && ReadLong(s, p, big, long8) == v
  {
    hide Read4, Read8, Bytes4, Bytes8;
    if long8 {
      Read8Back(s, p, v, big);
    } else {
      Read4Back(s, p, v, big);
    }
  }

  lemma LengthWordFields(size: nat, loss: Loss)
    requires size < FIELD
    ensures LengthWord(size, loss) < WORD && LengthWord(size, loss) % COMMIT == size
    ensures LengthWord(size, loss) / MISSING_EVENTS % 2 == 1 <==> !loss.NoLoss?
    ensures LengthWord(size, loss) / MISSING_STORED % 2 == 1 <==> loss.CountedLoss?
  {
  }

  function LostBefore(loss: Loss): int {
    match loss
    case NoLoss => 0
    case UnknownLoss => -1
    case CountedLoss(count) => count
  }

  /** What the reader makes of the length word. */
  lemma LengthRead(page: seq<Byte>, size: nat, loss: Loss, big: bool, long8: bool)
    requires size < FIELD && HeaderSize(long8) + size <= |page|
    requires ReadLong(page, 8, big, long8) == LengthWord(size, loss)
    requires loss.CountedLoss? ==>
      HeaderSize(long8) + size + (HeaderSize(long8) - 8) <= |page|
      && ReadLong(page, HeaderSize(long8) + size, big, long8) == loss.count
    ensures Complete(page, big, long8) && CountStored(page, big, long8) && SizeOf(page, big, long8) == size
    ensures LostOf(page, big, long8) == LostBefore(loss)
  {
    hide ReadLong, LengthWord;
    LengthWordFields(size, loss);
    Bits(LengthWord(size, loss) / MISSING_EVENTS);
    Bits(LengthWord(size, loss) / MISSING_STORED);
  }

  lemma Bits(n: nat)
    ensures n % 2 == 0 || n % 2 == 1
  {
  }

  /** The reader takes an encoded page for a good one, finds its events from the page's time on, and the
      number of lost events, -1 standing for an unknown number. */
  lemma PageRead(ts: Long, rs: seq<Record>, loss: Loss, big: bool, long8: bool)
    requires PageFits(rs, loss, big, long8)
    ensures var page := EncodePage(ts, rs, loss, big, long8);
      && GoodPage(page, big, long8) && PageEvents(page, big, long8) == Meaning(rs, ts)
      && LostOf(page, big, long8) == LostBefore(loss)
  {
    hide Read4, Read8, Bytes4, Bytes8, ReadLong, LongBytes, LengthWord, Tiled, Events, LostOf, CountStored, SizeOf;
    var page, d, start := EncodePage(ts, rs, loss, big, long8), Encode(rs, big), HeaderSize(long8);
    PageParts(ts, rs, loss, big, long8);
    Read8Back(page, 0, ts, big);
    LengthRead(page, |d|, loss, big, long8);
    DecodesEncoded(rs, ts, big);
  }

  /** Where the parts of an encoded page stand. */
  lemma PageParts(ts: Long, rs: seq<Record>, loss: Loss, big: bool, long8: bool)
    requires PageFits(rs, loss, big, long8)
    ensures var page, size, start := EncodePage(ts, rs, loss, big, long8), |Encode(rs, big)|, HeaderSize(long8);
      && start + size <= |page| && page[0..8] == Bytes8(ts, big) && page[start..start + size] == Encode(rs, big)
      && ReadLong(page, 8, big, long8) == LengthWord(size, loss)
      && (loss.CountedLoss? ==>
            start + size + (start - 8) <= |page| && ReadLong(page, start + size, big, long8) == loss.count)
  {
    hide Bytes8, ReadLong, LengthWord;
    var page, d, start := EncodePage(ts, rs, loss, big, long8), Encode(rs, big), HeaderSize(long8);
    LengthWordFields(|d|, loss);
    var time, flags := Bytes8(ts, big), LongBytes(LengthWord(|d|, loss), big, long8);
    var tail := if loss.CountedLoss? then LongBytes(loss.count, big, long8) else [];
    assert page[0..|page|] == page;
    assert |flags| == start - 8;
    hide LongBytes, Encode;
    Prefixed(page, 0, time + flags, d + tail);
    Prefixed(page, 0, time, flags);
    LongWordRead(page, 8, LengthWord(|d|, loss), big, long8);
    Prefixed(page, start, d, tail);
    if loss.CountedLoss? {
      LongWordRead(page, start + |d|, loss.count, big, long8);
    }
  }

  /** The order of bytes the reader assumes: the first byte is the highest one of a big-endian word. */
  lemma BytesInOrder(s: seq<Byte>, p: nat)
    requires p + 8 <= |s|
    ensures Read4(s, p, true)
         == 16_777_216 * (s[p] as int) + 65_536 * (s[p+1] as int) + 256 * (s[p+2] as int) + s[p+3] as int
    ensures Read4(s, p, false)
         == 16_777_216 * (s[p+3] as int) + 65_536 * (s[p+2] as int) + 256 * (s[p+1] as int) + s[p] as int
    ensures Read8(s, p, true) == 4_294_967_296 * (Read4(s, p, true) as int) + Read4(s, p + 4, true) as int
    ensures Read8(s, p, false) == 4_294_967_296 * (Read4(s, p + 4, false) as int) + Read4(s, p, false) as int
  {
  }
}
