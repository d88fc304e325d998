/** The binary telemetry log: the records Source/Sink/GPSOpenClFileSink.cpp appends, and the
  * resumable parser of Tools/dashboard.py that follows the file while it grows.
  */
module WireLogs {
  import opened Numbers

  type Byte = b: int | 0 <= b < 256
  type Bytes = seq<Byte>

  const MAX_IDENTIFIER_BYTES: nat := 32
  const MAX_DATA_BYTES: nat := 512

  /** One published message. */
  datatype Record = Record(name: Bytes, data: Bytes)

  predicate Fits(r: Record) { |r.name| <= MAX_IDENTIFIER_BYTES && |r.data| <= MAX_DATA_BYTES }

  ghost predicate AllFit(records: seq<Record>) { forall i | 0 <= i < |records| :: Fits(records[i]) }

  /** SinkMessage::fill: an oversized message is not taken. */
  function Fill(name: Bytes, data: Bytes): (r: Option<Record>)
    ensures r.Some? <==> |name| <= MAX_IDENTIFIER_BYTES && |data| <= MAX_DATA_BYTES
    ensures r.Some? ==> Fits(r.value) && r.value == Record(name, data)
  {
    if |name| > MAX_IDENTIFIER_BYTES || |data| > MAX_DATA_BYTES then None else Some(Record(name, data))
  }

  /** A call of publish, and whether the queue has a slot for its message at that moment. */
  datatype Call = Call(name: Bytes, data: Bytes, room: bool)

  /** The messages that reach the writer: those that fit and found a slot, in order. */
  function Published(calls: seq<Call>): (records: seq<Record>)
    ensures AllFit(records)
  {
    if calls == [] then []
    else
      var last := calls[|calls| - 1];
      var message := Fill(last.name, last.data);
      Published(calls[..|calls| - 1]) + if message.Some? && last.room then [message.value] else []
  }

  // ----- framing

  /** A 32-bit length, little end first. */
  function LittleEndian(n: nat): (b: Bytes)
    requires n < 0x1_0000_0000
    ensures |b| == 4
  {
    [n % 0x100, n / 0x100 % 0x100, n / 0x1_0000 % 0x100, n / 0x100_0000]
  }

  /** struct.unpack("<I", b) */
  function Unpack(b: Bytes): nat
    requires |b| == 4
  {
    b[0] as int + 0x100 * b[1] as int + 0x1_0000 * b[2] as int + 0x100_0000 * b[3] as int
  }

  lemma UnpackInverts(n: nat)
    requires n < 0x1_0000_0000
    ensures Unpack(LittleEndian(n)) == n
  {
  }

  lemma LittleEndianInverts(b: Bytes)
    requires |b| == 4
    ensures Unpack(b) < 0x1_0000_0000 && LittleEndian(Unpack(b)) == b
  {
    var n := Unpack(b);
    var b1, b2, b3: nat := b[1] as int, b[2] as int, b[3] as int;
    LowByte(b[0], b1 + 0x100 * b2 + 0x1_0000 * b3);
    LowByte(b[1], b2 + 0x100 * b3);
    LowByte(b[2], b3);
    assert n / 0x1_0000 == n / 0x100 / 0x100 && n / 0x100_0000 == n / 0x100 / 0x100 / 0x100;
  }

  lemma LowByte(low: Byte, high: nat)
    ensures (low + 0x100 * high) % 0x100 == low && (low + 0x100 * high) / 0x100 == high
  {
  }

  function Frame(r: Record): Bytes
    requires Fits(r)
  {
    LittleEndian(|r.name|) + r.name + LittleEndian(|r.data|) + r.data
  }

  function Log(records: seq<Record>): Bytes
    requires AllFit(records)
  {
    if records == [] then [] else Log(records[..|records| - 1]) + Frame(records[|records| - 1])
  }

  /** The byte at which record k begins. */
  function Start(records: seq<Record>, k: nat): nat
    requires AllFit(records) && k <= |records|
  {
    |Log(records[..k])|
  }

  lemma {:induction false} LogSplits(records: seq<Record>, k: nat)
    requires AllFit(records) && k <= |records|
    ensures Start(records, k) <= |Log(records)| && Log(records)[..Start(records, k)] == Log(records[..k])
  {
    if k < |records| {
      var init := records[..|records| - 1];
      LogSplits(init, k);
      assert init[..k] == records[..k];
    } else {
      assert records[..k] == records;
    }
  }

  /** Record k lies framed between its start and the next. */
  lemma FrameInLog(records: seq<Record>, k: nat)
    requires AllFit(records) && k < |records|
    ensures Start(records, k + 1) == Start(records, k) + |Frame(records[k])| <= |Log(records)|
    ensures Log(records)[Start(records, k)..Start(records, k + 1)] == Frame(records[k])
  {
    LogSplits(records, k + 1);
    var upTo := records[..k + 1];
    assert upTo[..k] == records[..k];
    assert Log(upTo) == Log(records[..k]) + Frame(records[k]);
    var s, t := Start(records, k), Start(records, k + 1);
    assert Log(records)[s..t] == Log(records)[..t][s..];
  }

  /** The four parts of a framed record stand at a position of a file. */
  ghost predicate FramedAt(file: Bytes, position: nat, r: Record)
    requires Fits(r)
  {
    var n, d := |r.name|, |r.data|;
    && position + 8 + n + d <= |file|
    && file[position..position + 4] == LittleEndian(n)
    && file[position + 4..position + 4 + n] == r.name
    && file[position + 4 + n..position + 8 + n] == LittleEndian(d)
    && file[position + 8 + n..position + 8 + n + d] == r.data
  }

  lemma SliceOfSlice(file: Bytes, s: nat, t: nat, from: nat, to: nat)
    requires s <= t <= |file| && from <= to <= t - s
    ensures file[s..t][from..to] == file[s + from..s + to]
  {
    var a, b := file[s..t][from..to], file[s + from..s + to];
    forall i | 0 <= i < to - from ensures a[i] == b[i] {
      assert a[i] == file[s..t][from + i];
    }
  }

  lemma FrameParts(r: Record)
    requires Fits(r)
    ensures var n, d := |r.name|, |r.data|;
            && |Frame(r)| == 8 + n + d
            && Frame(r)[0..4] == LittleEndian(n) && Frame(r)[4..4 + n] == r.name
            && Frame(r)[4 + n..8 + n] == LittleEndian(d) && Frame(r)[8 + n..8 + n + d] == r.data
  {
  }

  lemma FramedBetween(file: Bytes, s: nat, t: nat, r: Record)
    requires Fits(r) && s <= t <= |file| && file[s..t] == Frame(r)
    ensures FramedAt(file, s, r)
  {
    FrameParts(r);
    var n, d := |r.name|, |r.data|;
    SliceOfSlice(file, s, t, 0, 4);
    SliceOfSlice(file, s, t, 4, 4 + n);
    SliceOfSlice(file, s, t, 4 + n, 8 + n);
    SliceOfSlice(file, s, t, 8 + n, 8 + n + d);
  }

  // ----- the writer

  class FileSink {
    var file: Bytes
    var isOpen: bool

    constructor (existing: Bytes)
      ensures file == existing && isOpen
    {
      file, isOpen := existing, true;
    }

    /** Appends one record; a write the disk cannot take whole leaves a torn record and closes the file. */
    method WriteRecord(message: Record, room: nat) returns (torn: nat)
      requires Fits(message) && isOpen
      modifies this
      ensures isOpen <==> |Frame(message)| <= room
      ensures isOpen ==> file == old(file) + Frame(message)
      ensures !isOpen ==> torn < |Frame(message)| && file == old(file) + Frame(message)[..torn]
    {
      var nameLen, dataLen := |message.name|, |message.data|;
      var record: Bytes := [];
      record := record + LittleEndian(nameLen);
      record := record + message.name;
      record := record + LittleEndian(dataLen);
      record := record + message.data;
      assert record == Frame(message);
      torn := 0;
      if |record| <= room {
        file := file + record;
      } else {
        torn := room;
        file := file + record[..torn];
        isOpen := false;
      }
    }

    /** Writes the queued messages in order until one fails. */
    method WriterThreadLoop(messages: seq<Record>, room: nat) returns (written: nat, torn: nat)
      requires AllFit(messages) && isOpen
      modifies this
      ensures written <= |messages| && (isOpen <==> written == |messages|)
      ensures isOpen ==> file == old(file) + Log(messages)
      ensures !isOpen ==>
              torn < |Frame(messages[written])|
              && file == old(file) + Log(messages[..written]) + Frame(messages[written])[..torn]
    {
      written, torn := 0, 0;
      var left: nat := room;
      for i := 0 to |messages|
        invariant if isOpen then written == i && file == old(file) + Log(messages[..i])
                  else written < i && torn < |Frame(messages[written])|
                       && file == old(file) + Log(messages[..written]) + Frame(messages[written])[..torn]
      {
        var message := messages[i];
        if !isOpen {
          continue;
        }
        assert messages[..i + 1][..i] == messages[..i];
        torn := WriteRecord(message, left);
        if isOpen {
          left := left - |Frame(message)|;
          written := i + 1;
        }
      }
      assert messages[..|messages|] == messages;
    }
  }

  // ----- the tail parser

  /** f.read(n) at a position of a file of which only the first size bytes are there yet. */
  function Read(file: Bytes, position: nat, n: nat, size: nat): (b: Bytes)
    requires size <= |file|
    ensures |b| <= n
    ensures |b| == n && n > 0 ==> position + n <= size
    ensures position + n <= size ==> b == file[position..position + n]
  {
    if size <= position then [] else file[position..if position + n <= size then position + n else size]
  }

  /** The file as it grows: how many bytes are there at each look. */
  ghost predicate Grows(visible: nat -> nat, file: Bytes) {
    (forall t: nat :: visible(t) <= |file|) && (forall t: nat, u: nat | t <= u :: visible(t) <= visible(u))
  }

  const MAX_NAME: nat := 256
  const MAX_DATA: nat := 4096

  /** What stands at a position of a file: part of a record, no record at all, or a whole one. */
  datatype Look = Partial | Corrupt | Whole(record: Record, next: nat)

  /** The record at a position of a file that no longer grows. */
  function ParseOne(file: Bytes, position: nat): (look: Look)
    ensures look.Whole? ==> position < look.next <= |file|
  {
    if position + 4 > |file| then Partial
    else
      var n := Unpack(file[position..position + 4]);
      if n == 0 || n > MAX_NAME then Corrupt
      else if position + 8 + n > |file| then Partial
      else ParseData(file, position, position + 4 + n)
  }

  /** The rest of it, once the name has been read up to middle. */
  function ParseData(file: Bytes, position: nat, middle: nat): (look: Look)
    requires position + 4 < middle && middle + 4 <= |file|
    ensures look.Whole? ==> position < look.next <= |file|
  {
    var d := Unpack(file[middle..middle + 4]);
    if d > MAX_DATA then Corrupt
    else if middle + 4 + d > |file| then Partial
    else Whole(Record(file[position + 4..middle], file[middle + 4..middle + 4 + d]), middle + 4 + d)
  }

  /** How many bytes must be there for a reader to see what stands at a position. */
  function Needed(file: Bytes, position: nat): (end: nat)
    ensures position < end
  {
    match ParseOne(file, position)
    case Partial => if position <= |file| then |file| + 1 else position + 1
    case Corrupt =>
      var n := Unpack(file[position..position + 4]);
      if n == 0 || n > MAX_NAME then position + 4 else position + 8 + n
    case Whole(_, next) => next
  }

  /** All the records from a position on, up to a part of one or to something that is none. */
  datatype Parsed = Parsed(records: seq<Record>, corrupt: bool)

  function Parse(file: Bytes, position: nat): Parsed
    decreases |file| - position
  {
    match ParseOne(file, position)
    case Partial => Parsed([], false)
    case Corrupt => Parsed([], true)
    case Whole(record, next) =>
      var rest := Parse(file, next);
      Parsed([record] + rest.records, rest.corrupt)
  }

  /** From one byte to another stand exactly these records. */
  ghost predicate Reads(file: Bytes, from: nat, records: seq<Record>, to: nat)
    decreases |records|
  {
    if records == [] then from == to
    else
      var look := ParseOne(file, from);
      look.Whole? && look.record == records[0] && Reads(file, look.next, records[1..], to)
  }

  lemma ReadsFirst(file: Bytes, from: nat, records: seq<Record>, to: nat) returns (next: nat)
    requires Reads(file, from, records, to) && records != []
    ensures ParseOne(file, from) == Whole(records[0], next) && Reads(file, next, records[1..], to)
  {
    next := ParseOne(file, from).next;
  }

  lemma ReadsMore(file: Bytes, from: nat, record: Record, next: nat, records: seq<Record>, to: nat)
    requires ParseOne(file, from) == Whole(record, next) && Reads(file, next, records, to)
    ensures Reads(file, from, [record] + records, to)
  {
    assert ([record] + records)[1..] == records;
  }

  lemma {:induction false} ReadsJoin(file: Bytes, from: nat, a: seq<Record>, middle: nat, b: seq<Record>, to: nat)
    requires Reads(file, from, a, middle) && Reads(file, middle, b, to)
    ensures Reads(file, from, a + b, to)
    decreases |a|
  {
    if a == [] {
      assert a + b == b;
    } else {
      var next := ReadsFirst(file, from, a, middle);
      ReadsJoin(file, next, a[1..], middle, b, to);
      ReadsMore(file, from, a[0], next, a[1..] + b, to);
      FirstThenRest(a, b);
    }
  }

  lemma ParseStep(file: Bytes, position: nat, record: Record, next: nat)
    requires ParseOne(file, position) == Whole(record, next)
    ensures Parse(file, position) == Parsed([record] + Parse(file, next).records, Parse(file, next).corrupt)
  {
  }

  lemma FirstThenRest(records: seq<Record>, more: seq<Record>)
    requires records != []
    ensures records + more == [records[0]] + (records[1..] + more)
  {
  }

  /** What has been read is what the parser would read first. */
  lemma {:induction false} ReadsParse(file: Bytes, from: nat, records: seq<Record>, to: nat)
    requires Reads(file, from, records, to)
    ensures Parse(file, from) == Parsed(records + Parse(file, to).records, Parse(file, to).corrupt)
    decreases |records|
  {
    if records == [] {
      assert records + Parse(file, to).records == Parse(file, to).records;
    } else {
      var next := ReadsFirst(file, from, records, to);
      ReadsParse(file, next, records[1..], to);
      ParseStep(file, from, records[0], next);
      FirstThenRest(records, Parse(file, to).records);
    }
  }

  /** A complete file has been read to its last record. */
  lemma ParseEnds(file: Bytes, from: nat, records: seq<Record>, to: nat, corrupt: bool)
    requires Reads(file, from, records, to)
    requires if corrupt then ParseOne(file, to) == Corrupt else |file| < Needed(file, to)
    ensures Parse(file, from) == Parsed(records, corrupt)
  {
    ReadsParse(file, from, records, to);
    var look := ParseOne(file, to);
    assert look.Whole? ==> Needed(file, to) <= |file|;
    if look == Corrupt {
      CorruptIsSeen(file, to);
    }
    assert Parse(file, to) == Parsed([], corrupt);
    assert records + [] == records;
  }

  lemma CorruptIsSeen(file: Bytes, position: nat)
    requires ParseOne(file, position) == Corrupt
    ensures Needed(file, position) <= |file|
  {
  }

  /** Where a pass begins: a file shorter than the tail is taken for a new one. */
  function From(offset: nat, size: nat): nat { if size < offset then 0 else offset }

  /** Stopped by something that is no record, in a file that has not shrunk since. */
  predicate GaveUp(corrupt: bool, offset: nat, size: nat) { corrupt && offset <= size }

  /** From one byte to another exactly these records were read; a tail that had given up stays so. */
  ghost predicate Follows(file: Bytes, from: nat, gaveUp: bool, records: seq<Record>, to: nat, corrupt: bool) {
    && Reads(file, from, records, to)
    && (gaveUp ==> records == [] && corrupt)
    && (corrupt && !gaveUp ==> ParseOne(file, to) == Corrupt)
  }

  lemma Longer(a: seq<Record>, b: seq<Record>, c: seq<Record>)
    ensures a + b + c == a + (b + c)
  {
  }

  lemma FollowsOn(file: Bytes, from: nat, gaveUp: bool, a: seq<Record>, middle: nat, corrupt: bool, b: seq<Record>,
                  to: nat, after: bool)
    requires Follows(file, from, gaveUp, a, middle, corrupt) && Follows(file, middle, corrupt, b, to, after)
    ensures Follows(file, from, gaveUp, a + b, to, after)
  {
    ReadsJoin(file, from, a, middle, b, to);
  }

  class Tail {
    var tailOffset: nat
    var corrupt: bool
    var clock: nat
    var delivered: seq<Record>

    constructor ()
      ensures tailOffset == 0 && !corrupt && delivered == []
    {
      tailOffset, corrupt, clock, delivered := 0, false, 0, [];
    }

    /** f.read(n) at a position, seeing what is there by now. */
    method ReadNow(file: Bytes, visible: nat -> nat, position: nat, n: nat) returns (b: Bytes)
      requires Grows(visible, file)
      modifies this`clock
      ensures clock == old(clock) + 1 && |b| <= n
      ensures |b| < n ==> visible(old(clock)) < position + n
      ensures |b| == n ==> position + n <= visible(clock) || n == 0
      ensures |b| == n && n > 0 ==> position + n <= |file| && b == file[position..position + n]
    {
      b := Read(file, position, n, visible(clock));
      assert visible(clock) <= visible(clock + 1) <= |file|;
      clock := clock + 1;
    }

    /** Reads one record, four reads, each seeing what has been written by then. */
    method ReadRecord(file: Bytes, visible: nat -> nat) returns (look: Look)
      requires Grows(visible, file)
      modifies this`clock
      ensures clock > old(clock)
      ensures if look == Partial then visible(old(clock)) < Needed(file, tailOffset)
              else look == ParseOne(file, tailOffset)
      ensures look.Whole? ==> look.next <= visible(clock)
    {
      ghost var start := clock;
      var position := tailOffset;
      var header := ReadNow(file, visible, position, 4);
      if |header| < 4 {
        return Partial;
      }
      var nameLen := Unpack(header);
      if nameLen == 0 || nameLen > MAX_NAME {
        return Corrupt;
      }
      position := position + 4;
      assert visible(start) <= visible(clock);
      var nameBytes := ReadNow(file, visible, position, nameLen);
      assert visible(start) <= visible(clock);
      var lenBytes := ReadNow(file, visible, position + |nameBytes|, 4);
      assert visible(start) <= visible(clock);
      if |nameBytes| < nameLen || |lenBytes| < 4 {
        return Partial;
      }
      position := position + nameLen + 4;
      var dataLen := Unpack(lenBytes);
      if dataLen > MAX_DATA {
        return Corrupt;
      }
      var data := ReadNow(file, visible, position, dataLen);
      if |data| < dataLen {
        return Partial;
      }
      return Whole(Record(nameBytes, data), position + dataLen);
    }

    /** The inner loop: reads records until one is not there whole, or until told to stop. */
    method ReadAvailable(file: Bytes, visible: nat -> nat, going: nat -> bool)
      returns (stopped: bool, ghost more: seq<Record>)
      requires Grows(visible, file) && tailOffset <= visible(clock) && !corrupt
      modifies this
      ensures delivered == old(delivered) + more && Reads(file, old(tailOffset), more, tailOffset)
      ensures tailOffset <= visible(clock) && clock >= old(clock)
      ensures corrupt ==> ParseOne(file, tailOffset) == Corrupt
      ensures corrupt || stopped || visible(old(clock)) < Needed(file, tailOffset)
      ensures stopped ==> exists t :: !going(t)
    {
      more, stopped := [], true;
      while going(clock)
        invariant delivered == old(delivered) + more && Reads(file, old(tailOffset), more, tailOffset)
        invariant tailOffset <= visible(clock) <= |file| && !corrupt && clock >= old(clock)
        decreases |file| - tailOffset
      {
        ghost var before := clock;
        var look := ReadRecord(file, visible);
        assert visible(old(clock)) <= visible(before) <= visible(clock) <= |file|;
        match look
        case Partial =>
          return false, more;
        case Corrupt =>
          corrupt := true;
          return false, more;
        case Whole(record, next) =>
          assert Reads(file, tailOffset, [record], next);
          ReadsJoin(file, old(tailOffset), more, tailOffset, [record], next);
          more := more + [record];
          tailOffset := next;
          delivered := delivered + [record];
      }
    }

    /** One pass of the outer loop, over whatever file is there. */
    method Poll(file: Bytes, visible: nat -> nat, going: nat -> bool) returns (stopped: bool, ghost more: seq<Record>)
      requires Grows(visible, file)
      modifies this
      ensures delivered == old(delivered) + more
      ensures Follows(file, From(old(tailOffset), visible(old(clock))),
                      GaveUp(old(corrupt), old(tailOffset), visible(old(clock))), more, tailOffset, corrupt)
      ensures tailOffset <= visible(clock) && clock > old(clock)
      ensures corrupt || stopped || visible(old(clock)) < Needed(file, tailOffset)
      ensures stopped ==> exists t :: !going(t)
    {
      more, stopped := [], false;
      var size := visible(clock);
      assert visible(clock) <= visible(clock + 1);
      if size < tailOffset {
        tailOffset, corrupt := 0, false;
      }
      clock := clock + 1;
      if corrupt || size <= tailOffset {
        return;
      }
      stopped, more := ReadAvailable(file, visible, going);
    }

    /** Any number of passes over a file that grows. */
    method RunFileTail(file: Bytes, visible: nat -> nat, going: nat -> bool, polls: nat)
      returns (stopped: bool, ghost more: seq<Record>)
      requires Grows(visible, file) && polls > 0
      modifies this
      ensures delivered == old(delivered) + more
      ensures Follows(file, From(old(tailOffset), visible(old(clock))),
                      GaveUp(old(corrupt), old(tailOffset), visible(old(clock))), more, tailOffset, corrupt)
      ensures tailOffset <= visible(clock) && clock > old(clock)
      ensures corrupt || stopped || visible(old(clock)) < Needed(file, tailOffset)
      ensures stopped ==> exists t :: !going(t)
      ensures !stopped && visible(old(clock)) == |file|
              && !GaveUp(old(corrupt), old(tailOffset), visible(old(clock))) ==>
                Parse(file, From(old(tailOffset), visible(old(clock)))) == Parsed(more, corrupt)
    {
      ghost var start, earlier := clock, delivered;
      ghost var from, stuck := From(tailOffset, visible(clock)), GaveUp(corrupt, tailOffset, visible(clock));
      stopped, more := Poll(file, visible, going);
      for i := 1 to polls
        invariant delivered == earlier + more && Follows(file, from, stuck, more, tailOffset, corrupt)
        invariant tailOffset <= visible(clock) && clock > start
        invariant corrupt || stopped || visible(start) < Needed(file, tailOffset)
        invariant stopped ==> exists t :: !going(t)
      {
        ghost var middle, before, next := tailOffset, corrupt, [];
        assert visible(start) <= visible(clock);
        stopped, next := Poll(file, visible, going);
        Longer(earlier, more, next);
        FollowsOn(file, from, stuck, more, middle, before, next, tailOffset, corrupt);
        more := more + next;
      }
      if !stopped && visible(start) == |file| && !stuck {
        ParseEnds(file, from, more, tailOffset, corrupt);
      }
    }
  }

  ghost predicate NoEmptyNames(records: seq<Record>) { forall i | 0 <= i < |records| :: records[i].name != [] }

  /** The first record with an empty name, or the number of records. */
  function FirstEmpty(records: seq<Record>): (k: nat)
    ensures k <= |records| && NoEmptyNames(records[..k]) && (k < |records| ==> records[k].name == [])
  {
    if records == [] then 0
    else
      var k := FirstEmpty(records[..|records| - 1]);
      if k < |records| - 1 || records[|records| - 1].name == [] then k else |records|
  }

  lemma {:induction false} FirstEmptyIs(records: seq<Record>, k: nat)
    requires k <= |records| && NoEmptyNames(records[..k])
    ensures k < |records| && records[k].name == [] ==> FirstEmpty(records) == k && !NoEmptyNames(records)
    ensures k == |records| ==> FirstEmpty(records) == k && NoEmptyNames(records)
  {
    var f := FirstEmpty(records);
    assert k == |records| ==> records[..k] == records;
    forall i | 0 <= i < k ensures records[i].name != [] {
      assert records[..k][i].name != [];
    }
    assert k < f ==> records[..f][k].name != [];
  }

  // ----- from publishing to delivery

  lemma ParseFramed(file: Bytes, position: nat, r: Record)
    requires Fits(r) && FramedAt(file, position, r)
    ensures ParseOne(file, position) == if r.name == [] then Corrupt else Whole(r, position + 8 + |r.name| + |r.data|)
  {
    UnpackInverts(|r.name|);
    UnpackInverts(|r.data|);
  }

  lemma ParseBetween(file: Bytes, s: nat, t: nat, r: Record)
    requires Fits(r) && s <= t <= |file| && file[s..t] == Frame(r)
    ensures ParseOne(file, s) == if r.name == [] then Corrupt else Whole(r, t)
  {
    FramedBetween(file, s, t, r);
    FrameParts(r);
    ParseFramed(file, s, r);
  }

  lemma SliceBefore(a: Bytes, b: Bytes, s: nat, t: nat)
    requires s <= t <= |a|
    ensures (a + b)[s..t] == a[s..t]
  {
  }

  /** Record k of a log, whatever follows the log in the file. */
  lemma ParseLogged(records: seq<Record>, rest: Bytes, k: nat)
    requires AllFit(records) && k < |records|
    ensures ParseOne(Log(records) + rest, Start(records, k))
         == if records[k].name == [] then Corrupt else Whole(records[k], Start(records, k + 1))
  {
    FrameInLog(records, k);
    SliceBefore(Log(records), rest, Start(records, k), Start(records, k + 1));
    ParseBetween(Log(records) + rest, Start(records, k), Start(records, k + 1), records[k]);
  }

  /** A log is read back up to its first empty name, or to its end and on into what follows it. */
  lemma {:induction false} ParseOfLog(records: seq<Record>, rest: Bytes, k: nat)
    requires AllFit(records) && k <= FirstEmpty(records)
    ensures var file, f := Log(records) + rest, FirstEmpty(records);
            Parse(file, Start(records, k))
            == if f < |records| then Parsed(records[k..f], true) else After(file, records, k)
    decreases |records| - k
  {
    var file, f := Log(records) + rest, FirstEmpty(records);
    if k == |records| {
      assert records[..k] == records;
      assert records[k..] + Parse(file, |Log(records)|).records == Parse(file, |Log(records)|).records;
    } else {
      ParseLogged(records, rest, k);
      if k < f {
        assert records[..f][k].name != [];
        ParseOfLog(records, rest, k + 1);
        ParseStep(file, Start(records, k), records[k], Start(records, k + 1));
        OneMore(records, k, f, Parse(file, |Log(records)|).records);
      }
    }
  }

  /** The records from k on, and what the file holds after the log. */
  function After(file: Bytes, records: seq<Record>, k: nat): Parsed
    requires AllFit(records) && k <= |records|
  {
    var last := Parse(file, |Log(records)|);
    Parsed(records[k..] + last.records, last.corrupt)
  }

  lemma OneMore(records: seq<Record>, k: nat, f: nat, more: seq<Record>)
    requires k < f <= |records|
    ensures records[k..f] == [records[k]] + records[k + 1..f]
    ensures records[k..] + more == [records[k]] + (records[k + 1..] + more)
  {
  }

  lemma LogReadsBack(records: seq<Record>)
    requires AllFit(records)
    ensures Parse(Log(records), 0) == Parsed(records[..FirstEmpty(records)], FirstEmpty(records) < |records|)
  {
    ParseOfLog(records, [], 0);
    assert records[..0] == [] && Log(records) + [] == Log(records);
    assert After(Log(records), records, 0).records == records;
  }

  /** What was published is what is read: every accepted message up to the first empty name, which stops the reader. */
  lemma PublishedReadsBack(calls: seq<Call>)
    ensures var records := Published(calls);
            Parse(Log(records), 0) == Parsed(records[..FirstEmpty(records)], FirstEmpty(records) < |records|)
  {
    LogReadsBack(Published(calls));
  }

  /** A record torn by a failed write adds nothing, unless the part that was written is an empty name's length. */
  lemma TornReadsBack(records: seq<Record>, r: Record, torn: nat)
    requires AllFit(records) && Fits(r) && torn < |Frame(r)|
    ensures Parse(Log(records) + Frame(r)[..torn], 0)
         == if NoEmptyNames(records) then Parsed(records, r.name == [] && torn >= 4)
            else Parsed(records[..FirstEmpty(records)], true)
  {
    var file := Log(records) + Frame(r)[..torn];
    ParseOfLog(records, Frame(r)[..torn], 0);
    assert records[..0] == [];
    assert FirstEmpty(records) == |records| ==> records[..FirstEmpty(records)] == records;
    TornParses(file, |Log(records)|, r, torn);
    assert records[0..] + [] == records;
  }

  lemma TornParses(file: Bytes, position: nat, r: Record, torn: nat)
    requires Fits(r) && position + torn == |file| && torn < |Frame(r)| && file[position..] == Frame(r)[..torn]
    ensures Parse(file, position) == Parsed([], r.name == [] && torn >= 4)
  {
    FrameParts(r);
    var n := |r.name|;
    UnpackInverts(n);
    UnpackInverts(|r.data|);
    if torn >= 4 {
      TornSlice(file, position, Frame(r), torn, 0, 4);
      if torn >= 8 + n {
        TornSlice(file, position, Frame(r), torn, 4 + n, 8 + n);
      }
    }
  }

  lemma TornSlice(file: Bytes, position: nat, frame: Bytes, torn: nat, from: nat, to: nat)
    requires position + torn == |file| && torn <= |frame| && file[position..] == frame[..torn] && from <= to <= torn
    ensures file[position + from..position + to] == frame[from..to]
  {
    assert file[position..] == file[position..|file|] && frame[..torn] == frame[0..torn];
    SliceOfSlice(file, position, |file|, from, to);
    SliceOfSlice(frame, 0, torn, from, to);
  }

  // ----- what can be read is what is spelled

  /** A whole record of fitting size is its frame, byte for byte. */
  lemma WholeIsFramed(file: Bytes, s: nat, r: Record, t: nat)
    requires ParseOne(file, s) == Whole(r, t) && Fits(r)
    ensures t <= |file| && file[s..t] == Frame(r)
  {
    var n, d := |r.name|, |r.data|;
    LittleEndianInverts(file[s..s + 4]);
    LittleEndianInverts(file[s + 4 + n..s + 8 + n]);
    FourParts(file, s, s + 4, s + 4 + n, s + 8 + n, s + 8 + n + d);
  }

  lemma FourParts(file: Bytes, a: nat, b: nat, c: nat, d: nat, e: nat)
    requires a <= b <= c <= d <= e <= |file|
    ensures file[a..e] == file[a..b] + file[b..c] + file[c..d] + file[d..e]
  {
    Spliced(file, a, b, c);
    Spliced(file, a, c, d);
    Spliced(file, a, d, e);
  }

  /** A log begins with its first record. */
  lemma {:induction false} LogFirst(records: seq<Record>)
    requires AllFit(records) && records != []
    ensures Log(records) == Frame(records[0]) + Log(records[1..])
  {
    if |records| == 1 {
      assert records[..0] == [] && records[1..] == [];
    } else {
      var init, last := records[..|records| - 1], records[|records| - 1];
      LogFirst(init);
      var rest := records[1..];
      assert rest[..|rest| - 1] == init[1..] && rest[|rest| - 1] == last;
      Joined(Frame(records[0]), Log(init[1..]), Frame(last));
    }
  }

  lemma Joined(a: Bytes, b: Bytes, c: Bytes)
    ensures (a + b) + c == a + (b + c)
  {
  }

  lemma Spliced(file: Bytes, s: nat, m: nat, t: nat)
    requires s <= m <= t <= |file|
    ensures file[s..t] == file[s..m] + file[m..t]
  {
  }

  /** Records that are read spell their log. */
  lemma {:induction false} ReadsSpell(file: Bytes, s: nat, records: seq<Record>, to: nat)
    requires s <= |file| && AllFit(records) && Reads(file, s, records, to)
    ensures s <= to <= |file| && file[s..to] == Log(records)
    decreases |records|
  {
    if records != [] {
      var next := ReadsFirst(file, s, records, to);
      WholeIsFramed(file, s, records[0], next);
      ReadsSpell(file, next, records[1..], to);
      LogFirst(records);
      Spliced(file, s, next, to);
    }
  }

  /** A log with no empty name is read wherever it is spelled. */
  lemma {:induction false} SpelledReads(file: Bytes, s: nat, records: seq<Record>, to: nat)
    requires s <= to <= |file| && AllFit(records) && NoEmptyNames(records) && file[s..to] == Log(records)
    ensures Reads(file, s, records, to)
    decreases |records|
  {
    if records != [] {
      var first, rest := records[0], records[1..];
      LogFirst(records);
      var next := s + |Frame(first)|;
      SliceOfSlice(file, s, to, 0, next - s);
      SliceOfSlice(file, s, to, next - s, to - s);
      HeadAndTail(Frame(first), Log(rest));
      ParseBetween(file, s, next, first);
      assert records[0].name != [];
      SpelledReads(file, next, rest, to);
      ReadsMore(file, s, first, next, rest, to);
      assert [first] + rest == records;
    }
  }

  lemma HeadAndTail(a: Bytes, b: Bytes)
    ensures (a + b)[0..|a|] == a && (a + b)[|a|..|a + b|] == b
  {
  }

  /** The first records that the parser finds have been read. */
  lemma {:induction false} PrefixReads(file: Bytes, s: nat, records: seq<Record>) returns (to: nat)
    requires records <= Parse(file, s).records
    ensures Reads(file, s, records, to)
    decreases |records|
  {
    to := s;
    if records != [] {
      var next := ParseOne(file, s).next;
      ParseStep(file, s, ParseOne(file, s).record, next);
      assert records[1..] <= Parse(file, next).records;
      to := PrefixReads(file, next, records[1..]);
      ReadsMore(file, s, records[0], next, records[1..], to);
      assert [records[0]] + records[1..] == records;
    }
  }

  /** Of any file: the parser finds these records first at a position exactly where their log is spelled. */
  lemma FoundIff(file: Bytes, s: nat, records: seq<Record>)
    requires s <= |file| && AllFit(records) && NoEmptyNames(records)
    ensures records <= Parse(file, s).records <==> Log(records) <= file[s..]
  {
    if records <= Parse(file, s).records {
      FoundIsSpelled(file, s, records);
    }
    if Log(records) <= file[s..] {
      SpelledIsFound(file, s, records);
    }
  }

  lemma FoundIsSpelled(file: Bytes, s: nat, records: seq<Record>)
    requires s <= |file| && AllFit(records) && records <= Parse(file, s).records
    ensures Log(records) <= file[s..]
  {
    var to := PrefixReads(file, s, records);
    ReadsSpell(file, s, records, to);
    assert file[s..][..to - s] == file[s..to];
  }

  lemma SpelledIsFound(file: Bytes, s: nat, records: seq<Record>)
    requires s <= |file| && AllFit(records) && NoEmptyNames(records) && Log(records) <= file[s..]
    ensures records <= Parse(file, s).records
  {
    var to := s + |Log(records)|;
    assert file[s..to] == file[s..][..to - s];
    SpelledReads(file, s, records, to);
    ReadsParse(file, s, records, to);
  }

  // ----- a run that appends behind a torn record

  /** The records of a log up to its first empty name. */
  function Readable(records: seq<Record>): seq<Record> { records[..FirstEmpty(records)] }

  /** A run wrote the log of a and then part of a record, the next run appends the log of b: all that can be read of
    * both is found exactly when a has no empty name and what can be read of b is spelled from the torn bytes on. */
  lemma AppendedIsFoundIff(a: seq<Record>, part: Bytes, b: seq<Record>)
    requires AllFit(a) && AllFit(b)
    ensures a + Readable(b) <= Parse(Log(a) + (part + Log(b)), 0).records
       <==> NoEmptyNames(a) && Log(Readable(b)) <= part + Log(b)
  {
    var rest, f := part + Log(b), FirstEmpty(a);
    var file := Log(a) + rest;
    ParseOfLog(a, rest, 0);
    assert a[..0] == [];
    if f < |a| {
      FirstEmptyIs(a, f);
      assert |Parse(file, 0).records| < |a|;
    } else {
      FirstEmptyIs(a, |a|);
      assert a[..|a|] == a && file[|Log(a)|..] == rest;
      FoundIff(file, |Log(a)|, Readable(b));
      BehindPrefix(a, Readable(b), Parse(file, |Log(a)|).records);
    }
  }

  lemma BehindPrefix(a: seq<Record>, b: seq<Record>, c: seq<Record>)
    ensures a + b <= a[0..] + c <==> b <= c
  {
    assert a[0..] == a;
    if a + b <= a + c {
      assert (a + c)[..|a + b|] == a + b;
      forall i | 0 <= i < |b| ensures b[i] == c[i] {
        assert (a + b)[|a| + i] == (a + c)[|a| + i];
      }
    }
  }

  /** A failed write that put no byte on disk loses nothing: the two logs are one. */
  lemma NothingTorn(a: seq<Record>, b: seq<Record>)
    requires AllFit(a) && AllFit(b)
    ensures Log(a) + ([] + Log(b)) == Log(a + b)
    ensures Parse(Log(a) + ([] + Log(b)), 0) == Parsed(Readable(a + b), FirstEmpty(a + b) < |a + b|)
  {
    NoneBefore(Log(a), Log(b));
    LogJoins(a, b);
    LogReadsBack(a + b);
  }

  lemma NoneBefore(a: Bytes, b: Bytes)
    ensures a + ([] + b) == a + b
  {
    assert [] + b == b;
  }

  lemma {:induction false} LogJoins(a: seq<Record>, b: seq<Record>)
    requires AllFit(a) && AllFit(b)
    ensures Log(a + b) == Log(a) + Log(b)
  {
    if b == [] {
      assert a + b == a;
    } else {
      var init, last, both := b[..|b| - 1], b[|b| - 1], a + b;
      LogJoins(a, init);
      assert both[..|both| - 1] == a + init && both[|both| - 1] == last;
      Joined(Log(a), Log(init), Frame(last));
    }
  }

  /** An input for which it is not spelled so: a record nobody published is read, and then none. */
  lemma AppendedAfterTorn()
    ensures var torn, next := Frame(Record([1], [7, 7]))[..10], Frame(Record([2], []));
            Parse(torn + next, 0) == Parsed([Record([1], [7, 1])], true)
  {
    var read, rest: Bytes := Record([1], [7, 1]), [0, 0, 0, 2, 0, 0, 0, 0];
    FramesOverlap();
    var file := Frame(read) + rest;
    SliceBefore(Frame(read), rest, 0, 11);
    FrameParts(read);
    assert Frame(read)[0..11] == Frame(read);
    ParseBetween(file, 0, 11, read);
    assert file[11..15] == [0, 0, 0, 2];
    assert Unpack(file[11..15]) == 0x200_0000;
    ParseStep(file, 0, read, 11);
  }

  lemma FramesOverlap()
    ensures Frame(Record([1], [7, 7]))[..10] + Frame(Record([2], []))
         == Frame(Record([1], [7, 1])) + [0, 0, 0, 2, 0, 0, 0, 0]
  {
    assert LittleEndian(0) == [0, 0, 0, 0] && LittleEndian(1) == [1, 0, 0, 0] && LittleEndian(2) == [2, 0, 0, 0];
    assert Frame(Record([1], [7, 7])) == [1, 0, 0, 0, 1, 2, 0, 0, 0, 7, 7];
    assert Frame(Record([1], [7, 1])) == [1, 0, 0, 0, 1, 2, 0, 0, 0, 7, 1];
    assert Frame(Record([2], [])) == [1, 0, 0, 0, 2, 0, 0, 0, 0];
  }

  /** An empty name is accepted for publishing, and stops every reader of the log for good. */
  lemma EmptyNameIsPublished(data: Bytes)
    requires |data| <= MAX_DATA_BYTES
    ensures Published([Call([], data, true)]) == [Record([], data)]
    ensures Parse(Log([Record([], data)]), 0) == Parsed([], true)
  {
    var calls := [Call([], data, true)];
    assert calls[..0] == [];
    PublishedReadsBack(calls);
    var records := [Record([], data)];
    FirstEmptyIs(records, 0);
  }

  /** A pass over a complete log without empty names finds all of it exactly when it begins at its first byte. */
  lemma ReplacedLogIff(records: seq<Record>, offset: nat)
    requires AllFit(records) && NoEmptyNames(records) && records != []
    ensures var from := From(offset, |Log(records)|);
            Parse(Log(records), from) == Parsed(records, false) <==> from == 0
  {
    var file := Log(records);
    var from := From(offset, |file|);
    WholeLog(records);
    FoundIff(file, from, records);
    assert |file[from..]| == |file| - from;
  }

  const OLD: Record := Record([1], [])
  const FIRST: Record := Record([2], [])
  const SECOND: Record := Record([3], [])

  /** A log that was replaced by one that already reaches the old offset is read from that offset on. */
  lemma ReplacedLogIsMissed()
    ensures Parse(Log([OLD]), 0) == Parsed([OLD], false)
    ensures var file, offset := Log([FIRST, SECOND]), |Log([OLD])|;
            && From(offset, |file|) == offset
            && Parse(file, 0) == Parsed([FIRST, SECOND], false) && Parse(file, offset) == Parsed([SECOND], false)
  {
    WholeLog([OLD]);
    WholeLog([FIRST, SECOND]);
    var records := [FIRST, SECOND];
    assert records[..1] == [FIRST] && records[1..] == [SECOND];
    assert [OLD][..0] == [] && [FIRST][..0] == [];
    assert Start(records, 1) == |Log([FIRST])| == |Frame(FIRST)| == |Frame(OLD)| == |Log([OLD])|;
    FrameInLog(records, 1);
    ParseOfLog(records, [], 1);
    assert Log(records) + [] == Log(records);
  }

  lemma WholeLog(records: seq<Record>)
    requires AllFit(records) && NoEmptyNames(records)
    ensures FirstEmpty(records) == |records| && Parse(Log(records), 0) == Parsed(records, false)
    ensures Parse(Log(records), |Log(records)|) == Parsed([], false)
  {
    assert records[..|records|] == records;
    FirstEmptyIs(records, |records|);
    LogReadsBack(records);
  }

  lemma OldLogRead(offset: nat)
    requires Reads(Log([OLD]), 0, [OLD], offset)
    ensures offset == |Log([OLD])|
  {
    ParseLogged([OLD], [], 0);
    assert Log([OLD]) + [] == Log([OLD]) && [OLD][..0] == [] && [OLD][..1] == [OLD];
    assert Reads(Log([OLD]), ParseOne(Log([OLD]), 0).next, [OLD][1..], offset);
  }

  /** So however often the tail looks, the first record of the new log is never delivered. */
  method TailReplacedLog(polls: nat, more: nat) returns (tail: Tail)
    requires polls > 0 && more > 0
    ensures fresh(tail) && tail.delivered == [OLD, SECOND] && !tail.corrupt
  {
    ReplacedLogIsMissed();
    tail := new Tail();
    var before := Log([OLD]);
    var stopped, first := tail.RunFileTail(before, t => |before|, t => true, polls);
    OldLogRead(tail.tailOffset);
    var after := Log([FIRST, SECOND]);
    ghost var second;
    stopped, second := tail.RunFileTail(after, t => |after|, t => true, more);
  }

  // ----- tailing a log of published messages

  /** What stands where record k begins, if the names before it are not empty. */
  lemma LookAtLog(records: seq<Record>, k: nat)
    requires AllFit(records) && k <= FirstEmpty(records)
    ensures ParseOne(Log(records), Start(records, k))
         == if k == |records| then Partial
            else if k == FirstEmpty(records) then Corrupt else Whole(records[k], Start(records, k + 1))
  {
    assert Log(records) + [] == Log(records);
    if k == |records| {
      assert records[..k] == records;
    } else {
      ParseLogged(records, [], k);
      assert k < FirstEmpty(records) ==> records[..FirstEmpty(records)][k].name != [];
    }
  }

  /** From record k on a log holds the records up to its first empty name. */
  lemma LogFrom(records: seq<Record>, k: nat)
    requires AllFit(records) && k <= FirstEmpty(records)
    ensures Parse(Log(records), Start(records, k)).records == records[k..FirstEmpty(records)]
  {
    ParseOfLog(records, [], k);
    assert Log(records) + [] == Log(records);
    assert records[k..] + [] == records[k..];
  }

  lemma StartsApart(records: seq<Record>, k: nat, m: nat)
    requires AllFit(records) && k <= m <= |records|
    ensures Start(records, m) == Start(records, k) + |Log(records[k..m])|
  {
    UpTo(records, k, m);
    LogJoins(records[..k], records[k..m]);
  }

  lemma UpTo(records: seq<Record>, k: nat, m: nat)
    requires k <= m <= |records|
    ensures records[..k] + records[k..m] == records[..m]
  {
  }

  lemma FirstOf(more: seq<Record>, rest: seq<Record>, records: seq<Record>, k: nat, f: nat)
    requires k <= f <= |records| && more + rest == records[k..f]
    ensures k + |more| <= f && more == records[k..k + |more|]
  {
    assert |more + rest| == f - k;
    assert (more + rest)[..|more|] == more;
  }

  lemma ReadsSlice(records: seq<Record>, start: nat, k: nat, more: seq<Record>, to: nat, f: nat)
    requires AllFit(records) && k <= f <= |records| && Reads(Log(records), start, more, to)
    requires Parse(Log(records), start).records == records[k..f]
    ensures k + |more| <= f && more == records[k..k + |more|]
  {
    ReadsParse(Log(records), start, more, to);
    FirstOf(more, Parse(Log(records), to).records, records, k, f);
  }

  lemma ReadsEnd(records: seq<Record>, start: nat, k: nat, m: nat, to: nat)
    requires AllFit(records) && k <= m <= |records| && start == Start(records, k)
    requires Reads(Log(records), start, records[k..m], to)
    ensures to == Start(records, m)
  {
    LogSplits(records, k);
    ReadsSpell(Log(records), start, records[k..m], to);
    StartsApart(records, k, m);
  }

  /** A tail that stands before record k of a log comes to stand before record m, having read the records between. */
  lemma ReadsOfLog(records: seq<Record>, start: nat, k: nat, more: seq<Record>, to: nat, m: nat)
    requires AllFit(records) && k <= FirstEmpty(records) && start == Start(records, k) && m == k + |more|
    requires Reads(Log(records), start, more, to)
    ensures m <= FirstEmpty(records) && more == records[k..m] && to == Start(records, m)
  {
    LogFrom(records, k);
    ReadsSlice(records, start, k, more, to, FirstEmpty(records));
    ReadsEnd(records, start, k, m, to);
  }

  /** At most the bytes of record k decide what stands there. */
  lemma NeededOfLog(records: seq<Record>, k: nat)
    requires AllFit(records) && k < |records|
    ensures Needed(Log(records), Start(records, k)) <= Start(records, k + 1)
  {
    assert Log(records) + [] == Log(records);
    ParseLogged(records, [], k);
    FrameInLog(records, k);
    FrameParts(records[k]);
    FramedBetween(Log(records), Start(records, k), Start(records, k + 1), records[k]);
    UnpackInverts(|records[k].name|);
  }

  /** The tail stands before record k of the log and has delivered those before it; only an empty name stops it. */
  ghost predicate StandsAt(records: seq<Record>, k: nat, delivered: seq<Record>, offset: nat, corrupt: bool)
    requires AllFit(records)
  {
    && k <= FirstEmpty(records) && delivered == records[..k] && offset == Start(records, k)
    && (corrupt ==> k == FirstEmpty(records) < |records|)
  }

  /** What a pass keeps: it moves from one record of the log to another, in order and without omission. */
  lemma PassMovesOn(records: seq<Record>, k: nat, before: seq<Record>, offset: nat, gaveUp: bool, more: seq<Record>,
                    to: nat, corrupt: bool)
    requires AllFit(records) && StandsAt(records, k, before, offset, gaveUp)
    requires Follows(Log(records), offset, gaveUp, more, to, corrupt)
    ensures StandsAt(records, k + |more|, before + more, to, corrupt)
  {
    var m := k + |more|;
    ReadsOfLog(records, offset, k, more, to, m);
    UpTo(records, k, m);
    if corrupt && !gaveUp {
      LookAtLog(records, m);
    }
  }

  /** Any number of passes over the growing log of published messages, from a new tail: at the end of each the messages
    * delivered are the first j, all written by then and with no empty name among them; and unless stopped or at an
    * empty name, every message that was whole when the last pass began is one of them. */
  method TailPublished(tail: Tail, calls: seq<Call>, visible: nat -> nat, going: nat -> bool, polls: nat)
    returns (stopped: bool, ghost j: nat, ghost began: nat)
    requires Grows(visible, Log(Published(calls))) && polls > 0
    requires tail.tailOffset == 0 && !tail.corrupt && tail.delivered == []
    modifies tail
    ensures var records := Published(calls);
            && StandsAt(records, j, tail.delivered, tail.tailOffset, tail.corrupt)
            && Start(records, j) <= visible(tail.clock) && old(tail.clock) <= began < tail.clock
            && (tail.corrupt || stopped || MissesNone(records, j, visible(began)))
    ensures NoEmptyNames(Published(calls)) ==> !tail.corrupt
    ensures stopped ==> exists t :: !going(t)
  {
    ghost var records := Published(calls);
    var file := Log(Published(calls));
    j, began, stopped := 0, tail.clock, false;
    assert records[..0] == [];
    for i := 0 to polls
      invariant StandsAt(records, j, tail.delivered, tail.tailOffset, tail.corrupt)
      invariant i > 0 ==> tail.tailOffset <= visible(tail.clock) && old(tail.clock) <= began < tail.clock
      invariant i > 0 ==> tail.corrupt || stopped || visible(began) < Needed(file, tail.tailOffset)
      invariant i == 0 ==> tail.tailOffset == 0 && tail.clock == old(tail.clock)
      invariant stopped ==> exists t :: !going(t)
    {
      began := tail.clock;
      ghost var before, offset, gaveUp, more := tail.delivered, tail.tailOffset, tail.corrupt, [];
      stopped, more := tail.Poll(file, visible, going);
      PassMovesOn(records, j, before, offset, gaveUp, more, tail.tailOffset, tail.corrupt);
      j := j + |more|;
    }
    if !tail.corrupt && !stopped {
      if j < |records| {
        NeededOfLog(records, j);
      }
      NoneIsMissed(records, j, visible(began));
    }
    if NoEmptyNames(records) {
      assert records[..|records|] == records;
      FirstEmptyIs(records, |records|);
    }
  }

  /** Of a log of which so many bytes are there, no record is whole but the first j. */
  ghost predicate MissesNone(records: seq<Record>, j: nat, size: nat)
    requires AllFit(records)
  {
    forall m: nat | j < m <= |records| :: !WholeTo(records, m, size)
  }

  predicate WholeTo(records: seq<Record>, m: nat, size: nat)
    requires AllFit(records) && m <= |records|
  {
    Start(records, m) <= size
  }

  lemma NoneIsMissed(records: seq<Record>, j: nat, size: nat)
    requires AllFit(records) && j <= |records| && (j < |records| ==> size < Start(records, j + 1))
    ensures MissesNone(records, j, size)
  {
    if j < |records| {
      LaterStarts(records, j + 1, size);
    }
  }

  lemma LaterStarts(records: seq<Record>, n: nat, size: nat)
    requires AllFit(records) && n <= |records| && size < Start(records, n)
    ensures forall m: nat | n <= m <= |records| :: !WholeTo(records, m, size)
  {
    forall m: nat | n <= m <= |records| ensures !WholeTo(records, m, size) {
      StartsInOrder(records, n, m);
    }
  }

  lemma {:induction false} StartsInOrder(records: seq<Record>, i: nat, k: nat)
    requires AllFit(records) && i <= k <= |records|
    ensures Start(records, i) <= Start(records, k)
  {
    if i < k {
      StartsInOrder(records, i, k - 1);
      FrameInLog(records, k - 1);
    }
  }
}
