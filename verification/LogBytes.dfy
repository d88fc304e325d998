/** The bytes of one record in the log that Source/Sink/GPSOpenClFileSink.cpp writes and Tools/dashboard.py reads. */
module LogBytes {
  import opened WireLogs

  /** A length below 65536 as the four bytes of the log. */
  function LengthBytes(n: nat): (b: Bytes)
    requires n < 0x1_0000
    ensures |b| == 4
  {
    [n % 256, n / 256, 0, 0]
  }

  lemma LengthIs(n: nat)
    requires n < 0x1_0000
    ensures LittleEndian(n) == LengthBytes(n)
  {
  }

  /** A record takes at most 32 bytes of name and 512 of data; each is preceded by its length, low byte first. */
  lemma RecordBytes(r: Record)
    ensures Fits(r) <==> |r.name| <= 32 && |r.data| <= 512
    ensures Fits(r) ==> Frame(r) == LengthBytes(|r.name|) + r.name + LengthBytes(|r.data|) + r.data
  {
    if Fits(r) {
      LengthIs(|r.name|);
      LengthIs(|r.data|);
    }
  }

  /** These bytes stand at a position of a file. */
  ghost predicate Stands(file: Bytes, position: nat, bytes: Bytes) {
    position + |bytes| <= |file| && file[position..position + |bytes|] == bytes
  }

  ghost predicate StandsAs(file: Bytes, position: nat, r: Record)
    requires |r.name| < 0x1_0000 && |r.data| < 0x1_0000
  {
    && Stands(file, position, LengthBytes(|r.name|)) && Stands(file, position + 4, r.name)
    && Stands(file, position + 4 + |r.name|, LengthBytes(|r.data|))
    && Stands(file, position + 8 + |r.name|, r.data)
  }

  /** The parser takes a record from a position exactly when its bytes stand there, with a name of 1 to 256 bytes and
    * at most 4096 of data. */
  lemma TakenIff(file: Bytes, position: nat, r: Record)
    ensures ParseOne(file, position).Whole? && ParseOne(file, position).record == r <==>
            1 <= |r.name| <= 256 && |r.data| <= 4096 && StandsAs(file, position, r)
    ensures ParseOne(file, position).Whole? && ParseOne(file, position).record == r ==>
              ParseOne(file, position).next == position + 8 + |r.name| + |r.data|
  {
    if ParseOne(file, position).Whole? {
      TakenStands(file, position);
    }
    if 1 <= |r.name| <= 256 && |r.data| <= 4096 && StandsAs(file, position, r) {
      StandsTaken(file, position, r);
    }
  }

  lemma TakenStands(file: Bytes, position: nat)
    requires ParseOne(file, position).Whole?
    ensures var r := ParseOne(file, position).record;
            && 1 <= |r.name| <= 256 && |r.data| <= 4096 && StandsAs(file, position, r)
            && ParseOne(file, position).next == position + 8 + |r.name| + |r.data|
  {
    var r := ParseOne(file, position).record;
    var middle := position + 4 + |r.name|;
    LittleEndianInverts(file[position..position + 4]);
    LittleEndianInverts(file[middle..middle + 4]);
    LengthIs(|r.name|);
    LengthIs(|r.data|);
  }

  lemma StandsTaken(file: Bytes, position: nat, r: Record)
    requires 1 <= |r.name| <= 256 && |r.data| <= 4096 && StandsAs(file, position, r)
    ensures ParseOne(file, position) == Whole(r, position + 8 + |r.name| + |r.data|)
  {
    LengthIs(|r.name|);
    LengthIs(|r.data|);
    UnpackInverts(|r.name|);
    UnpackInverts(|r.data|);
  }
}
