/** The ZIP central directory reader and the size-bounded copy of an inflated entry. */
module ZipReader {
  type Byte = n: int | 0 <= n < 256

  const EOCD_SIGNATURE := 0x06054b50
  const CENTRAL_DIR_SIGNATURE := 0x02014b50
  const EOCD_SIZE := 22
  const MAX_COMMENT := 65_535

  // ----- little-endian numbers -----

  function U16(s: seq<Byte>, i: nat): nat
    requires i + 2 <= |s|
  {
    (s[i] as int) + 0x100 * (s[i + 1] as int)
  }

  function U32(s: seq<Byte>, i: nat): nat
    requires i + 4 <= |s|
  {
    U16(s, i) + 0x1_0000 * U16(s, i + 2)
  }

  function Put16(n: nat): (r: seq<Byte>)
    requires n < 0x1_0000
    ensures |r| == 2 && U16(r, 0) == n
  {
    [n % 0x100, n / 0x100]
  }

  function Put32(n: nat): (r: seq<Byte>)
    requires n < 0x1_0000_0000
    ensures |r| == 4 && U32(r, 0) == n
  {
    Put16(n % 0x1_0000) + Put16(n / 0x1_0000)
  }

  lemma ShiftNumbers(x: seq<Byte>, y: seq<Byte>, z: seq<Byte>, i: nat)
    ensures i + 2 <= |y| ==> U16(x + y + z, |x| + i) == U16(y, i)
    ensures i + 4 <= |y| ==> U32(x + y + z, |x| + i) == U32(y, i)
  {}

  /** Numbers are little-endian. */
  lemma NumbersAre(s: seq<Byte>, i: nat)
    requires i + 4 <= |s|
    ensures U16(s, i) == (s[i] as int) + 256 * (s[i + 1] as int)
    ensures U32(s, i) == (s[i] as int) + 256 * (s[i + 1] as int) + 65_536 * (s[i + 2] as int) + 16_777_216 * (s[i + 3] as int)
  {}

  // ----- the end record -----

  predicate SignatureAt(s: seq<Byte>, i: int) { 0 <= i && i + EOCD_SIZE <= |s| && U32(s, i) == EOCD_SIGNATURE }

  function SearchStart(s: seq<Byte>): nat {
    if |s| - EOCD_SIZE - MAX_COMMENT > 0 then |s| - EOCD_SIZE - MAX_COMMENT else 0
  }

  datatype Failure = NotZip | BadEntry | OutOfRange

  datatype Result<T> = Ok(value: T) | Err(failure: Failure)

  /** The last signature in the part of the file where an end record can start. */
  method FindEndOfCentralDirectory(s: seq<Byte>) returns (r: Result<nat>)
    ensures r.Ok? ==> SignatureAt(s, r.value) && SearchStart(s) <= r.value && forall j :: SignatureAt(s, j) ==> j <= r.value
    ensures r.Err? ==> r == Err(NotZip) && forall j :: SignatureAt(s, j) ==> j < SearchStart(s)
  {
    var i := |s| - EOCD_SIZE;
    while i >= SearchStart(s)
      invariant i <= |s| - EOCD_SIZE
      invariant forall j :: SignatureAt(s, j) ==> j <= i
      decreases i
    {
      if U32(s, i) == EOCD_SIGNATURE { return Ok(i); }
      i := i - 1;
    }
    return Err(NotZip);
  }

  // ----- the directory -----

  datatype Entry = Entry(name: seq<Byte>, compressionMethod: nat, compressedSize: nat, uncompressedSize: nat, localHeaderOffset: nat)

  /** One directory record at `at`: what it lists and where the next one starts. */
  function Record(s: seq<Byte>, at: nat): Result<(Entry, nat)> {
    if at + 4 > |s| then Err(OutOfRange)
    else if U32(s, at) != CENTRAL_DIR_SIGNATURE then Err(BadEntry)
    else if at + 46 > |s| then Err(OutOfRange)
    else
      var nameLength, extraLength, commentLength := U16(s, at + 28), U16(s, at + 30), U16(s, at + 32);
      if at + 46 + nameLength > |s| then Err(OutOfRange)
      else
        Ok((Entry(s[at + 46..at + 46 + nameLength], U16(s, at + 10), U32(s, at + 20), U32(s, at + 24), U32(s, at + 42)),
            at + 46 + nameLength + extraLength + commentLength))
  }

  /** The bytes `PK`, and a five and a six for the end record, a one and a two for a directory record. */
  lemma SignaturesAre(s: seq<Byte>, i: nat)
    requires i + 4 <= |s|
    ensures U32(s, i) == EOCD_SIGNATURE <==> s[i] == 0x50 && s[i + 1] == 0x4b && s[i + 2] == 5 && s[i + 3] == 6
    ensures U32(s, i) == CENTRAL_DIR_SIGNATURE <==> s[i] == 0x50 && s[i + 1] == 0x4b && s[i + 2] == 1 && s[i + 3] == 2
  {}

  /** What a directory record lists, by the offsets of section 4.3.12 of the format; and how reading it fails. */
  lemma RecordMeans(s: seq<Byte>, at: nat)
    ensures var r := Record(s, at);
            && (r.Ok? <==>
                  && at + 46 <= |s| && s[at] == 0x50 && s[at + 1] == 0x4b && s[at + 2] == 1 && s[at + 3] == 2
                  && at + 46 + U16(s, at + 28) <= |s|)
            && (r == Err(BadEntry) <==>
                  at + 4 <= |s| && !(s[at] == 0x50 && s[at + 1] == 0x4b && s[at + 2] == 1 && s[at + 3] == 2))
            && (r.Err? ==> r == Err(BadEntry) || r == Err(OutOfRange))
            && (r.Ok? ==>
                  var n := U16(s, at + 28);
                  && r.value.0 == Entry(s[at + 46..at + 46 + n], (s[at + 10] as int) + 256 * (s[at + 11] as int), U32(s, at + 20), U32(s, at + 24), U32(s, at + 42))
                  && r.value.1 == at + 46 + n + U16(s, at + 30) + U16(s, at + 32))
  {
    if at + 4 <= |s| { SignaturesAre(s, at); }
    hide U32;
  }

  /** `n` records from `at` on. */
  function Directory(s: seq<Byte>, at: nat, n: nat): Result<seq<Entry>>
    decreases n
  {
    if n == 0 then Ok([])
    else
      var r := Record(s, at);
      if r.Err? then Err(r.failure)
      else
        var rest := Directory(s, r.value.1, n - 1);
        if rest.Err? then rest else Ok([r.value.0] + rest.value)
  }

  /** The end record counts. */
  ghost predicate EndsAt(s: seq<Byte>, eocd: nat) {
    SignatureAt(s, eocd) && SearchStart(s) <= eocd && forall j :: SignatureAt(s, j) ==> j <= eocd
  }

  /** What the reader lists: the directory its end record points to. */
  ghost predicate Lists(s: seq<Byte>, r: Result<seq<Entry>>) {
    && ((forall j :: SignatureAt(s, j) ==> j < SearchStart(s)) ==> r == Err(NotZip))
    && (forall e: nat :: EndsAt(s, e) ==> r == Directory(s, U32(s, e + 16), U16(s, e + 10)))
  }

  method ListZipEntries(s: seq<Byte>) returns (r: Result<seq<Entry>>)
    ensures Lists(s, r)
  {
    hide Record;
    var found := FindEndOfCentralDirectory(s);
    if found.Err? { return Err(NotZip); }
    var eocd := found.value;
    var entryCount, start := U16(s, eocd + 10), U32(s, eocd + 16);
    var offset, entries := start, [];
    assert Directory(s, start, entryCount).Ok? ==> [] + Directory(s, start, entryCount).value == Directory(s, start, entryCount).value;
    for i := 0 to entryCount
      invariant Directory(s, start, entryCount) ==
                  var rest := Directory(s, offset, entryCount - i); if rest.Err? then rest else Ok(entries + rest.value)
    {
      var record := Record(s, offset);
      if record.Err? { return Err(record.failure); }
      ghost var rest := Directory(s, record.value.1, entryCount - i - 1);
      assert rest.Ok? ==> entries + ([record.value.0] + rest.value) == entries + [record.value.0] + rest.value;
      entries := entries + [record.value.0];
      offset := record.value.1;
    }
    assert entries + [] == entries;
    return Ok(entries);
  }

  // ----- writing an archive -----

  /** A directory record: what the reader uses, and bytes it skips. */
  datatype Listing = Listing(
    entry: Entry, extra: seq<Byte>, comment: seq<Byte>, versions: seq<Byte>, stamps: seq<Byte>, attributes: seq<Byte>)

  predicate Fits(l: Listing) {
    && |l.entry.name| < 0x1_0000 && |l.extra| < 0x1_0000 && |l.comment| < 0x1_0000
    && |l.versions| == 6 && |l.stamps| == 8 && |l.attributes| == 8
    && l.entry.compressionMethod < 0x1_0000 && l.entry.compressedSize < 0x1_0000_0000
    && l.entry.uncompressedSize < 0x1_0000_0000 && l.entry.localHeaderOffset < 0x1_0000_0000
  }

  /** The fixed 46 bytes of section 4.3.12. */
  function Head(l: Listing): (r: seq<Byte>)
    requires Fits(l)
    ensures |r| == 46 && U32(r, 0) == CENTRAL_DIR_SIGNATURE && U16(r, 10) == l.entry.compressionMethod
    ensures U32(r, 20) == l.entry.compressedSize && U32(r, 24) == l.entry.uncompressedSize
    ensures U16(r, 28) == |l.entry.name| && U16(r, 30) == |l.extra| && U16(r, 32) == |l.comment|
    ensures U32(r, 42) == l.entry.localHeaderOffset
  {
    Put32(CENTRAL_DIR_SIGNATURE) + l.versions + Put16(l.entry.compressionMethod) + l.stamps
    + Put32(l.entry.compressedSize) + Put32(l.entry.uncompressedSize)
    + Put16(|l.entry.name|) + Put16(|l.extra|) + Put16(|l.comment|) + l.attributes + Put32(l.entry.localHeaderOffset)
  }

  function Bytes(l: Listing): (r: seq<Byte>)
    requires Fits(l)
    ensures |r| == 46 + |l.entry.name| + |l.extra| + |l.comment|
  {
    Head(l) + l.entry.name + l.extra + l.comment
  }

  ghost predicate AllFit(ls: seq<Listing>) { forall i :: 0 <= i < |ls| ==> Fits(ls[i]) }

  function Central(ls: seq<Listing>): seq<Byte>
    requires AllFit(ls)
  {
    if ls == [] then [] else Bytes(ls[0]) + Central(ls[1..])
  }

  function Entries(ls: seq<Listing>): (r: seq<Entry>)
    ensures |r| == |ls| && forall i :: 0 <= i < |r| ==> r[i] == ls[i].entry
  {
    seq(|ls|, i requires 0 <= i < |ls| => ls[i].entry)
  }

  /** The end record of section 4.3.16: disk numbers, counts, size, offset and a comment. */
  function EndRecord(count: nat, size: nat, offset: nat, comment: seq<Byte>): (r: seq<Byte>)
    requires count < 0x1_0000 && size < 0x1_0000_0000 && offset < 0x1_0000_0000 && |comment| <= MAX_COMMENT
    ensures |r| == EOCD_SIZE + |comment| && U32(r, 0) == EOCD_SIGNATURE && U16(r, 10) == count && U32(r, 16) == offset
  {
    Put32(EOCD_SIGNATURE) + Put16(0) + Put16(0) + Put16(count) + Put16(count) + Put32(size) + Put32(offset)
    + Put16(|comment|) + comment
  }

  predicate Archivable(files: seq<Byte>, central: seq<Byte>, count: nat, comment: seq<Byte>) {
    count < 0x1_0000 && |central| < 0x1_0000_0000 && |files| < 0x1_0000_0000 && |comment| <= MAX_COMMENT
  }

  function Archive(files: seq<Byte>, ls: seq<Listing>, comment: seq<Byte>): seq<Byte>
    requires AllFit(ls) && Archivable(files, Central(ls), |ls|, comment)
  {
    files + Central(ls) + EndRecord(|ls|, |Central(ls)|, |files|, comment)
  }

  // ----- the round trip -----

  lemma RecordReads(x: seq<Byte>, l: Listing, z: seq<Byte>)
    requires Fits(l)
    ensures Record(x + Bytes(l) + z, |x|) == Ok((l.entry, |x| + |Bytes(l)|))
  {
    var h, name := Head(l), l.entry.name;
    var tail := name + l.extra + l.comment + z;
    var s := x + h + tail;
    assert x + Bytes(l) + z == s;
    hide Head;
    HeadReads(x, h, tail);
    assert s[|x| + 46..|x| + 46 + |name|] == name;
  }

  lemma HeadReads(x: seq<Byte>, h: seq<Byte>, tail: seq<Byte>)
    requires |h| == 46
    ensures var s := x + h + tail;
            && U32(s, |x|) == U32(h, 0) && U16(s, |x| + 10) == U16(h, 10) && U32(s, |x| + 20) == U32(h, 20)
            && U32(s, |x| + 24) == U32(h, 24) && U16(s, |x| + 28) == U16(h, 28) && U16(s, |x| + 30) == U16(h, 30)
            && U16(s, |x| + 32) == U16(h, 32) && U32(s, |x| + 42) == U32(h, 42)
  {
    ShiftNumbers(x, h, tail, 0);
    ShiftNumbers(x, h, tail, 10);
    ShiftNumbers(x, h, tail, 20);
    ShiftNumbers(x, h, tail, 24);
    ShiftNumbers(x, h, tail, 28);
    ShiftNumbers(x, h, tail, 30);
    ShiftNumbers(x, h, tail, 32);
    ShiftNumbers(x, h, tail, 42);
  }

  lemma {:induction false} DirectoryReads(x: seq<Byte>, ls: seq<Listing>, z: seq<Byte>)
    requires AllFit(ls)
    ensures Directory(x + Central(ls) + z, |x|, |ls|) == Ok(Entries(ls))
    decreases |ls|
  {
    hide Record, Bytes;
    if ls != [] {
      var b, rest := Bytes(ls[0]), Central(ls[1..]);
      var s := x + Central(ls) + z;
      assert s == x + b + (rest + z);
      RecordReads(x, ls[0], rest + z);
      assert s == (x + b) + rest + z;
      DirectoryReads(x + b, ls[1..], z);
      assert Entries(ls) == [ls[0].entry] + Entries(ls[1..]);
    }
  }

  lemma EndReads(x: seq<Byte>, e: seq<Byte>)
    requires |e| >= EOCD_SIZE && U32(e, 0) == EOCD_SIGNATURE && |e| <= EOCD_SIZE + MAX_COMMENT
    ensures var s := x + e;
            && SignatureAt(s, |x|) && SearchStart(s) <= |x| && U16(s, |x| + 10) == U16(e, 10) && U32(s, |x| + 16) == U32(e, 16)
  {
    assert x + e == x + e + [];
    ShiftNumbers(x, e, [], 0);
    ShiftNumbers(x, e, [], 10);
    ShiftNumbers(x, e, [], 16);
    hide U16, U32;
  }

  lemma ArchiveEnd(files: seq<Byte>, ls: seq<Listing>, comment: seq<Byte>)
    requires AllFit(ls) && Archivable(files, Central(ls), |ls|, comment)
    ensures var s, at := Archive(files, ls, comment), |files| + |Central(ls)|;
            && |s| == at + EOCD_SIZE + |comment| && SignatureAt(s, at) && SearchStart(s) <= at
            && U16(s, at + 10) == |ls| && U32(s, at + 16) == |files|
  {
    hide EndRecord, Central, U16, U32, SignatureAt, SearchStart;
    EndReads(files + Central(ls), EndRecord(|ls|, |Central(ls)|, |files|, comment));
  }

  /**
   * What a writer has to avoid: no four bytes of its end record and comment read as the signature,
   * at any offset from which a whole end record could still follow.
   */
  predicate Unambiguous(count: nat, size: nat, offset: nat, comment: seq<Byte>)
    requires count < 0x1_0000 && size < 0x1_0000_0000 && offset < 0x1_0000_0000 && |comment| <= MAX_COMMENT
  {
    forall i :: 1 <= i <= |comment| ==> U32(EndRecord(count, size, offset, comment), i) != EOCD_SIGNATURE
  }

  lemma LaterSignature(x: seq<Byte>, e: seq<Byte>, i: nat)
    requires |e| >= EOCD_SIZE && i + EOCD_SIZE <= |e|
    ensures SignatureAt(x + e, |x| + i) <==> U32(e, i) == EOCD_SIGNATURE
  {
    assert x + e == x + e + [];
    ShiftNumbers(x, e, [], i);
  }

  /** The reader finds the end record that was written exactly when the writer left it unambiguous. */
  lemma EndFoundIff(files: seq<Byte>, ls: seq<Listing>, comment: seq<Byte>)
    requires AllFit(ls) && Archivable(files, Central(ls), |ls|, comment)
    ensures var s, at := Archive(files, ls, comment), |files| + |Central(ls)|;
            EndsAt(s, at) <==> Unambiguous(|ls|, |Central(ls)|, |files|, comment)
  {
    hide SearchStart, Central, U16, U32, EndRecord;
    ArchiveEnd(files, ls, comment);
    var x, e := files + Central(ls), EndRecord(|ls|, |Central(ls)|, |files|, comment);
    var s, at := x + e, |x|;
    forall i | 1 <= i <= |comment| ensures SignatureAt(s, at + i) <==> U32(e, i) == EOCD_SIGNATURE { LaterSignature(x, e, i); }
    assert forall j :: SignatureAt(s, j) && j > at ==> 1 <= j - at <= |comment|;
    if EndsAt(s, at) {
      forall i | 1 <= i <= |comment| ensures U32(e, i) != EOCD_SIGNATURE { assert !SignatureAt(s, at + i); }
    }
    if Unambiguous(|ls|, |Central(ls)|, |files|, comment) {
      forall j | at < j <= at + |comment| ensures !SignatureAt(s, j) { LaterSignature(x, e, j - at); }
    }
  }

  /** Whatever the archive holds, its directory is read back entry for entry. */
  lemma ArchiveRoundTrip(files: seq<Byte>, ls: seq<Listing>, comment: seq<Byte>)
    requires AllFit(ls) && Archivable(files, Central(ls), |ls|, comment)
    ensures var s, at := Archive(files, ls, comment), |files| + |Central(ls)|;
            at + EOCD_SIZE <= |s| && Directory(s, U32(s, at + 16), U16(s, at + 10)) == Ok(Entries(ls))
  {
    ArchiveEnd(files, ls, comment);
    DirectoryReads(files, ls, EndRecord(|ls|, |Central(ls)|, |files|, comment));
  }

  /** The reader works from the record that was written and lists what was written exactly when it is unambiguous. */
  lemma ListedIff(files: seq<Byte>, ls: seq<Listing>, comment: seq<Byte>, r: Result<seq<Entry>>)
    requires AllFit(ls) && Archivable(files, Central(ls), |ls|, comment) && Lists(Archive(files, ls, comment), r)
    ensures var s, at := Archive(files, ls, comment), |files| + |Central(ls)|;
            EndsAt(s, at) && r == Ok(Entries(ls)) <==> Unambiguous(|ls|, |Central(ls)|, |files|, comment)
    ensures comment == [] ==> r == Ok(Entries(ls))
  {
    hide Archive, Central, U16, U32, EndRecord, SignatureAt, SearchStart;
    ArchiveRoundTrip(files, ls, comment);
    EndFoundIff(files, ls, comment);
  }

  /** Write an archive, list it: the entries come back. */
  method ListArchive(files: seq<Byte>, ls: seq<Listing>, comment: seq<Byte>) returns (r: Result<seq<Entry>>)
    requires AllFit(ls) && Archivable(files, Central(ls), |ls|, comment)
    requires Unambiguous(|ls|, |Central(ls)|, |files|, comment)
    ensures r == Ok(Entries(ls))
  {
    hide Archive, Lists;
    r := ListZipEntries(Archive(files, ls, comment));
    ListedIff(files, ls, comment, r);
  }

  // ----- ambiguous archives -----

  /** A comment that is itself an end record, of an empty archive, hides every entry. */
  lemma CommentMisleads(files: seq<Byte>, ls: seq<Listing>, r: Result<seq<Entry>>)
    requires AllFit(ls) && ls != [] && Archivable(files, Central(ls), |ls|, EndRecord(0, 0, 0, []))
    requires Lists(Archive(files, ls, EndRecord(0, 0, 0, [])), r)
    ensures r == Ok([]) && r != Ok(Entries(ls))
  {
    hide EndRecord, Central, Lists, U16, U32, AllFit;
    var fake := EndRecord(0, 0, 0, []);
    var e := EndRecord(|ls|, |Central(ls)|, |files|, fake);
    var x := files + Central(ls) + e[..EOCD_SIZE];
    FakeTail(|ls|, |Central(ls)|, |files|, fake);
    assert Archive(files, ls, fake) == x + fake;
    hide Archive;
    EmptyListing(x, fake, r);
  }

  /** An end record of an empty archive at the very end is all the reader sees. */
  lemma EmptyListing(x: seq<Byte>, fake: seq<Byte>, r: Result<seq<Entry>>)
    requires |fake| == EOCD_SIZE && U32(fake, 0) == EOCD_SIGNATURE && U16(fake, 10) == 0 && U32(fake, 16) == 0
    requires Lists(x + fake, r)
    ensures r == Ok([])
  {
    hide U16, U32, SearchStart;
    EndReads(x, fake);
    assert EndsAt(x + fake, |x|);
    assert Directory(x + fake, 0, 0) == Ok([]);
  }

  lemma FakeTail(count: nat, size: nat, offset: nat, comment: seq<Byte>)
    requires count < 0x1_0000 && size < 0x1_0000_0000 && offset < 0x1_0000_0000 && |comment| <= MAX_COMMENT
    ensures var e := EndRecord(count, size, offset, comment); e == e[..EOCD_SIZE] + comment
  {}

  /** With the directory at the very offset that spells the signature, any comment of 16 bytes misleads. */
  lemma OffsetMisleads(files: seq<Byte>, ls: seq<Listing>, comment: seq<Byte>)
    requires AllFit(ls) && Archivable(files, Central(ls), |ls|, comment) && |files| == EOCD_SIGNATURE && |comment| >= 16
    ensures !Unambiguous(|ls|, |Central(ls)|, |files|, comment)
    ensures !EndsAt(Archive(files, ls, comment), |files| + |Central(ls)|)
  {
    hide EndRecord, Archive, Central, U16, U32;
    var e := EndRecord(|ls|, |Central(ls)|, |files|, comment);
    assert U32(e, 16) == EOCD_SIGNATURE;
    EndFoundIff(files, ls, comment);
  }

  // ----- the bounded copy -----

  function Concat(chunks: seq<seq<Byte>>): seq<Byte> {
    if chunks == [] then [] else Concat(chunks[..|chunks| - 1]) + chunks[|chunks| - 1]
  }

  lemma {:induction false} ConcatPrefix(chunks: seq<seq<Byte>>, n: nat)
    requires n <= |chunks|
    ensures Concat(chunks[..n]) <= Concat(chunks)
    decreases |chunks|
  {
    if n < |chunks| {
      ConcatPrefix(chunks[..|chunks| - 1], n);
      assert chunks[..|chunks| - 1][..n] == chunks[..n];
    } else {
      assert chunks[..n] == chunks;
    }
  }

  /** The loop that copies an inflated stream: None when the total is not the declared size. */
  method CopyBounded(chunks: seq<seq<Byte>>, declared: nat) returns (ok: bool, out: array<Byte>)
    ensures fresh(out) && out.Length == declared
    ensures ok <==> |Concat(chunks)| == declared
    ensures ok ==> out[..] == Concat(chunks)
  {
    out := new Byte[declared](_ => 0);
    var written := 0;
    for n := 0 to |chunks|
      invariant written == |Concat(chunks[..n])| <= declared
      invariant out[..written] == Concat(chunks[..n])
    {
      var value := chunks[n];
      assert chunks[..n + 1][..n] == chunks[..n];
      if written + |value| > out.Length {
        ConcatPrefix(chunks, n + 1);
        return false, out;
      }
      SetAt(out, value, written);
      written := written + |value|;
    }
    assert chunks[..|chunks|] == chunks;
    ok := written == declared;
  }

  /** `out.set(value, at)`. */
  method SetAt(out: array<Byte>, value: seq<Byte>, at: nat)
    requires at + |value| <= out.Length
    modifies out
    ensures out[..] == old(out[..at]) + value + old(out[at + |value|..])
  {
    for i := 0 to |value|
      invariant out[..at] == old(out[..at]) && out[at..at + i] == value[..i]
      invariant out[at + |value|..] == old(out[at + |value|..])
    {
      out[at + i] := value[i];
    }
    assert out[..] == out[..at] + out[at..at + |value|] + out[at + |value|..];
  }
}
