/** Bounded output capture and the private store of job results and logs. */
module JobStorage {
  import opened Wrappers
  import opened ResourcePolicy

  type Byte = b: int | 0 <= b < 256

  const MAX_CAPTURE_BYTES := 16 * 1024 * 1024
  const MAX_LOG_READ_BYTES := 1024 * 1024
  const MAX_SEEK := 0x7FFF_FFFF_FFFF_FFFF

  // ---------------------------------------------------------------------
  // Capturing what a child writes
  // ---------------------------------------------------------------------

  /** One answer of the pipe; an empty chunk is the end of the stream. */
  datatype ReadEvent = Chunk(bytes: seq<Byte>) | ReadFailure

  datatype BoundedOutput = BoundedOutput(bytes: seq<Byte>, truncated: bool)

  datatype CaptureError = CaptureError

  /** Everything the pipe delivers before its end, unless a read fails first. */
  function Delivered(events: seq<ReadEvent>): Option<seq<Byte>> {
    if events == [] then Some([])
    else
      match events[0]
      case ReadFailure => None
      case Chunk(bytes) =>
        if bytes == [] then Some([])
        else
          match Delivered(events[1..])
          case None => None
          case Some(rest) => Some(bytes + rest)
  }

  function Capture(events: seq<ReadEvent>, limit: nat): Result<BoundedOutput, CaptureError> {
    match Delivered(events)
    case None => Err(CaptureError)
    case Some(all) =>
      Ok(BoundedOutput(if |all| <= limit then all else all[..limit], |all| > limit))
  }

  function After(seen: seq<Byte>, later: Option<seq<Byte>>): Option<seq<Byte>> {
    match later
    case None => None
    case Some(rest) => Some(seen + rest)
  }

  lemma DeliveredAfter(seen: seq<Byte>, events: seq<ReadEvent>)
    requires events != [] && events[0].Chunk? && events[0].bytes != []
    ensures After(seen, Delivered(events)) == After(seen + events[0].bytes, Delivered(events[1..]))
  {
    var later := Delivered(events[1..]);
    if later.Some? { Associates(seen, events[0].bytes, later.value); }
  }

  lemma Associates<T>(a: seq<T>, b: seq<T>, c: seq<T>)
    ensures a + (b + c) == (a + b) + c
  {
  }

  lemma NothingSeenYet(later: Option<seq<Byte>>)
    ensures After([], later) == later
  {
    if later.Some? { assert [] + later.value == later.value; }
  }

  /** `read_bounded`: the first `limit` bytes, however the stream is cut into chunks. */
  method ReadBounded(events: seq<ReadEvent>, limit: nat) returns (r: Result<BoundedOutput, CaptureError>)
    ensures r == Capture(events, limit)
  {
    var bytes: seq<Byte> := [];
    var truncated := false;
    ghost var seen: seq<Byte> := [];
    NothingSeenYet(Delivered(events));
    var i := 0;
    assert events[0..] == events;
    while i < |events|
      invariant 0 <= i <= |events|
      invariant bytes == if |seen| <= limit then seen else seen[..limit]
      invariant truncated <==> |seen| > limit
      invariant Delivered(events) == After(seen, Delivered(events[i..]))
    {
      ghost var rest := events[i..];
      assert rest[0] == events[i] && rest[1..] == events[i + 1..];
      match events[i]
      case ReadFailure => return Err(CaptureError);
      case Chunk(buffer) =>
        if buffer == [] { break; }
        var remaining := limit - |bytes|;
        if remaining > 0 {
          bytes := bytes + (if |buffer| <= remaining then buffer else buffer[..remaining]);
        }
        if |buffer| > remaining { truncated := true; }
        DeliveredAfter(seen, rest);
        seen := seen + buffer;
        i := i + 1;
    }
    assert seen + [] == seen;
    return Ok(BoundedOutput(bytes, truncated));
  }

  /** The reads of a child that writes these pieces and then closes its pipe. */
  function Reads(pieces: seq<seq<Byte>>): (r: seq<ReadEvent>)
    ensures |r| == |pieces| && forall i :: 0 <= i < |r| ==> r[i] == Chunk(pieces[i])
  {
    seq(|pieces|, i requires 0 <= i < |pieces| => Chunk(pieces[i]))
  }

  function Joined(pieces: seq<seq<Byte>>): seq<Byte> {
    if pieces == [] then [] else pieces[0] + Joined(pieces[1..])
  }

  lemma {:induction false} PiecesAreDelivered(pieces: seq<seq<Byte>>)
    requires forall i :: 0 <= i < |pieces| ==> pieces[i] != []
    ensures Delivered(Reads(pieces)) == Some(Joined(pieces))
  {
    if pieces != [] {
      PiecesAreDelivered(pieces[1..]);
      assert Reads(pieces)[1..] == Reads(pieces[1..]);
    }
  }

  /**
   * However the same output is cut into pieces, the capture keeps its first `limit` bytes and
   * flags truncation exactly when that is not all of it.
   */
  lemma CaptureIgnoresChunking(pieces: seq<seq<Byte>>, others: seq<seq<Byte>>, limit: nat)
    requires forall i :: 0 <= i < |pieces| ==> pieces[i] != []
    requires forall i :: 0 <= i < |others| ==> others[i] != []
    requires Joined(pieces) == Joined(others)
    ensures Capture(Reads(pieces), limit) == Capture(Reads(others), limit)
    ensures var all := Joined(pieces);
      Capture(Reads(pieces), limit) == Ok(BoundedOutput(if |all| <= limit then all else all[..limit], |all| > limit))
  {
    PiecesAreDelivered(pieces);
    PiecesAreDelivered(others);
  }

  // ---------------------------------------------------------------------
  // File names
  // ---------------------------------------------------------------------

  datatype Part = Metadata | Stdout | Stderr {
    function Suffix(): string {
      match this
      case Metadata => "json"
      case Stdout => "stdout"
      case Stderr => "stderr"
    }
  }

  function Target(id: string, part: Part): string { id + "." + part.Suffix() }

  function Temporary(id: string, part: Part, nonce: nat): string {
    "." + (id + "." + (part.Suffix() + "." + (Decimal(nonce) + ".tmp")))
  }

  function BeforeDot(s: string): string {
    if s == [] || s[0] == '.' then [] else [s[0]] + BeforeDot(s[1..])
  }

  lemma {:induction false} FirstDotSplits(a: string, b: string)
    requires '.' !in a
    ensures BeforeDot(a + "." + b) == a && (a + "." + b)[|a| + 1..] == b
  {
    var s := a + "." + b;
    if a != [] {
      assert s[1..] == a[1..] + "." + b && s[0] == a[0] && a[0] in a;
      FirstDotSplits(a[1..], b);
    }
  }

  lemma ValidIdHasNoDot(id: string)
    requires ValidJobId(id)
    ensures '.' !in id && id[0] != '.'
  {
  }

  lemma SuffixesDiffer(p: Part, q: Part)
    ensures p.Suffix() == q.Suffix() ==> p == q
    ensures '.' !in p.Suffix()
  {
  }

  /** Published names of different jobs or parts never coincide, nor with any temporary name. */
  lemma NamesDoNotCollide(id: string, part: Part, other: string, otherPart: Part, nonce: nat)
    requires ValidJobId(id) && ValidJobId(other)
    ensures Target(id, part) == Target(other, otherPart) ==> id == other && part == otherPart
    ensures Target(id, part) != Temporary(other, otherPart, nonce)
  {
    ValidIdHasNoDot(id);
    ValidIdHasNoDot(other);
    SuffixesDiffer(part, otherPart);
    FirstDotSplits(id, part.Suffix());
    FirstDotSplits(other, otherPart.Suffix());
    assert Target(id, part)[0] == id[0] && Temporary(other, otherPart, nonce)[0] == '.';
  }

  /** Temporary names tell jobs and parts apart whatever the clock says. */
  lemma TemporariesDoNotCollide(id: string, part: Part, nonce: nat, other: string, otherPart: Part, otherNonce: nat)
    requires ValidJobId(id) && ValidJobId(other)
    ensures Temporary(id, part, nonce) == Temporary(other, otherPart, otherNonce) ==> id == other && part == otherPart
  {
    SuffixesDiffer(part, otherPart);
    TemporaryParses(id, part, nonce);
    TemporaryParses(other, otherPart, otherNonce);
  }

  lemma TemporaryParses(id: string, part: Part, nonce: nat)
    requires ValidJobId(id)
    ensures var rest := Temporary(id, part, nonce)[1..];
      BeforeDot(rest) == id && |rest| > |id| && BeforeDot(rest[|id| + 1..]) == part.Suffix()
  {
    ValidIdHasNoDot(id);
    SuffixesDiffer(part, part);
    var tail := Decimal(nonce) + ".tmp";
    var inner := part.Suffix() + "." + tail;
    assert Temporary(id, part, nonce)[1..] == id + "." + inner;
    FirstDotSplits(id, inner);
    FirstDotSplits(part.Suffix(), tail);
  }

  // ---------------------------------------------------------------------
  // Persisting a result
  // ---------------------------------------------------------------------

  datatype JobState = Succeeded | Failed | Cancelled

  datatype ExecutionResult = ExecutionResult(
    state: JobState, exitCode: Option<int>, stdout: seq<Byte>, stderr: seq<Byte>,
    outputTruncated: bool, durationMillis: nat)

  datatype StoredJob = StoredJob(
    id: string, state: JobState, exitCode: Option<int>, outputTruncated: bool, durationMillis: nat)

  /** The serializer of the metadata; nothing here depends on its format. */
  type Encoder = StoredJob -> seq<Byte>

  type Files = map<string, seq<Byte>>

  function Content(id: string, result: ExecutionResult, encode: Encoder, part: Part): seq<Byte> {
    match part
    case Metadata =>
      encode(StoredJob(id, result.state, result.exitCode, result.outputTruncated, result.durationMillis))
    case Stdout => result.stdout
    case Stderr => result.stderr
  }

  /** Where an atomic write stops, if anywhere. */
  datatype Fault =
    | NoFault | ClockFault | CreateFault | PermissionFault | WriteFault(written: nat) | SyncFault | RenameFault

  /** The clock reading and the fault one write meets. */
  datatype WriteLuck = WriteLuck(nonce: nat, fault: Fault)

  function Written(files: Files, id: string, part: Part, bytes: seq<Byte>, luck: WriteLuck): (r: (Files, bool)) {
    var temporary := Temporary(id, part, luck.nonce);
    if luck.fault.ClockFault? || luck.fault.CreateFault? || temporary in files then (files, false)
    else if luck.fault.PermissionFault? then (files[temporary := []], false)
    else if luck.fault.WriteFault? && luck.fault.written < |bytes| then
      (files[temporary := bytes[..luck.fault.written]], false)
    else if !luck.fault.NoFault? then (files[temporary := bytes], false)
    else (files[Target(id, part) := bytes], true)
  }

  predicate Holds(files: Files, id: string, part: Part, bytes: seq<Byte>) {
    Target(id, part) in files && files[Target(id, part)] == bytes
  }

  /**
   * A published file is the old one or the whole new one, never something between, and
   * no other job's or part's published file is touched.
   */
  lemma WriteIsAtomic(files: Files, id: string, part: Part, bytes: seq<Byte>, luck: WriteLuck, other: string, otherPart: Part)
    requires ValidJobId(id) && ValidJobId(other)
    ensures var (after, ok) := Written(files, id, part, bytes, luck);
      var name := Target(other, otherPart);
      if other == id && otherPart == part && ok then Holds(after, id, part, bytes)
      else (name in after <==> name in files) && (name in files ==> after[name] == files[name])
  {
    NamesDoNotCollide(other, otherPart, id, part, luck.nonce);
  }

  /** A write succeeds exactly when nothing goes wrong and its temporary name is free. */
  lemma WriteSucceedsExactly(files: Files, id: string, part: Part, bytes: seq<Byte>, luck: WriteLuck)
    ensures Written(files, id, part, bytes, luck).1 <==>
      luck.fault.NoFault? && Temporary(id, part, luck.nonce) !in files
  {
  }

  function PartsInOrder(): seq<Part> { [Metadata, Stdout, Stderr] }

  /** `persist` from part `k` on; it stops at the first failure. */
  function Persisted(files: Files, id: string, result: ExecutionResult, encode: Encoder, luck: seq<WriteLuck>, k: nat)
    : (Files, bool)
    requires |luck| == 3
    decreases 3 - k
  {
    if k >= 3 then (files, true)
    else
      var part := PartsInOrder()[k];
      var (after, ok) := Written(files, id, part, Content(id, result, encode, part), luck[k]);
      if ok then Persisted(after, id, result, encode, luck, k + 1) else (after, false)
  }

  predicate Stored(files: Files, id: string, result: ExecutionResult, encode: Encoder) {
    forall part: Part :: Holds(files, id, part, Content(id, result, encode, part))
  }

  /** A successful persist leaves all three files of the result in place. */
  lemma PersistStoresEverything(files: Files, id: string, result: ExecutionResult, encode: Encoder, luck: seq<WriteLuck>)
    requires |luck| == 3 && ValidJobId(id)
    ensures Persisted(files, id, result, encode, luck, 0).1 ==>
      Stored(Persisted(files, id, result, encode, luck, 0).0, id, result, encode)
  {
    var (one, ok1) := Written(files, id, Metadata, Content(id, result, encode, Metadata), luck[0]);
    var (two, ok2) := Written(one, id, Stdout, Content(id, result, encode, Stdout), luck[1]);
    assert PartsInOrder()[0] == Metadata && PartsInOrder()[1] == Stdout && PartsInOrder()[2] == Stderr;
    forall part: Part
      ensures Persisted(files, id, result, encode, luck, 0).1 ==>
        Holds(Persisted(files, id, result, encode, luck, 0).0, id, part, Content(id, result, encode, part))
    {
      WriteIsAtomic(files, id, Metadata, Content(id, result, encode, Metadata), luck[0], id, part);
      WriteIsAtomic(one, id, Stdout, Content(id, result, encode, Stdout), luck[1], id, part);
      WriteIsAtomic(two, id, Stderr, Content(id, result, encode, Stderr), luck[2], id, part);
    }
  }

  // ---------------------------------------------------------------------
  // Reading logs back
  // ---------------------------------------------------------------------

  datatype StoreError = InvalidJobId | InvalidLogReadLimit(maxBytes: U64) | ReadError | WriteError

  datatype JobLogChunk = JobLogChunk(bytes: seq<Byte>, endOfFile: bool, totalBytes: nat)

  datatype JobLogStream = StdoutLog | StderrLog {
    function Part(): Part { if StdoutLog? then Stdout else Stderr }
  }

  function ReadLog(files: Files, id: string, stream: JobLogStream, offset: U64, maxBytes: U64)
    : Result<JobLogChunk, StoreError>
  {
    if !ValidJobId(id) then Err(StoreError.InvalidJobId)
    else if maxBytes == 0 || maxBytes > MAX_LOG_READ_BYTES then Err(InvalidLogReadLimit(maxBytes))
    else if Target(id, stream.Part()) !in files || offset > MAX_SEEK then Err(ReadError)
    else
      var file := files[Target(id, stream.Part())];
      var rest := if offset <= |file| then file[offset..] else [];
      var bytes := if |rest| <= maxBytes then rest else rest[..maxBytes];
      var reached := if offset + |bytes| > U64_MAX then U64_MAX else offset + |bytes|;
      Ok(JobLogChunk(bytes, reached >= |file|, |file|))
  }

  /** What a client assembles that asks for `page(offset)` bytes until the end is flagged. */
  function FetchAll(files: Files, id: string, stream: JobLogStream, offset: nat, page: nat -> U64): seq<Byte>
    requires Readable(files, id, stream) && PagesAllowed(page)
    requires offset <= |files[Target(id, stream.Part())]|
    decreases |files[Target(id, stream.Part())]| - offset
  {
    var chunk := ReadLog(files, id, stream, offset, page(offset)).value;
    if chunk.endOfFile then chunk.bytes
    else chunk.bytes + FetchAll(files, id, stream, offset + |chunk.bytes|, page)
  }

  predicate Readable(files: Files, id: string, stream: JobLogStream) {
    ValidJobId(id) && Target(id, stream.Part()) in files && |files[Target(id, stream.Part())]| <= MAX_SEEK
  }

  ghost predicate PagesAllowed(page: nat -> U64) {
    forall offset: nat :: 1 <= page(offset) <= MAX_LOG_READ_BYTES
  }

  /** One page is the file from the offset on, cut at the page size, and flags the end exactly; past the end it is empty. */
  lemma PageIsASlice(files: Files, id: string, stream: JobLogStream, offset: nat, size: U64)
    requires Readable(files, id, stream) && 1 <= size <= MAX_LOG_READ_BYTES && offset <= MAX_SEEK
    ensures var file := files[Target(id, stream.Part())];
      var from := if offset <= |file| then offset else |file|;
      var end := if from + size <= |file| then from + size else |file|;
      ReadLog(files, id, stream, offset, size) == Ok(JobLogChunk(file[from..end], end == |file|, |file|))
  {
    var file := files[Target(id, stream.Part())];
    if offset <= |file| {
      assert file[offset..|file|] == file[offset..];
      if offset + size <= |file| { assert file[offset..][..size] == file[offset..offset + size]; }
    } else {
      assert file[|file|..|file|] == [];
    }
  }

  /** A page is refused exactly for an invalid id, a size out of range, a missing file or an offset no seek accepts. */
  lemma PageIsRefusedExactly(files: Files, id: string, stream: JobLogStream, offset: U64, size: U64)
    ensures ReadLog(files, id, stream, offset, size).Ok? <==>
      && ValidJobId(id) && 1 <= size <= MAX_LOG_READ_BYTES
      && Target(id, stream.Part()) in files && offset <= MAX_SEEK
    ensures ReadLog(files, id, stream, offset, size) == Err(InvalidLogReadLimit(size)) <==>
      ValidJobId(id) && !(1 <= size <= MAX_LOG_READ_BYTES)
    ensures ReadLog(files, id, stream, offset, size) == Err(StoreError.InvalidJobId) <==> !ValidJobId(id)
  {
  }

  lemma FetchStep(files: Files, id: string, stream: JobLogStream, offset: nat, page: nat -> U64)
    requires Readable(files, id, stream) && PagesAllowed(page)
    requires offset <= |files[Target(id, stream.Part())]|
    ensures var file := files[Target(id, stream.Part())];
      var next := offset + page(offset);
      FetchAll(files, id, stream, offset, page)
        == if next >= |file| then file[offset..|file|] else file[offset..next] + FetchAll(files, id, stream, next, page)
  {
    PageIsASlice(files, id, stream, offset, page(offset));
  }

  /** Pages of any allowed sizes, taken until the end is flagged, give the file back. */
  lemma {:induction false} PagesReassemble(files: Files, id: string, stream: JobLogStream, offset: nat, page: nat -> U64)
    requires Readable(files, id, stream) && PagesAllowed(page)
    requires offset <= |files[Target(id, stream.Part())]|
    ensures FetchAll(files, id, stream, offset, page) == files[Target(id, stream.Part())][offset..]
    decreases |files[Target(id, stream.Part())]| - offset
  {
    var file, next := files[Target(id, stream.Part())], offset + page(offset);
    FetchStep(files, id, stream, offset, page);
    if next < |file| {
      PagesReassemble(files, id, stream, next, page);
      assert file[offset..] == file[offset..next] + file[next..];
    }
  }

  /** The bytes of a result that a stream shows. */
  function Shown(result: ExecutionResult, stream: JobLogStream): seq<Byte> {
    if stream.StdoutLog? then result.stdout else result.stderr
  }

  /** From the child's pipe to the client, on either stream: the captured prefix arrives byte for byte. */
  lemma CapturedOutputArrives(
    files: Files, id: string, result: ExecutionResult, encode: Encoder, luck: seq<WriteLuck>,
    events: seq<ReadEvent>, limit: nat, stream: JobLogStream, page: nat -> U64)
    requires ValidJobId(id) && |luck| == 3 && 0 < limit <= MAX_CAPTURE_BYTES && PagesAllowed(page)
    requires Capture(events, limit).Ok? && Shown(result, stream) == Capture(events, limit).value.bytes
    requires Persisted(files, id, result, encode, luck, 0).1
    ensures var after := Persisted(files, id, result, encode, luck, 0).0;
      var all := Delivered(events).value;
      && Readable(after, id, stream)
      && FetchAll(after, id, stream, 0, page) == (if |all| <= limit then all else all[..limit])
  {
    PersistStoresEverything(files, id, result, encode, luck);
    var after := Persisted(files, id, result, encode, luck, 0).0;
    var kept := Shown(result, stream);
    assert Holds(after, id, stream.Part(), Content(id, result, encode, stream.Part()));
    assert after[Target(id, stream.Part())] == kept && kept[0..] == kept;
    PagesReassemble(after, id, stream, 0, page);
  }

  class JobStore {
    var files: Files
    const encode: Encoder

    constructor (encode: Encoder)
      ensures files == map[] && this.encode == encode
    {
      this.encode := encode;
      files := map[];
    }

    method WriteAtomic(id: string, part: Part, bytes: seq<Byte>, luck: WriteLuck) returns (ok: bool)
      modifies this`files
      ensures (files, ok) == Written(old(files), id, part, bytes, luck)
    {
      if luck.fault.ClockFault? { return false; }
      var temporary := Temporary(id, part, luck.nonce);
      if luck.fault.CreateFault? || temporary in files { return false; }
      ghost var before := files;
      files := files[temporary := []];
      if luck.fault.PermissionFault? { return false; }
      var written := if luck.fault.WriteFault? && luck.fault.written < |bytes| then bytes[..luck.fault.written] else bytes;
      files := files[temporary := written];
      assert files == before[temporary := written];
      if !luck.fault.NoFault? { return false; }
      files := files - {temporary};
      assert files == before;
      files := files[Target(id, part) := bytes];
      return true;
    }

    method Persist(id: string, result: ExecutionResult, luck: seq<WriteLuck>) returns (ok: bool)
      requires |luck| == 3 && ValidJobId(id)
      modifies this`files
      ensures (files, ok) == Persisted(old(files), id, result, encode, luck, 0)
      ensures ok ==> Stored(files, id, result, encode)
    {
      PersistStoresEverything(files, id, result, encode, luck);
      var parts := PartsInOrder();
      for k := 0 to 3
        invariant Persisted(old(files), id, result, encode, luck, 0)
          == Persisted(files, id, result, encode, luck, k)
      {
        var wrote := WriteAtomic(id, parts[k], Content(id, result, encode, parts[k]), luck[k]);
        if !wrote { return false; }
      }
      return true;
    }
  }
}
