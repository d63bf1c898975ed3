/** How a trajectory is stored (`core/trajectory.py`, `trajectory/verify.py`, `trajectory/sealing.py`):
    chunks of newline-terminated lines, chained by digest, and the manifest that names them. */
module Chunks {
  import opened Util
  import opened Encoding
  import opened Trajectory

  datatype Header = Header(chunk: nat, previous: Option<string>, trajectoryId: string)

  /** The JSON and digest functions the format is built from. */
  datatype Codec = Codec(
    header: Header -> string, parseHeader: string -> Option<Header>,
    event: Event -> string, parseEvent: string -> Option<Event>,
    digest: string -> string)

  predicate OneLine(line: string) {
    '\n' !in line
  }

  /** JSON escapes newlines, and parsing inverts rendering of whatever validates. */
  ghost predicate Faithful(codec: Codec) {
    && (forall h :: OneLine(codec.header(h)) && codec.parseHeader(codec.header(h)) == Some(h))
    && (forall e :: OneLine(codec.event(e)) && (WellFormed(e) ==> codec.parseEvent(codec.event(e)) == Some(e)))
  }

  ghost predicate CollisionFree(codec: Codec) {
    forall x, y :: codec.digest(x) == codec.digest(y) ==> x == y
  }

  // ---- chunk bytes -----------------------------------------------------------------------------

  function Lines(lines: seq<string>): string {
    if lines == [] then "" else lines[0] + "\n" + Lines(lines[1..])
  }

  function EventLines(codec: Codec, events: seq<Event>): (r: seq<string>)
    ensures |r| == |events|
  {
    seq(|events|, i requires 0 <= i < |events| => codec.event(events[i]))
  }

  /** `chunk_bytes`. */
  function ChunkBytes(codec: Codec, trajectoryId: string, index: nat, previous: Option<string>, events: seq<Event>): string {
    Lines([codec.header(Header(index, previous, trajectoryId))] + EventLines(codec, events))
  }

  /** Python's `data.split("\n")`. */
  function Split(data: string): (r: seq<string>)
    ensures r != []
  {
    if data == "" then [""]
    else if data[0] == '\n' then [""] + Split(data[1..])
    else
      var rest := Split(data[1..]);
      [[data[0]] + rest[0]] + rest[1..]
  }

  datatype ChunkError = NoFinalNewline | BadHeader | BadEvent

  function ParseEvents(codec: Codec, lines: seq<string>): Result<seq<Event>, ChunkError> {
    if lines == [] then Ok([])
    else
      match codec.parseEvent(lines[0])
      case None => Err(BadEvent)
      case Some(e) =>
        var rest :- ParseEvents(codec, lines[1..]);
        Ok([e] + rest)
  }

  /** `parse_chunk`. */
  function ParseChunk(codec: Codec, data: string): Result<(Header, seq<Event>), ChunkError> {
    var lines := Split(data);
    if lines[|lines| - 1] != "" then Err(NoFinalNewline)
    else
      match codec.parseHeader(lines[0])
      case None => Err(BadHeader)
      case Some(header) =>
        var events :- ParseEvents(codec, if |lines| == 1 then [] else lines[1..|lines| - 1]);
        Ok((header, events))
  }

  lemma {:induction false} SplitLine(line: string, rest: string)
    requires OneLine(line)
    ensures Split(line + "\n" + rest) == [line] + Split(rest)
  {
    var data := line + "\n" + rest;
    if line == "" {
      assert data[1..] == rest;
    } else {
      assert data[0] == line[0] && line[0] in line;
      assert data[1..] == line[1..] + "\n" + rest;
      assert forall c :: c in line[1..] ==> c in line;
      SplitLine(line[1..], rest);
      assert [line[0]] + line[1..] == line;
    }
  }

  lemma {:induction false} SplitLines(lines: seq<string>)
    requires forall i :: 0 <= i < |lines| ==> OneLine(lines[i])
    ensures Split(Lines(lines)) == lines + [""]
  {
    if lines != [] {
      SplitLine(lines[0], Lines(lines[1..]));
      SplitLines(lines[1..]);
    }
  }

  lemma {:induction false} ParseEventLines(codec: Codec, events: seq<Event>)
    requires Faithful(codec) && forall i :: 0 <= i < |events| ==> WellFormed(events[i])
    ensures ParseEvents(codec, EventLines(codec, events)) == Ok(events)
  {
    if events != [] {
      ParseEventLines(codec, events[1..]);
      assert EventLines(codec, events)[1..] == EventLines(codec, events[1..]);
      assert codec.parseEvent(codec.event(events[0])) == Some(events[0]);
      assert [events[0]] + events[1..] == events;
    }
  }

  /** Round trip: parsing a chunk's bytes gives back its header and its events. */
  lemma ParseInvertsChunkBytes(codec: Codec, trajectoryId: string, index: nat, previous: Option<string>, events: seq<Event>)
    requires Faithful(codec) && forall i :: 0 <= i < |events| ==> WellFormed(events[i])
    ensures ParseChunk(codec, ChunkBytes(codec, trajectoryId, index, previous, events))
         == Ok((Header(index, previous, trajectoryId), events))
  {
    var lines := [codec.header(Header(index, previous, trajectoryId))] + EventLines(codec, events);
    SplitLines(lines);
    ParseEventLines(codec, events);
    assert (lines + [""])[1..|lines|] == EventLines(codec, events);
  }

  // ---- the chain -------------------------------------------------------------------------------

  datatype ChunkRef = ChunkRef(index: nat, first: nat, last: nat, digest: string, previous: Option<string>, bytes: nat, events: nat)

  /** What the chunk reference validates. */
  predicate RefOk(ref: ChunkRef) {
    ref.first <= ref.last && ref.events == ref.last - ref.first + 1 && ref.bytes > 0
  }

  type Files = map<(nat, string), string>

  function Read(files: Files, ref: ChunkRef): Option<string> {
    if (ref.index, ref.digest) in files then Some(files[(ref.index, ref.digest)]) else None
  }

  /** The bytes under *ref* are the chunk it names: its digest, size, place in the chain and range. */
  predicate ChunkVerifies(codec: Codec, files: Files, trajectoryId: string, ref: ChunkRef) {
    && Read(files, ref).Some?
    && codec.digest(Read(files, ref).value) == ref.digest
    && |Read(files, ref).value| == ref.bytes
    && ParseChunk(codec, Read(files, ref).value).Ok?
    && ParseChunk(codec, Read(files, ref).value).value.0 == Header(ref.index, ref.previous, trajectoryId)
    && HoldsRange(ParseChunk(codec, Read(files, ref).value).value.1, ref.first, ref.last)
  }

  /** The events' sequences are exactly `range(first, last + 1)`. */
  predicate HoldsRange(events: seq<Event>, first: nat, last: nat) {
    && |events| == (if last + 1 <= first then 0 else last + 1 - first)
    && NumberedFrom(events, first)
  }

  predicate NumberedFrom(events: seq<Event>, first: nat) {
    forall k :: 0 <= k < |events| ==> events[k].sequence == first + k
  }

  function EventsIn(codec: Codec, files: Files, trajectoryId: string, ref: ChunkRef): seq<Event>
    requires ChunkVerifies(codec, files, trajectoryId, ref)
  {
    ParseChunk(codec, Read(files, ref).value).value.1
  }

  predicate AllVerify(codec: Codec, files: Files, trajectoryId: string, chunks: seq<ChunkRef>) {
    forall i :: 0 <= i < |chunks| ==> ChunkVerifies(codec, files, trajectoryId, chunks[i])
  }

  /** Every event of the verified chunks, in order. */
  function AllEvents(codec: Codec, files: Files, trajectoryId: string, chunks: seq<ChunkRef>): seq<Event>
    requires AllVerify(codec, files, trajectoryId, chunks)
  {
    if chunks == [] then []
    else AllEvents(codec, files, trajectoryId, chunks[..|chunks| - 1])
         + EventsIn(codec, files, trajectoryId, chunks[|chunks| - 1])
  }

  datatype LoadProblem = Missing(index: nat) | WrongDigest(index: nat) | WrongSize(index: nat) | Unparsable(index: nat)
                       | WrongPlace(index: nat) | WrongRange(index: nat)

  /** What a problem says of the chunk is so. */
  predicate RealOf(codec: Codec, files: Files, trajectoryId: string, ref: ChunkRef, p: LoadProblem) {
    var data := Read(files, ref);
    match p
    case Missing(index) => index == ref.index && data.None?
    case WrongDigest(index) => index == ref.index && data.Some? && codec.digest(data.value) != ref.digest
    case WrongSize(index) => index == ref.index && data.Some? && |data.value| != ref.bytes
    case Unparsable(index) => index == ref.index && data.Some? && ParseChunk(codec, data.value).Err?
    case WrongPlace(index) =>
      index == ref.index && data.Some? && ParseChunk(codec, data.value).Ok?
      && ParseChunk(codec, data.value).value.0 != Header(ref.index, ref.previous, trajectoryId)
    case WrongRange(index) =>
      index == ref.index && data.Some? && ParseChunk(codec, data.value).Ok?
      && !HoldsRange(ParseChunk(codec, data.value).value.1, ref.first, ref.last)
  }

  predicate AllReal(codec: Codec, files: Files, trajectoryId: string, chunks: seq<ChunkRef>, problems: seq<LoadProblem>) {
    forall p :: p in problems ==> exists i :: 0 <= i < |chunks| && RealOf(codec, files, trajectoryId, chunks[i], p)
  }

  /** `load_events`: it finds no problem exactly when every chunk verifies, and then returns their events. */
  method LoadEvents(codec: Codec, files: Files, trajectoryId: string, chunks: seq<ChunkRef>)
    returns (events: seq<Event>, problems: seq<LoadProblem>)
    ensures problems == [] <==> AllVerify(codec, files, trajectoryId, chunks)
    ensures problems == [] ==> events == AllEvents(codec, files, trajectoryId, chunks)
    ensures AllReal(codec, files, trajectoryId, chunks, problems)
  {
    events, problems := [], [];
    for i := 0 to |chunks|
      invariant problems == [] <==> AllVerify(codec, files, trajectoryId, chunks[..i])
      invariant problems == [] ==> events == AllEvents(codec, files, trajectoryId, chunks[..i])
      invariant AllReal(codec, files, trajectoryId, chunks, problems)
    {
      var ref := chunks[i];
      assert chunks[..i + 1] == chunks[..i] + [ref];
      assert chunks[..i + 1][..i] == chunks[..i];
      assert AllVerify(codec, files, trajectoryId, chunks[..i + 1])
        <==> AllVerify(codec, files, trajectoryId, chunks[..i]) && ChunkVerifies(codec, files, trajectoryId, ref);
      var data := Read(files, ref);
      if data.None? {
        problems := problems + [Missing(ref.index)];
        continue;
      }
      if codec.digest(data.value) != ref.digest {
        problems := problems + [WrongDigest(ref.index)];
        continue;
      }
      if |data.value| != ref.bytes {
        problems := problems + [WrongSize(ref.index)];
      }
      var parsed := ParseChunk(codec, data.value);
      if parsed.Err? {
        problems := problems + [Unparsable(ref.index)];
        continue;
      }
      var (header, chunkEvents) := parsed.value;
      if header != Header(ref.index, ref.previous, trajectoryId) {
        problems := problems + [WrongPlace(ref.index)];
      }
      if !HoldsRange(chunkEvents, ref.first, ref.last) {
        problems := problems + [WrongRange(ref.index)];
      }
      events := events + chunkEvents;
    }
    assert chunks[..|chunks|] == chunks;
  }

  /** What the manifest declares about its chain: positions, contiguous ranges, linked digests. */
  predicate Chained(chunks: seq<ChunkRef>) {
    forall i :: 0 <= i < |chunks| ==> Linked(chunks, i)
  }

  predicate Linked(chunks: seq<ChunkRef>, i: nat)
    requires i < |chunks|
  {
    && RefOk(chunks[i])
    && chunks[i].index == i
    && chunks[i].first == (if i == 0 then 0 else chunks[i - 1].last + 1)
    && chunks[i].previous == if i == 0 then None else Some(chunks[i - 1].digest)
  }

  lemma ChainPrefix(codec: Codec, files: Files, trajectoryId: string, chunks: seq<ChunkRef>)
    requires Chained(chunks) && AllVerify(codec, files, trajectoryId, chunks) && chunks != []
    ensures Chained(chunks[..|chunks| - 1]) && AllVerify(codec, files, trajectoryId, chunks[..|chunks| - 1])
    ensures Linked(chunks, |chunks| - 1) && ChunkVerifies(codec, files, trajectoryId, chunks[|chunks| - 1])
  {
    var prefix := chunks[..|chunks| - 1];
    forall i | 0 <= i < |prefix| ensures Linked(prefix, i) {
      assert Linked(chunks, i);
    }
  }

  /** The ranges of a verified chain partition the sequences: the events are numbered 0, 1, 2, ... */
  lemma {:induction false} ChainIsGapless(codec: Codec, files: Files, trajectoryId: string, chunks: seq<ChunkRef>)
    requires Chained(chunks) && AllVerify(codec, files, trajectoryId, chunks)
    ensures var events := AllEvents(codec, files, trajectoryId, chunks);
            && |events| == (if chunks == [] then 0 else chunks[|chunks| - 1].last + 1)
            && NumberedFrom(events, 0)
  {
    if chunks != [] {
      ChainPrefix(codec, files, trajectoryId, chunks);
      ChainIsGapless(codec, files, trajectoryId, chunks[..|chunks| - 1]);
    }
  }

  function Digests(chunks: seq<ChunkRef>): seq<string> {
    if chunks == [] then [] else Digests(chunks[..|chunks| - 1]) + [chunks[|chunks| - 1].digest]
  }

  /** Main result: the last digest commits to the whole history. Two verified chains, in any two
      stores, whose last chunks have the same digest have the same chunks and the same events. */
  lemma {:induction false} LastDigestCommits(
    codec: Codec, files: Files, id: string, chunks: seq<ChunkRef>, files': Files, id': string, chunks': seq<ChunkRef>)
    requires CollisionFree(codec)
    requires Chained(chunks) && AllVerify(codec, files, id, chunks) && chunks != []
    requires Chained(chunks') && AllVerify(codec, files', id', chunks') && chunks' != []
    requires chunks[|chunks| - 1].digest == chunks'[|chunks'| - 1].digest
    ensures id == id' && |chunks| == |chunks'| && Digests(chunks) == Digests(chunks')
    ensures AllEvents(codec, files, id, chunks) == AllEvents(codec, files', id', chunks')
  {
    var n := |chunks| - 1;
    ChainPrefix(codec, files, id, chunks);
    ChainPrefix(codec, files', id', chunks');
    SameBytes(codec, files, id, chunks[n], files', id', chunks'[|chunks'| - 1]);
    assert |chunks'| == n + 1;
    if n > 0 {
      assert chunks[n - 1].digest == chunks'[n - 1].digest;
      assert chunks[..n][n - 1] == chunks[n - 1] && chunks'[..n][n - 1] == chunks'[n - 1];
      LastDigestCommits(codec, files, id, chunks[..n], files', id', chunks'[..n]);
    }
  }

  /** Verified references with one digest name the same bytes, hence the same place and events. */
  lemma SameBytes(codec: Codec, files: Files, id: string, ref: ChunkRef, files': Files, id': string, ref': ChunkRef)
    requires CollisionFree(codec) && ref.digest == ref'.digest
    requires ChunkVerifies(codec, files, id, ref) && ChunkVerifies(codec, files', id', ref')
    ensures id == id' && ref.index == ref'.index && ref.previous == ref'.previous
    ensures EventsIn(codec, files, id, ref) == EventsIn(codec, files', id', ref')
  {
    assert Read(files, ref).value == Read(files', ref').value;
  }

  /** The sequence the next chunk would start at. */
  function NextSequence(chunks: seq<ChunkRef>): nat {
    if chunks == [] then 0 else chunks[|chunks| - 1].last + 1
  }

  // ---- writing: the next chunk --------------------------------------------------------------------

  datatype StoreConflict = StoreConflict

  /** `write_new`: publishing a file once; identical bytes are accepted again, others refused. */
  function WriteNew(files: Files, key: (nat, string), data: string): Result<Files, StoreConflict> {
    if key !in files then Ok(files[key := data])
    else if files[key] == data then Ok(files)
    else Err(StoreConflict)
  }

  /** `roll`: publish *events* as the next chunk, then advance the progress record. */
  function Roll(codec: Codec, files: Files, trajectoryId: string, chunks: seq<ChunkRef>, events: seq<Event>)
    : Result<(Files, seq<ChunkRef>), StoreConflict>
  {
    if events == [] then Ok((files, chunks))
    else
      var previous := if chunks == [] then None else Some(chunks[|chunks| - 1].digest);
      var data := ChunkBytes(codec, trajectoryId, |chunks|, previous, events);
      var ref := ChunkRef(|chunks|, events[0].sequence, events[|events| - 1].sequence, codec.digest(data), previous, |data|, |events|);
      var written :- WriteNew(files, (ref.index, ref.digest), data);
      Ok((written, chunks + [ref]))
  }

  lemma {:induction false} WritingKeepsChunks(
    codec: Codec, files: Files, files': Files, trajectoryId: string, chunks: seq<ChunkRef>)
    requires AllVerify(codec, files, trajectoryId, chunks)
    requires forall key :: key in files ==> key in files' && files'[key] == files[key]
    ensures AllVerify(codec, files', trajectoryId, chunks)
    ensures AllEvents(codec, files', trajectoryId, chunks) == AllEvents(codec, files, trajectoryId, chunks)
  {
    forall i | 0 <= i < |chunks| ensures ChunkVerifies(codec, files', trajectoryId, chunks[i]) {
      assert ChunkVerifies(codec, files, trajectoryId, chunks[i]);
    }
    if chunks != [] {
      WritingKeepsChunks(codec, files, files', trajectoryId, chunks[..|chunks| - 1]);
    }
  }

  lemma ChainExtends(chunks: seq<ChunkRef>, ref: ChunkRef)
    requires Chained(chunks) && RefOk(ref) && ref.index == |chunks| && ref.first == NextSequence(chunks)
    requires ref.previous == if chunks == [] then None else Some(chunks[|chunks| - 1].digest)
    ensures Chained(chunks + [ref])
  {
    forall i | 0 <= i < |chunks + [ref]| ensures Linked(chunks + [ref], i) {
      if i < |chunks| { assert Linked(chunks, i); }
    }
  }

  lemma AllVerifyExtends(codec: Codec, files: Files, trajectoryId: string, chunks: seq<ChunkRef>, ref: ChunkRef)
    requires AllVerify(codec, files, trajectoryId, chunks) && ChunkVerifies(codec, files, trajectoryId, ref)
    ensures AllVerify(codec, files, trajectoryId, chunks + [ref])
    ensures AllEvents(codec, files, trajectoryId, chunks + [ref])
         == AllEvents(codec, files, trajectoryId, chunks) + EventsIn(codec, files, trajectoryId, ref)
  {
    assert (chunks + [ref])[..|chunks|] == chunks;
  }

  lemma RolledVerifies(codec: Codec, files: Files, trajectoryId: string, chunks: seq<ChunkRef>, events: seq<Event>)
    requires Faithful(codec) && events != [] && Roll(codec, files, trajectoryId, chunks, events).Ok?
    requires forall k :: 0 <= k < |events| ==> WellFormed(events[k])
    requires NumberedFrom(events, NextSequence(chunks))
    ensures var (files', chunks') := Roll(codec, files, trajectoryId, chunks, events).value;
            && |chunks'| == |chunks| + 1 && chunks' == chunks + [chunks'[|chunks|]]
            && ChunkVerifies(codec, files', trajectoryId, chunks'[|chunks|])
            && EventsIn(codec, files', trajectoryId, chunks'[|chunks|]) == events
            && forall key :: key in files ==> key in files' && files'[key] == files[key]
  {
    var (files', chunks') := Roll(codec, files, trajectoryId, chunks, events).value;
    ParseInvertsChunkBytes(codec, trajectoryId, |chunks|, chunks'[|chunks|].previous, events);
  }

  /** What rolling writes, loading reads back: the chain stays linked and verified, and its events
      are the earlier ones followed by the new ones. */
  lemma RollThenLoad(codec: Codec, files: Files, trajectoryId: string, chunks: seq<ChunkRef>, events: seq<Event>)
    requires Faithful(codec) && Chained(chunks) && AllVerify(codec, files, trajectoryId, chunks)
    requires forall k :: 0 <= k < |events| ==> WellFormed(events[k])
    requires NumberedFrom(events, NextSequence(chunks))
    requires Roll(codec, files, trajectoryId, chunks, events).Ok?
    ensures var (files', chunks') := Roll(codec, files, trajectoryId, chunks, events).value;
            && Chained(chunks') && AllVerify(codec, files', trajectoryId, chunks')
            && AllEvents(codec, files', trajectoryId, chunks') == AllEvents(codec, files, trajectoryId, chunks) + events
  {
    if events != [] {
      var (files', chunks') := Roll(codec, files, trajectoryId, chunks, events).value;
      var ref := chunks'[|chunks|];
      RolledVerifies(codec, files, trajectoryId, chunks, events);
      WritingKeepsChunks(codec, files, files', trajectoryId, chunks);
      ChainExtends(chunks, ref);
      AllVerifyExtends(codec, files', trajectoryId, chunks, ref);
    }
  }

  /** Every file is named by its digest. */
  ghost predicate Addressed(codec: Codec, files: Files) {
    forall key :: key in files ==> key.1 == codec.digest(files[key])
  }

  /** Main result: in a store whose files are named by their digests, rolling never conflicts. It adds one chunk that holds
      exactly the new events and follows the last, and one file; without events, nothing. */
  lemma RollAdds(codec: Codec, files: Files, trajectoryId: string, chunks: seq<ChunkRef>, events: seq<Event>)
    requires CollisionFree(codec) && Addressed(codec, files)
    ensures Roll(codec, files, trajectoryId, chunks, events).Ok?
    ensures var (files', chunks') := Roll(codec, files, trajectoryId, chunks, events).value;
            && Addressed(codec, files')
            && (events == [] ==> files' == files && chunks' == chunks)
            && (events != [] ==>
                  && chunks' == chunks + [chunks'[|chunks|]]
                  && Describes(codec, chunks'[|chunks|], trajectoryId, chunks, events)
                  && files' == files[(|chunks|, chunks'[|chunks|].digest) := ChunkBytes(codec, trajectoryId, |chunks|, chunks'[|chunks|].previous, events)])
  {
  }

  /** The reference a chunk of these events gets after *chunks*. */
  predicate Describes(codec: Codec, ref: ChunkRef, trajectoryId: string, chunks: seq<ChunkRef>, events: seq<Event>)
    requires events != []
  {
    var data := ChunkBytes(codec, trajectoryId, |chunks|, ref.previous, events);
    && ref.index == |chunks| && ref.first == events[0].sequence && ref.last == events[|events| - 1].sequence
    && ref.previous == (if chunks == [] then None else Some(chunks[|chunks| - 1].digest))
    && ref.digest == codec.digest(data) && ref.bytes == |data| && ref.events == |events|
  }

  /** Main result: what is under the digest of a chunk is that chunk, or it is not accepted. Text other than what was
      rolled, or of another length than recorded, never verifies. */
  lemma TamperingFound(codec: Codec, files: Files, trajectoryId: string, ref: ChunkRef, data: string)
    requires CollisionFree(codec) && ref.digest == codec.digest(data)
    requires (ref.index, ref.digest) in files ==> files[(ref.index, ref.digest)] != data || |data| != ref.bytes
    ensures !ChunkVerifies(codec, files, trajectoryId, ref)
  {
  }

  /** A chunk of another place, chain or trajectory, or with other events than its reference counts, does not verify. */
  lemma MisplacedFound(codec: Codec, files: Files, id: string, ref: ChunkRef, index: nat, previous: Option<string>, trajectoryId: string, events: seq<Event>)
    requires Faithful(codec) && forall i :: 0 <= i < |events| ==> WellFormed(events[i])
    requires (ref.index, ref.digest) in files
    requires files[(ref.index, ref.digest)] == ChunkBytes(codec, trajectoryId, index, previous, events)
    requires index != ref.index || previous != ref.previous || trajectoryId != id
             || (ref.first <= ref.last && |events| != ref.last - ref.first + 1)
             || exists k :: 0 <= k < |events| && events[k].sequence != ref.first + k
    ensures !ChunkVerifies(codec, files, id, ref)
  {
    ParseInvertsChunkBytes(codec, trajectoryId, index, previous, events);
  }

  // ---- the manifest ------------------------------------------------------------------------------

  datatype ContentReference = ContentReference(sequence: nat, field: string, slot: Slot)

  datatype Abandonment = PostCommitEvidenceLost | OtherAbandonment(reason: string)

  datatype Manifest = Manifest(
    chunks: seq<ChunkRef>, content: seq<ContentReference>, complete: bool, abandonment: Option<Abandonment>,
    termination: Option<string>, resultDigest: Option<string>, unattestedResult: Option<string>)

  datatype Key = Key(sequence: nat, field: string)

  predicate KeyBefore(a: Key, b: Key) {
    a.sequence < b.sequence || (a.sequence == b.sequence && Before(a.field, b.field))
  }

  function KeyOf(r: ContentReference): Key {
    Key(r.sequence, r.field)
  }

  predicate InOrder(content: seq<ContentReference>) {
    forall i, j :: 0 <= i < j < |content| ==> KeyBefore(KeyOf(content[i]), KeyOf(content[j]))
  }

  /** What a complete or partial trajectory attests. */
  predicate Attests(m: Manifest) {
    && (m.complete ==> m.abandonment.None? && m.resultDigest.Some? && m.termination.Some? && m.chunks != [])
    && (!m.complete ==> m.abandonment.Some? && m.resultDigest.None?)
    && (m.unattestedResult.Some? <==> m.abandonment == Some(PostCommitEvidenceLost))
  }

  /** A manifest whose bindings agree: attestations, chain, and content table. */
  predicate Consistent(m: Manifest) {
    && Attests(m)
    && Chained(m.chunks)
    && InOrder(m.content)
    && forall i :: 0 <= i < |m.content| ==> m.content[i].sequence < NextSequence(m.chunks)
  }

  /** `sorted(seen)`: the keys of a table, each once, in order. */
  function SortedKeys(content: seq<ContentReference>): seq<Key> {
    if content == [] then [] else InsertKey(KeyOf(content[0]), SortedKeys(content[1..]))
  }

  function InsertKey(k: Key, keys: seq<Key>): seq<Key> {
    if keys == [] || KeyBefore(k, keys[0]) then [k] + keys
    else if k == keys[0] then keys
    else [keys[0]] + InsertKey(k, keys[1..])
  }

  function Keys(content: seq<ContentReference>): (r: seq<Key>)
    ensures |r| == |content|
  {
    if content == [] then [] else [KeyOf(content[0])] + Keys(content[1..])
  }

  predicate Rising(keys: seq<Key>) {
    forall i, j :: 0 <= i < j < |keys| ==> KeyBefore(keys[i], keys[j])
  }

  lemma KeyOrder(a: Key, b: Key)
    ensures a == b || KeyBefore(a, b) || KeyBefore(b, a)
    ensures KeyBefore(a, b) ==> !KeyBefore(b, a) && a != b
  {
    BeforeTrichotomy(a.field, b.field);
  }

  lemma KeyTransitive(a: Key, b: Key, c: Key)
    requires KeyBefore(a, b) && KeyBefore(b, c)
    ensures KeyBefore(a, c)
  {
    if a.sequence == b.sequence == c.sequence { BeforeTransitive(a.field, b.field, c.field); }
  }

  lemma {:induction false} InsertMembers(k: Key, keys: seq<Key>)
    ensures forall x :: x in InsertKey(k, keys) <==> x == k || x in keys
  {
    if keys != [] {
      InsertMembers(k, keys[1..]);
      assert keys == [keys[0]] + keys[1..];
    }
  }

  lemma {:induction false} InsertRises(k: Key, keys: seq<Key>)
    requires Rising(keys)
    ensures Rising(InsertKey(k, keys))
  {
    if keys != [] {
      KeyOrder(k, keys[0]);
      if KeyBefore(k, keys[0]) {
        forall j | 0 < j < |keys| ensures KeyBefore(k, keys[j]) { KeyTransitive(k, keys[0], keys[j]); }
      } else if k != keys[0] {
        InsertRises(k, keys[1..]);
        InsertMembers(k, keys[1..]);
        StartsRising(keys[0], InsertKey(k, keys[1..]));
      }
    }
  }

  lemma StartsRising(k: Key, keys: seq<Key>)
    requires Rising(keys) && forall x :: x in keys ==> KeyBefore(k, x)
    ensures Rising([k] + keys)
  {
    forall j | 0 <= j < |keys| ensures KeyBefore(k, keys[j]) { assert keys[j] in keys; }
  }

  lemma {:induction false} SortedKeysRise(content: seq<ContentReference>)
    ensures Rising(SortedKeys(content))
  {
    if content != [] {
      SortedKeysRise(content[1..]);
      InsertRises(KeyOf(content[0]), SortedKeys(content[1..]));
    }
  }

  lemma {:induction false} KeysAt(content: seq<ContentReference>, i: nat)
    requires i < |content|
    ensures Keys(content)[i] == KeyOf(content[i])
  {
    if i > 0 { KeysAt(content[1..], i - 1); }
  }

  lemma {:induction false} RisingIsSorted(content: seq<ContentReference>)
    requires Rising(Keys(content))
    ensures SortedKeys(content) == Keys(content)
  {
    if content != [] {
      var keys, rest := Keys(content), Keys(content[1..]);
      assert keys[1..] == rest;
      assert forall i :: 0 <= i < |rest| ==> keys[i + 1] == rest[i];
      RisingIsSorted(content[1..]);
      assert rest != [] ==> KeyBefore(keys[0], keys[1]);
    }
  }

  /** A table equals the sorted set of its keys exactly when it is strictly in order. */
  lemma TableSorted(content: seq<ContentReference>)
    ensures Keys(content) == SortedKeys(content) <==> InOrder(content)
  {
    SortedKeysRise(content);
    forall i | 0 <= i < |content| ensures Keys(content)[i] == KeyOf(content[i]) { KeysAt(content, i); }
    if InOrder(content) { RisingIsSorted(content); }
  }

  datatype ManifestProblem = Abandoned | NotAttested | NoChunks | NotAbandoned | PartialAttests | UnattestedMismatch
                           | BadIndex(at: nat) | BadRange(at: nat) | BadPrevious(at: nat)
                           | ListedTwice(key: Key) | BeyondEvents(key: Key) | TableDisordered

  /** What a problem says of the manifest is so. */
  predicate RealIn(m: Manifest, p: ManifestProblem) {
    match p
    case Abandoned => m.complete && m.abandonment.Some?
    case NotAttested => m.complete && (m.resultDigest.None? || m.termination.None?)
    case NoChunks => m.complete && m.chunks == []
    case NotAbandoned => !m.complete && m.abandonment.None?
    case PartialAttests => !m.complete && m.resultDigest.Some?
    case UnattestedMismatch => m.unattestedResult.Some? != (m.abandonment == Some(PostCommitEvidenceLost))
    case BadIndex(i) => i < |m.chunks| && m.chunks[i].index != i
    case BadRange(i) => i < |m.chunks| && m.chunks[i].first != if i == 0 then 0 else m.chunks[i - 1].last + 1
    case BadPrevious(i) => i < |m.chunks| && m.chunks[i].previous != if i == 0 then None else Some(m.chunks[i - 1].digest)
    case ListedTwice(key) => exists i, j :: 0 <= i < j < |m.content| && KeyOf(m.content[i]) == KeyOf(m.content[j]) == key
    case BeyondEvents(key) => exists i :: 0 <= i < |m.content| && KeyOf(m.content[i]) == key && m.content[i].sequence >= NextSequence(m.chunks)
    case TableDisordered => !InOrder(m.content)
  }

  predicate AllRealIn(m: Manifest, problems: seq<ManifestProblem>) {
    forall p :: p in problems ==> RealIn(m, p)
  }

  /** `_manifest_problems`: none exactly when the manifest is consistent. */
  method ManifestProblems(m: Manifest) returns (problems: seq<ManifestProblem>)
    requires forall i :: 0 <= i < |m.chunks| ==> RefOk(m.chunks[i])
    ensures problems == [] <==> Consistent(m)
    ensures AllRealIn(m, problems)
  {
    problems := AttestationProblems(m);
    var expectedNext, previous := 0, None;
    for i := 0 to |m.chunks|
      invariant expectedNext == (if i == 0 then 0 else m.chunks[i - 1].last + 1)
      invariant previous == if i == 0 then None else Some(m.chunks[i - 1].digest)
      invariant problems == [] <==> Attests(m) && forall k :: 0 <= k < i ==> Linked(m.chunks, k)
      invariant AllRealIn(m, problems)
    {
      var chunk := m.chunks[i];
      assert (forall k :: 0 <= k < i + 1 ==> Linked(m.chunks, k)) <==> (forall k :: 0 <= k < i ==> Linked(m.chunks, k)) && Linked(m.chunks, i);
      if chunk.index != i { problems := problems + [BadIndex(i)]; }
      if chunk.first != expectedNext { problems := problems + [BadRange(i)]; }
      if chunk.previous != previous { problems := problems + [BadPrevious(i)]; }
      expectedNext, previous := chunk.last + 1, Some(chunk.digest);
    }
    var disordered := TableProblems(m, expectedNext);
    problems := problems + disordered;
  }

  method AttestationProblems(m: Manifest) returns (problems: seq<ManifestProblem>)
    ensures problems == [] <==> Attests(m)
    ensures AllRealIn(m, problems)
  {
    problems := [];
    if m.complete {
      if m.abandonment.Some? { problems := problems + [Abandoned]; }
      if m.resultDigest.None? || m.termination.None? { problems := problems + [NotAttested]; }
      if m.chunks == [] { problems := problems + [NoChunks]; }
    } else {
      if m.abandonment.None? { problems := problems + [NotAbandoned]; }
      if m.resultDigest.Some? { problems := problems + [PartialAttests]; }
    }
    if m.unattestedResult.Some? != (m.abandonment == Some(PostCommitEvidenceLost)) {
      problems := problems + [UnattestedMismatch];
    }
  }

  method TableProblems(m: Manifest, expectedNext: nat) returns (problems: seq<ManifestProblem>)
    requires expectedNext == NextSequence(m.chunks)
    ensures problems == [] <==> InOrder(m.content) && forall i :: 0 <= i < |m.content| ==> m.content[i].sequence < expectedNext
    ensures AllRealIn(m, problems)
  {
    problems := [];
    var seen: set<Key> := {};
    for i := 0 to |m.content|
      invariant problems == [] ==> forall k :: 0 <= k < i ==> m.content[k].sequence < expectedNext
      invariant InOrder(m.content) && (forall k :: 0 <= k < |m.content| ==> m.content[k].sequence < expectedNext) ==> problems == []
      invariant forall key :: key in seen ==> exists k :: 0 <= k < i && KeyOf(m.content[k]) == key
      invariant AllRealIn(m, problems)
    {
      var key := KeyOf(m.content[i]);
      if key in seen {
        RepeatDisorders(m.content, i);
        problems := problems + [ListedTwice(key)];
      }
      seen := seen + {key};
      if m.content[i].sequence >= expectedNext { problems := problems + [BeyondEvents(key)]; }
    }
    TableSorted(m.content);
    if Keys(m.content) != SortedKeys(m.content) { problems := problems + [TableDisordered]; }
  }

  lemma RepeatDisorders(content: seq<ContentReference>, i: nat)
    requires i < |content| && exists k :: 0 <= k < i && KeyOf(content[k]) == KeyOf(content[i])
    ensures !InOrder(content)
  {
    var k :| 0 <= k < i && KeyOf(content[k]) == KeyOf(content[i]);
    KeyOrder(KeyOf(content[k]), KeyOf(content[i]));
  }

  // ---- the content table ------------------------------------------------------------------------

  function Present(e: Event, field: string, slot: Option<Slot>): seq<ContentReference> {
    if slot.Some? then [ContentReference(e.sequence, field, slot.value)] else []
  }

  /** The content slots one event names, field by field. */
  function SlotsOf(e: Event): seq<ContentReference> {
    match e.body
    case ModelCallStarted(request) => Present(e, "request", Some(request))
    case ModelCallFinished(reply, _, _, _, _) => Present(e, "reply", reply)
    case ToolCallStarted(arguments, _) => Present(e, "arguments", Some(arguments))
    case ToolCallFinished(output, shown, _) => Present(e, "output", output) + Present(e, "shown", Some(shown))
    case RunTerminated(answer, _) => Present(e, "answer", answer)
    case _ => []
  }

  function SlotsUpTo(events: seq<Event>, n: nat): seq<ContentReference>
    requires n <= |events|
  {
    if n == 0 then [] else SlotsUpTo(events, n - 1) + SlotsOf(events[n - 1])
  }

  /** `content_references`. */
  method ContentReferences(events: seq<Event>) returns (found: seq<ContentReference>)
    ensures found == SlotsUpTo(events, |events|)
  {
    found := [];
    for i := 0 to |events|
      invariant found == SlotsUpTo(events, i)
    {
      found := found + SlotsOf(events[i]);
    }
  }

  /** The event has this slot under this name. */
  predicate Names(b: Body, field: string, slot: Slot) {
    || (field == "request" && b.ModelCallStarted? && b.request == slot)
    || (field == "reply" && b.ModelCallFinished? && b.reply == Some(slot))
    || (field == "arguments" && b.ToolCallStarted? && b.arguments == slot)
    || (field == "output" && b.ToolCallFinished? && b.output == Some(slot))
    || (field == "shown" && b.ToolCallFinished? && b.shown == slot)
    || (field == "answer" && b.RunTerminated? && b.answer == Some(slot))
  }

  lemma {:induction false} SlotListed(events: seq<Event>, n: nat, i: nat, c: ContentReference)
    requires i < n <= |events| && c in SlotsOf(events[i])
    ensures c in SlotsUpTo(events, n)
  {
    if i < n - 1 { SlotListed(events, n - 1, i, c); }
  }

  lemma {:induction false} SlotFrom(events: seq<Event>, n: nat, c: ContentReference) returns (i: nat)
    requires n <= |events| && c in SlotsUpTo(events, n)
    ensures i < n && c in SlotsOf(events[i])
  {
    i := n - 1;
    if c !in SlotsOf(events[n - 1]) { i := SlotFrom(events, n - 1, c); }
  }

  lemma SlotsOfAre(e: Event, c: ContentReference)
    ensures c in SlotsOf(e) <==> c.sequence == e.sequence && Names(e.body, c.field, c.slot)
  {
  }

  /** Main result: the table lists every slot of every event, under its own field and its event's number, and
      nothing else. */
  lemma TableExactly(events: seq<Event>, c: ContentReference)
    ensures c in SlotsUpTo(events, |events|) <==>
            exists e :: e in events && c.sequence == e.sequence && Names(e.body, c.field, c.slot)
  {
    forall i | 0 <= i < |events| && Names(events[i].body, c.field, c.slot) && c.sequence == events[i].sequence
      ensures c in SlotsUpTo(events, |events|)
    {
      SlotsOfAre(events[i], c);
      SlotListed(events, |events|, i, c);
    }
    if c in SlotsUpTo(events, |events|) {
      var i := SlotFrom(events, |events|, c);
      SlotsOfAre(events[i], c);
      assert events[i] in events;
    }
  }

  /** The table of a causal history is always one a manifest may carry: in order, each slot once,
      and within the recorded events. */
  lemma {:induction false} TableOfHistory(trajectoryId: string, events: seq<Event>, n: nat)
    requires Causal(trajectoryId, events) && n <= |events|
    ensures InOrder(SlotsUpTo(events, n))
    ensures forall i :: 0 <= i < |SlotsUpTo(events, n)| ==> SlotsUpTo(events, n)[i].sequence < n
  {
    if n > 0 {
      TableOfHistory(trajectoryId, events, n - 1);
      SlotsInOrder(events[n - 1]);
      InOrderJoin(SlotsUpTo(events, n - 1), SlotsOf(events[n - 1]), n - 1);
    }
  }

  lemma SlotsInOrder(e: Event)
    ensures InOrder(SlotsOf(e)) && forall i :: 0 <= i < |SlotsOf(e)| ==> SlotsOf(e)[i].sequence == e.sequence
  {
    assert Before("output", "shown");
  }

  lemma InOrderJoin(a: seq<ContentReference>, b: seq<ContentReference>, n: nat)
    requires InOrder(a) && InOrder(b)
    requires (forall i :: 0 <= i < |a| ==> a[i].sequence < n) && forall i :: 0 <= i < |b| ==> b[i].sequence == n
    ensures InOrder(a + b) && forall i :: 0 <= i < |a + b| ==> (a + b)[i].sequence < n + 1
  {
    forall i, j | 0 <= i < j < |a + b| ensures KeyBefore(KeyOf((a + b)[i]), KeyOf((a + b)[j])) {
      if j < |a| { assert KeyBefore(KeyOf(a[i]), KeyOf(a[j])); }
      else if i >= |a| { assert KeyBefore(KeyOf(b[i - |a|]), KeyOf(b[j - |a|])); }
    }
  }
}
