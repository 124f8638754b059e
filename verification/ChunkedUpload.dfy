/**
 The chunked asset upload as the backend accumulates it (`_chunked_asset_upload`,
 backend/app/api/frames.py:2660-2748): every request carries a chunk and the offset it belongs at;
 the bytes so far sit in a part file until a chunk says `complete`. Requests may be repeated,
 reordered and rejected, and part files may vanish.
 */
module ChunkedUpload {

  type Bytes = seq<bv8>

  /** A frame's id and the client's upload id: together they name the part file. */
  type PartKey = (nat, string)

  /** A frame's id and a path among its assets. */
  type AssetKey = (nat, string)

  datatype Request = Request(key: PartKey, path: string, index: int, offset: int, complete: bool, chunk: Bytes) {
    function Asset(): AssetKey {
      (key.0, path)
    }
  }

  datatype Reply =
    | Pending(received: nat)   // 200, more chunks expected
    | Stored(size: nat)        // 200, the file was handed on
    | BadRequest               // 400
    | ChunkGap                 // 409, the client starts over
    | ServerError              // 500, the part went stale under the request

  /** `seek(at)` and `write(chunk)` on a file opened for update: nothing is truncated. */
  function Overwrite(part: Bytes, at: nat, chunk: Bytes): Bytes
    requires at <= |part|
  {
    part[..at] + chunk + (if at + |chunk| < |part| then part[at + |chunk|..] else [])
  }

  /** The part files and the stored assets. */
  datatype State = State(parts: map<PartKey, Bytes>, assets: map<AssetKey, Bytes>) {

    /** Where a later chunk goes: at its offset, or at the end when it names none. */
    static function SeekTo(req: Request, part: Bytes): nat {
      if req.offset >= 0 then req.offset else |part|
    }

    function Finish(req: Request, part: Bytes): (State, Reply) {
      if !req.complete then (State(parts[req.key := part], assets), Pending(|part|))
      else (State(parts - {req.key}, assets[req.Asset() := part]), Stored(|part|))
    }

    /** One request; `stale` are the part files the cleanup finds to be a day old. */
    function Step(req: Request, stale: set<PartKey>): (State, Reply) {
      if req.index < 0 || (req.chunk == [] && !req.complete) then (this, BadRequest)
      else if req.index > 0 && req.key !in parts then (this, ChunkGap)
      else
        var cleaned := State(parts - stale, assets);
        if req.index == 0 then cleaned.Finish(req, req.chunk)
        else if req.key !in cleaned.parts then (cleaned, ServerError)
        else
          var part := cleaned.parts[req.key];
          var at := SeekTo(req, part);
          if at > |part| then (cleaned, ChunkGap) else cleaned.Finish(req, Overwrite(part, at, req.chunk))
    }
  }

  class UploadServer {
    var parts: map<PartKey, Bytes>
    var assets: map<AssetKey, Bytes>

    constructor ()
      ensures Abstract() == State(map[], map[])
    {
      parts, assets := map[], map[];
    }

    ghost function Abstract(): State
      reads this
    {
      State(parts, assets)
    }

    method ChunkedAssetUpload(req: Request, stale: set<PartKey>) returns (reply: Reply)
      modifies this
      ensures (Abstract(), reply) == old(Abstract()).Step(req, stale)
    {
      if req.index < 0 {
        return BadRequest;
      }
      if req.chunk == [] && !req.complete {
        return BadRequest;
      }
      var accumulate := req.key in parts;
      if req.index > 0 && !accumulate {
        return ChunkGap;
      }
      parts := parts - stale;
      if req.index == 0 {
        parts := parts[req.key := req.chunk];
      } else {
        if req.key !in parts {
          return ServerError;
        }
        var part := parts[req.key];
        var seekTo := if req.offset >= 0 then req.offset else |part|;
        if seekTo > |part| {
          return ChunkGap;
        }
        parts := parts[req.key := Overwrite(part, seekTo, req.chunk)];
      }
      var data := parts[req.key];
      if !req.complete {
        return Pending(|data|);
      }
      assert parts - {req.key} == (old(parts) - stale) - {req.key};
      parts := parts - {req.key};
      assets := assets[req.Asset() := data];
      return Stored(|data|);
    }
  }

  // ---- runs -------------------------------------------------------------------------

  datatype Event =
    | Chunk(req: Request, stale: set<PartKey>)
    | Lost(keys: set<PartKey>)

  function Next(s: State, e: Event): State {
    match e
    case Chunk(req, stale) => s.Step(req, stale).0
    case Lost(keys) => State(s.parts - keys, s.assets)
  }

  function Run(events: seq<Event>): State {
    if events == [] then State(map[], map[]) else Next(Run(events[..|events| - 1]), events[|events| - 1])
  }

  ghost predicate PartsArePrefixes(s: State, files: PartKey -> Bytes) {
    forall key | key in s.parts :: s.parts[key] <= files(key)
  }

  /** Writing keeps a prefix a prefix exactly if it writes what the file has at that place. */
  lemma OverwriteKeepsPrefix(part: Bytes, at: nat, chunk: Bytes, file: Bytes)
    requires part <= file && at <= |part|
    ensures Overwrite(part, at, chunk) <= file <==> at + |chunk| <= |file| && chunk == file[at..at + |chunk|]
    ensures |Overwrite(part, at, chunk)| == if at + |chunk| < |part| then |part| else at + |chunk|
  {
    var result := Overwrite(part, at, chunk);
    assert result[at..at + |chunk|] == chunk;
    if at + |chunk| <= |file| && chunk == file[at..at + |chunk|] {
      assert forall i | 0 <= i < |result| :: result[i] == file[i];
    }
    if result <= file {
      assert forall i | 0 <= i < |chunk| :: chunk[i] == result[at + i] == file[at + i];
    }
  }

  predicate Accepted(s: State, req: Request, stale: set<PartKey>) {
    s.Step(req, stale).1.Pending? || s.Step(req, stale).1.Stored?
  }

  /** Where an accepted chunk is written. */
  function Landing(s: State, req: Request): nat
    requires req.index > 0 ==> req.key in s.parts
  {
    if req.index <= 0 then 0 else State.SeekTo(req, s.parts[req.key])
  }

  /** What the part file holds right after an accepted chunk was written. */
  function Written(s: State, req: Request, stale: set<PartKey>): Bytes
    requires Accepted(s, req, stale)
  {
    if req.index == 0 then req.chunk else Overwrite(s.parts[req.key], Landing(s, req), req.chunk)
  }

  /** The chunk, if it is accepted, is what the file has where it lands. */
  ghost predicate LandsTrue(s: State, req: Request, stale: set<PartKey>, file: Bytes) {
    Accepted(s, req, stale) ==>
      var at := Landing(s, req);
      at + |req.chunk| <= |file| && req.chunk == file[at..at + |req.chunk|]
  }

  predicate WellFormed(req: Request) {
    req.index >= 0 && (req.chunk != [] || req.complete)
  }

  /** A request gets as far as the part files: it is well formed and starts an upload or goes on with one. */
  predicate Reaches(s: State, req: Request) {
    WellFormed(req) && (req.index == 0 || req.key in s.parts)
  }

  /** The reply to every request, and from it what becomes of every part and asset. */
  lemma RepliesExactly(s: State, req: Request, stale: set<PartKey>)
    ensures var reply := s.Step(req, stale).1;
            (reply.BadRequest? <==> !WellFormed(req)) &&
            (reply.ServerError? <==> Reaches(s, req) && req.index > 0 && req.key in stale) &&
            (reply.ChunkGap? <==>
               WellFormed(req) && req.index > 0 &&
               (req.key !in s.parts || (req.key !in stale && req.offset > |s.parts[req.key]|))) &&
            (reply.Stored? ==> req.complete && reply.size == |Written(s, req, stale)|) &&
            (reply.Pending? ==> !req.complete && reply.received == |Written(s, req, stale)|)
    ensures var (after, reply) := s.Step(req, stale);
            (after.parts.Keys == (if Reaches(s, req) then s.parts.Keys - stale else s.parts.Keys)
                                 - (if reply.Stored? then {req.key} else {})
                                 + (if reply.Pending? then {req.key} else {})) &&
            (forall key | key in after.parts ::
               after.parts[key] == if key == req.key && reply.Pending? then Written(s, req, stale) else s.parts[key]) &&
            after.assets ==
              if reply.Stored? then s.assets[(req.key.0, req.path) := Written(s, req, stale)] else s.assets
  {
    hide Overwrite;
  }

  /** A chunk that is sent again at its offset is accepted again and changes nothing. */
  lemma RetryIsHarmless(s: State, req: Request)
    requires s.Step(req, {}).1.Pending? && (req.index == 0 || req.offset >= 0)
    ensures s.Step(req, {}).0.Step(req, {}) == s.Step(req, {})
  {
    if req.index > 0 {
      OverwriteTwice(s.parts[req.key], req.offset, req.chunk);
    }
    var once := s.Step(req, {}).0;
    assert once.parts - {} == once.parts;
    hide Overwrite;
    assert once.parts == once.parts[req.key := once.parts[req.key]];
  }

  lemma OverwriteTwice(part: Bytes, at: nat, chunk: Bytes)
    requires at <= |part|
    ensures at <= |Overwrite(part, at, chunk)| &&
            Overwrite(Overwrite(part, at, chunk), at, chunk) == Overwrite(part, at, chunk)
  {}

  /** With parts that are prefixes, an accepted chunk leaves a prefix exactly if it lands true. */
  lemma LandsTrueIffPrefix(s: State, req: Request, stale: set<PartKey>, files: PartKey -> Bytes)
    requires PartsArePrefixes(s, files) && Accepted(s, req, stale)
    ensures Written(s, req, stale) <= files(req.key) <==> LandsTrue(s, req, stale, files(req.key))
  {
    var file := files(req.key);
    if req.index > 0 {
      OverwriteKeepsPrefix(s.parts[req.key], Landing(s, req), req.chunk, file);
    }
  }

  /** One chunk that lands true: the part stays a prefix of the file, and what gets stored is a prefix
      too, the whole file exactly when it is long enough. */
  lemma ChunkKeepsPrefixes(s: State, req: Request, stale: set<PartKey>, files: PartKey -> Bytes)
    requires PartsArePrefixes(s, files) && LandsTrue(s, req, stale, files(req.key))
    ensures var (s', reply) := s.Step(req, stale);
            PartsArePrefixes(s', files) &&
            (reply.Stored? ==>
               s'.assets == s.assets[req.Asset() := files(req.key)[..reply.size]] && reply.size <= |files(req.key)| &&
               (s'.assets[req.Asset()] == files(req.key) <==>
                Landing(s, req) + |req.chunk| == |files(req.key)| ||
                (req.index > 0 && s.parts[req.key] == files(req.key)))) &&
            (!reply.Stored? ==> s'.assets == s.assets)
  {
    var file := files(req.key);
    if Accepted(s, req, stale) {
      LandsTrueIffPrefix(s, req, stale, files);
      if req.index > 0 {
        OverwriteKeepsPrefix(s.parts[req.key], Landing(s, req), req.chunk, file);
      }
    }
    assert file[..|file|] == file;
    assert forall part: Bytes | part <= file :: part == file[..|part|];
  }

  // ---- exactness over runs ----------------------------------------------------------

  ghost predicate TrueAt(events: seq<Event>, i: nat, files: PartKey -> Bytes)
    requires i < |events|
  {
    events[i].Chunk? ==>
      LandsTrue(Run(events[..i]), events[i].req, events[i].stale, files(events[i].req.key))
  }

  /** After an accepted chunk the part file held a prefix of its file. */
  ghost predicate PrefixAt(events: seq<Event>, i: nat, files: PartKey -> Bytes)
    requires i < |events|
  {
    events[i].Chunk? && Accepted(Run(events[..i]), events[i].req, events[i].stale) ==>
      Written(Run(events[..i]), events[i].req, events[i].stale) <= files(events[i].req.key)
  }

  ghost predicate AllLandTrue(events: seq<Event>, files: PartKey -> Bytes) {
    forall i | 0 <= i < |events| :: TrueAt(events, i, files)
  }

  ghost predicate AllPrefixes(events: seq<Event>, files: PartKey -> Bytes) {
    forall i | 0 <= i < |events| :: PrefixAt(events, i, files)
  }

  /** Over any run of chunks, with or without offsets, in any order, with repeats, rejections and
      losses: while every chunk lands true, every part file is a prefix of its file. */
  lemma {:induction false} UploadStaysExact(events: seq<Event>, files: PartKey -> Bytes)
    requires AllLandTrue(events, files)
    ensures PartsArePrefixes(Run(events), files)
  {
    if events != [] {
      var n := |events| - 1;
      LastEvent(events, files);
      UploadStaysExact(events[..n], files);
      match events[n] {
        case Chunk(req, stale) => ChunkKeepsPrefixes(Run(events[..n]), req, stale, files);
        case Lost(keys) =>
      }
    }
  }

  lemma LastEvent(events: seq<Event>, files: PartKey -> Bytes)
    requires events != []
    ensures var n := |events| - 1;
            (AllLandTrue(events, files) <==> AllLandTrue(events[..n], files) && TrueAt(events, n, files)) &&
            (AllPrefixes(events, files) <==> AllPrefixes(events[..n], files) && PrefixAt(events, n, files))
  {
    hide LandsTrue, Accepted, Written, Run;
    var n := |events| - 1;
    var before := events[..n];
    forall i | 0 <= i < n
      ensures TrueAt(before, i, files) <==> TrueAt(events, i, files)
      ensures PrefixAt(before, i, files) <==> PrefixAt(events, i, files)
    {
      assert before[..i] == events[..i] && before[i] == events[i];
    }
    hide TrueAt, PrefixAt;
  }

  /** And only then: what is written is a prefix throughout a run if and only if every chunk of it
      landed true. */
  lemma {:induction false} UploadIsExactIff(events: seq<Event>, files: PartKey -> Bytes)
    ensures AllLandTrue(events, files) <==> AllPrefixes(events, files)
  {
    if events != [] {
      var n := |events| - 1;
      LastEvent(events, files);
      UploadIsExactIff(events[..n], files);
      if AllLandTrue(events[..n], files) {
        UploadStaysExact(events[..n], files);
        hide AllLandTrue, AllPrefixes, PartsArePrefixes, LandsTrue, Accepted, Written, Run;
        if events[n].Chunk? && Accepted(Run(events[..n]), events[n].req, events[n].stale) {
          LandsTrueIffPrefix(Run(events[..n]), events[n].req, events[n].stale, files);
        } else if events[n].Chunk? {
          RejectedLandsTrue(Run(events[..n]), events[n].req, events[n].stale, files(events[n].req.key));
        }
      }
    }
  }

  lemma RejectedLandsTrue(s: State, req: Request, stale: set<PartKey>, file: Bytes)
    requires !Accepted(s, req, stale)
    ensures LandsTrue(s, req, stale, file)
  {}

  /** The chunk is a true slice of the file at the offset it names; the first chunk starts the file. */
  ghost predicate TrueSlice(req: Request, file: Bytes) {
    (req.index == 0 ==> req.chunk <= file) &&
    (req.index > 0 ==> 0 <= req.offset <= req.offset + |req.chunk| <= |file| &&
                       req.chunk == file[req.offset..req.offset + |req.chunk|])
  }

  /** Offsets make every run safe: a chunk that is true at the offset it names lands true whenever it
      is sent and however often. */
  lemma TrueOffsetsLandTrue(events: seq<Event>, files: PartKey -> Bytes)
    requires forall i | 0 <= i < |events| && events[i].Chunk? :: TrueSlice(events[i].req, files(events[i].req.key))
    ensures AllLandTrue(events, files) && PartsArePrefixes(Run(events), files)
  {
    forall i | 0 <= i < |events| ensures TrueAt(events, i, files) {
      if events[i].Chunk? {
        var req := events[i].req;
        assert req.index == 0 ==> req.chunk == files(req.key)[0..|req.chunk|];
      }
    }
    UploadStaysExact(events, files);
  }

  /** A chunk without an offset is appended, so it lands true exactly if it is what comes next. */
  lemma AppendedChunkLandsTrue(s: State, req: Request, stale: set<PartKey>, files: PartKey -> Bytes)
    requires PartsArePrefixes(s, files) && Accepted(s, req, stale) && req.index > 0 && req.offset < 0
    ensures LandsTrue(s, req, stale, files(req.key)) <==> s.parts[req.key] + req.chunk <= files(req.key)
  {
    var part := s.parts[req.key];
    LandsTrueIffPrefix(s, req, stale, files);
    assert Written(s, req, stale) == part + req.chunk;
  }

  /** The completing chunk that reaches the file's end, once accepted, stores exactly the file. */
  lemma CompletedUploadIsTheFile(events: seq<Event>, files: PartKey -> Bytes)
    requires |events| > 0 && AllLandTrue(events, files) && events[|events| - 1].Chunk?
    requires var last, before := events[|events| - 1], Run(events[..|events| - 1]);
             before.Step(last.req, last.stale).1.Stored? &&
             Landing(before, last.req) + |last.req.chunk| == |files(last.req.key)|
    ensures var req := events[|events| - 1].req;
            req.Asset() in Run(events).assets && Run(events).assets[req.Asset()] == files(req.key)
  {
    var last := events[|events| - 1];
    LastEvent(events, files);
    UploadStaysExact(events[..|events| - 1], files);
    ChunkKeepsPrefixes(Run(events[..|events| - 1]), last.req, last.stale, files);
  }

  /** A rejected request, and a request of another upload, leave a part as it was, unless the
      cleanup takes it. */
  lemma OthersUntouched(s: State, req: Request, stale: set<PartKey>, key: PartKey)
    requires key in s.parts && key !in stale
    requires key != req.key || s.Step(req, stale).1 in {BadRequest, ChunkGap, ServerError}
    ensures key in s.Step(req, stale).0.parts && s.Step(req, stale).0.parts[key] == s.parts[key]
  {}

  // ---- an undisturbed upload arrives ------------------------------------------------

  /** The i-th of the chunks that `cuts` divides a file into. */
  function ChunkRequest(key: PartKey, path: string, file: Bytes, cuts: seq<nat>, i: nat): Request
    requires i + 1 < |cuts| && cuts[i] <= cuts[i + 1] <= |file|
  {
    Request(key, path, i, cuts[i], i + 2 == |cuts|, file[cuts[i]..cuts[i + 1]])
  }

  /** The file is cut at ascending positions; every chunk but the last has a byte at least. */
  ghost predicate Cuts(cuts: seq<nat>, file: Bytes) {
    |cuts| >= 2 && cuts[0] == 0 && cuts[|cuts| - 1] == |file| &&
    (forall i, j | 0 <= i <= j < |cuts| :: cuts[i] <= cuts[j] <= |file|) &&
    (forall i, j | 0 <= i < j < |cuts| - 1 :: cuts[i] < cuts[j])
  }

  /** Sending the first `n` chunks in order, whatever was there before. */
  ghost function SendFirst(s: State, key: PartKey, path: string, file: Bytes, cuts: seq<nat>, n: nat): State
    requires Cuts(cuts, file) && n < |cuts|
  {
    if n == 0 then s
    else SendFirst(s, key, path, file, cuts, n - 1).Step(ChunkRequest(key, path, file, cuts, n - 1), {}).0
  }

  lemma {:induction false} SendingProgresses(s: State, key: PartKey, path: string, file: Bytes, cuts: seq<nat>, n: nat)
    requires Cuts(cuts, file) && 1 <= n < |cuts|
    ensures var sent := SendFirst(s, key, path, file, cuts, n);
            if n + 1 == |cuts| then (key.0, path) in sent.assets && sent.assets[(key.0, path)] == file
            else key in sent.parts && sent.parts[key] == file[..cuts[n]]
  {
    var before := SendFirst(s, key, path, file, cuts, n - 1);
    var req := ChunkRequest(key, path, file, cuts, n - 1);
    assert file[..|file|] == file;
    if n == 1 {
      FirstChunk(before, req, file[..cuts[1]]);
      assert file[0..cuts[1]] == file[..cuts[1]];
    } else {
      SendingProgresses(s, key, path, file, cuts, n - 1);
      assert Overwrite(file[..cuts[n - 1]], cuts[n - 1], req.chunk) == file[..cuts[n]];
      NextChunk(before, req, file[..cuts[n]]);
    }
  }

  lemma FirstChunk(s: State, req: Request, result: Bytes)
    requires req.index == 0 && req.chunk == result && (req.complete || result != [])
    ensures s.Step(req, {}) == s.Finish(req, result)
  {
    assert s.parts - {} == s.parts;
  }

  lemma NextChunk(s: State, req: Request, result: Bytes)
    requires req.index > 0 && req.key in s.parts && req.offset == |s.parts[req.key]|
    requires Overwrite(s.parts[req.key], req.offset, req.chunk) == result && (req.complete || req.chunk != [])
    ensures s.Step(req, {}) == s.Finish(req, result)
  {
    assert s.parts - {} == s.parts;
  }

  /** Whatever earlier attempts left behind, chunks sent in order without a loss store the file. */
  lemma InOrderUploadArrives(s: State, key: PartKey, path: string, file: Bytes, cuts: seq<nat>)
    requires Cuts(cuts, file)
    ensures var sent := SendFirst(s, key, path, file, cuts, |cuts| - 1);
            (key.0, path) in sent.assets && sent.assets[(key.0, path)] == file
  {
    SendingProgresses(s, key, path, file, cuts, |cuts| - 1);
  }

  /** An instance: a retried chunk without an offset is appended again, and the part is no prefix of
      the file any more. */
  lemma RetryWithoutOffsetCorrupts(key: PartKey, path: string)
    ensures var file: Bytes := [1, 2, 3];
            var first := Request(key, path, 0, 0, false, file[..1]);
            var second := Request(key, path, 1, -1, false, file[1..2]);
            var s := Run([Chunk(first, {}), Chunk(second, {}), Chunk(second, {})]);
            key in s.parts && s.parts[key] == [1, 2, 2]
  {
    var file: Bytes := [1, 2, 3];
    var first := Request(key, path, 0, 0, false, file[..1]);
    var second := Request(key, path, 1, -1, false, file[1..2]);
    var e1, e2 := Chunk(first, {}), Chunk(second, {});
    assert [e1, e2, e2][..2] == [e1, e2] && [e1, e2][..1] == [e1] && [e1][..0] == [];
    assert Run([]) == State(map[], map[]);
    assert Run([e1]).parts[key] == [1];
    assert Overwrite([1], 1, [2]) == [1, 2];
    assert Run([e1, e2]).parts[key] == [1, 2];
    assert Overwrite([1, 2], 2, [2]) == [1, 2, 2];
  }
}
