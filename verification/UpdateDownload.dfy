/**
 The resumable download of an update artifact: a partial file that grows over any number of
 attempts, and a final file that only receives what matches the manifest.
 */
module UpdateDownload {
  import opened Common

  newtype Byte = x: int | 0 <= x < 256
  type Bytes = seq<Byte>

  datatype Manifest = Manifest(size: nat, digest: string)

  /** Content-Range as in section 14.4 of RFC 9110, `bytes first-last/complete`. */
  datatype Range = Range(first: nat, last: nat, complete: nat)

  /** `dropped`: the connection breaks after the chunks, before the end of the body. */
  datatype Response = Response(status: nat, range: Option<Range>, length: Option<nat>,
                               body: Option<seq<Bytes>>, dropped: bool)

  predicate IsOk(r: Response) { 200 <= r.status <= 299 }

  /**
   The server has one artifact. A partial response carries the range it declares, any other the
   artifact from its start, and either may break off anywhere.
   */
  predicate Serves(artifact: Bytes, r: Response) {
    r.body.Some? ==>
      if r.status == 206
      then r.range.Some? ==>
             r.range.value.first <= |artifact| && Joined(r.body.value) <= artifact[r.range.value.first..]
      else Joined(r.body.value) <= artifact
  }

  /** The server's answer to one attempt, by the offset asked for; `None` when there is no answer. */
  type Answer = Option<nat> -> Option<Response>

  ghost predicate Honest(artifact: Bytes, answer: Answer) {
    forall from :: answer(from).Some? ==> Serves(artifact, answer(from).value)
  }

  /** The cache directory of one release. */
  class Cache {
    var partial: Option<Bytes>
    var final: Option<Bytes>
    /** Operations so far that failed, or at which a process died. */
    var faults: nat

    constructor ()
      ensures partial.None? && final.None? && faults == 0
    {
      partial, final, faults := None, None, 0;
    }

    method Environment() returns (o: Outcome)
      modifies this`faults
      ensures faults == if o.Done? then old(faults) else old(faults) + 1
    {
      o := *;
      if !o.Done? { faults := faults + 1; }
    }

    method RemovePartial() returns (o: Outcome)
      modifies this`partial, this`faults
      ensures partial == old(partial) || partial.None?
      ensures o.Done? ==> partial.None?
      ensures faults == if o.Done? then old(faults) else old(faults) + 1
    {
      o := Environment();
      var removed: bool := *;
      if o.Done? || removed { partial := None; }
    }

    method RemoveFinal() returns (o: Outcome)
      modifies this`final, this`faults
      ensures final == old(final) || final.None?
      ensures o.Done? ==> final.None?
      ensures faults == if o.Done? then old(faults) else old(faults) + 1
    {
      o := Environment();
      var removed: bool := *;
      if o.Done? || removed { final := None; }
    }

    /** Open for appending, or emptied. */
    method Open(append: bool) returns (o: Outcome)
      modifies this`partial, this`faults
      ensures o.Done? ==> partial == Some(if append && old(partial).Some? then old(partial).value else [])
      ensures !o.Done? ==> partial == old(partial) || (!append && partial == Some([]))
                           || (old(partial).None? && partial == Some([]))
      ensures faults == if o.Done? then old(faults) else old(faults) + 1
    {
      o := Environment();
      var created: bool := *;
      if o.Done? || created {
        partial := Some(if append && partial.Some? then partial.value else []);
      }
    }

    /** Append a chunk; what fails may have written its beginning. */
    method Write(chunk: Bytes) returns (o: Outcome)
      requires partial.Some?
      modifies this`partial, this`faults
      ensures partial.Some? && old(partial).value <= partial.value <= old(partial).value + chunk
      ensures o.Done? ==> partial.value == old(partial).value + chunk
      ensures faults == if o.Done? then old(faults) else old(faults) + 1
    {
      o := Environment();
      var n: int := *;
      var written := if 0 <= n <= |chunk| && !o.Done? then n else |chunk|;
      partial := Some(partial.value + chunk[..written]);
    }

    method MoveToFinal() returns (o: Outcome)
      requires partial.Some?
      modifies this
      ensures (partial, final) == (old(partial), old(final)) || (partial, final) == (None, old(partial))
      ensures o.Done? ==> (partial, final) == (None, old(partial))
      ensures o.Failed? ==> (partial, final) == (old(partial), old(final))
      ensures faults == if o.Done? then old(faults) else old(faults) + 1
    {
      o := Environment();
      var moved: bool := *;
      if o.Done? || (o.Crashed? && moved) { partial, final := None, partial; }
    }
  }

  /** The partial file is a beginning of the artifact and not longer than the manifest says. */
  predicate PartialInv(partial: Option<Bytes>, artifact: Bytes, size: nat) {
    partial.Some? ==> partial.value <= artifact && |partial.value| <= size
  }

  predicate Valid(content: Bytes, m: Manifest, digest: Bytes -> string) {
    |content| == m.size && digest(content) == m.digest
  }

  /** Where the body of a response goes: behind the bytes that are there, or in their place. */
  function StartOf(r: Response, existing: nat): nat { if r.status == 206 then existing else 0 }

  /** The response announces what is missing behind its start, and nothing else. */
  predicate Fits(r: Response, size: nat, existing: nat) {
    && IsOk(r) && r.body.Some?
    && (r.length.Some? ==> StartOf(r, existing) + r.length.value == size)
    && (r.status == 206 ==>
          r.range.Some? && existing <= r.range.value.last
          && r.range.value == Range(existing, r.range.value.last, size))
  }

  /** What is on disk once the whole body has been written. */
  function Assembled(artifact: Bytes, r: Response, existing: nat): Bytes
    requires existing <= |artifact| && r.body.Some?
  {
    artifact[..StartOf(r, existing)] + Joined(r.body.value)
  }

  /**
   A right answer: the missing bytes as a partial response, or the whole artifact as any other; a
   declared length, if there is one, is that of the bytes sent.
   */
  predicate Completes(artifact: Bytes, r: Response, existing: nat) {
    && !r.dropped && r.body.Some? && existing <= |artifact|
    && var size, sent := |artifact|, Joined(r.body.value);
       && (r.length.Some? ==> r.length.value == |sent|)
       && if r.status == 206
          then existing < size && r.range == Some(Range(existing, size - 1, size)) && sent == artifact[existing..]
          else 200 <= r.status <= 299 && sent == artifact
  }

  /** The right answer fits and completes the artifact. */
  lemma CompletesFits(artifact: Bytes, r: Response, existing: nat)
    requires Completes(artifact, r, existing)
    ensures Fits(r, |artifact|, existing) && Assembled(artifact, r, existing) == artifact
  {
    if r.status == 206 { assert artifact[..existing] + artifact[existing..] == artifact; }
  }

  lemma JoinedNext(chunks: seq<Bytes>, k: nat)
    requires k < |chunks|
    ensures Joined(chunks[..k+1]) == Joined(chunks[..k]) + chunks[k]
  {
    assert chunks[..k+1] == chunks[..k] + [chunks[k]];
    JoinedSnoc(chunks[..k], chunks[k]);
  }

  lemma {:induction false} JoinedPrefix(chunks: seq<Bytes>, k: nat)
    requires k <= |chunks|
    ensures Joined(chunks[..k]) <= Joined(chunks)
    decreases |chunks| - k
  {
    if k == |chunks| {
      assert chunks[..k] == chunks;
    } else {
      JoinedNext(chunks, k);
      JoinedPrefix(chunks, k + 1);
    }
  }

  /** Where the body of a fitting response continues the artifact. */
  lemma BodyContinues(artifact: Bytes, r: Response, existing: nat, size: nat, k: nat)
    requires Serves(artifact, r) && Fits(r, size, existing) && existing <= |artifact| && k <= |r.body.value|
    ensures var start := StartOf(r, existing);
            artifact[..start] + Joined(r.body.value[..k]) <= artifact
  {
    var start := StartOf(r, existing);
    JoinedPrefix(r.body.value, k);
    var body := Joined(r.body.value[..k]);
    assert body <= Joined(r.body.value) <= artifact[start..];
    assert artifact[..start] + body == artifact[..start + |body|] by {
      assert artifact[start..][..|body|] == body;
    }
  }

  lemma PrefixOfPrefix(a: Bytes, b: Bytes, c: Bytes)
    requires a <= b <= c
    ensures a <= c && |a| <= |b|
  {
  }

  /** The read loop: append chunk by chunk, stopping before the manifest size is exceeded. */
  method WriteChunks(cache: Cache, chunks: seq<Bytes>, size: nat, start: nat, ghost artifact: Bytes)
    returns (o: Outcome, written: nat)
    requires cache.partial.Some? && |cache.partial.value| == start <= size
    requires forall k :: 0 <= k <= |chunks| ==> cache.partial.value + Joined(chunks[..k]) <= artifact
    modifies cache`partial, cache`faults
    ensures PartialInv(cache.partial, artifact, size) && cache.partial.Some?
            && old(cache.partial).value <= cache.partial.value
    ensures o.Done? ==>
              |cache.partial.value| == written && cache.partial.value == old(cache.partial).value + Joined(chunks)
    ensures cache.faults >= old(cache.faults)
    ensures !o.Done? ==> cache.faults > old(cache.faults) || |old(cache.partial).value + Joined(chunks)| > size
    ensures cache.faults == old(cache.faults) ==> !o.Crashed?
  {
    ghost var base := cache.partial.value;
    o, written := Outcome.Done, start;
    assert base + Joined(chunks[..0]) <= artifact;
    for k := 0 to |chunks|
      invariant o.Done? && cache.partial.Some? && |cache.partial.value| == written <= size
                && cache.faults >= old(cache.faults)
      invariant cache.partial.value == base + Joined(chunks[..k])
    {
      JoinedNext(chunks, k);
      ghost var now, next := cache.partial.value, base + Joined(chunks[..k+1]);
      assert now + chunks[k] == next;
      assert next <= artifact;
      written := written + |chunks[k]|;
      if written > size {
        JoinedPrefix(chunks, k + 1);
        return Outcome.Failed, written;
      }
      o := cache.Write(chunks[k]);
      if !o.Done? {
        PrefixOfPrefix(cache.partial.value, next, artifact);
        return;
      }
    }
    assert chunks[..|chunks|] == chunks;
  }

  /** Write the body to the partial file, never past the manifest size. */
  method WriteResponse(cache: Cache, r: Response, size: nat, existing: nat, ghost artifact: Bytes)
    returns (o: Outcome, written: nat)
    requires Serves(artifact, r) && PartialInv(cache.partial, artifact, size)
    requires existing == if cache.partial.Some? then |cache.partial.value| else 0
    modifies cache`partial, cache`faults
    ensures PartialInv(cache.partial, artifact, size)
    ensures o.Done? ==> cache.partial.Some? && |cache.partial.value| == written
    ensures !Fits(r, size, existing) ==>
              o.Failed? && cache.partial == old(cache.partial) && cache.faults == old(cache.faults)
    ensures r.status == 206 && old(cache.partial).Some? ==>
              cache.partial.Some? && old(cache.partial).value <= cache.partial.value
    ensures o.Done? ==> !r.dropped && cache.partial == Some(Assembled(artifact, r, existing))
    ensures cache.faults >= old(cache.faults) && (cache.faults == old(cache.faults) ==> !o.Crashed?)
    ensures cache.faults == old(cache.faults) && Fits(r, size, existing)
            && |Assembled(artifact, r, existing)| <= size ==>
              cache.partial == Some(Assembled(artifact, r, existing)) && (r.dropped || o.Done?)
  {
    if !IsOk(r) || r.body.None? { return Outcome.Failed, 0; }
    var resumed := existing > 0 && r.status == 206;
    var start := if resumed then existing else 0;
    if r.status == 206
       && (r.range.None? || r.range.value.first != existing || r.range.value.complete != size
           || r.range.value.last < r.range.value.first) {
      return Outcome.Failed, 0;
    }
    if r.length.Some? && r.length.value != size - start { return Outcome.Failed, 0; }
    written := start;
    o := cache.Open(resumed);
    if !o.Done? { return; }
    assert cache.partial.value == artifact[..start];
    forall k | 0 <= k <= |r.body.value| ensures artifact[..start] + Joined(r.body.value[..k]) <= artifact {
      BodyContinues(artifact, r, existing, size, k);
    }
    o, written := WriteChunks(cache, r.body.value, size, start, artifact);
    if o.Done? && r.dropped { o := Outcome.Failed; }
  }

  /** How much of an earlier attempt can be continued. */
  function Resumable(partial: Option<Bytes>, size: nat): nat {
    if partial.Some? && |partial.value| < size then |partial.value| else 0
  }

  /** The offset an attempt asks for. */
  function Asked(existing: nat): Option<nat> { if existing > 0 then Some(existing) else None }

  /** What an earlier attempt left, if it can be continued. */
  method PartialSize(cache: Cache, size: nat, ghost artifact: Bytes) returns (o: Outcome, existing: nat)
    requires PartialInv(cache.partial, artifact, size)
    modifies cache`partial, cache`faults
    ensures PartialInv(cache.partial, artifact, size)
    ensures o.Done? ==> existing == (if cache.partial.Some? then |cache.partial.value| else 0)
                        && (existing < size || existing == 0)
    ensures cache.partial == old(cache.partial) || cache.partial.None?
    ensures old(cache.partial).Some? && |old(cache.partial).value| < size ==> cache.partial == old(cache.partial)
    ensures cache.faults >= old(cache.faults) && (!o.Done? ==> cache.faults > old(cache.faults))
    ensures o.Done? ==> existing == Resumable(old(cache.partial), size)
  {
    existing := 0;
    o := Outcome.Done;
    if cache.partial.Some? {
      if |cache.partial.value| >= size {
        o := cache.RemovePartial();
      } else {
        existing := |cache.partial.value|;
      }
    }
  }

  /** The file at the final path is what the manifest says, or it was there before, or there is none. */
  predicate FinalInv(final: Option<Bytes>, before: Option<Bytes>, m: Manifest, digest: Bytes -> string) {
    final.None? || final == before || Valid(final.value, m, digest)
  }

  /** The manifest is the artifact's own, and the answer carries all that is missing of it. */
  ghost predicate GoodAnswer(answer: Answer, existing: nat, m: Manifest, digest: Bytes -> string, artifact: Bytes) {
    && Valid(artifact, m, digest)
    && answer(Asked(existing)).Some? && Completes(artifact, answer(Asked(existing)).value, existing)
  }

  /** The answer to any attempt is right, wherever it resumes. */
  ghost predicate AlwaysRight(answer: Answer, m: Manifest, digest: Bytes -> string, artifact: Bytes) {
    forall existing :: 0 <= existing < m.size || existing == 0 ==> GoodAnswer(answer, existing, m, digest, artifact)
  }

  /** There is no answer, or one that does not fit. */
  predicate Refuses(answer: Answer, existing: nat, size: nat) {
    answer(Asked(existing)).None? || !Fits(answer(Asked(existing)).value, size, existing)
  }

  /** The answer fits and does not send too much. */
  predicate Lands(answer: Answer, existing: nat, size: nat, artifact: Bytes) {
    && !Refuses(answer, existing, size) && existing <= |artifact|
    && |Assembled(artifact, answer(Asked(existing)).value, existing)| <= size
  }

  /** What an attempt leaves when all that was sent has been written. */
  predicate Landed(exit: Exit, partial: Option<Bytes>, final: Option<Bytes>, content: Bytes, dropped: bool, m: Manifest,
                   digest: Bytes -> string) {
    if !dropped && Valid(content, m, digest) then exit.Returned? && final == Some(content) && partial.None?
    else exit.Threw? && final.None? && partial == if !dropped && |content| == m.size then None else Some(content)
  }

  /** Ask for what is missing, check what is there then and move it into place. */
  method Fetch(cache: Cache, answer: Answer, existing: nat, m: Manifest, digest: Bytes -> string, ghost artifact: Bytes)
    returns (exit: Exit)
    requires PartialInv(cache.partial, artifact, m.size) && Honest(artifact, answer) && cache.final.None?
    requires existing == if cache.partial.Some? then |cache.partial.value| else 0
    modifies cache
    ensures PartialInv(cache.partial, artifact, m.size)
    ensures cache.final.Some? ==> Valid(cache.final.value, m, digest) && cache.final.value <= artifact
    ensures exit.Returned? ==> cache.final.Some?
    ensures cache.final.Some? ==> exit.Returned? || exit.Died?
    ensures cache.faults >= old(cache.faults)
    ensures Refuses(answer, existing, m.size) ==>
              exit.Threw? && cache.partial == old(cache.partial) && cache.final.None?
    ensures cache.faults == old(cache.faults) && Lands(answer, existing, m.size, artifact) ==>
              var r := answer(Asked(existing)).value;
              Landed(exit, cache.partial, cache.final, Assembled(artifact, r, existing), r.dropped, m, digest)
  {
    var response := answer(Asked(existing));
    if response.None? { return Threw; }
    var o, written := WriteResponse(cache, response.value, m.size, existing, artifact);
    if !o.Done? { return if o.Crashed? then Died else Threw; }
    if written != m.size || digest(cache.partial.value) != m.digest {
      if written >= m.size { o := cache.RemovePartial(); }
      return if o.Crashed? then Died else Threw;
    }
    o := cache.MoveToFinal();
    exit := match o case Done => Returned case Failed => Threw case Crashed => Died;
  }

  /** The file at the final path is already what the manifest describes. */
  predicate Cached(final: Option<Bytes>, m: Manifest, digest: Bytes -> string) {
    final.Some? && Valid(final.value, m, digest)
  }

  /** One attempt: reuse a valid file, else fetch what is missing, check it and move it into place. */
  method Download(cache: Cache, answer: Answer, m: Manifest, digest: Bytes -> string, ghost artifact: Bytes)
    returns (exit: Exit, reused: bool)
    requires PartialInv(cache.partial, artifact, m.size) && Honest(artifact, answer)
    modifies cache
    ensures PartialInv(cache.partial, artifact, m.size)
    ensures FinalInv(cache.final, old(cache.final), m, digest)
    ensures cache.final.Some? && cache.final != old(cache.final) ==> cache.final.value <= artifact
    ensures exit.Returned? ==> Cached(cache.final, m, digest)
    ensures reused ==> exit.Returned? && cache.final == old(cache.final)
    ensures !exit.Returned? && cache.final.Some? ==> cache.final == old(cache.final) || exit.Died?
    ensures Cached(old(cache.final), m, digest) ==>
              cache.final == old(cache.final) && cache.partial == old(cache.partial)
    ensures cache.faults >= old(cache.faults)
    ensures cache.faults == old(cache.faults) ==> reused == Cached(old(cache.final), m, digest)
    ensures cache.faults == old(cache.faults)
            && GoodAnswer(answer, Resumable(old(cache.partial), m.size), m, digest, artifact) ==>
              exit.Returned?
    ensures cache.faults == old(cache.faults) && !reused
            && Refuses(answer, Resumable(old(cache.partial), m.size), m.size) ==>
              exit.Threw? && cache.final.None?
              && (old(cache.partial).Some? && |old(cache.partial).value| < m.size ==>
                    cache.partial == old(cache.partial))
    ensures cache.faults == old(cache.faults) && !reused
            && Lands(answer, Resumable(old(cache.partial), m.size), m.size, artifact) ==>
              var existing := Resumable(old(cache.partial), m.size);
              var r := answer(Asked(existing)).value;
              Landed(exit, cache.partial, cache.final, Assembled(artifact, r, existing), r.dropped, m, digest)
  {
    ghost var asked := Resumable(cache.partial, m.size);
    if GoodAnswer(answer, asked, m, digest, artifact) { CompletesFits(artifact, answer(Asked(asked)).value, asked); }
    reused := false;
    var o := cache.Environment();
    if !o.Done? { return if o.Crashed? then Died else Threw, false; }
    if cache.final.Some? && Valid(cache.final.value, m, digest) { return Returned, true; }
    o := cache.RemoveFinal();
    if !o.Done? { return if o.Crashed? then Died else Threw, false; }
    var existing;
    o, existing := PartialSize(cache, m.size, artifact);
    if !o.Done? { return if o.Crashed? then Died else Threw, false; }
    exit := Fetch(cache, answer, existing, m, digest, artifact);
  }

  /**
   Any number of attempts, each cut off anywhere, by processes one after another: the partial file
   stays a beginning of the artifact, and the final path never holds anything but what the manifest
   describes. Where the manifest is the artifact's own, that is the artifact. Whatever happened
   before, an attempt with a right answer in which no operation fails is the last one needed.
   */
  method Attempts(answers: seq<Answer>, m: Manifest, digest: Bytes -> string, ghost artifact: Bytes)
    returns (cache: Cache, done: bool, ghost before: nat)
    requires forall i :: 0 <= i < |answers| ==> Honest(artifact, answers[i])
    ensures PartialInv(cache.partial, artifact, m.size)
    ensures cache.final.Some? ==> Valid(cache.final.value, m, digest)
    ensures cache.final.Some? && m.size == |artifact| ==> cache.final.value == artifact
    ensures done ==> cache.final.Some?
    ensures before <= cache.faults
    ensures |answers| > 0 && AlwaysRight(answers[|answers|-1], m, digest, artifact) && cache.faults == before ==> done
  {
    cache := new Cache();
    done, before := false, 0;
    for i := 0 to |answers|
      invariant fresh(cache)
      invariant PartialInv(cache.partial, artifact, m.size)
      invariant cache.final.Some? ==> Valid(cache.final.value, m, digest) && cache.final.value <= artifact
      invariant done ==> cache.final.Some?
      invariant before <= cache.faults
      invariant i > 0 && AlwaysRight(answers[i-1], m, digest, artifact) && cache.faults == before ==> done
    {
      before := cache.faults;
      var exit, reused := Download(cache, answers[i], m, digest, artifact);
      done := exit.Returned?;
    }
  }
}
