/** The S3 adapter: every operation is retried, and each attempt may fail with or
    without having taken effect and after consuming part of its input. */
module ObjectStorage {
  import opened Wrappers
  import opened Messages

  datatype StorageError = NotFound | Unavailable | InvalidFile

  /** One attempt. A failing one may have consumed some of the reader and may have been applied. */
  datatype Attempt = Works | Fails(error: StorageError, consumed: nat, applied: bool)

  function AttemptAt(script: seq<Attempt>, i: nat): Attempt {
    if i < |script| then script[i] else Works
  }

  /** What the retry loop returns from attempt `i` on: `None` for success. A "not found"
      ends it at once; with no attempts left the last error is returned. */
  function Retried(script: seq<Attempt>, i: nat, max: nat, last: StorageError): Option<StorageError>
    decreases max - i
  {
    if i >= max then Some(last)
    else match AttemptAt(script, i)
      case Works => None
      case Fails(error, _, _) => if error == NotFound then Some(NotFound) else Retried(script, i + 1, max, error)
  }

  /** The loop succeeds exactly when some attempt within the budget works and no earlier
      one reported a missing object. */
  lemma {:induction false} RetrySucceeds(script: seq<Attempt>, i: nat, max: nat, last: StorageError)
    ensures Retried(script, i, max, last).None? <==>
            exists k :: i <= k < max && AttemptAt(script, k).Works? &&
                        forall j :: i <= j < k ==> AttemptAt(script, j).Fails? && AttemptAt(script, j).error != NotFound
    decreases max - i
  {
    if i < max {
      match AttemptAt(script, i)
      case Works =>
      case Fails(error, _, _) => RetrySucceeds(script, i + 1, max, error);
    }
  }

  /** Whether one of the attempts made took effect: a working one, or a failing one that
      was applied all the same. */
  predicate Applied(script: seq<Attempt>, i: nat, max: nat)
    decreases max - i
  {
    i < max &&
    match AttemptAt(script, i)
    case Works => true
    case Fails(error, _, applied) => applied || (error != NotFound && Applied(script, i + 1, max))
  }

  /** A missing object is reported exactly when some attempt within the budget says so and
      every earlier one failed otherwise; any other error is that of the last attempt. */
  lemma {:induction false} RetryFails(script: seq<Attempt>, i: nat, max: nat, last: StorageError)
    requires i < max && last != NotFound
    ensures Retried(script, i, max, last) == Some(NotFound) <==>
            exists k :: i <= k < max && AttemptAt(script, k).Fails? && AttemptAt(script, k).error == NotFound &&
                        forall j :: i <= j < k ==> AttemptAt(script, j).Fails? && AttemptAt(script, j).error != NotFound
    ensures var error := Retried(script, i, max, last);
            error.Some? && error.value != NotFound ==>
              AttemptAt(script, max - 1).Fails? && error.value == AttemptAt(script, max - 1).error
    decreases max - i
  {
    if AttemptAt(script, i).Fails? && AttemptAt(script, i).error != NotFound && i + 1 < max {
      RetryFails(script, i + 1, max, AttemptAt(script, i).error);
    }
  }

  /** Something took effect exactly when some attempt was made that did: it works or was
      applied all the same, and every earlier one failed without reporting a missing object. */
  lemma {:induction false} AppliedExactly(script: seq<Attempt>, i: nat, max: nat)
    ensures Applied(script, i, max) <==>
            exists k :: i <= k < max && (AttemptAt(script, k).Works? || AttemptAt(script, k).applied) &&
                        forall j :: i <= j < k ==> AttemptAt(script, j).Fails? && AttemptAt(script, j).error != NotFound
    decreases max - i
  {
    if i < max && AttemptAt(script, i).Fails? { AppliedExactly(script, i + 1, max); }
  }

  lemma {:induction false} SuccessApplies(script: seq<Attempt>, i: nat, max: nat, last: StorageError)
    ensures Retried(script, i, max, last).None? ==> Applied(script, i, max)
    decreases max - i
  {
    if i < max && AttemptAt(script, i).Fails? { SuccessApplies(script, i + 1, max, AttemptAt(script, i).error); }
  }

  /** A seekable source: a spooled temporary file. */
  class Reader {
    const data: Bytes
    var pos: nat

    constructor (data: Bytes)
      ensures this.data == data && pos == |data|
    {
      this.data := data;
      pos := |data|;
    }

    method SeekStart()
      modifies this`pos
      ensures pos == 0
    {
      pos := 0;
    }
  }

  class Storage {
    var objects: map<ObjectKey, Bytes>
    const maxRetries: nat

    constructor (maxRetries: nat)
      ensures this.maxRetries == maxRetries && objects == map[]
    {
      this.maxRetries := maxRetries;
      objects := map[];
    }

    /** One transfer of `size` bytes from where the reader stands. */
    method PutOnce(key: ObjectKey, content: Reader, size: nat, attempt: Attempt) returns (error: Option<StorageError>)
      requires content.pos <= |content.data|
      modifies this`objects, content`pos
      ensures content.pos <= |content.data|
      ensures var start := old(content.pos);
              if start + size > |content.data| then
                error.Some? && objects == old(objects)
              else
                && (error == match attempt case Works => None case Fails(e, _, _) => Some(e))
                && objects == if attempt.Works? || attempt.applied then
                                old(objects)[key := content.data[start..start + size]]
                              else old(objects)
    {
      var start := content.pos;
      if start + size > |content.data| {
        content.pos := |content.data|;
        return Some(InvalidFile);
      }
      if attempt.Works? || attempt.applied {
        objects := objects[key := content.data[start..start + size]];
      }
      match attempt {
        case Works =>
          content.pos := start + size;
          error := None;
        case Fails(e, consumed, _) =>
          content.pos := start + if consumed <= size then consumed else size;
          error := Some(e);
      }
    }

    /** Every attempt starts the reader over, so whichever attempt takes effect stores the
        file from its first byte. */
    method PutObject(key: ObjectKey, content: Reader, size: nat, script: seq<Attempt>)
      returns (error: Option<StorageError>)
      requires content.pos <= |content.data|
      modifies this`objects, content`pos
      ensures size <= |content.data| ==> error == Retried(script, 0, maxRetries, Unavailable)
      ensures size > |content.data| ==> error.Some?
      ensures objects == if size <= |content.data| && Applied(script, 0, maxRetries)
                         then old(objects)[key := content.data[..size]] else old(objects)
    {
      var lastErr := Unavailable;
      var attempt := 0;
      ghost var applied := false;
      while attempt < maxRetries
        invariant attempt <= maxRetries && content.pos <= |content.data|
        invariant size <= |content.data| ==>
          && Retried(script, attempt, maxRetries, lastErr) == Retried(script, 0, maxRetries, Unavailable)
          && (Applied(script, 0, maxRetries) <==> applied || Applied(script, attempt, maxRetries))
        invariant objects == if size <= |content.data| && applied
                             then old(objects)[key := content.data[..size]] else old(objects)
      {
        ghost var a := AttemptAt(script, attempt);
        content.SeekStart();
        var err := PutOnce(key, content, size, AttemptAt(script, attempt));
        applied := applied || a.Works? || a.applied;
        if err.None? { return None; }
        lastErr := err.value;
        if lastErr == NotFound { return err; }
        attempt := attempt + 1;
      }
      error := Some(lastErr);
    }

    method DeleteObject(key: ObjectKey, script: seq<Attempt>) returns (error: Option<StorageError>)
      modifies this`objects
      ensures error == Retried(script, 0, maxRetries, Unavailable)
      ensures objects == if Applied(script, 0, maxRetries) then old(objects) - {key} else old(objects)
    {
      var lastErr := Unavailable;
      var attempt := 0;
      ghost var applied := false;
      while attempt < maxRetries
        invariant attempt <= maxRetries
        invariant Retried(script, attempt, maxRetries, lastErr) == Retried(script, 0, maxRetries, Unavailable)
        invariant Applied(script, 0, maxRetries) <==> applied || Applied(script, attempt, maxRetries)
        invariant objects == if applied then old(objects) - {key} else old(objects)
      {
        var a := AttemptAt(script, attempt);
        if a.Works? || a.applied {
          objects := objects - {key};
          applied := true;
        }
        if a.Works? { return None; }
        lastErr := a.error;
        if lastErr == NotFound { return Some(NotFound); }
        attempt := attempt + 1;
      }
      error := Some(lastErr);
    }

    /** A missing object is "not found" and ends the retries. */
    method GetObject(key: ObjectKey, script: seq<Attempt>) returns (r: Result<Bytes, StorageError>)
      ensures r.Success? <==> Retried(script, 0, maxRetries, Unavailable).None? && key in objects
      ensures r.Success? ==> r.value == objects[key]
    {
      var lastErr := Unavailable;
      var attempt := 0;
      while attempt < maxRetries
        invariant attempt <= maxRetries
        invariant Retried(script, attempt, maxRetries, lastErr) == Retried(script, 0, maxRetries, Unavailable)
      {
        var a := AttemptAt(script, attempt);
        if a.Works? {
          return if key in objects then Success(objects[key]) else Failure(NotFound);
        }
        lastErr := a.error;
        if lastErr == NotFound { return Failure(NotFound); }
        attempt := attempt + 1;
      }
      r := Failure(lastErr);
    }
  }
}
