/**
 * How a load ends: which failures of loading from a transport propagate and
 * which are swallowed, whether the batches loaded contain an error, the
 * status the pull, push and offline paths give their process, and the sync
 * URL the acknowledgement of a redirected pull is sent to.
 */
module LoadOutcome {
  import opened Common
  import opened Entities
  import JavaStrings
  import BatchListener

  /** containsError: some batch of the list is in error.  The loop stops at
      the first batch in error. */
  method ContainsError(list: seq<IncomingBatch>) returns (r: bool)
    ensures r <==> HasError(list)
  {
    var k := 0;
    while k < |list|
      invariant 0 <= k <= |list|
      invariant forall i :: 0 <= i < k ==> list[i].status != ER
    {
      if list[k].status == ER {
        return true;
      }
      k := k + 1;
    }
    return false;
  }

  /** Some batch of the list is in error. */
  predicate HasError(list: seq<IncomingBatch>) {
    exists i :: 0 <= i < |list| && list[i].status == ER
  }

  /** The kinds of throwable logAndRethrow tells apart.  The first eight are
      the ones it names; MalformedUrl (which the pull path reports on its
      own) and OtherIo are the remaining IOExceptions; Conflict and Sql are
      the loader's ConflictException and SqlException; OtherThrowable is
      everything else. */
  datatype Failure =
    | RegistrationRequired | Connect | UnknownHost | RegistrationNotOpen
    | ConnectionRejected | ServiceUnavailable | Authentication | SyncDisabled
    | MalformedUrl | OtherIo
    | Conflict | Sql
    | OtherThrowable

  /** java.io.IOException and its subclasses. */
  predicate IsIoException(f: Failure) {
    f == Connect || f == UnknownHost || f == MalformedUrl || f == OtherIo
  }

  /** The failures whose batches are already recorded in error by the batch
      listener. */
  predicate RecordedByListener(f: Failure) {
    f == Conflict || f == Sql
  }

  /** What logAndRethrow does with a failure. */
  datatype Disposition = Rethrow | SwallowSilently | LogAndSwallow

  /** logAndRethrow. */
  function LogAndRethrow(f: Failure): (r: Disposition)
    ensures IsIoException(f) ==> r == Rethrow
    ensures r == SwallowSilently <==> RecordedByListener(f)
    ensures r == LogAndSwallow <==> f == OtherThrowable
  {
    match f
    case RegistrationRequired => Rethrow
    case Connect => Rethrow
    case UnknownHost => Rethrow
    case RegistrationNotOpen => Rethrow
    case ConnectionRejected => Rethrow
    case ServiceUnavailable => Rethrow
    case Authentication => Rethrow
    case SyncDisabled => Rethrow
    case MalformedUrl => Rethrow
    case OtherIo => Rethrow
    case Conflict => SwallowSilently
    case Sql => SwallowSilently
    case OtherThrowable => LogAndSwallow
  }

  /** How loadDataFromTransport ends: it returns the processed batches, or
      the failure propagates. */
  datatype LoadEnd = Returned(batches: seq<IncomingBatch>) | Threw(failure: Failure)

  /** loadDataFromTransport, given the batches the listener processed and
      the failure the processing raised, if any. */
  function LoadFromTransport(processed: seq<IncomingBatch>, failure: Option<Failure>): (r: LoadEnd)
    ensures r.Threw? <==> failure.Some? && LogAndRethrow(failure.value) == Rethrow
    ensures r.Threw? ==> r.failure == failure.value
    ensures r.Returned? ==> r.batches == processed
  {
    if failure.Some? && LogAndRethrow(failure.value) == Rethrow then Threw(failure.value)
    else Returned(processed)
  }

  /** ProcessInfo.Status at the end of a pull, push or offline load. */
  datatype ProcessStatus = ProcessOk | ProcessError

  /** The status the three load paths set: ERROR when the load threw, or
      when a batch it returned is in error; OK otherwise. */
  function FinalStatus(e: LoadEnd): (r: ProcessStatus)
    ensures r == ProcessOk <==> e.Returned? && !HasError(e.batches)
  {
    if e.Threw? || HasError(e.batches) then ProcessError else ProcessOk
  }

  /** A swallowed failure never hides an error on its own: the process is
      OK exactly when no batch the listener recorded is in error. */
  lemma SwallowedFailureReportsBatches(processed: seq<IncomingBatch>, f: Failure)
    requires LogAndRethrow(f) != Rethrow
    ensures FinalStatus(LoadFromTransport(processed, Some(f))) == ProcessOk <==> !HasError(processed)
  {
  }

  /** A batch the error callback marks failed makes the whole load end in
      ERROR, even though the failure itself was swallowed. */
  lemma ListenerErrorEndsInError(l: BatchListener.Listener, f: BatchListener.Failure,
                                 refreshed: IncomingStatus, stats: Option<LoadStatistics>,
                                 ctx: BatchListener.ErrorContext, errors: seq<IncomingError>,
                                 recordOk: bool, writeFails: bool, thrown: Failure)
    requires BatchListener.Valid(l) && l.current.Some?
    requires !BatchListener.Settled(refreshed)
    requires RecordedByListener(thrown)
    ensures var after := BatchListener.BatchInError(l, f, refreshed, stats, ctx, errors, recordOk, writeFails);
      FinalStatus(LoadFromTransport(after.listener.processed, Some(thrown))) == ProcessError
  {
    var after := BatchListener.BatchInError(l, f, refreshed, stats, ctx, errors, recordOk, writeFails);
    assert after.listener.processed[l.current.value].status == ER;
  }

  /** The path of a registration servlet URL. */
  const RegistrationPath: string := "/registration?"

  /** The sync URL for the acknowledgement of a redirected pull: the
      redirection URL cut at the first "/registration?", if it has one. */
  function AckUrl(url: string): (r: string)
    ensures r <= url
  {
    var index := JavaStrings.IndexOf(url, RegistrationPath);
    if index >= 0 then url[..index] else url
  }

  /** The cut URL is the longest prefix that stops before the registration
      path: it holds no occurrence of it, and is cut only when there is one. */
  lemma AckUrlDropsRegistration(url: string)
    ensures forall k :: !JavaStrings.OccursAt(AckUrl(url), RegistrationPath, k)
    ensures AckUrl(url) == url <==> forall k :: !JavaStrings.OccursAt(url, RegistrationPath, k)
    ensures AckUrl(url) != url ==> JavaStrings.OccursAt(url, RegistrationPath, |AckUrl(url)|)
  {
    var index := JavaStrings.IndexOf(url, RegistrationPath);
    var r := AckUrl(url);
    forall k | JavaStrings.OccursAt(r, RegistrationPath, k)
      ensures false
    {
      assert r[k..k + |RegistrationPath|] == url[k..k + |RegistrationPath|];
      assert JavaStrings.OccursAt(url, RegistrationPath, k);
    }
    if index >= 0 {
      assert |r| < |url|;
    }
  }

  /** Cutting twice is cutting once. */
  lemma AckUrlIdempotent(url: string)
    ensures AckUrl(AckUrl(url)) == AckUrl(url)
  {
    AckUrlDropsRegistration(url);
    AckUrlDropsRegistration(AckUrl(url));
  }

  /** The remote's sync URL after a pull: replaced by the cut redirection
      URL when the transport reports one that is not blank. */
  function SyncUrlForAck(syncUrl: Option<string>, redirection: Option<string>): (r: Option<string>)
    ensures JavaStrings.IsBlank(redirection) ==> r == syncUrl
    ensures JavaStrings.IsNotBlank(redirection) ==> r == Some(AckUrl(redirection.value))
  {
    if JavaStrings.IsNotBlank(redirection) then Some(AckUrl(redirection.value)) else syncUrl
  }
}
