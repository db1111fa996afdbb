/** The MediaSource player of src/utils/MSEPlayer.ts as an event-driven object. Every
    `await` of the source is a point where the player waits for the browser; what the
    browser then does is a method of its own: the manifest or a segment fetch
    resolves, a back-off or cool-down timer fires, the source buffer finishes an
    update, a queued append's 50 ms poll runs, or the video element reports a time
    update, a seek, a stall or playback. A load of one segment in flight is a record in `loads`, keyed by a load
    number, holding where that load stands. The browser's source buffer is reduced to
    what the player observes of it: whether it exists, whether it is updating, and the
    appends and removals handed to it, in order. Times are whole seconds. */
module Mse {
  import opened Wrappers
  import opened MseSpec
  import Strings

  /** A call of one of the player's callbacks: `onBuffering`, `onError` or `onReady`. */
  datatype Notice = Buffering(on: bool) | Error(message: string) | Ready

  /** An entry of `pendingAppends`; the ticket stands for the identity of the data. */
  datatype PendingAppend = PendingAppend(ticket: nat, startTime: Option<int>)

  /** One call of the source buffer's `appendBuffer`, with the offset set before it. */
  datatype Submission = Submission(ticket: nat, offset: Option<int>)

  /** Who waits for an append: the init-segment load, or segment load number `load`. */
  datatype Waiter = InitWaiter | LoadWaiter(load: nat)

  /** Where a segment load stands: fetch attempt `attempt` is in flight; a back-off
      timer of `delay` ms runs before attempt `next`; or the data of attempt `attempt`
      is being appended under `ticket`, directly or from the queue. */
  datatype Phase =
    | Fetching(attempt: nat)
    | BackingOff(next: nat, delay: nat)
    | Appending(attempt: nat, ticket: nat, queued: bool)

  datatype Load = Load(segment: int, phase: Phase)

  /** What the caller awaiting a load does once it ends: `onSeeking` loads the next
      segment, the start-up sequence declares the player ready. */
  datatype Continuation = ThenLoad(segment: int) | ThenReady

  /** The start-up sequence run by "sourceopen". */
  datatype Boot = Idle | InitFetching | InitAppending(ticket: nat, queued: bool) | FirstSegment | Booted | BootFailed

  /** How a segment fetch (with its body) ends. */
  datatype SegmentResponse = NotReadyResponse | ErrorStatus(status: nat) | Body(byteLength: nat) | NetworkError(message: string)

  /** How the init-segment fetch ends. */
  datatype InitResponse = InitBody | InitStatus(status: nat) | InitNetworkError(message: string)

  datatype Manifest = Manifest(duration: nat, segmentDuration: nat, mimeType: string)

  /** How the manifest fetch ends: its body, a status other than 2xx, or a failure
      (network or JSON) with its message. */
  datatype ManifestResponse = ManifestBody(manifest: Manifest) | ManifestStatus(status: nat) | ManifestFailure(message: string)

  /** What `appendBuffer` does at once: reject, queue the data, or hand it to the buffer. */
  datatype AppendStart = Rejected(message: string) | Queued(ticket: nat) | Started(ticket: nat)

  /** How a load ends: its data appended, its attempts used up, or abandoned because
      the player was destroyed while the data was arriving. */
  datatype LoadEnd = Succeeded | GaveUp | Abandoned

  const NotAvailable := "SourceBuffer not available"
  const AppendError := "SourceBuffer append error"

  /** A fetch that yields data to append. */
  predicate Usable(r: SegmentResponse) {
    r.Body? && r.byteLength > 0
  }

  /** A fetch that counts as a failed attempt: an error status, a network failure or an
      empty body. */
  predicate Unusable(r: SegmentResponse) {
    r.ErrorStatus? || r.NetworkError? || (r.Body? && r.byteLength == 0)
  }

  /** Whether the append with `ticket` is still waiting in the queue. */
  predicate InQueue(q: seq<PendingAppend>, ticket: nat) {
    exists k :: 0 <= k < |q| && q[k].ticket == ticket
  }

  predicate PhaseOk(p: Phase) {
    match p
    case Fetching(a) => a < MaxRetries
    case BackingOff(n, _) => 1 <= n <= MaxRetries
    case Appending(a, _, _) => a < MaxRetries
  }

  /** Every load in flight has a number below the next one and a phase within the
      attempt bound. */
  predicate LoadsValid(loads: map<nat, Load>, nextLoad: nat) {
    forall id :: id in loads ==> id < nextLoad && PhaseOk(loads[id].phase)
  }

  /** The listeners of a direct append of a segment belong to a load whose data is
      being appended directly. */
  predicate ListenerValid(listener: Option<Waiter>, loads: map<nat, Load>) {
    listener.Some? && listener.value.LoadWaiter? ==>
      var id := listener.value.load;
      id in loads && loads[id].phase.Appending? && !loads[id].phase.queued
  }

  /** Starting a new load keeps both invariants. */
  lemma AddLoad(loads: map<nat, Load>, nextLoad: nat, ld: Load, listener: Option<Waiter>)
    requires LoadsValid(loads, nextLoad) && ListenerValid(listener, loads) && PhaseOk(ld.phase)
    ensures LoadsValid(loads[nextLoad := ld], nextLoad + 1)
    ensures ListenerValid(listener, loads[nextLoad := ld])
  {
  }

  /** A load that moves to a phase within the bound keeps both invariants, provided it
      is not the one whose direct append is running. */
  lemma UpdateLoad(loads: map<nat, Load>, nextLoad: nat, id: nat, ld: Load, listener: Option<Waiter>)
    requires LoadsValid(loads, nextLoad) && ListenerValid(listener, loads) && PhaseOk(ld.phase)
    requires id in loads && listener != Some(LoadWaiter(id))
    ensures LoadsValid(loads[id := ld], nextLoad)
    ensures ListenerValid(listener, loads[id := ld])
  {
  }

  /** A load whose data goes to the buffer directly, with its listeners attached,
      keeps both invariants. */
  lemma AttachLoad(loads: map<nat, Load>, nextLoad: nat, id: nat, ld: Load)
    requires LoadsValid(loads, nextLoad) && PhaseOk(ld.phase) && id in loads
    requires ld.phase.Appending? && !ld.phase.queued
    ensures LoadsValid(loads[id := ld], nextLoad)
    ensures ListenerValid(Some(LoadWaiter(id)), loads[id := ld])
  {
  }

  /** A load that ends keeps both invariants, provided its direct append is not running. */
  lemma DropLoad(loads: map<nat, Load>, nextLoad: nat, id: nat, listener: Option<Waiter>)
    requires LoadsValid(loads, nextLoad) && ListenerValid(listener, loads)
    requires listener != Some(LoadWaiter(id))
    ensures LoadsValid(loads - {id}, nextLoad)
    ensures ListenerValid(listener, loads - {id})
  {
  }

  /** A segment that is being loaded or is loaded is not loaded again. */
  predicate Busy(states: map<int, SegState>, i: int) {
    i in states && (states[i] == Loading || states[i] == Loaded)
  }

  /** The number of queue entries `processPendingAppends` takes out before handing one
      to the buffer: it skips those whose append the buffer refuses. */
  function Skipped(q: seq<PendingAppend>, refused: set<nat>): (k: nat)
    ensures k <= |q|
    ensures forall j :: 0 <= j < k ==> q[j].ticket in refused
    ensures k < |q| ==> q[k].ticket !in refused
    decreases |q|
  {
    if |q| == 0 || q[0].ticket !in refused then 0 else 1 + Skipped(q[1..], refused)
  }

  /** The queue `q` after `processPendingAppends` ran on an idle buffer: the refused
      entries at its front are gone and the first accepted one, if any, has been handed
      to the buffer, which is then busy; with none accepted the queue is empty. */
  predicate Drained(q: seq<PendingAppend>, refused: set<nat>, before: seq<Submission>,
                    after: seq<PendingAppend>, handed: seq<Submission>, busy: bool)
  {
    var k := Skipped(q, refused);
    if k < |q| then after == q[k + 1..] && busy && handed == before + [Submission(q[k].ticket, q[k].startTime)]
    else after == [] && !busy && handed == before
  }

  /** What follows a failed attempt: a one-second back-off before the next attempt
      while one is left, otherwise giving up at once. */
  function AfterFailure(attempt: nat): (next: Option<nat>)
    ensures next.Some? <==> attempt < MaxRetries - 1
    ensures next.Some? ==> next.value == attempt + 1
  {
    if attempt < MaxRetries - 1 then Some(attempt + 1) else None
  }

  /** What a back-off timer leads to: the next attempt, or failure when none is left. */
  function AfterBackoff(next: nat): LoadStep
  {
    if next < MaxRetries then Fetch(next) else Done(false)
  }

  /** The player's transitions follow the retry policy `Next`: a 503 backs off and then
      `AfterBackoff` gives the same step, a failure backs off (or gives up) to the
      same step. */
  lemma PlayerFollowsPolicy(attempt: nat)
    requires attempt < MaxRetries
    ensures AfterBackoff(attempt + 1) == Next(attempt, NotReady)
    ensures AfterFailure(attempt).Some? ==> AfterBackoff(AfterFailure(attempt).value) == Next(attempt, Failed)
    ensures AfterFailure(attempt).None? ==> Next(attempt, Failed) == Done(false)
  {
  }

  class MSEPlayer {
    var segmentDuration: nat
    var totalDuration: nat
    var mimeType: string
    var hasManifest: bool
    var hasMediaSource: bool
    var segmentStates: map<int, SegState>
    var pendingAppends: seq<PendingAppend>
    var isAppending: bool
    var lastAppendedSegment: int
    var isInitialized: bool
    var isDestroyed: bool
    var initSegmentLoaded: bool
    /** Whether the player holds a source buffer. */
    var hasSourceBuffer: bool
    /** The source buffer's `updating` flag. */
    var updating: bool
    /** Every append handed to the source buffer, in order. */
    var submitted: seq<Submission>
    /** Every range removed from the source buffer, in order. */
    var removals: seq<(int, int)>
    /** Every append ever queued, and every one taken out of the queue, in order. */
    ghost var queueLog: seq<PendingAppend>
    ghost var dequeued: seq<PendingAppend>
    var nextTicket: nat
    /** Whose `updateend`/`error` listeners of the direct append path are attached. */
    var activeListener: Option<Waiter>
    var loads: map<nat, Load>
    var nextLoad: nat
    var continuations: map<nat, Continuation>
    var boot: Boot
    /** The 5 s cool-down timers of failed segments, in the order they fire. */
    var cooldowns: seq<int>
    /** Every callback call, in order. */
    var notices: seq<Notice>
    /** The index of every `loadSegment` call, in order. */
    var loadRequests: seq<int>
    /** Whether the video element's listeners are attached. */
    var listening: bool

    /** Whether `initialize` is waiting for the manifest fetch. */
    var manifestPending: bool

    /** The append queue: it is non-empty only while the buffer exists and is updating,
        and it holds, in order, the queued tickets not yet taken out. */
    ghost predicate QueueCore()
      reads this`pendingAppends, this`hasSourceBuffer, this`queueLog, this`dequeued, this`nextTicket
    {
      && (pendingAppends != [] ==> hasSourceBuffer)
      && queueLog == dequeued + pendingAppends
      && (forall k :: 0 <= k < |pendingAppends| ==> pendingAppends[k].ticket < nextTicket)
    }

    ghost predicate QueueOk()
      reads this`pendingAppends, this`hasSourceBuffer, this`queueLog, this`dequeued, this`nextTicket, this`updating
    {
      QueueCore() && (pendingAppends != [] ==> updating)
    }

    ghost predicate LoadsOk()
      reads this`loads, this`nextLoad
    {
      LoadsValid(loads, nextLoad)
    }

    /** Everything but the owner of the direct-append listeners. */
    ghost predicate Core()
      reads this`isAppending, this`updating, this`isDestroyed, this`hasSourceBuffer
      reads this`pendingAppends, this`queueLog, this`dequeued, this`nextTicket
      reads this`loads, this`nextLoad, this`activeListener
    {
      && (isAppending ==> updating)
      && (isDestroyed ==> !hasSourceBuffer)
      && (activeListener.Some? ==> updating && isAppending)
      && QueueOk()
      && LoadsOk()
    }

    ghost predicate Valid()
      reads this`segmentDuration, this`isAppending, this`updating, this`isDestroyed, this`hasSourceBuffer
      reads this`pendingAppends, this`queueLog, this`dequeued, this`nextTicket
      reads this`loads, this`nextLoad, this`activeListener
    {
      segmentDuration > 0 && Core() && ListenerValid(activeListener, loads)
    }

    /** Whether `loadSegment(i)` starts a load: the player is not destroyed, segment i is
        neither loading nor loaded, and it lies within the stream. */
    predicate Admits(i: int)
      reads this`isDestroyed, this`segmentStates, this`totalDuration, this`segmentDuration
      requires segmentDuration > 0
    {
      !isDestroyed && !Busy(segmentStates, i) && 0 <= i < SegmentCount(totalDuration, segmentDuration)
    }

    constructor ()
      ensures Valid()
      ensures segmentDuration == DefaultSegmentDuration && totalDuration == 0 && !hasManifest && !hasMediaSource
      ensures segmentStates == map[] && pendingAppends == [] && !isAppending && lastAppendedSegment == -1
      ensures !isInitialized && !isDestroyed && !initSegmentLoaded && !hasSourceBuffer && !updating
      ensures submitted == [] && removals == [] && loads == map[] && continuations == map[] && boot == Idle
      ensures cooldowns == [] && notices == [] && loadRequests == [] && !listening && activeListener == None
      ensures !manifestPending
    {
      segmentDuration := DefaultSegmentDuration;
      totalDuration := 0;
      mimeType := "";
      hasManifest := false;
      hasMediaSource := false;
      segmentStates := map[];
      pendingAppends := [];
      isAppending := false;
      lastAppendedSegment := -1;
      isInitialized := false;
      isDestroyed := false;
      initSegmentLoaded := false;
      hasSourceBuffer := false;
      updating := false;
      submitted := [];
      removals := [];
      queueLog := [];
      dequeued := [];
      nextTicket := 0;
      activeListener := None;
      loads := map[];
      nextLoad := 0;
      continuations := map[];
      boot := Idle;
      cooldowns := [];
      notices := [];
      loadRequests := [];
      listening := false;
      manifestPending := false;
    }

    /** The source buffer's `appendBuffer`: only one update runs at a time, which every
        caller must establish. */
    method Submit(ticket: nat, offset: Option<int>)
      requires !updating
      modifies this`updating, this`submitted
      ensures updating && submitted == old(submitted) + [Submission(ticket, offset)]
    {
      updating := true;
      submitted := submitted + [Submission(ticket, offset)];
    }

    /** `appendBuffer(data, startTime)` up to its first wait. Without a source buffer, or
        once destroyed, it rejects. While the buffer is updating or an append is under
        way the data joins the back of the queue. Otherwise the data goes to the buffer
        at once with `w`'s listeners attached, unless the buffer refuses it
        (`refusal`), which rejects with the buffer's message. */
    method StartAppend(w: Waiter, offset: Option<int>, refusal: Option<string>) returns (r: AppendStart)
      requires Valid()
      modifies this`pendingAppends, this`isAppending, this`activeListener, this`updating, this`submitted,
               this`nextTicket, this`queueLog
      ensures Core() && (!r.Started? ==> Valid())
      ensures !old(hasSourceBuffer) || isDestroyed ==>
        r == Rejected(NotAvailable) && pendingAppends == old(pendingAppends) && nextTicket == old(nextTicket)
        && submitted == old(submitted) && updating == old(updating) && isAppending == old(isAppending)
        && activeListener == old(activeListener)
      ensures old(hasSourceBuffer) && !isDestroyed && (old(updating) || old(isAppending)) ==>
        r == Queued(old(nextTicket)) && nextTicket == old(nextTicket) + 1
        && pendingAppends == old(pendingAppends) + [PendingAppend(old(nextTicket), offset)]
        && submitted == old(submitted) && updating == old(updating) && isAppending == old(isAppending)
        && activeListener == old(activeListener)
      ensures old(hasSourceBuffer) && !isDestroyed && !old(updating) && !old(isAppending) ==>
        nextTicket == old(nextTicket) + 1 && pendingAppends == old(pendingAppends)
        && (refusal.Some? ==> r == Rejected(refusal.value) && submitted == old(submitted) && !updating
                              && !isAppending && activeListener == old(activeListener))
        && (refusal.None? ==> r == Started(old(nextTicket)) && updating && isAppending && activeListener == Some(w)
                              && submitted == old(submitted) + [Submission(old(nextTicket), offset)])
    {
      if !hasSourceBuffer || isDestroyed {
        return Rejected(NotAvailable);
      }
      var ticket := nextTicket;
      nextTicket := nextTicket + 1;
      if updating || isAppending {
        pendingAppends := pendingAppends + [PendingAppend(ticket, offset)];
        queueLog := queueLog + [PendingAppend(ticket, offset)];
        return Queued(ticket);
      }
      isAppending := true;
      // `abort()` is only reached while the buffer is updating, which this path excludes.
      assert !updating;
      if refusal.Some? {
        isAppending := false;
        return Rejected(refusal.value);
      }
      activeListener := Some(w);
      Submit(ticket, offset);
      return Started(ticket);
    }

    /** `processPendingAppends`: unless the queue is empty, there is no source buffer or
        it is updating, entries leave the front of the queue until one is handed to the
        buffer; the ones before it were refused by the buffer. */
    method ProcessPendingAppends(refused: set<nat>)
      requires segmentDuration > 0 && (isDestroyed ==> !hasSourceBuffer)
      requires !isAppending && activeListener.None? && QueueCore() && LoadsOk()
      requires pendingAppends != [] && !updating ==> hasSourceBuffer
      modifies this`pendingAppends, this`isAppending, this`updating, this`submitted, this`dequeued
      ensures Valid()
      ensures old(updating) ==>
        pendingAppends == old(pendingAppends) && submitted == old(submitted) && updating && isAppending == old(isAppending)
      ensures !old(updating) ==>
        Drained(old(pendingAppends), refused, old(submitted), pendingAppends, submitted, updating) && isAppending == updating
    {
      if pendingAppends == [] || !hasSourceBuffer || updating {
        return;
      }
      ghost var q := pendingAppends;
      ghost var k := Skipped(q, refused);
      ghost var j := 0;
      var handed := false;
      while pendingAppends != [] && !handed
        invariant 0 <= j <= |q| && pendingAppends == q[j..]
        invariant !handed ==> j <= k && !updating && !isAppending && submitted == old(submitted)
        invariant handed ==> j == k + 1 && k < |q| && updating && isAppending
                             && submitted == old(submitted) + [Submission(q[k].ticket, q[k].startTime)]
        invariant dequeued == old(dequeued) + q[..j]
        decreases |pendingAppends|
      {
        var item := pendingAppends[0];
        pendingAppends := pendingAppends[1..];
        dequeued := dequeued + [item];
        assert q[..j + 1] == q[..j] + [item];
        isAppending := true;
        if item.ticket in refused {
          isAppending := false;
        } else {
          Submit(item.ticket, item.startTime);
          handed := true;
        }
        j := j + 1;
      }
      assert q == q[..j] + q[j..];
      assert QueueOk();
    }

    /** `loadSegment(i)` up to its first fetch. A destroyed player, a segment already
        loading or loaded, and an index outside the stream all return at once with
        nothing changed; otherwise the segment is marked loading, buffering is
        announced and fetch attempt 0 starts. */
    method LoadSegment(i: int) returns (started: Option<nat>)
      requires Valid()
      modifies this`segmentStates, this`notices, this`loads, this`nextLoad, this`loadRequests
      ensures Valid()
      ensures loadRequests == old(loadRequests) + [i]
      ensures started.Some? <==> old(Admits(i))
      ensures started.None? ==>
        segmentStates == old(segmentStates) && notices == old(notices) && loads == old(loads) && nextLoad == old(nextLoad)
      ensures started.Some? ==>
        && started.value == old(nextLoad) && nextLoad == old(nextLoad) + 1
        && segmentStates == old(segmentStates)[i := Loading]
        && notices == old(notices) + [Buffering(true)]
        && loads == old(loads)[old(nextLoad) := Load(i, Fetching(0))]
    {
      loadRequests := loadRequests + [i];
      if isDestroyed {
        return None;
      }
      if i in segmentStates && (segmentStates[i] == Loading || segmentStates[i] == Loaded) {
        return None;
      }
      var maxSegment := SegmentCount(totalDuration, segmentDuration);
      if i < 0 || i >= maxSegment {
        return None;
      }
      segmentStates := segmentStates[i := Loading];
      Notify(Buffering(true));
      var id := AddFetch(i);
      return Some(id);
    }

    /** A new load of segment i, numbered after every earlier one, at fetch attempt 0. */
    method AddFetch(i: int) returns (id: nat)
      requires Valid()
      modifies this`loads, this`nextLoad
      ensures Valid()
      ensures id == old(nextLoad) && nextLoad == old(nextLoad) + 1
      ensures loads == old(loads)[id := Load(i, Fetching(0))]
    {
      AddLoad(loads, nextLoad, Load(i, Fetching(0)), activeListener);
      loads := loads[nextLoad := Load(i, Fetching(0))];
      id := nextLoad;
      nextLoad := nextLoad + 1;
      assert LoadsOk() && ListenerValid(activeListener, loads);
    }

    /** `destroy`: a second call does nothing. The first marks the player destroyed,
        detaches the video listeners and the source buffer, and empties the segment
        table and the append queue. Loads in flight and timers are not cancelled. */
    method Destroy()
      requires Valid()
      modifies this`isDestroyed, this`listening, this`hasSourceBuffer, this`hasMediaSource, this`hasManifest,
               this`segmentStates, this`pendingAppends, this`dequeued
      ensures Valid()
      ensures old(isDestroyed) ==>
        listening == old(listening) && hasSourceBuffer == old(hasSourceBuffer) && hasMediaSource == old(hasMediaSource)
        && hasManifest == old(hasManifest) && segmentStates == old(segmentStates)
        && pendingAppends == old(pendingAppends) && dequeued == old(dequeued)
      ensures isDestroyed
      ensures !old(isDestroyed) ==>
        !listening && !hasSourceBuffer && !hasMediaSource && !hasManifest && segmentStates == map[] && pendingAppends == []
      ensures !old(isDestroyed) ==> dequeued == old(dequeued) + old(pendingAppends)
    {
      if isDestroyed {
        return;
      }
      DropQueue();
      isDestroyed := true;
      hasSourceBuffer := false;
      Detach();
    }

    /** Detaches the video listeners and the media source and forgets the manifest and
        the segment table. */
    method Detach()
      modifies this`listening, this`hasMediaSource, this`hasManifest, this`segmentStates
      ensures !listening && !hasMediaSource && !hasManifest && segmentStates == map[]
    {
      listening := false;
      hasMediaSource := false;
      hasManifest := false;
      segmentStates := map[];
    }

    /** Load `id` moves on to phase `p`. */
    method SetPhase(id: nat, p: Phase)
      requires Valid() && id in loads && PhaseOk(p) && activeListener != Some(LoadWaiter(id))
      modifies this`loads
      ensures Valid()
      ensures loads == old(loads)[id := Load(old(loads)[id].segment, p)]
    {
      UpdateLoad(loads, nextLoad, id, Load(loads[id].segment, p), activeListener);
      loads := loads[id := Load(loads[id].segment, p)];
    }

    /** Start-up stops: the error goes to `onError`. */
    method BootFail(message: string)
      requires Valid()
      modifies this`notices, this`boot
      ensures Valid()
      ensures notices == old(notices) + [Error(message)] && boot == BootFailed
    {
      Notify(Error(message));
      boot := BootFailed;
    }

    /** A call of one of the player's callbacks (`onBuffering`, `onError`, `onReady`). */
    method Notify(n: Notice)
      modifies this`notices
      ensures notices == old(notices) + [n]
    {
      notices := notices + [n];
    }

    /** Empties the append queue; the entries count as taken out. */
    method DropQueue()
      requires QueueCore()
      modifies this`pendingAppends, this`dequeued
      ensures pendingAppends == [] && dequeued == old(dequeued) + old(pendingAppends)
      ensures QueueOk()
    {
      dequeued := dequeued + pendingAppends;
      pendingAppends := [];
    }

    /** The cool-down timer of the oldest failed load: segment s's entry is deleted
        only if it is still an error, so that a later request may load it again. */
    method OnCooldownFired()
      requires cooldowns != []
      modifies this`cooldowns, this`segmentStates
      ensures cooldowns == old(cooldowns[1..])
      ensures var s := old(cooldowns[0]);
        if s in old(segmentStates) && old(segmentStates)[s] == Errored
        then segmentStates == old(segmentStates) - {s}
        else segmentStates == old(segmentStates)
    {
      var s := cooldowns[0];
      cooldowns := cooldowns[1..];
      if s in segmentStates && segmentStates[s] == Errored {
        segmentStates := segmentStates - {s};
      }
    }

    /** What the end of a load of segment `seg` leaves behind, by how it ended
        (MSEPlayer.ts lines 288-318): success makes the segment the last appended one
        and marks it loaded; giving up marks it an error and starts its cool-down; both
        report buffering over. A load abandoned after `destroy` changes none of these. */
    twostate predicate Ended(seg: int, how: LoadEnd)
      reads this
    {
      match how
      case Succeeded =>
        lastAppendedSegment == seg && segmentStates == old(segmentStates)[seg := Loaded]
        && notices == old(notices) + [Buffering(false)] && cooldowns == old(cooldowns)
      case GaveUp =>
        lastAppendedSegment == old(lastAppendedSegment) && segmentStates == old(segmentStates)[seg := Errored]
        && notices == old(notices) + [Buffering(false)] && cooldowns == old(cooldowns) + [seg]
      case Abandoned =>
        lastAppendedSegment == old(lastAppendedSegment) && segmentStates == old(segmentStates)
        && notices == old(notices) && cooldowns == old(cooldowns)
    }

    /** Load `id` of segment `seg` is over, and ended as `how`. */
    twostate predicate Finished(id: nat, seg: int, how: LoadEnd)
      reads this
    {
      loads == old(loads) - {id} && Ended(seg, how)
    }

    /** Load `id` of segment `seg` now waits `delay` ms before attempt `next`; the
        segment table, the callbacks and the cool-downs are untouched. */
    twostate predicate BacksOff(id: nat, seg: int, next: nat, delay: nat)
      reads this
    {
      && loads == old(loads)[id := Load(seg, BackingOff(next, delay))]
      && lastAppendedSegment == old(lastAppendedSegment) && segmentStates == old(segmentStates)
      && notices == old(notices) && cooldowns == old(cooldowns)
    }

    /** Attempt `attempt` of load `id` failed (MSEPlayer.ts lines 297-311): a one-second
        back-off while an attempt is left, otherwise the load gives up. */
    twostate predicate AttemptFailed(id: nat, seg: int, attempt: nat)
      reads this
    {
      match AfterFailure(attempt)
      case Some(n) => BacksOff(id, seg, n, RetryDelay)
      case None => Finished(id, seg, GaveUp)
    }

    /** The append of attempt `attempt` of load `id` settled: a resolved append ends the
        load loaded, a rejected one is a failed attempt. */
    twostate predicate AppendSettled(id: nat, seg: int, attempt: nat, ok: bool)
      reads this
    {
      if ok then Finished(id, seg, Succeeded) else AttemptFailed(id, seg, attempt)
    }

    /** The init segment's append settled (MSEPlayer.ts lines 218-220): on success it
        counts as loaded and segment 0 is requested; an append error ends start-up
        with `onError`. */
    twostate predicate InitSettled(ok: bool)
      reads this
    {
      && (ok ==> initSegmentLoaded && loadRequests == old(loadRequests) + [0])
      && (!ok ==> boot == BootFailed && notices == old(notices) + [Error(AppendError)]
                  && loadRequests == old(loadRequests) && initSegmentLoaded == old(initSegmentLoaded))
    }

    /** The data of attempt `attempt` of load `id` (segment `seg`) was handed to
        `appendBuffer` (MSEPlayer.ts lines 276-288): with no offset when the segment
        directly follows the last appended one and at its start time otherwise, it goes
        to an idle buffer with the load's listeners attached, or joins the queue while
        the buffer is busy; a rejected append is a failed attempt. */
    twostate predicate FetchAppended(id: nat, seg: int, attempt: nat, refusal: Option<string>)
      reads this
    {
      var offset := AppendOffset(seg, old(lastAppendedSegment), segmentDuration);
      var same := lastAppendedSegment == old(lastAppendedSegment) && segmentStates == old(segmentStates)
                  && notices == old(notices) && cooldowns == old(cooldowns);
      && (old(hasSourceBuffer) && !old(updating) && !old(isAppending) && refusal.None? ==>
            && submitted == old(submitted) + [Submission(old(nextTicket), offset)]
            && pendingAppends == old(pendingAppends) && updating && isAppending
            && activeListener == Some(LoadWaiter(id))
            && loads == old(loads)[id := Load(seg, Appending(attempt, old(nextTicket), false))] && same)
      && (old(hasSourceBuffer) && (old(updating) || old(isAppending)) ==>
            && pendingAppends == old(pendingAppends) + [PendingAppend(old(nextTicket), offset)]
            && submitted == old(submitted) && activeListener == old(activeListener)
            && loads == old(loads)[id := Load(seg, Appending(attempt, old(nextTicket), true))] && same)
      && (!old(hasSourceBuffer) || (!old(updating) && !old(isAppending) && refusal.Some?) ==>
            && submitted == old(submitted) && pendingAppends == old(pendingAppends)
            && AttemptFailed(id, seg, attempt))
    }

    /** Records how load `id` ends: on success the segment becomes the last appended
        one and is marked loaded; once its attempts are used up it is marked as an
        error and its cool-down timer starts; either way buffering is reported over.
        A load abandoned after `destroy` changes nothing. */
    method EndLoad(id: nat, how: LoadEnd)
      requires Valid() && id in loads && activeListener != Some(LoadWaiter(id))
      modifies this`loads, this`lastAppendedSegment, this`segmentStates, this`notices, this`cooldowns
      ensures Valid()
      ensures Finished(id, old(loads[id].segment), how)
    {
      var seg := loads[id].segment;
      RemoveLoad(id);
      MarkEnded(seg, how);
    }

    /** Forgets load `id`. */
    method RemoveLoad(id: nat)
      requires Valid() && id in loads && activeListener != Some(LoadWaiter(id))
      modifies this`loads
      ensures Valid() && loads == old(loads) - {id}
    {
      DropLoad(loads, nextLoad, id, activeListener);
      loads := loads - {id};
    }

    /** What the end of a load of segment `seg` records, by how it ended. */
    method MarkEnded(seg: int, how: LoadEnd)
      modifies this`lastAppendedSegment, this`segmentStates, this`notices, this`cooldowns
      ensures Ended(seg, how)
    {
      match how
      case Succeeded =>
        lastAppendedSegment := seg;
        segmentStates := segmentStates[seg := Loaded];
        Notify(Buffering(false));
      case GaveUp =>
        segmentStates := segmentStates[seg := Errored];
        Notify(Buffering(false));
        cooldowns := cooldowns + [seg];
      case Abandoned =>
    }

    /** The end of start-up (MSEPlayer.ts lines 167-174): the video listeners are attached,
        the player is initialized and `onReady` is called. Nothing here checks whether
        the player was destroyed meanwhile. */
    method BootReady()
      requires Valid()
      modifies this`listening, this`isInitialized, this`notices, this`boot
      ensures Valid()
      ensures listening && isInitialized && boot == Booted && notices == old(notices) + [Ready]
    {
      listening := true;
      isInitialized := true;
      Notify(Ready);
      boot := Booted;
    }

    /** Once load `id` has ended, whoever awaited it carries on, in a later microtask:
        `onSeeking` asks for the next segment, start-up finishes. A load nobody awaits
        changes nothing. */
    method Resume(id: nat)
      requires Valid() && id !in loads
      modifies this`continuations, this`segmentStates, this`notices, this`loads, this`nextLoad, this`loadRequests,
               this`listening, this`isInitialized, this`boot
      ensures Valid()
      ensures continuations == old(continuations) - {id}
      ensures old(notices) <= notices
      ensures forall k :: k in loads ==> k in old(loads) || k == old(nextLoad)
      ensures id !in old(continuations) ==>
        segmentStates == old(segmentStates) && notices == old(notices) && loads == old(loads)
        && nextLoad == old(nextLoad) && loadRequests == old(loadRequests)
        && listening == old(listening) && isInitialized == old(isInitialized) && boot == old(boot)
      ensures id in old(continuations) && old(continuations[id]).ThenLoad? ==>
        var j := old(continuations[id]).segment;
        loadRequests == old(loadRequests) + [j]
        && (if old(Admits(j)) then segmentStates == old(segmentStates)[j := Loading] && notices == old(notices) + [Buffering(true)]
            else segmentStates == old(segmentStates) && notices == old(notices))
        && listening == old(listening) && isInitialized == old(isInitialized) && boot == old(boot)
      ensures id in old(continuations) && old(continuations[id]) == ThenReady ==>
        listening && isInitialized && boot == Booted && notices == old(notices) + [Ready]
        && segmentStates == old(segmentStates) && loads == old(loads) && loadRequests == old(loadRequests)
    {
      if id !in continuations {
        return;
      }
      var c := TakeContinuation(id);
      match c
      case ThenLoad(j) =>
        var _ := LoadSegment(j);
      case ThenReady =>
        BootReady();
    }

    /** Removes what waits on load `id` and hands it back. */
    method TakeContinuation(id: nat) returns (c: Continuation)
      requires id in continuations
      modifies this`continuations
      ensures c == old(continuations[id]) && continuations == old(continuations) - {id}
    {
      c := continuations[id];
      continuations := continuations - {id};
    }

    /** Records that `c` waits on load `id`. */
    method Await(id: nat, c: Continuation)
      modifies this`continuations
      ensures continuations == old(continuations)[id := c]
    {
      continuations := continuations[id := c];
    }

    /** After the init segment: `loadSegment(0)`, and once that ends, start-up
        finishes; when no load starts, it finishes at once. */
    method StartFirstSegment()
      requires Valid()
      modifies this`continuations, this`segmentStates, this`notices, this`loads, this`nextLoad, this`loadRequests,
               this`listening, this`isInitialized, this`boot
      ensures Valid()
      ensures old(notices) <= notices
      ensures loadRequests == old(loadRequests) + [0]
      ensures old(Admits(0)) ==>
        boot == FirstSegment && continuations == old(continuations)[old(nextLoad) := ThenReady]
        && loads == old(loads)[old(nextLoad) := Load(0, Fetching(0))]
      ensures !old(Admits(0)) ==>
        boot == Booted && isInitialized && listening && notices == old(notices) + [Ready] && loads == old(loads)
    {
      var id := LoadSegment(0);
      if id.Some? {
        Await(id.value, ThenReady);
        boot := FirstSegment;
      } else {
        BootReady();
      }
    }

    /** A load whose append settled: success ends it; an append error (or a refused
        append) is a failed attempt, followed by a one-second back-off or, after the
        third attempt, by giving up. */
    method LoadAppendSettled(id: nat, ok: bool)
      requires Valid() && id in loads && loads[id].phase.Appending? && activeListener != Some(LoadWaiter(id))
      modifies this`loads, this`lastAppendedSegment, this`segmentStates, this`notices, this`cooldowns
      ensures old(notices) <= notices
      ensures Valid()
      ensures AppendSettled(id, old(loads[id].segment), old(loads[id].phase.attempt), ok)
    {
      var ld := loads[id];
      if ok {
        assert id < nextLoad;
        EndLoad(id, Succeeded);
      } else {
        FailAttempt(id);
      }
    }

    /** A failed attempt of load `id` (MSEPlayer.ts lines 297-311). */
    method FailAttempt(id: nat)
      requires Valid() && id in loads && activeListener != Some(LoadWaiter(id))
      requires loads[id].phase.Fetching? || loads[id].phase.Appending?
      modifies this`loads, this`lastAppendedSegment, this`segmentStates, this`notices, this`cooldowns
      ensures old(notices) <= notices
      ensures Valid()
      ensures AttemptFailed(id, old(loads[id].segment), old(loads[id].phase.attempt))
    {
      var ld := loads[id];
      var next := AfterFailure(ld.phase.attempt);
      if next.Some? {
        SetPhase(id, BackingOff(next.value, RetryDelay));
      } else {
        assert id < nextLoad;
        EndLoad(id, GaveUp);
      }
    }

    /** A back-off timer fires: the next attempt's fetch starts, or, when the 2 s wait
        after a 503 followed the third attempt, the load gives up. */
    method OnBackoffFired(id: nat)
      requires Valid() && id in loads && loads[id].phase.BackingOff?
      modifies this`loads, this`lastAppendedSegment, this`segmentStates, this`notices, this`cooldowns
      ensures Valid()
      ensures var ld := old(loads[id]);
        match AfterBackoff(ld.phase.next)
        case Fetch(n) =>
          && loads == old(loads)[id := Load(ld.segment, Fetching(n))]
          && lastAppendedSegment == old(lastAppendedSegment) && segmentStates == old(segmentStates)
          && notices == old(notices) && cooldowns == old(cooldowns)
        case Done(_) => Finished(id, ld.segment, GaveUp)
    {
      var ld := loads[id];
      var n := ld.phase.next;
      if n < MaxRetries {
        assert activeListener != Some(LoadWaiter(id));
        SetPhase(id, Fetching(n));
      } else {
        assert id < nextLoad;
        EndLoad(id, GaveUp);
      }
    }

    /** A segment fetch ends. A 503 waits 2 s and uses up the attempt; an error status,
        a network failure and an empty body are failed attempts; a body arriving after
        `destroy` abandons the load; otherwise the data is appended, at the
        discontinuity offset unless it directly follows the last appended segment. */
    method OnFetchResolved(id: nat, response: SegmentResponse, refusal: Option<string>)
      requires Valid() && id in loads && loads[id].phase.Fetching?
      modifies this`loads, this`lastAppendedSegment, this`segmentStates, this`notices, this`cooldowns,
               this`pendingAppends, this`isAppending, this`activeListener, this`updating, this`submitted,
               this`nextTicket, this`queueLog
      ensures Valid()
      ensures var ld := old(loads[id]);
        var a := ld.phase.attempt;
        && (response == NotReadyResponse ==> BacksOff(id, ld.segment, a + 1, NotReadyDelay) && submitted == old(submitted))
        && (Unusable(response) ==> AttemptFailed(id, ld.segment, a) && submitted == old(submitted))
        && (Usable(response) && old(isDestroyed) ==> Finished(id, ld.segment, Abandoned) && submitted == old(submitted))
        && (Usable(response) && !old(isDestroyed) ==> FetchAppended(id, ld.segment, a, refusal))
    {
      var ld := loads[id];
      var a := ld.phase.attempt;
      if response == NotReadyResponse {
        assert activeListener != Some(LoadWaiter(id));
        SetPhase(id, BackingOff(a + 1, NotReadyDelay));
      } else if Unusable(response) {
        FailAttempt(id);
      } else if isDestroyed {
        assert id < nextLoad;
        EndLoad(id, Abandoned);
      } else {
        AppendFetched(id, refusal);
      }
    }

    /** The data of load `id` arrived and the player is not destroyed: it is appended,
        with no offset when the segment directly follows the last appended one and at
        the segment's start time otherwise. A rejected append is a failed attempt. */
    method AppendFetched(id: nat, refusal: Option<string>)
      requires Valid() && id in loads && loads[id].phase.Fetching? && !isDestroyed
      modifies this`loads, this`lastAppendedSegment, this`segmentStates, this`notices, this`cooldowns,
               this`pendingAppends, this`isAppending, this`activeListener, this`updating, this`submitted,
               this`nextTicket, this`queueLog
      ensures Valid()
      ensures FetchAppended(id, old(loads[id].segment), old(loads[id].phase.attempt), refusal)
    {
      var ld := loads[id];
      var a := ld.phase.attempt;
      var offset := AppendOffset(ld.segment, lastAppendedSegment, segmentDuration);
      var r := StartAppend(LoadWaiter(id), offset, refusal);
      match r
      case Rejected(_) =>
        FailAttempt(id);
      case Queued(t) =>
        SetPhase(id, Appending(a, t, true));
      case Started(t) =>
        AttachLoad(loads, nextLoad, id, Load(ld.segment, Appending(a, t, false)));
        loads := loads[id := Load(ld.segment, Appending(a, t, false))];
    }

    /** The init segment's append settled: on success the init segment counts as
        loaded and the first segment follows; an append error ends start-up with
        `onError`. */
    method InitAppendSettled(ok: bool)
      requires Valid()
      modifies this`loads, this`lastAppendedSegment, this`segmentStates, this`notices, this`cooldowns,
               this`continuations, this`nextLoad, this`loadRequests, this`listening, this`isInitialized, this`boot, this`initSegmentLoaded
      ensures old(notices) <= notices
      ensures Valid()
      ensures InitSettled(ok)
    {
      if ok {
        initSegmentLoaded := true;
        StartFirstSegment();
      } else {
        BootFail(AppendError);
      }
    }

    /** The waiter of a direct append learns how it went. */
    method Settle(listener: Option<Waiter>, ok: bool)
      requires Valid() && activeListener.None? && ListenerValid(listener, loads)
      modifies this`loads, this`lastAppendedSegment, this`segmentStates, this`notices, this`cooldowns,
               this`continuations, this`nextLoad, this`loadRequests, this`listening, this`isInitialized, this`boot, this`initSegmentLoaded
      ensures Valid()
      ensures old(notices) <= notices
      ensures match listener
        case None => notices == old(notices) && loads == old(loads) && segmentStates == old(segmentStates)
        case Some(LoadWaiter(id)) => AppendSettled(id, old(loads[id].segment), old(loads[id].phase.attempt), ok)
        case Some(InitWaiter) => InitSettled(ok)
    {
      match listener
      case None =>
      case Some(InitWaiter) =>
        InitAppendSettled(ok);
      case Some(LoadWaiter(id)) =>
        LoadAppendSettled(id, ok);
    }

    /** The source buffer finishes an update, an append or a removal. An append error
        reaches the buffer's own error listener (`onError`) and rejects the waiter's
        promise; success resolves it. The buffer's own `updateend` listener clears
        `isAppending` and hands the next queued append to the buffer. The browser runs
        the waiter's listener before `updateend` on an error and after it on success;
        the two touch disjoint state, so the order here is immaterial. */
    method OnUpdateEnd(failed: bool, refused: set<nat>)
      requires Valid() && updating
      modifies this`loads, this`lastAppendedSegment, this`segmentStates, this`notices, this`cooldowns,
               this`continuations, this`nextLoad, this`loadRequests, this`listening, this`isInitialized, this`boot, this`initSegmentLoaded,
               this`pendingAppends, this`isAppending, this`activeListener, this`updating, this`submitted, this`dequeued
      ensures Valid()
      ensures Drained(old(pendingAppends), refused, old(submitted), pendingAppends, submitted, updating)
      ensures isAppending == updating
      ensures match old(activeListener)
        case None => notices == (if failed then old(notices) + [Error("SourceBuffer error")] else old(notices))
                     && loads == old(loads) && segmentStates == old(segmentStates)
        case Some(InitWaiter) =>
          if failed then boot == BootFailed && notices == old(notices) + [Error("SourceBuffer error"), Error(AppendError)]
          else InitSettled(true)
        case Some(LoadWaiter(id)) =>
          var seg := old(loads[id].segment);
          if !failed then Finished(id, seg, Succeeded)
          else match AfterFailure(old(loads[id].phase.attempt))
            case Some(n) =>
              && loads == old(loads)[id := Load(seg, BackingOff(n, RetryDelay))] && segmentStates == old(segmentStates)
              && notices == old(notices) + [Error("SourceBuffer error")]
            case None =>
              && loads == old(loads) - {id} && segmentStates == old(segmentStates)[seg := Errored]
              && notices == old(notices) + [Error("SourceBuffer error"), Buffering(false)]
    {
      var listener := EndUpdate(failed, refused);
      Settle(listener, !failed);
    }

    /** The buffer's own listeners: the error listener reports a failed append, and the
        `updateend` listener clears `isAppending` and drains the queue. */
    method EndUpdate(failed: bool, refused: set<nat>) returns (listener: Option<Waiter>)
      requires Valid() && updating
      modifies this`notices, this`pendingAppends, this`isAppending, this`activeListener, this`updating,
               this`submitted, this`dequeued
      ensures Valid() && activeListener.None? && listener == old(activeListener)
      ensures Drained(old(pendingAppends), refused, old(submitted), pendingAppends, submitted, updating)
      ensures isAppending == updating
      ensures notices == if failed then old(notices) + [Error("SourceBuffer error")] else old(notices)
    {
      listener := activeListener;
      activeListener := None;
      updating := false;
      isAppending := false;
      if failed {
        Notify(Error("SourceBuffer error"));
      }
      ProcessPendingAppends(refused);
    }

    /** The 50 ms poll of a queued append's waiter: once the data is no longer in the
        queue the waiter resolves, whether or not the buffer accepted it. */
    method OnWaiterPoll(w: Waiter)
      requires Valid() && activeListener != Some(w)
      requires w.LoadWaiter? ==> w.load in loads && loads[w.load].phase.Appending? && loads[w.load].phase.queued
      requires w == InitWaiter ==> boot.InitAppending? && boot.queued
      modifies this`loads, this`lastAppendedSegment, this`segmentStates, this`notices, this`cooldowns,
               this`continuations, this`nextLoad, this`loadRequests, this`listening, this`isInitialized, this`boot,
               this`initSegmentLoaded
      ensures Valid()
      ensures var t := if w.LoadWaiter? then old(loads[w.load].phase.ticket) else old(boot.ticket);
        && (InQueue(pendingAppends, t) ==>
              loads == old(loads) && boot == old(boot) && notices == old(notices) && segmentStates == old(segmentStates))
        && (!InQueue(pendingAppends, t) && w.LoadWaiter? ==> Finished(w.load, old(loads[w.load].segment), Succeeded))
        && (!InQueue(pendingAppends, t) && w == InitWaiter ==> InitSettled(true))
    {
      match w
      case LoadWaiter(id) =>
        if !InQueue(pendingAppends, loads[id].phase.ticket) {
          LoadAppendSettled(id, true);
        }
      case InitWaiter =>
        if !InQueue(pendingAppends, boot.ticket) {
          InitAppendSettled(true);
        }
    }

    /** `initialize` up to its wait for the manifest: a destroyed player and a browser
        without MediaSource throw at once; otherwise the manifest fetch starts. */
    method Initialize(mseSupported: bool) returns (thrown: Option<string>)
      modifies this`manifestPending
      ensures old(isDestroyed) ==> thrown == Some("Player has been destroyed") && manifestPending == old(manifestPending)
      ensures !old(isDestroyed) && !mseSupported ==>
        thrown == Some("MediaSource Extensions not supported") && manifestPending == old(manifestPending)
      ensures !old(isDestroyed) && mseSupported ==> thrown.None? && manifestPending
    {
      if isDestroyed {
        return Some("Player has been destroyed");
      }
      if !mseSupported {
        return Some("MediaSource Extensions not supported");
      }
      manifestPending := true;
      return None;
    }

    /** The manifest fetch of `initialize` ends. A status other than 2xx and a failed
        fetch are reported to `onError` and thrown. Otherwise the manifest sets the
        segment duration (6 when it gives none) and the total duration, and the
        manifest's MIME type is used if supported, else the first supported fallback.
        Nothing here checks whether the player was destroyed during the fetch, so a
        `destroy` in that window is followed by a new media source. */
    method OnManifestFetched(manifest: ManifestResponse, supported: string -> bool) returns (thrown: Option<string>)
      requires Valid() && manifestPending
      modifies this`segmentDuration, this`totalDuration, this`mimeType, this`hasManifest, this`hasMediaSource,
               this`notices, this`manifestPending
      ensures Valid() && !manifestPending
      ensures match manifest
        case ManifestStatus(status) =>
          thrown == Some("Failed to fetch manifest: " + Strings.DecimalText(status)) && notices == old(notices) + [Error(thrown.value)]
          && hasMediaSource == old(hasMediaSource)
        case ManifestFailure(message) =>
          thrown == Some(message) && notices == old(notices) + [Error(message)] && hasMediaSource == old(hasMediaSource)
        case ManifestBody(m) => ManifestApplied(m, ChooseMime(m.mimeType, supported), thrown, old(notices))
    {
      manifestPending := false;
      match manifest
      case ManifestStatus(status) =>
        var message := "Failed to fetch manifest: " + Strings.DecimalText(status);
        Notify(Error(message));
        return Some(message);
      case ManifestFailure(message) =>
        Notify(Error(message));
        return Some(message);
      case ManifestBody(m) =>
        var choice := ChooseMime(m.mimeType, supported);
        thrown := ApplyManifest(m, choice);
    }

    /** What a manifest leaves behind: its durations, and either the MIME type chosen
        with the media source created, or the error reported. */
    ghost predicate ManifestApplied(m: Manifest, choice: Result<string, string>, thrown: Option<string>, before: seq<Notice>)
      reads this`segmentDuration, this`totalDuration, this`hasManifest, this`mimeType, this`hasMediaSource, this`notices
    {
      && segmentDuration == SegmentDurationOf(m.segmentDuration) && totalDuration == m.duration && hasManifest
      && (choice.Success? ==> thrown.None? && mimeType == choice.value && hasMediaSource && notices == before)
      && (choice.Failure? ==> thrown == Some(choice.error) && notices == before + [Error(choice.error)])
    }

    /** The manifest part of `initialize` (MSEPlayer.ts lines 91-122), given the outcome of
        the MIME type choice. */
    method ApplyManifest(m: Manifest, choice: Result<string, string>) returns (thrown: Option<string>)
      requires Valid()
      modifies this`segmentDuration, this`totalDuration, this`mimeType, this`hasManifest, this`hasMediaSource, this`notices
      ensures Valid()
      ensures ManifestApplied(m, choice, thrown, old(notices))
    {
      hasManifest := true;
      segmentDuration := SegmentDurationOf(m.segmentDuration);
      totalDuration := m.duration;
      if choice.Failure? {
        Notify(Error(choice.error));
        return Some(choice.error);
      }
      mimeType := choice.value;
      hasMediaSource := true;
      return None;
    }

    /** "sourceopen": unless destroyed or not set up, the source buffer is created (its
        refusal goes to `onError`) and the init segment is fetched, unless it was
        already loaded, in which case the first segment follows at once. */
    method OnSourceOpen(addRefusal: Option<string>)
      requires Valid() && !updating
      modifies this`hasSourceBuffer, this`notices, this`boot, this`continuations, this`segmentStates, this`loads,
               this`nextLoad, this`loadRequests, this`listening, this`isInitialized
      ensures Valid()
      ensures old(isDestroyed) || !hasMediaSource || !hasManifest ==>
        hasSourceBuffer == old(hasSourceBuffer) && notices == old(notices) && boot == old(boot) && loadRequests == old(loadRequests)
      ensures !old(isDestroyed) && hasMediaSource && hasManifest && addRefusal.Some? ==>
        notices == old(notices) + [Error(addRefusal.value)] && boot == BootFailed && hasSourceBuffer == old(hasSourceBuffer)
      ensures !old(isDestroyed) && hasMediaSource && hasManifest && addRefusal.None? ==>
        hasSourceBuffer
        && (!initSegmentLoaded ==> boot == InitFetching && loadRequests == old(loadRequests))
        && (initSegmentLoaded ==> loadRequests == old(loadRequests) + [0])
    {
      if isDestroyed || !hasMediaSource || !hasManifest {
        return;
      }
      if addRefusal.Some? {
        BootFail(addRefusal.value);
        return;
      }
      AddSourceBuffer();
      if initSegmentLoaded {
        StartFirstSegment();
      } else {
        SetBoot(InitFetching);
      }
    }

    /** `mediaSource.addSourceBuffer` succeeded. */
    method AddSourceBuffer()
      requires Valid() && !isDestroyed
      modifies this`hasSourceBuffer
      ensures Valid() && hasSourceBuffer
    {
      hasSourceBuffer := true;
    }

    /** Moves start-up to stage `b`. */
    method SetBoot(b: Boot)
      requires Valid()
      modifies this`boot
      ensures Valid() && boot == b
    {
      boot := b;
    }

    /** The init-segment fetch ends. A failed fetch goes to `onError` and start-up
        stops; otherwise `lastAppendedSegment` is reset to -1 and the data is appended
        with no offset. */
    method OnInitFetched(response: InitResponse, refusal: Option<string>)
      requires Valid() && boot == InitFetching
      modifies this`lastAppendedSegment, this`pendingAppends, this`isAppending, this`activeListener, this`updating,
               this`submitted, this`nextTicket, this`queueLog, this`notices, this`boot
      ensures Valid()
      ensures response.InitStatus? ==>
        notices == old(notices) + [Error("Failed to fetch init segment: " + Strings.DecimalText(response.status))]
        && boot == BootFailed && submitted == old(submitted)
      ensures response.InitNetworkError? ==>
        notices == old(notices) + [Error(response.message)] && boot == BootFailed && submitted == old(submitted)
      ensures response == InitBody ==> lastAppendedSegment == -1
      ensures response == InitBody && old(hasSourceBuffer) && !isDestroyed && !old(updating) && !old(isAppending) && refusal.None? ==>
        submitted == old(submitted) + [Submission(old(nextTicket), None)] && boot == InitAppending(old(nextTicket), false)
      ensures response == InitBody && old(hasSourceBuffer) && !isDestroyed && (old(updating) || old(isAppending)) ==>
        pendingAppends == old(pendingAppends) + [PendingAppend(old(nextTicket), None)] && boot == InitAppending(old(nextTicket), true)
      ensures response == InitBody && (!old(hasSourceBuffer) || isDestroyed) ==>
        notices == old(notices) + [Error(NotAvailable)] && boot == BootFailed
    {
      match response
      case InitStatus(status) =>
        BootFail("Failed to fetch init segment: " + Strings.DecimalText(status));
      case InitNetworkError(message) =>
        BootFail(message);
      case InitBody =>
        lastAppendedSegment := -1;
        var r := StartAppend(InitWaiter, None, refusal);
        match r
        case Rejected(message) =>
          BootFail(message);
        case Queued(t) =>
          SetBoot(InitAppending(t, true));
        case Started(t) =>
          SetBoot(InitAppending(t, false));
    }

    /** The source buffer's `remove`: like an append, only one update runs at a time. */
    method Remove(start: int, end: int)
      requires !updating
      modifies this`updating, this`removals
      ensures updating && removals == old(removals) + [(start, end)]
    {
      updating := true;
      removals := removals + [(start, end)];
    }

    /** `cleanupOldBuffers`: unless there is no source buffer, it is updating or the
        player is destroyed, the first buffered range with a non-empty part more than
        30 s behind `now` (and whose removal the buffer does not refuse) has that part
        removed, and the table forgets every segment from the one containing its start
        to the one containing its end. */
    method CleanupOldBuffers(now: int, ranges: seq<(int, int)>, refused: set<nat>)
      requires Valid()
      modifies this`updating, this`removals, this`segmentStates
      ensures Valid()
      ensures !old(hasSourceBuffer) || old(updating) || isDestroyed ==>
        updating == old(updating) && removals == old(removals) && segmentStates == old(segmentStates)
      ensures old(hasSourceBuffer) && !old(updating) && !isDestroyed ==>
        match EvictionTarget(ranges, now, refused, 0)
        case None => !updating && removals == old(removals) && segmentStates == old(segmentStates)
        case Some((_, start, end)) =>
          updating && removals == old(removals) + [(start, end)]
          && segmentStates == ForgetSegments(old(segmentStates), SegmentAt(start, segmentDuration), SegmentAt(end, segmentDuration))
    {
      if !hasSourceBuffer || updating || isDestroyed {
        return;
      }
      var i := 0;
      while i < |ranges|
        invariant 0 <= i <= |ranges|
        invariant EvictionTarget(ranges, now, refused, 0) == EvictionTarget(ranges, now, refused, i)
        invariant !updating && removals == old(removals) && segmentStates == old(segmentStates)
        decreases |ranges| - i
      {
        var start := ranges[i].0;
        var end := Min(ranges[i].1, now - CleanupThreshold);
        if end > start && i !in refused {
          Remove(start, end);
          var first := SegmentAt(start, segmentDuration);
          var last := SegmentAt(end, segmentDuration);
          ForgetAll(first, last);
          return;
        }
        i := i + 1;
      }
    }

    /** The deletion loop of `cleanupOldBuffers`. */
    method ForgetAll(first: int, last: int)
      modifies this`segmentStates
      ensures segmentStates == ForgetSegments(old(segmentStates), first, last)
    {
      var s := first;
      while s <= last
        invariant first <= s && (s <= last + 1 || s == first)
        invariant segmentStates == ForgetSegments(old(segmentStates), first, s - 1)
        decreases last - s
      {
        segmentStates := segmentStates - {s};
        s := s + 1;
      }
      assert segmentStates == ForgetSegments(old(segmentStates), first, last);
    }

    /** "timeupdate" at `now`: the segment after the current one is requested unless it
        is loading or loaded, and past the first minute, on every fifth segment, old
        buffered data is evicted. */
    method OnTimeUpdate(now: int, ranges: seq<(int, int)>, refused: set<nat>)
      requires Valid() && listening
      modifies this`segmentStates, this`notices, this`loads, this`nextLoad, this`loadRequests, this`updating, this`removals
      ensures Valid()
      ensures var current := SegmentAt(now, segmentDuration);
        var requested := old(isInitialized) && !isDestroyed
                         && (current + 1 !in old(segmentStates) || old(segmentStates)[current + 1] == Errored);
        var started := requested && old(Admits(current + 1));
        var requestedStates := if started then old(segmentStates)[current + 1 := Loading] else old(segmentStates);
        var cleans := old(isInitialized) && !isDestroyed && now > CleanupAfter && current % CleanupEvery == 0
                      && old(hasSourceBuffer) && !old(updating);
        && loadRequests == old(loadRequests) + (if requested then [current + 1] else [])
        && notices == old(notices) + (if started then [Buffering(true)] else [])
        && (!cleans ==> updating == old(updating) && removals == old(removals) && segmentStates == requestedStates)
        && (cleans ==>
              match EvictionTarget(ranges, now, refused, 0)
              case None => !updating && removals == old(removals) && segmentStates == requestedStates
              case Some((_, start, end)) =>
                updating && removals == old(removals) + [(start, end)]
                && segmentStates == ForgetSegments(requestedStates, SegmentAt(start, segmentDuration), SegmentAt(end, segmentDuration)))
    {
      if !isInitialized || isDestroyed {
        return;
      }
      var current := SegmentAt(now, segmentDuration);
      var next := current + 1;
      if next !in segmentStates || segmentStates[next] == Errored {
        var _ := LoadSegment(next);
      }
      if now > CleanupAfter && current % CleanupEvery == 0 {
        CleanupOldBuffers(now, ranges, refused);
      }
    }

    /** "seeking" to `now`: the target segment is loaded unless it is already loaded,
        and after that load ends the next segment is requested; when no load of the
        target starts, the next segment is requested at once. */
    method OnSeeking(now: int)
      requires Valid() && listening
      modifies this`segmentStates, this`notices, this`loads, this`nextLoad, this`loadRequests, this`continuations
      ensures Valid()
      ensures var target := SegmentAt(now, segmentDuration);
        && (!old(isInitialized) || isDestroyed ==> loadRequests == old(loadRequests) && continuations == old(continuations))
        && (old(isInitialized) && !isDestroyed && target in old(segmentStates) && old(segmentStates)[target] == Loaded ==>
              loadRequests == old(loadRequests) + [target + 1] && continuations == old(continuations))
        && (old(isInitialized) && !isDestroyed && !(target in old(segmentStates) && old(segmentStates)[target] == Loaded) ==>
              if old(Admits(target))
              then loadRequests == old(loadRequests) + [target]
                   && continuations == old(continuations)[old(nextLoad) := ThenLoad(target + 1)]
              else loadRequests == old(loadRequests) + [target, target + 1] && continuations == old(continuations))
    {
      if !isInitialized || isDestroyed {
        return;
      }
      var target := SegmentAt(now, segmentDuration);
      if !(target in segmentStates && segmentStates[target] == Loaded) {
        var id := LoadSegment(target);
        if id.Some? {
          Await(id.value, ThenLoad(target + 1));
          return;
        }
      }
      var _ := LoadSegment(target + 1);
    }

    /** "waiting" at `now`: buffering is reported, error entries of the current and the
        next segment are cleared and both are requested. Unlike the other handlers it
        does not check whether the player is initialized or destroyed. */
    method OnWaiting(now: int)
      requires Valid() && listening
      modifies this`segmentStates, this`notices, this`loads, this`nextLoad, this`loadRequests
      ensures Valid()
      ensures var target := SegmentAt(now, segmentDuration);
        loadRequests == old(loadRequests) + [target, target + 1]
      ensures old(notices) + [Buffering(true)] <= notices
      ensures var target := SegmentAt(now, segmentDuration);
        && (target in segmentStates ==> segmentStates[target] != Errored)
        && (target + 1 in segmentStates ==> segmentStates[target + 1] != Errored)
      ensures var target := SegmentAt(now, segmentDuration);
        !isDestroyed && 0 <= target && target + 1 < SegmentCount(totalDuration, segmentDuration) ==>
          Busy(segmentStates, target) && Busy(segmentStates, target + 1)
    {
      Notify(Buffering(true));
      var target := SegmentAt(now, segmentDuration);
      Retry(target);
      Retry(target + 1);
    }

    /** One half of "waiting": an error entry of segment i is cleared, then i is
        requested. Afterwards i is not an error, it is loading or loaded whenever it
        lies in the stream and the player is not destroyed, and other entries are as
        they were. */
    method Retry(i: int)
      requires Valid()
      modifies this`segmentStates, this`notices, this`loads, this`nextLoad, this`loadRequests
      ensures Valid()
      ensures loadRequests == old(loadRequests) + [i]
      ensures old(notices) <= notices
      ensures i in segmentStates ==> segmentStates[i] != Errored
      ensures !isDestroyed && 0 <= i < SegmentCount(totalDuration, segmentDuration) ==> Busy(segmentStates, i)
      ensures forall j :: j != i ==> (j in segmentStates <==> j in old(segmentStates))
      ensures forall j :: j != i && j in segmentStates ==> segmentStates[j] == old(segmentStates)[j]
    {
      if i in segmentStates && segmentStates[i] == Errored {
        segmentStates := segmentStates - {i};
      }
      var _ := LoadSegment(i);
    }

    /** "playing": buffering is over. */
    method OnPlaying()
      requires listening
      modifies this`notices
      ensures notices == old(notices) + [Buffering(false)]
    {
      Notify(Buffering(false));
    }

    /** `getDuration`. */
    function Duration(): nat
      reads this`totalDuration
    {
      totalDuration
    }

    /** `isBuffered`: whether `time` lies in one of the buffered ranges, ends included. */
    method IsBuffered(time: int, ranges: seq<(int, int)>) returns (b: bool)
      ensures b <==> exists k :: 0 <= k < |ranges| && ranges[k].0 <= time <= ranges[k].1
    {
      var i := 0;
      while i < |ranges|
        invariant 0 <= i <= |ranges|
        invariant forall k :: 0 <= k < i ==> !(ranges[k].0 <= time <= ranges[k].1)
      {
        if ranges[i].0 <= time && time <= ranges[i].1 {
          return true;
        }
        i := i + 1;
      }
      return false;
    }
  }
}
