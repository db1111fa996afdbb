/** The decisions of the MediaSource player (src/utils/MSEPlayer.ts) as pure functions:
    segment arithmetic on whole seconds, the MIME fallback, the discontinuity offset,
    the retry policy of a segment load, and which buffered range an eviction removes.
    The player class in `Mse` makes these decisions through these functions. */
module MseSpec {
  import opened Wrappers

  datatype SegState = Loading | Loaded | Errored

  const MaxRetries := 3
  const DefaultSegmentDuration := 6
  const NotReadyDelay := 2000
  const RetryDelay := 1000
  const ErrorCooldown := 5000
  const CleanupThreshold := 30
  const CleanupAfter := 60
  const CleanupEvery := 5

  const FallbackMimeTypes: seq<string> := [
    "video/mp4; codecs=\"avc1.42E01E, mp4a.40.2\"",
    "video/mp4; codecs=\"avc1.4D401E, mp4a.40.2\"",
    "video/mp4"
  ]

  /** `find`: the position of the first candidate the browser supports. */
  function FirstSupported(candidates: seq<string>, supported: string -> bool): (r: Option<nat>)
    ensures r.Some? ==> r.value < |candidates| && supported(candidates[r.value])
    ensures r.Some? ==> forall j :: 0 <= j < r.value ==> !supported(candidates[j])
    ensures r.None? <==> forall j :: 0 <= j < |candidates| ==> !supported(candidates[j])
    decreases |candidates|
  {
    if |candidates| == 0 then None
    else if supported(candidates[0]) then Some(0)
    else match FirstSupported(candidates[1..], supported)
      case None => None
      case Some(k) => Some(k + 1)
  }

  /** The MIME type the source buffer is created with: the manifest's when supported,
      else the first supported fallback, else the error `initialize` throws. */
  function ChooseMime(manifestMime: string, supported: string -> bool): (r: Result<string, string>)
    ensures r.Success? ==> supported(r.value)
    ensures r.Success? && r.value != manifestMime ==> !supported(manifestMime) && r.value in FallbackMimeTypes
    ensures r.Failure? <==> !supported(manifestMime) && forall m :: m in FallbackMimeTypes ==> !supported(m)
    ensures r.Failure? ==> r.error == "No supported MIME type found"
  {
    if supported(manifestMime) then Success(manifestMime)
    else match FirstSupported(FallbackMimeTypes, supported)
      case None => Failure("No supported MIME type found")
      case Some(k) => Success(FallbackMimeTypes[k])
  }

  /** `manifest.segmentDuration || 6`. */
  function SegmentDurationOf(manifestValue: nat): (d: nat)
    ensures d > 0
    ensures manifestValue > 0 ==> d == manifestValue
  {
    if manifestValue == 0 then DefaultSegmentDuration else manifestValue
  }

  /** `Math.ceil(total / d)`: the number of segments. */
  function SegmentCount(total: nat, d: nat): (n: nat)
    requires d > 0
    ensures n * d >= total
    ensures n > 0 ==> (n - 1) * d < total
  {
    (total + d - 1) / d
  }

  /** A segment index is loadable exactly when the segment starts before the end of the
      stream. */
  lemma InRangeIff(i: int, total: nat, d: nat)
    requires d > 0
    ensures 0 <= i < SegmentCount(total, d) <==> 0 <= i && i * d < total
  {
    var n := SegmentCount(total, d);
    if 0 <= i < n {
      assert i <= n - 1;
      assert i * d <= (n - 1) * d;
    }
    if n <= i {
      MulMono(n, i, d);
    }
  }

  /** `Math.floor(t / d)`: the segment holding time t. */
  function SegmentAt(t: int, d: nat): (i: int)
    requires d > 0
    ensures i * d <= t < (i + 1) * d
  {
    t / d
  }

  /** The `timestampOffset` an append is made with: none when the segment follows the
      last appended one (the buffer's sequence mode places it), otherwise the segment's
      own start time. */
  function AppendOffset(i: int, lastAppended: int, d: nat): (offset: Option<int>)
    ensures offset.None? <==> i == lastAppended + 1
    ensures offset.Some? ==> offset.value == i * d
  {
    if i == lastAppended + 1 then None else Some(i * d)
  }

  /** How one fetch attempt of a segment ends: the server answered 503, the attempt
      failed (another error status, an empty body, a network error, or the append was
      rejected), or the data was appended. */
  datatype Attempt = NotReady | Failed | Appended

  /** Where a load stands: about to make fetch attempt `attempt`, or finished. */
  datatype LoadStep = Fetch(attempt: nat) | Done(loaded: bool)

  /** What follows attempt `attempt`, once any back-off timer has fired. A 503 waits and
      then moves to the next attempt, giving up when none is left; any other failure
      waits only when another attempt is left. Either way the attempt is used up. */
  function Next(attempt: nat, a: Attempt): (s: LoadStep)
    ensures a == Appended ==> s == Done(true)
    ensures a != Appended ==> s == (if attempt + 1 < MaxRetries then Fetch(attempt + 1) else Done(false))
  {
    match a
    case Appended => Done(true)
    case NotReady => if attempt + 1 < MaxRetries then Fetch(attempt + 1) else Done(false)
    case Failed => if attempt < MaxRetries - 1 then Fetch(attempt + 1) else Done(false)
  }

  /** The load driven by the outcomes of its attempts, from attempt `attempt` on. */
  function RunFrom(attempt: nat, outcomes: seq<Attempt>): LoadStep
    decreases |outcomes|
  {
    if |outcomes| == 0 then Fetch(attempt)
    else match Next(attempt, outcomes[0])
      case Fetch(n) => RunFrom(n, outcomes[1..])
      case Done(b) => Done(b)
  }

  function Run(outcomes: seq<Attempt>): LoadStep {
    RunFrom(0, outcomes)
  }

  /** Three 503 answers in a row end the load in failure: the 503 does not get attempts
      of its own. */
  lemma ThreeNotReadyFail()
    ensures Run([NotReady, NotReady, NotReady]) == Done(false)
  {
    assert [NotReady, NotReady, NotReady][1..] == [NotReady, NotReady];
    assert [NotReady, NotReady][1..] == [NotReady];
  }

  /** A load is still fetching only at an attempt below three: there are never more
      than three fetches. */
  lemma {:induction false} AttemptsBounded(attempt: nat, outcomes: seq<Attempt>)
    requires attempt < MaxRetries
    ensures RunFrom(attempt, outcomes).Fetch? ==> RunFrom(attempt, outcomes).attempt < MaxRetries
    ensures RunFrom(attempt, outcomes).Fetch? ==> |outcomes| < MaxRetries - attempt
    decreases |outcomes|
  {
    if |outcomes| > 0 {
      match Next(attempt, outcomes[0])
      case Fetch(n) => AttemptsBounded(n, outcomes[1..]);
      case Done(_) =>
    }
  }

  /** A load succeeds exactly when one of its first three attempts appends data; the
      attempts before it all failed or found the data not ready. */
  lemma {:induction false} LoadedIff(attempt: nat, outcomes: seq<Attempt>)
    requires attempt < MaxRetries
    ensures RunFrom(attempt, outcomes) == Done(true) <==>
      exists k :: 0 <= k < |outcomes| && attempt + k < MaxRetries && outcomes[k] == Appended
        && forall j :: 0 <= j < k ==> outcomes[j] != Appended
    decreases |outcomes|
  {
    if |outcomes| > 0 {
      var rest := outcomes[1..];
      if outcomes[0] == Appended {
        assert 0 < |outcomes| && attempt + 0 < MaxRetries && outcomes[0] == Appended;
      } else if attempt + 1 < MaxRetries {
        LoadedIff(attempt + 1, rest);
        if RunFrom(attempt, outcomes) == Done(true) {
          var k :| 0 <= k < |rest| && attempt + 1 + k < MaxRetries && rest[k] == Appended
            && forall j :: 0 <= j < k ==> rest[j] != Appended;
          assert outcomes[k + 1] == rest[k];
          assert forall j :: 0 <= j < k + 1 ==> outcomes[j] != Appended by {
            forall j | 0 <= j < k + 1 ensures outcomes[j] != Appended {
              if j > 0 { assert outcomes[j] == rest[j - 1]; }
            }
          }
        }
        if exists k :: (0 <= k < |outcomes| && attempt + k < MaxRetries && outcomes[k] == Appended
          && forall j :: 0 <= j < k ==> outcomes[j] != Appended)
        {
          var k :| 0 <= k < |outcomes| && attempt + k < MaxRetries && outcomes[k] == Appended
            && forall j :: 0 <= j < k ==> outcomes[j] != Appended;
          assert k > 0;
          assert rest[k - 1] == outcomes[k];
          assert forall j :: 0 <= j < k - 1 ==> rest[j] != Appended by {
            forall j | 0 <= j < k - 1 ensures rest[j] != Appended {
              assert rest[j] == outcomes[j + 1];
            }
          }
        }
      } else {
        assert RunFrom(attempt, outcomes) == Done(false);
      }
    }
  }

  /** The range an eviction removes: among the buffered ranges, in order, the first
      whose part older than `now - 30` is non-empty and whose removal the buffer
      accepts; a refused removal moves on to the next range. The result is the range's
      position, its start and the end of the removed part. */
  function EvictionTarget(ranges: seq<(int, int)>, now: int, refused: set<nat>, from: nat): (r: Option<(nat, int, int)>)
    requires from <= |ranges|
    ensures r.Some? ==> from <= r.value.0 < |ranges| && r.value.0 !in refused
    ensures r.Some? ==> r.value.1 == ranges[r.value.0].0
    ensures r.Some? ==> r.value.2 == Min(ranges[r.value.0].1, now - CleanupThreshold)
    ensures r.Some? ==> r.value.1 < r.value.2 <= now - CleanupThreshold
    ensures forall j :: from <= j < (if r.Some? then r.value.0 else |ranges|) ==>
      j in refused || Min(ranges[j].1, now - CleanupThreshold) <= ranges[j].0
    decreases |ranges| - from
  {
    if from == |ranges| then None
    else
      var start := ranges[from].0;
      var end := Min(ranges[from].1, now - CleanupThreshold);
      if end > start && from !in refused then Some((from, start, end))
      else EvictionTarget(ranges, now, refused, from + 1)
  }

  function Min(a: int, b: int): int {
    if a < b then a else b
  }

  /** The segment table after an eviction of [start, end]: every segment from the one
      holding `start` to the one holding `end` is forgotten, the rest kept. */
  function ForgetSegments(states: map<int, SegState>, first: int, last: int): (r: map<int, SegState>)
    ensures forall s :: s in r <==> s in states && !(first <= s <= last)
    ensures forall s :: s in r ==> r[s] == states[s]
  {
    map s | s in states && !(first <= s <= last) :: states[s]
  }

  /** The segments an eviction forgets all start no later than `now - 30`, though the
      last of them may run past it. */
  lemma EvictionKeepsRecent(ranges: seq<(int, int)>, now: int, refused: set<nat>, d: nat, s: int)
    requires d > 0
    requires EvictionTarget(ranges, now, refused, 0).Some?
    requires var t := EvictionTarget(ranges, now, refused, 0).value;
      SegmentAt(t.1, d) <= s <= SegmentAt(t.2, d)
    ensures s * d <= now - CleanupThreshold
  {
    var t := EvictionTarget(ranges, now, refused, 0).value;
    assert s * d <= SegmentAt(t.2, d) * d by {
      MulMono(s, SegmentAt(t.2, d), d);
    }
  }

  lemma MulMono(a: int, b: int, d: nat)
    requires a <= b
    ensures a * d <= b * d
  {
  }
}
