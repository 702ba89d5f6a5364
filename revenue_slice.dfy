/**
  The revenue store (src/store/revenueSlice.ts): a state record
  `{status, error, data}`, the three transitions of the fetch lifecycle
  (pending, fulfilled, rejected) and the per-range selector.

  The HTTP request inside `fetchRevenue` is abstracted to its outcome: the
  store only ever sees a `Fulfilled(payload)` or a `Rejected(message)`
  action. A sequence of actions is folded with `Run`, which lets the lemmas
  below talk about any order of dispatches, including overlapping loads.
*/
module RevenueSlice {
  import opened Wrappers

  /** The three reporting windows: "today", "7d" and "30d". */
  datatype RangeKey = Today | Last7Days | Last30Days

  /** A `{label, value}` point; `label` is a Dafny keyword, so the field is `name`. */
  datatype RevenuePoint = RevenuePoint(name: string, value: int)

  datatype Status = Idle | Loading | Succeeded | Failed

  /**
    The store's `data` record. The fulfilled payload is JSON cast to
    `Record<RangeKey, RevenuePoint[]>` without a check, so a key may be missing.
  */
  type RangeData = map<RangeKey, seq<RevenuePoint>>

  datatype RevenueState = RevenueState(status: Status, error: Option<string>, data: RangeData)

  /** The actions `fetchRevenue` dispatches: its pending, fulfilled and rejected cases. */
  datatype Action = Pending | Fulfilled(payload: RangeData) | Rejected(message: string)

  /** What one call of `fetchRevenue` settles to. */
  datatype Outcome = Payload(data: RangeData) | Failure(message: string)

  predicate HasAllRanges(data: RangeData) {
    Today in data && Last7Days in data && Last30Days in data
  }

  /** Status `idle`, no error, and each of the three ranges mapped to an empty sequence. */
  function InitialState(): (s: RevenueState)
    ensures s.status == Idle && s.error == None
    ensures HasAllRanges(s.data)
    ensures forall k :: k in s.data ==> s.data[k] == []
  {
    RevenueState(Idle, None, map[Today := [], Last7Days := [], Last30Days := []])
  }

  /** The reducer: the three cases of `extraReducers`. */
  function Reduce(s: RevenueState, a: Action): (r: RevenueState)
    ensures r.status != Idle
    ensures r.status == Failed <==> a.Rejected?
    ensures r.status == Loading ==> r.error == None
    ensures r.data != s.data ==> a.Fulfilled?
    ensures r.error != s.error ==> !a.Fulfilled?
  {
    match a
    case Pending => s.(status := Loading, error := None)
    case Fulfilled(payload) => s.(status := Succeeded, data := payload)
    case Rejected(message) => s.(status := Failed, error := Some(message))
  }

  /** The state after dispatching `actions` in order, starting from `s`. */
  function Run(s: RevenueState, actions: seq<Action>): (r: RevenueState)
    ensures actions != [] ==> r.status != Idle
    ensures r.status == Idle ==> r == s
    decreases |actions|
  {
    if actions == [] then s
    else Reduce(Run(s, actions[..|actions| - 1]), actions[|actions| - 1])
  }

  /** `data[key] ?? []`. */
  function SelectRevenueForRange(s: RevenueState, key: RangeKey): (points: seq<RevenuePoint>)
    ensures HasAllRanges(s.data) ==> key in s.data && points == s.data[key]
    ensures key !in s.data ==> points == []
  {
    if key in s.data then s.data[key]
    else
      // The three range keys are all the keys there are, so a missing one means the record is not full.
      assert key.Today? || key.Last7Days? || key.Last30Days?;
      []
  }

  /** The actions one call of `fetchRevenue` dispatches. */
  function Settle(o: Outcome): (a: Action)
    ensures a != Pending
    ensures a.Fulfilled? <==> o.Payload?
    ensures o.Payload? ==> a == Fulfilled(o.data)
    ensures o.Failure? ==> a == Rejected(o.message)
  {
    match o
    case Payload(data) => Fulfilled(data)
    case Failure(message) => Rejected(message)
  }

  /** Loads that do not overlap: each pending is followed by its own outcome before the next load starts. */
  function SequentialLoads(outcomes: seq<Outcome>): (actions: seq<Action>)
    ensures |actions| == 2 * |outcomes|
    decreases |outcomes|
  {
    if outcomes == [] then []
    else SequentialLoads(outcomes[..|outcomes| - 1]) + [Pending, Settle(outcomes[|outcomes| - 1])]
  }

  /**
    The store's intended invariant: an error is present exactly when the
    status is failed. The fulfilled case does not clear the error, so the
    reducers keep it only while loads do not overlap.
  */
  predicate ErrorIffFailed(s: RevenueState) {
    s.error.Some? <==> s.status == Failed
  }

  /**
    The store object. Each case reducer assigns the fields of the draft state
    in place; `State()` is its value as a `RevenueState`.
  */
  class RevenueStore {
    var status: Status
    var error: Option<string>
    var data: RangeData

    function State(): RevenueState
      reads this
    {
      RevenueState(status, error, data)
    }

    constructor ()
      ensures State() == InitialState()
    {
      status := Idle;
      error := None;
      data := map[Today := [], Last7Days := [], Last30Days := []];
    }

    method OnPending()
      modifies this
      ensures status == Loading && error == None && data == old(data)
      ensures State() == Reduce(old(State()), Pending)
    {
      status := Loading;
      error := None;
    }

    method OnFulfilled(payload: RangeData)
      modifies this
      ensures status == Succeeded && data == payload && error == old(error)
      ensures State() == Reduce(old(State()), Fulfilled(payload))
    {
      status := Succeeded;
      data := payload;
    }

    method OnRejected(message: string)
      modifies this
      ensures status == Failed && error == Some(message) && data == old(data)
      ensures State() == Reduce(old(State()), Rejected(message))
    {
      status := Failed;
      error := Some(message);
    }

    /** Routes an action to its case reducer, as the slice's reducer does. */
    method Dispatch(a: Action)
      modifies this
      ensures State() == Reduce(old(State()), a)
    {
      match a
      case Pending => OnPending();
      case Fulfilled(payload) => OnFulfilled(payload);
      case Rejected(message) => OnRejected(message);
    }
  }

  /** Dispatching `a` and then `b` is dispatching `a + b`. */
  lemma {:induction false} RunAppend(s: RevenueState, a: seq<Action>, b: seq<Action>)
    ensures Run(s, a + b) == Run(Run(s, a), b)
    decreases |b|
  {
    if b == [] {
      assert a + b == a;
    } else {
      var n := |b| - 1;
      assert (a + b)[..|a + b| - 1] == a + b[..n];
      RunAppend(s, a, b[..n]);
    }
  }

  /** The status is decided by the last action alone. */
  lemma RunStatus(s: RevenueState, actions: seq<Action>)
    ensures actions == [] ==> Run(s, actions).status == s.status
    ensures actions != [] && actions[|actions| - 1].Pending? ==> Run(s, actions).status == Loading
    ensures actions != [] && actions[|actions| - 1].Fulfilled? ==> Run(s, actions).status == Succeeded
    ensures actions != [] && actions[|actions| - 1].Rejected? ==> Run(s, actions).status == Failed
  {
  }

  /** `i` is the index of the last `fulfilled` action in `actions`. */
  predicate IsLastFulfilled(actions: seq<Action>, i: int) {
    0 <= i < |actions| && actions[i].Fulfilled? &&
    forall j :: i < j < |actions| ==> !actions[j].Fulfilled?
  }

  /** `i` is the index of the last `pending` or `rejected` action in `actions`. */
  predicate IsLastErrorWrite(actions: seq<Action>, i: int) {
    0 <= i < |actions| && !actions[i].Fulfilled? &&
    forall j :: i < j < |actions| ==> actions[j].Fulfilled?
  }

  /**
    Only `fulfilled` writes `data`, and it replaces it wholesale: after any
    sequence of actions, `data` is the payload of the last `fulfilled`
    (last applied wins, whatever order the loads were started in).
  */
  lemma {:induction false} LastFulfilledWins(s: RevenueState, actions: seq<Action>, i: int)
    requires IsLastFulfilled(actions, i)
    ensures Run(s, actions).data == actions[i].payload
    decreases |actions|
  {
    var n := |actions| - 1;
    if i < n {
      assert IsLastFulfilled(actions[..n], i);
      LastFulfilledWins(s, actions[..n], i);
    }
  }

  /** Without a `fulfilled` action the data is the data the sequence started with: rejections keep stale data. */
  lemma {:induction false} DataKeptWithoutFulfilled(s: RevenueState, actions: seq<Action>)
    requires forall i :: 0 <= i < |actions| ==> !actions[i].Fulfilled?
    ensures Run(s, actions).data == s.data
    decreases |actions|
  {
    if actions != [] {
      var n := |actions| - 1;
      assert forall i :: 0 <= i < n ==> !actions[..n][i].Fulfilled? by {
        forall i | 0 <= i < n ensures actions[..n][i] == actions[i] { }
      }
      DataKeptWithoutFulfilled(s, actions[..n]);
    }
  }

  /**
    Only `pending` (which clears it) and `rejected` (which sets it) write
    `error`: the error is decided by the last of those two kinds of action.
  */
  lemma {:induction false} ErrorFollowsLastPendingOrRejected(s: RevenueState, actions: seq<Action>, i: int)
    requires IsLastErrorWrite(actions, i)
    ensures Run(s, actions).error == (if actions[i].Pending? then None else Some(actions[i].message))
    decreases |actions|
  {
    var n := |actions| - 1;
    if i < n {
      assert IsLastErrorWrite(actions[..n], i);
      ErrorFollowsLastPendingOrRejected(s, actions[..n], i);
    }
  }

  /** A run of `fulfilled` actions alone never touches the error. */
  lemma {:induction false} ErrorKeptByFulfilled(s: RevenueState, actions: seq<Action>)
    requires forall i :: 0 <= i < |actions| ==> actions[i].Fulfilled?
    ensures Run(s, actions).error == s.error
    decreases |actions|
  {
    if actions != [] {
      var n := |actions| - 1;
      assert forall i :: 0 <= i < n ==> actions[..n][i].Fulfilled? by {
        forall i | 0 <= i < n ensures actions[..n][i] == actions[i] { }
      }
      ErrorKeptByFulfilled(s, actions[..n]);
    }
  }

  /** All three range keys survive every transition, provided every fulfilled payload carries them. */
  lemma {:induction false} RunKeepsAllRanges(s: RevenueState, actions: seq<Action>)
    requires HasAllRanges(s.data)
    requires forall i :: 0 <= i < |actions| && actions[i].Fulfilled? ==> HasAllRanges(actions[i].payload)
    ensures HasAllRanges(Run(s, actions).data)
    decreases |actions|
  {
    if actions != [] {
      var n := |actions| - 1;
      assert forall i :: 0 <= i < n && actions[..n][i].Fulfilled? ==> HasAllRanges(actions[..n][i].payload) by {
        forall i | 0 <= i < n ensures actions[..n][i] == actions[i] { }
      }
      RunKeepsAllRanges(s, actions[..n]);
    }
  }

  /** A load that succeeds ends in `succeeded`, with no error and `data` equal to the payload, from any state. */
  lemma PendingThenFulfilled(s: RevenueState, payload: RangeData)
    ensures Run(s, [Pending, Fulfilled(payload)]) == RevenueState(Succeeded, None, payload)
  {
  }

  /** A load that fails ends in `failed` with the message, keeping the data it started with. */
  lemma PendingThenRejected(s: RevenueState, message: string)
    ensures Run(s, [Pending, Rejected(message)]) == RevenueState(Failed, Some(message), s.data)
  {
    assert [Pending, Rejected(message)][..1] == [Pending];
    assert Run(s, [Pending]) == Reduce(s, Pending);
  }

  /**
    Loads that do not overlap keep the invariant "error iff failed": each
    load's pending clears the error just before its own outcome arrives. After
    at least one load the status is that of the last outcome.
  */
  lemma SequentialLoadsKeepErrorIffFailed(s: RevenueState, outcomes: seq<Outcome>)
    requires ErrorIffFailed(s)
    ensures ErrorIffFailed(Run(s, SequentialLoads(outcomes)))
    ensures outcomes != [] ==>
      Run(s, SequentialLoads(outcomes)).status == (if outcomes[|outcomes| - 1].Payload? then Succeeded else Failed)
  {
  }

  /**
    The last of several non-overlapping loads decides the store: a success
    leaves `succeeded`, no error and its payload; a failure leaves `failed`,
    its message, and the data the earlier loads left behind.
  */
  lemma SequentialLoadsLastOutcome(s: RevenueState, outcomes: seq<Outcome>)
    requires outcomes != []
    ensures var r := Run(s, SequentialLoads(outcomes));
      var last := outcomes[|outcomes| - 1];
      match last
      case Payload(data) => r == RevenueState(Succeeded, None, data)
      case Failure(message) =>
        r == RevenueState(Failed, Some(message), Run(s, SequentialLoads(outcomes[..|outcomes| - 1])).data)
  {
    var n := |outcomes| - 1;
    var before := Run(s, SequentialLoads(outcomes[..n]));
    RunAppend(s, SequentialLoads(outcomes[..n]), [Pending, Settle(outcomes[n])]);
    match outcomes[n]
    case Payload(data) => PendingThenFulfilled(before, data);
    case Failure(message) => PendingThenRejected(before, message);
  }

  /** `i` is the index of the last load that produced a payload. */
  predicate IsLastPayload(outcomes: seq<Outcome>, i: int) {
    0 <= i < |outcomes| && outcomes[i].Payload? &&
    forall j :: i < j < |outcomes| ==> outcomes[j].Failure?
  }

  /** After non-overlapping loads, `data` is the payload of the last load that succeeded, whatever failed after it. */
  lemma {:induction false} SequentialLoadsKeepLastPayload(s: RevenueState, outcomes: seq<Outcome>, i: int)
    requires IsLastPayload(outcomes, i)
    ensures Run(s, SequentialLoads(outcomes)).data == outcomes[i].data
    decreases |outcomes|
  {
    var n := |outcomes| - 1;
    SequentialLoadsLastOutcome(s, outcomes);
    if i < n {
      assert IsLastPayload(outcomes[..n], i);
      SequentialLoadsKeepLastPayload(s, outcomes[..n], i);
    }
  }

  /** Non-overlapping loads that all fail leave `data` as it was. */
  lemma {:induction false} SequentialFailuresKeepData(s: RevenueState, outcomes: seq<Outcome>)
    requires forall j :: 0 <= j < |outcomes| ==> outcomes[j].Failure?
    ensures Run(s, SequentialLoads(outcomes)).data == s.data
    decreases |outcomes|
  {
    if outcomes != [] {
      var n := |outcomes| - 1;
      SequentialLoadsLastOutcome(s, outcomes);
      assert forall j :: 0 <= j < n ==> outcomes[..n][j].Failure? by {
        forall j | 0 <= j < n ensures outcomes[..n][j] == outcomes[j] { }
      }
      SequentialFailuresKeepData(s, outcomes[..n]);
    }
  }

  /**
    Overlapping loads break that invariant: two loads are started, the first
    fails after the second has started, then the second succeeds. The
    fulfilled case does not clear `error`, so the store ends `succeeded`
    while still holding the first load's error.
  */
  lemma OverlappingLoadsLeaveStaleError(payload: RangeData)
    ensures var s := Run(InitialState(), [Pending, Pending, Rejected("Failed to load revenue"), Fulfilled(payload)]);
      s.status == Succeeded && s.error == Some("Failed to load revenue") && !ErrorIffFailed(s)
  {
  }

  /** On the initial state the selector returns the empty sequence for every range. */
  lemma SelectOnInitialState(key: RangeKey)
    ensures SelectRevenueForRange(InitialState(), key) == []
  {
  }

  /** After a successful load the selector returns exactly the payload's sequence for each range (or `[]` if absent). */
  lemma SelectAfterSuccessfulLoad(s: RevenueState, payload: RangeData, key: RangeKey)
    ensures key in payload ==> SelectRevenueForRange(Run(s, [Pending, Fulfilled(payload)]), key) == payload[key]
    ensures key !in payload ==> SelectRevenueForRange(Run(s, [Pending, Fulfilled(payload)]), key) == []
  {
  }

  /** After a failed load the selector still returns the data held before the load started. */
  lemma SelectAfterFailedLoad(s: RevenueState, message: string, key: RangeKey)
    ensures SelectRevenueForRange(Run(s, [Pending, Rejected(message)]), key) == SelectRevenueForRange(s, key)
  {
    PendingThenRejected(s, message);
  }
}
