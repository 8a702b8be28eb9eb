/** The concurrent executor of server/server.go as a step system: each invocation runs
    on its own, and appends its receipt or records its error when it finishes. */
module BatchExecutor {
  import opened Graph
  import opened Messages

  /** What each run comes to: a receipt for its invocation, or an error. */
  type Outcome = Result<Receipt, string>

  /** Runs still going, receipts gathered so far, and the error recorded last. */
  datatype State = State(running: set<nat>, receipts: seq<Receipt>, error: Option<string>)

  function Upto(n: nat): (r: set<nat>)
    ensures |r| == n && forall i: nat {:trigger i in r} :: i in r <==> i < n
  {
    if n == 0 then {} else Upto(n - 1) + {n - 1}
  }

  function Started(n: nat): State {
    State(Upto(n), [], None)
  }

  /** Run `i` finishes. The list is appended to under a lock; the error is overwritten. */
  function Finish(s: State, outcomes: seq<Outcome>, i: nat): State
    requires i in s.running && i < |outcomes|
  {
    var running := s.running - {i};
    match outcomes[i]
    case Ok(receipt) => State(running, s.receipts + [receipt], s.error)
    case Err(e) => State(running, s.receipts, Some(e))
  }

  /** The runs finish in the order of `schedule`. */
  ghost predicate Schedule(schedule: seq<nat>, n: nat) {
    && (forall i :: 0 <= i < |schedule| ==> schedule[i] < n)
    && (forall i, j :: 0 <= i < j < |schedule| ==> schedule[i] != schedule[j])
  }

  function After(schedule: seq<nat>, outcomes: seq<Outcome>): (s: State)
    requires Schedule(schedule, |outcomes|)
    ensures forall i: nat {:trigger i in s.running} :: i in s.running <==> i < |outcomes| && i !in schedule
  {
    if schedule == [] then Started(|outcomes|)
    else
      var k := |schedule| - 1;
      assert schedule == schedule[..k] + [schedule[k]];
      Finish(After(schedule[..k], outcomes), outcomes, schedule[k])
  }

  /** Once every run has finished: the error if there is one, or the message. */
  function Executed(s: State): Result<Report, string> {
    match s.error
    case Some(e) => Err(e)
    case None => Ok(Reported(s.receipts))
  }

  // ---- Every interleaving ----

  /** The receipts of the finished runs, in the order in which they finished. */
  lemma {:induction false} ReceiptsInOrder(schedule: seq<nat>, outcomes: seq<Outcome>)
    requires Schedule(schedule, |outcomes|)
    requires forall i :: 0 <= i < |schedule| ==> outcomes[schedule[i]].Ok?
    ensures var s := After(schedule, outcomes);
      && s.error == None && |s.receipts| == |schedule|
      && forall i :: 0 <= i < |schedule| ==> s.receipts[i] == outcomes[schedule[i]].value
  {
    if schedule != [] {
      ReceiptsInOrder(schedule[..|schedule| - 1], outcomes);
    }
  }

  /** The run that finishes at `i` fails, and all later ones succeed. */
  ghost predicate LastFailure(schedule: seq<nat>, outcomes: seq<Outcome>, i: nat)
    requires Schedule(schedule, |outcomes|)
  {
    && i < |schedule| && outcomes[schedule[i]].Err?
    && forall j :: i < j < |schedule| ==> outcomes[schedule[j]].Ok?
  }

  lemma ErrorAfter(schedule: seq<nat>, outcomes: seq<Outcome>)
    requires Schedule(schedule, |outcomes|)
    ensures After([], outcomes).error == None
    ensures schedule != [] ==>
      var k := |schedule| - 1; var last := outcomes[schedule[k]];
      After(schedule, outcomes).error == if last.Err? then Some(last.error) else After(schedule[..k], outcomes).error
  {
  }

  /** The error recorded is that of the last failure, if there was one. */
  lemma {:induction false} FailureRecorded(schedule: seq<nat>, outcomes: seq<Outcome>) returns (i: nat)
    requires Schedule(schedule, |outcomes|)
    ensures var error := After(schedule, outcomes).error;
      if error.Some? then LastFailure(schedule, outcomes, i) && outcomes[schedule[i]] == Err(error.value)
      else forall j :: 0 <= j < |schedule| ==> outcomes[schedule[j]].Ok?
  {
    hide After;
    i := 0;
    ErrorAfter(schedule, outcomes);
    if schedule != [] {
      var k := |schedule| - 1;
      i := FailureRecorded(schedule[..k], outcomes);
      assert forall j :: 0 <= j < k ==> schedule[..k][j] == schedule[j];
      if outcomes[schedule[k]].Err? {
        i := k;
      }
    }
  }

  /** A schedule that leaves nothing running is a permutation of the runs. */
  lemma ScheduleIsPermutation(schedule: seq<nat>, outcomes: seq<Outcome>)
    requires Schedule(schedule, |outcomes|) && After(schedule, outcomes).running == {}
    ensures |schedule| == |outcomes|
    ensures forall i: nat {:trigger i in schedule} :: i < |outcomes| ==> i in schedule
  {
    hide After, Upto;
    var all := Upto(|outcomes|);
    forall i: nat | i in all
      ensures i in schedule
    {
      assert i !in After(schedule, outcomes).running;
    }
    assert forall x :: x in Elements(schedule) ==> x in all;
    assert forall x :: x in all ==> x in Elements(schedule);
    assert Elements(schedule) == all;
    ElementsSize(schedule, |outcomes|);
  }

  /** Runs made for different invocations give receipts for different invocations. */
  ghost predicate RunsOf(invocations: seq<Link>, outcomes: seq<Outcome>) {
    && |invocations| == |outcomes|
    && (forall i :: 0 <= i < |outcomes| && outcomes[i].Ok? ==> outcomes[i].value.ran == invocations[i])
    && (forall i, j :: 0 <= i < j < |invocations| ==> invocations[i] != invocations[j])
  }

  /** A batch reports exactly when every run succeeds, however the runs interleave; if
      not, it fails with the error of the run that failed last. */
  lemma BatchFailsIff(schedule: seq<nat>, outcomes: seq<Outcome>)
    requires Schedule(schedule, |outcomes|) && After(schedule, outcomes).running == {}
    ensures Executed(After(schedule, outcomes)).Ok? <==> forall i :: 0 <= i < |outcomes| ==> outcomes[i].Ok?
    ensures Executed(After(schedule, outcomes)).Err? ==>
      exists i: nat ::
        LastFailure(schedule, outcomes, i) && outcomes[schedule[i]] == Err(Executed(After(schedule, outcomes)).error)
  {
    var last := FailureRecorded(schedule, outcomes);
    ScheduleIsPermutation(schedule, outcomes);
    if i :| 0 <= i < |outcomes| && outcomes[i].Err? {
      assert i in schedule;
      var k :| 0 <= k < |schedule| && schedule[k] == i;
      assert outcomes[schedule[k]].Err?;
    }
  }

  /** Whatever the order of completion, the message answers each invocation with its
      own receipt. */
  lemma BatchAnswers(schedule: seq<nat>, invocations: seq<Link>, outcomes: seq<Outcome>, i: nat)
    requires RunsOf(invocations, outcomes) && i < |outcomes|
    requires Schedule(schedule, |outcomes|) && After(schedule, outcomes).running == {}
    requires forall k :: 0 <= k < |outcomes| ==> outcomes[k].Ok?
    ensures Lookup(Reported(After(schedule, outcomes).receipts), invocations[i]) == Some(outcomes[i].value.root)
  {
    var receipts := After(schedule, outcomes).receipts;
    ReceiptsInOrder(schedule, outcomes);
    ScheduleIsPermutation(schedule, outcomes);
    assert i in schedule;
    var j :| 0 <= j < |schedule| && schedule[j] == i;
    forall m | 0 <= m < j
      ensures receipts[m].ran != invocations[i]
    {
      assert receipts[m].ran == invocations[schedule[m]];
    }
    assert First(receipts, invocations[i], j);
    ReportFindsFirst(receipts, invocations[i]);
  }

  function Values(outcomes: seq<Outcome>): (r: seq<Receipt>)
    requires forall i :: 0 <= i < |outcomes| ==> outcomes[i].Ok?
    ensures |r| == |outcomes| && forall i :: 0 <= i < |r| ==> r[i] == outcomes[i].value
  {
    seq(|outcomes|, i requires 0 <= i < |outcomes| => outcomes[i].value)
  }

  function Pick(values: seq<Receipt>, at: seq<nat>): (r: seq<Receipt>)
    requires forall i :: 0 <= i < |at| ==> at[i] < |values|
    ensures |r| == |at| && forall i :: 0 <= i < |r| ==> r[i] == values[at[i]]
  {
    seq(|at|, i requires 0 <= i < |at| => values[at[i]])
  }

  /** All positions below `n`, each once. */
  ghost predicate Permutes(at: seq<nat>, n: nat) {
    && |at| == n && Schedule(at, n)
    && forall i: nat {:trigger i in at} :: i < n ==> i in at
  }

  function Dropped(at: seq<nat>, k: nat): (r: seq<nat>)
    requires k < |at|
    ensures |r| == |at| - 1 && forall i :: 0 <= i < |r| ==> r[i] == at[if i < k then i else i + 1]
  {
    at[..k] + at[k + 1..]
  }

  lemma DropLast(at: seq<nat>, n: nat, k: nat)
    requires Permutes(at, n + 1) && k < |at| && at[k] == n
    ensures Permutes(Dropped(at, k), n)
  {
    var rest := Dropped(at, k);
    forall i: nat | i < n
      ensures i in rest
    {
      assert i in at;
      var m :| 0 <= m < |at| && at[m] == i;
      assert rest[if m < k then m else m - 1] == i;
    }
  }

  /** Picking every position once, in any order, picks the same receipts as often. */
  lemma {:induction false} PickAll(values: seq<Receipt>, at: seq<nat>)
    requires Permutes(at, |values|)
    ensures multiset(Pick(values, at)) == multiset(values)
  {
    if values != [] {
      hide Permutes, Dropped;
      var n := |values| - 1;
      var k := Position(at, n);
      DropLast(at, n, k);
      PermutesBelow(Dropped(at, k), n);
      PickAll(values[..n], Dropped(at, k));
      PickRest(values, at, n, k);
      assert values == values[..n] + [values[n]];
    } else {
      assert values == [] && Pick(values, at) == [];
    }
  }

  lemma Position(at: seq<nat>, n: nat) returns (k: nat)
    requires Permutes(at, n + 1)
    ensures k < |at| && at[k] == n
  {
    assert n in at;
    k :| 0 <= k < |at| && at[k] == n;
  }

  lemma PermutesBelow(at: seq<nat>, n: nat)
    requires Permutes(at, n)
    ensures |at| == n && forall i :: 0 <= i < |at| ==> at[i] < n
  {
  }

  lemma PickRest(values: seq<Receipt>, at: seq<nat>, n: nat, k: nat)
    requires Permutes(at, |values|) && n + 1 == |values| && k < |at| && at[k] == n
    requires forall i :: 0 <= i < |Dropped(at, k)| ==> Dropped(at, k)[i] < n
    ensures forall i :: 0 <= i < |at| ==> at[i] < |values|
    ensures multiset(Pick(values, at)) == multiset(Pick(values[..n], Dropped(at, k))) + multiset{values[n]}
  {
    PermutesBelow(at, |values|);
    PickDropped(values, at, n, k);
    TakeOut(Pick(values, at), k);
  }

  lemma PickDropped(values: seq<Receipt>, at: seq<nat>, n: nat, k: nat)
    requires n + 1 == |values| && k < |at| && forall i :: 0 <= i < |at| ==> at[i] < |values|
    requires forall i :: 0 <= i < |Dropped(at, k)| ==> Dropped(at, k)[i] < n
    ensures Pick(values[..n], Dropped(at, k)) == Pick(values, at)[..k] + Pick(values, at)[k + 1..]
  {
    var picked, rest := Pick(values, at), Pick(values[..n], Dropped(at, k));
    forall i | 0 <= i < |rest|
      ensures rest[i] == (picked[..k] + picked[k + 1..])[i]
    {
      assert rest[i] == values[Dropped(at, k)[i]];
    }
  }

  lemma TakeOut(s: seq<Receipt>, k: nat)
    requires k < |s|
    ensures multiset(s) == multiset(s[..k] + s[k + 1..]) + multiset{s[k]}
  {
    assert s == s[..k] + [s[k]] + s[k + 1..];
  }

  /** Every receipt of the batch reaches the message, as often as it was made, however
      the runs interleave and whatever they are runs of. */
  lemma BatchConserves(schedule: seq<nat>, outcomes: seq<Outcome>)
    requires Schedule(schedule, |outcomes|) && After(schedule, outcomes).running == {}
    requires forall k :: 0 <= k < |outcomes| ==> outcomes[k].Ok?
    ensures multiset(After(schedule, outcomes).receipts) == multiset(Values(outcomes))
  {
    ReceiptsInOrder(schedule, outcomes);
    ScheduleIsPermutation(schedule, outcomes);
    assert After(schedule, outcomes).receipts == Pick(Values(outcomes), schedule);
    PickAll(Values(outcomes), schedule);
  }

  /** The message lists exactly the receipts gathered if and only if runs of the same
      invocation made the same receipt. */
  lemma BatchListsIff(schedule: seq<nat>, outcomes: seq<Outcome>)
    requires Schedule(schedule, |outcomes|) && After(schedule, outcomes).running == {}
    requires forall k :: 0 <= k < |outcomes| ==> outcomes[k].Ok?
    ensures var receipts := After(schedule, outcomes).receipts;
      Listed(Reported(receipts).keys, Reported(receipts).values) == Roots(receipts) <==> OneRootEach(Values(outcomes))
  {
    hide After, Listed, Roots, Reported, OneRootEach, Values;
    var receipts, values := After(schedule, outcomes).receipts, Values(outcomes);
    BatchConserves(schedule, outcomes);
    ListsAllIff(receipts);
    if OneRootEach(receipts) {
      SameElements(receipts, values);
    }
    if OneRootEach(values) {
      SameElements(values, receipts);
    }
  }

  /** Distinct invocations are such a case. */
  lemma BatchListsDistinct(schedule: seq<nat>, invocations: seq<Link>, outcomes: seq<Outcome>)
    requires RunsOf(invocations, outcomes)
    requires Schedule(schedule, |outcomes|) && After(schedule, outcomes).running == {}
    requires forall k :: 0 <= k < |outcomes| ==> outcomes[k].Ok?
    ensures var receipts := After(schedule, outcomes).receipts;
      Listed(Reported(receipts).keys, Reported(receipts).values) == Roots(receipts)
  {
    assert OneRootEach(Values(outcomes));
    BatchListsIff(schedule, outcomes);
  }

  lemma SameElements(a: seq<Receipt>, b: seq<Receipt>)
    requires multiset(a) == multiset(b) && OneRootEach(a)
    ensures OneRootEach(b)
  {
    forall i, j | 0 <= i < |b| && 0 <= j < |b| && b[i].ran == b[j].ran
      ensures b[i].root == b[j].root
    {
      assert b[i] in multiset(b) && b[j] in multiset(b);
      assert b[i] in a && b[j] in a;
    }
  }

  function Elements(s: seq<nat>): set<nat> {
    set x | x in s
  }

  lemma {:induction false} ElementsSize(s: seq<nat>, n: nat)
    requires Schedule(s, n)
    ensures |Elements(s)| == |s|
  {
    if s != [] {
      var k := |s| - 1;
      ElementsSize(s[..k], n);
      assert s == s[..k] + [s[k]];
      assert Elements(s) == Elements(s[..k]) + {s[k]};
      assert s[k] !in s[..k];
    }
  }
}
