/** Agent messages that report receipts (core/message/message.go). */
module Messages {
  import opened Graph

  /** A receipt: what was run, and the receipt's own link. */
  datatype Receipt = Receipt(ran: Link, root: Link)

  /** A report lists a key for every receipt; a value is kept for each distinct key. */
  datatype Report = Report(keys: seq<Link>, values: map<Link, Link>)

  function Reported(receipts: seq<Receipt>): Report {
    if receipts == [] then Report([], map[])
    else
      var r := Reported(receipts[..|receipts| - 1]);
      var last := receipts[|receipts| - 1];
      Report(r.keys + [last.ran], if last.ran in r.values then r.values else r.values[last.ran := last.root])
  }

  method Build(receipts: seq<Receipt>) returns (report: Report)
    ensures report == Reported(receipts)
  {
    var keys, values: map<Link, Link> := [], map[];
    for i := 0 to |receipts|
      invariant Report(keys, values) == Reported(receipts[..i])
    {
      assert receipts[..i + 1][..i] == receipts[..i];
      var key := receipts[i].ran;
      keys := keys + [key];
      if key !in values {
        values := values[key := receipts[i].root];
      }
    }
    assert receipts[..|receipts|] == receipts;
    report := Report(keys, values);
  }

  function Lookup(report: Report, link: Link): Option<Link> {
    if link in report.keys && link in report.values then Some(report.values[link]) else None
  }

  /** A key without a value, which only a foreign message can have, is found but empty. */
  method Get(report: Report, link: Link) returns (r: Option<Link>, found: bool)
    ensures found <==> link in report.keys
    ensures r == Lookup(report, link)
  {
    for i := 0 to |report.keys|
      invariant link !in report.keys[..i]
    {
      if report.keys[i] == link {
        return if link in report.values then Some(report.values[link]) else None, true;
      }
    }
    return None, false;
  }

  /** The receipts listed: the value of every key that has one. */
  function Listed(keys: seq<Link>, values: map<Link, Link>): seq<Link> {
    if keys == [] then []
    else
      var last := keys[|keys| - 1];
      Listed(keys[..|keys| - 1], values) + if last in values then [values[last]] else []
  }

  method Receipts(report: Report) returns (r: seq<Link>)
    ensures r == Listed(report.keys, report.values)
  {
    r := [];
    for i := 0 to |report.keys|
      invariant r == Listed(report.keys[..i], report.values)
    {
      assert report.keys[..i + 1][..i] == report.keys[..i];
      if report.keys[i] in report.values {
        r := r + [report.values[report.keys[i]]];
      }
    }
    assert report.keys[..|report.keys|] == report.keys;
  }

  // ---- What a report holds ----

  ghost predicate DistinctRuns(receipts: seq<Receipt>) {
    forall i, j :: 0 <= i < j < |receipts| ==> receipts[i].ran != receipts[j].ran
  }

  predicate First(receipts: seq<Receipt>, link: Link, i: nat)
    requires i < |receipts|
  {
    receipts[i].ran == link && forall j :: 0 <= j < i ==> receipts[j].ran != link
  }

  /** Looking up what was run finds the first receipt for it, and nothing else. */
  lemma {:induction false} ReportFindsFirst(receipts: seq<Receipt>, link: Link)
    ensures var report := Reported(receipts);
      && (forall k :: k in report.keys <==> k in report.values)
      && (Lookup(report, link).Some? <==> exists i :: 0 <= i < |receipts| && receipts[i].ran == link)
    ensures forall i ::
      0 <= i < |receipts| && First(receipts, link, i) ==> Lookup(Reported(receipts), link) == Some(receipts[i].root)
  {
    if receipts != [] {
      var n := |receipts| - 1;
      var before := receipts[..n];
      ReportFindsFirst(before, link);
      assert forall i :: 0 <= i < n ==> before[i] == receipts[i];
      assert forall i :: 0 <= i < n && First(receipts, link, i) ==> First(before, link, i);
      if Lookup(Reported(before), link).None? {
        assert forall i :: 0 <= i < n ==> receipts[i].ran != link;
      } else {
        var i :| 0 <= i < n && before[i].ran == link;
        assert receipts[i].ran == link;
      }
    }
  }

  function Roots(receipts: seq<Receipt>): seq<Link> {
    if receipts == [] then []
    else Roots(receipts[..|receipts| - 1]) + [receipts[|receipts| - 1].root]
  }

  /** Receipts for the same run are the same receipt. */
  ghost predicate OneRootEach(receipts: seq<Receipt>) {
    forall i, j :: 0 <= i < |receipts| && 0 <= j < |receipts| && receipts[i].ran == receipts[j].ran
      ==> receipts[i].root == receipts[j].root
  }

  lemma {:induction false} KeysOf(receipts: seq<Receipt>)
    ensures |Reported(receipts).keys| == |receipts|
    ensures forall i :: 0 <= i < |receipts| ==> Reported(receipts).keys[i] == receipts[i].ran
    ensures forall k :: k in Reported(receipts).keys ==> k in Reported(receipts).values
  {
    if receipts != [] {
      KeysOf(receipts[..|receipts| - 1]);
    }
  }

  lemma {:induction false} ListedAt(keys: seq<Link>, values: map<Link, Link>)
    requires forall k :: k in keys ==> k in values
    ensures |Listed(keys, values)| == |keys|
    ensures forall i :: 0 <= i < |keys| ==> Listed(keys, values)[i] == values[keys[i]]
  {
    if keys != [] {
      var n := |keys| - 1;
      assert keys == keys[..n] + [keys[n]];
      ListedAt(keys[..n], values);
    }
  }

  lemma {:induction false} RootsAt(receipts: seq<Receipt>)
    ensures |Roots(receipts)| == |receipts|
    ensures forall i :: 0 <= i < |receipts| ==> Roots(receipts)[i] == receipts[i].root
  {
    if receipts != [] {
      RootsAt(receipts[..|receipts| - 1]);
    }
  }

  lemma {:induction false} EarliestRun(receipts: seq<Receipt>, i: nat) returns (j: nat)
    requires i < |receipts|
    ensures j <= i && First(receipts, receipts[i].ran, j)
  {
    if k :| 0 <= k < i && receipts[k].ran == receipts[i].ran {
      j := EarliestRun(receipts, k);
    } else {
      j := i;
    }
  }

  /** What is listed for a receipt is the root of the earliest receipt for its run. */
  lemma ListedRoot(receipts: seq<Receipt>, i: nat) returns (j: nat)
    requires i < |receipts|
    ensures j <= i && receipts[j].ran == receipts[i].ran
    ensures var report := Reported(receipts); var listed := Listed(report.keys, report.values);
      && |listed| == |receipts| && receipts[i].ran in report.values
      && listed[i] == report.values[receipts[i].ran] == receipts[j].root
  {
    var report := Reported(receipts);
    KeysOf(receipts);
    ListedAt(report.keys, report.values);
    j := EarliestRun(receipts, i);
    ReportFindsFirst(receipts, receipts[i].ran);
    assert report.keys[i] == receipts[i].ran && report.keys[i] in report.keys;
  }

  /** A message lists the receipts it was given, in order, exactly when receipts for the
      same run agree. */
  lemma ListsAllIff(receipts: seq<Receipt>)
    ensures Listed(Reported(receipts).keys, Reported(receipts).values) == Roots(receipts) <==> OneRootEach(receipts)
  {
    hide Listed, Reported, Roots;
    var listed := Listed(Reported(receipts).keys, Reported(receipts).values);
    ListedLength(receipts);
    RootsAt(receipts);
    if OneRootEach(receipts) {
      forall i | 0 <= i < |receipts|
        ensures listed[i] == Roots(receipts)[i]
      {
        var j := ListedRoot(receipts, i);
      }
    }
    if listed == Roots(receipts) {
      forall i, j | 0 <= i < |receipts| && 0 <= j < |receipts| && receipts[i].ran == receipts[j].ran
        ensures receipts[i].root == receipts[j].root
      {
        var m := ListedRoot(receipts, i);
        var n := ListedRoot(receipts, j);
      }
    }
  }

  lemma ListedLength(receipts: seq<Receipt>)
    ensures |Listed(Reported(receipts).keys, Reported(receipts).values)| == |receipts|
  {
    KeysOf(receipts);
    ListedAt(Reported(receipts).keys, Reported(receipts).values);
  }

  /** In particular receipts of different runs. */
  lemma ListsAll(receipts: seq<Receipt>)
    requires DistinctRuns(receipts)
    ensures Listed(Reported(receipts).keys, Reported(receipts).values) == Roots(receipts)
  {
    forall i, j | 0 <= i < |receipts| && 0 <= j < |receipts| && receipts[i].ran == receipts[j].ran
      ensures receipts[i].root == receipts[j].root
    {
      assert !(i < j) && !(j < i);
    }
    ListsAllIff(receipts);
  }
}
