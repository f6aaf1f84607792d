/** `build.go`: scanning the files of a version into its block store. */
module Ingest {
  import opened Bytes
  import opened Hashcode
  import opened Blocks
  import BlockStores

  /** A record of a sequence file, or one whose decoding fails. */
  datatype Record = Good(key: Str, value: Str) | Corrupt

  type Pair = (Str, Str)

  const EXIT_AFTER := 5000

  /** `assumed` is None for -1. */
  datatype Guess = Guess(canAssume: bool, assumed: Option<nat>, assumedFor: nat)

  const NO_GUESS := Guess(true, None, 0)

  /** The effect of one key on the guess, and the partition the key is taken for. */
  function Observe(g: Guess, normal: nat, alternate: nat): (Guess, nat) {
    if !g.canAssume then (g, normal)
    else if g.assumed.None? then (g.(assumed := Some(normal)), normal)
    else if normal != g.assumed.value then
      if alternate == g.assumed.value then (g, alternate) else (g.(canAssume := false), normal)
    else (g.(assumedFor := g.assumedFor + 1), normal)
  }

  datatype End = Finished | WrongPartition | Failed

  /** The outcome of a scan, and what it added to the store, in order. */
  datatype Scanned = Scanned(end: End, added: seq<Pair>)

  function Prepend(p: Pair, s: Scanned): Scanned {
    s.(added := [p] + s.added)
  }

  /** `addFileKeys` from a given guess on. Without `exits` it is the scan that never stops early. */
  function Scan(records: seq<Record>, g: Guess, wanted: set<nat>, total: nat, exits: bool): Scanned
    requires total > 0
    decreases |records|
  {
    if records == [] then Scanned(Finished, [])
    else match records[0]
         case Corrupt => Scanned(Failed, [])
         case Good(key, value) =>
           var (h, p) := Observe(g, NormalPartition(key, total), AlternatePartition(key, total));
           if p in wanted then Prepend((key, value), Scan(records[1..], h, wanted, total, exits))
           else if exits && h.canAssume && h.assumedFor > EXIT_AFTER then Scanned(WrongPartition, [])
           else Scan(records[1..], h, wanted, total, exits)
  }

  function FileScan(file: seq<Record>, wanted: set<nat>, total: nat): Scanned
    requires total > 0
  {
    Scan(file, NO_GUESS, wanted, total, true)
  }

  /** The same loop without the early exit. */
  function FullScan(file: seq<Record>, wanted: set<nat>, total: nat): Scanned
    requires total > 0
  {
    Scan(file, NO_GUESS, wanted, total, false)
  }

  // ---------------------------------------------------------------- when the scan stops early

  predicate Has(r: Record, p: nat, total: nat)
    requires total > 0
  {
    r.Good? && (NormalPartition(r.key, total) == p || AlternatePartition(r.key, total) == p)
  }

  /** Every record has the partition as its normal or its alternate one. */
  predicate AllHave(records: seq<Record>, p: nat, total: nat)
    requires total > 0
  {
    forall i :: 0 <= i < |records| ==> Has(records[i], p, total)
  }

  /** How many records have it as their normal one. */
  function CountNormal(records: seq<Record>, p: nat, total: nat): nat
    requires total > 0
  {
    if records == [] then 0
    else
      var first := if records[0].Good? && NormalPartition(records[0].key, total) == p then 1 else 0;
      first + CountNormal(records[1..], p, total)
  }

  predicate Settled(g: Guess, p: nat) {
    g.canAssume && g.assumed == Some(p)
  }

  /** A scan that has given up guessing behaves as a full scan. */
  lemma {:induction false} GivenUp(records: seq<Record>, g: Guess, wanted: set<nat>, total: nat)
    requires total > 0 && !g.canAssume
    ensures Scan(records, g, wanted, total, true) == Scan(records, g, wanted, total, false)
    ensures Scan(records, g, wanted, total, true).end != WrongPartition
    decreases |records|
  {
    if records != [] && records[0].Good? {
      GivenUp(records[1..], g, wanted, total);
    }
  }

  ghost predicate ExitPoint(records: seq<Record>, g: Guess, p: nat, total: nat, n: nat)
    requires total > 0
  {
    n <= |records| && AllHave(records[..n], p, total) && g.assumedFor + CountNormal(records[..n], p, total) > EXIT_AFTER
  }

  lemma CountNormalFirst(records: seq<Record>, p: nat, total: nat, n: nat)
    requires total > 0 && 0 < n <= |records|
    ensures CountNormal(records[..n], p, total) ==
            (if records[0].Good? && NormalPartition(records[0].key, total) == p then 1 else 0)
            + CountNormal(records[1..][..n - 1], p, total)
    ensures AllHave(records[..n], p, total) <==> Has(records[0], p, total) && AllHave(records[1..][..n - 1], p, total)
  {
    hide NormalPartition, AlternatePartition;
    assert records[..n][1..] == records[1..][..n - 1];
    assert records[..n] == [records[0]] + records[1..][..n - 1];
  }

  /** The guess after the first record of a settled scan, when that record fits. */
  lemma SettledStep(records: seq<Record>, g: Guess, wanted: set<nat>, total: nat, p: nat, exits: bool)
    requires total > 0 && Settled(g, p) && records != [] && Has(records[0], p, total)
    ensures var fits := NormalPartition(records[0].key, total) == p;
            var h := if fits then g.(assumedFor := g.assumedFor + 1) else g;
            var rest := Scan(records[1..], h, wanted, total, exits);
            && Settled(h, p)
            && Scan(records, g, wanted, total, exits) ==
               if p in wanted then Prepend((records[0].key, records[0].value), rest)
               else if exits && h.assumedFor > EXIT_AFTER then Scanned(WrongPartition, [])
               else rest
  {
    hide NormalPartition, AlternatePartition;
  }

  lemma NoExitPoint(records: seq<Record>, g: Guess, p: nat, total: nat)
    requires total > 0 && g.assumedFor <= EXIT_AFTER
    requires records == [] || !Has(records[0], p, total)
    ensures forall n: nat :: !ExitPoint(records, g, p, total, n)
  {
    hide NormalPartition, AlternatePartition;
    forall n: nat | n <= |records|
      ensures n == 0 ==> CountNormal(records[..n], p, total) == 0
      ensures n > 0 ==> !AllHave(records[..n], p, total)
    {
      if n > 0 {
        CountNormalFirst(records, p, total, n);
      }
    }
  }

  /** From a settled guess, the scan stops early exactly when the partition is unwanted and a prefix of
      fitting records brings the count over the limit; then nothing was added. */
  lemma {:induction false} SettledExit(records: seq<Record>, g: Guess, wanted: set<nat>, total: nat, p: nat)
    requires total > 0 && Settled(g, p) && g.assumedFor <= EXIT_AFTER
    ensures var s := Scan(records, g, wanted, total, true);
            && (s.end == WrongPartition <==> p !in wanted && exists n: nat :: ExitPoint(records, g, p, total, n))
            && (s.end == WrongPartition ==> s.added == [])
            && (s.end != WrongPartition ==> s == Scan(records, g, wanted, total, false))
    decreases |records|
  {
    hide NormalPartition, AlternatePartition;
    if records == [] || records[0].Corrupt? {
      NoExitPoint(records, g, p, total);
    } else if !Has(records[0], p, total) {
      NoExitPoint(records, g, p, total);
      GivenUp(records[1..], g.(canAssume := false), wanted, total);
    } else {
      SettledStep(records, g, wanted, total, p, true);
      SettledStep(records, g, wanted, total, p, false);
      var h := if NormalPartition(records[0].key, total) == p then g.(assumedFor := g.assumedFor + 1) else g;
      ExitPointStep(records, g, p, total);
      if h.assumedFor <= EXIT_AFTER {
        SettledExit(records[1..], h, wanted, total, p);
      } else {
        NeverUnwanted(records[1..], h, wanted, total, p);
      }
    }
  }

  /** An exit point of the whole is one of the rest, or the first record is it. */
  lemma ExitPointStep(records: seq<Record>, g: Guess, p: nat, total: nat)
    requires total > 0 && g.assumedFor <= EXIT_AFTER && records != [] && Has(records[0], p, total)
    ensures var fits := NormalPartition(records[0].key, total) == p;
            var h := if fits then g.(assumedFor := g.assumedFor + 1) else g;
            (exists n: nat :: ExitPoint(records, g, p, total, n))
            <==> h.assumedFor > EXIT_AFTER || exists n: nat :: ExitPoint(records[1..], h, p, total, n)
  {
    hide NormalPartition, AlternatePartition;
    var h := if NormalPartition(records[0].key, total) == p then g.(assumedFor := g.assumedFor + 1) else g;
    if exists n: nat :: ExitPoint(records, g, p, total, n) {
      var n: nat :| ExitPoint(records, g, p, total, n);
      assert n > 0;
      CountNormalFirst(records, p, total, n);
      assert ExitPoint(records[1..], h, p, total, n - 1);
    }
    if h.assumedFor > EXIT_AFTER {
      CountNormalFirst(records, p, total, 1);
      assert records[1..][..0] == [];
      assert ExitPoint(records, g, p, total, 1);
    } else if exists n: nat :: ExitPoint(records[1..], h, p, total, n) {
      var n: nat :| ExitPoint(records[1..], h, p, total, n);
      CountNormalFirst(records, p, total, n + 1);
      assert ExitPoint(records, g, p, total, n + 1);
    }
  }

  /** While the guessed partition is wanted, the scan cannot stop early. */
  lemma {:induction false} NeverUnwanted(records: seq<Record>, g: Guess, wanted: set<nat>, total: nat, p: nat)
    requires total > 0 && Settled(g, p)
    ensures p in wanted ==>
              && Scan(records, g, wanted, total, true).end != WrongPartition
              && Scan(records, g, wanted, total, true) == Scan(records, g, wanted, total, false)
    decreases |records|
  {
    hide NormalPartition, AlternatePartition;
    if p in wanted && records != [] && records[0].Good? {
      if Has(records[0], p, total) {
        SettledStep(records, g, wanted, total, p, true);
        SettledStep(records, g, wanted, total, p, false);
        NeverUnwanted(records[1..], if NormalPartition(records[0].key, total) == p then g.(assumedFor := g.assumedFor + 1) else g, wanted, total, p);
      } else {
        GivenUp(records[1..], g.(canAssume := false), wanted, total);
      }
    }
  }

  /** 5002 records have the first key's partition as their normal one, and no record before the last of
      them fits that partition neither way. */
  ghost predicate Settles(file: seq<Record>, total: nat)
    requires total > 0
  {
    && file != [] && file[0].Good?
    && var p := NormalPartition(file[0].key, total);
       exists n: nat :: n <= |file| && AllHave(file[..n], p, total) && CountNormal(file[..n], p, total) >= 5002
  }

  /** The condition for stopping early, stated on the stream. */
  ghost predicate StopsEarly(file: seq<Record>, wanted: set<nat>, total: nat)
    requires total > 0
  {
    Settles(file, total) && NormalPartition(file[0].key, total) !in wanted
  }

  /** For every stream: the scan stops early if and only if the condition holds, and then nothing from
      the file was added; otherwise it is the full scan. */
  lemma EarlyExitIff(file: seq<Record>, wanted: set<nat>, total: nat)
    requires total > 0
    ensures FileScan(file, wanted, total).end == WrongPartition <==> StopsEarly(file, wanted, total)
    ensures StopsEarly(file, wanted, total) ==> FileScan(file, wanted, total).added == []
    ensures !StopsEarly(file, wanted, total) ==> FileScan(file, wanted, total) == FullScan(file, wanted, total)
  {
    hide NormalPartition, AlternatePartition;
    if file != [] && file[0].Good? {
      var p := NormalPartition(file[0].key, total);
      var g := Guess(true, Some(p), 0);
      SettledExit(file[1..], g, wanted, total, p);
      if exists n: nat :: ExitPoint(file[1..], g, p, total, n) {
        var n: nat :| ExitPoint(file[1..], g, p, total, n);
        CountNormalFirst(file, p, total, n + 1);
      }
      if StopsEarly(file, wanted, total) {
        var n: nat :| n <= |file| && AllHave(file[..n], p, total) && CountNormal(file[..n], p, total) >= 5002;
        assert n > 0;
        CountNormalFirst(file, p, total, n);
        assert ExitPoint(file[1..], g, p, total, n - 1);
      }
    }
  }

  predicate AllGood(records: seq<Record>) {
    forall i :: 0 <= i < |records| ==> records[i].Good?
  }

  /** A full scan gets to record `i`, which does not fit or comes after one that does not, and wants it. */
  ghost predicate Skipped(file: seq<Record>, p: nat, wanted: set<nat>, total: nat, i: nat)
    requires total > 0
  {
    && i < |file| && AllGood(file[..i + 1])
    && (exists j :: 0 <= j <= i && !Has(file[j], p, total))
    && NormalPartition(file[i].key, total) in wanted
  }

  /** The same once the guess has been given up. */
  ghost predicate Reached(records: seq<Record>, wanted: set<nat>, total: nat, i: nat)
    requires total > 0
  {
    i < |records| && AllGood(records[..i + 1]) && NormalPartition(records[i].key, total) in wanted
  }

  lemma AllGoodFirst(records: seq<Record>, i: nat)
    requires 0 < i <= |records|
    ensures AllGood(records[..i]) <==> records[0].Good? && AllGood(records[1..][..i - 1])
  {
    assert records[..i] == [records[0]] + records[1..][..i - 1];
  }

  lemma ReachedNext(records: seq<Record>, wanted: set<nat>, total: nat, i: nat)
    requires total > 0 && records != [] && records[0].Good?
    ensures Reached(records, wanted, total, i + 1) <==> Reached(records[1..], wanted, total, i)
  {
    hide NormalPartition;
    if i + 1 < |records| {
      AllGoodFirst(records, i + 2);
    }
  }

  /** A scan that has given up guessing adds something exactly when a wanted record is reached. */
  lemma {:induction false} GivenUpAdds(records: seq<Record>, g: Guess, wanted: set<nat>, total: nat)
    requires total > 0 && !g.canAssume
    ensures Scan(records, g, wanted, total, false).added != [] <==> exists i: nat :: Reached(records, wanted, total, i)
    decreases |records|
  {
    hide NormalPartition, AlternatePartition;
    if records == [] || records[0].Corrupt? {
      forall i: nat ensures !Reached(records, wanted, total, i) {
        if i < |records| {
          assert records[..i + 1][0].Corrupt?;
        }
      }
    } else {
      GivenUpAdds(records[1..], g, wanted, total);
      if NormalPartition(records[0].key, total) in wanted {
        assert Reached(records, wanted, total, 0);
      } else if i: nat :| Reached(records[1..], wanted, total, i) {
        ReachedNext(records, wanted, total, i);
      } else if i: nat :| Reached(records, wanted, total, i) {
        ReachedNext(records, wanted, total, i - 1);
      }
    }
  }

  lemma SkippedNext(records: seq<Record>, p: nat, wanted: set<nat>, total: nat, i: nat)
    requires total > 0 && records != [] && records[0].Good?
    ensures Has(records[0], p, total) ==>
              (Skipped(records, p, wanted, total, i + 1) <==> Skipped(records[1..], p, wanted, total, i))
    ensures !Has(records[0], p, total) ==>
              (Skipped(records, p, wanted, total, i) <==> Reached(records, wanted, total, i))
  {
    hide NormalPartition, AlternatePartition, Has;
    if i + 1 < |records| {
      AllGoodFirst(records, i + 2);
      if j :| 0 <= j <= i && !Has(records[1..][j], p, total) {
        assert !Has(records[j + 1], p, total);
      }
      if Has(records[0], p, total) {
        if j :| 0 <= j <= i + 1 && !Has(records[j], p, total) {
          assert !Has(records[1..][j - 1], p, total);
        }
      }
    }
  }

  /** While an unwanted guess stands nothing is added; afterwards, what is wanted. */
  lemma {:induction false} SettledAdds(records: seq<Record>, g: Guess, wanted: set<nat>, total: nat, p: nat)
    requires total > 0 && Settled(g, p) && p !in wanted
    ensures Scan(records, g, wanted, total, false).added != [] <==> exists i: nat :: Skipped(records, p, wanted, total, i)
    decreases |records|
  {
    hide NormalPartition, AlternatePartition, Skipped, Reached;
    if records == [] || records[0].Corrupt? {
      NothingSkipped(records, p, wanted, total);
    } else if Has(records[0], p, total) {
      SettledStep(records, g, wanted, total, p, false);
      var h := if NormalPartition(records[0].key, total) == p then g.(assumedFor := g.assumedFor + 1) else g;
      SettledAdds(records[1..], h, wanted, total, p);
      FirstNotSkipped(records, p, wanted, total);
      if i: nat :| Skipped(records[1..], p, wanted, total, i) {
        SkippedNext(records, p, wanted, total, i);
      } else if i: nat :| Skipped(records, p, wanted, total, i) {
        SkippedNext(records, p, wanted, total, i - 1);
      }
    } else {
      GivenUpAdds(records, g.(canAssume := false), wanted, total);
      assert Scan(records, g, wanted, total, false) == Scan(records, g.(canAssume := false), wanted, total, false);
      forall i: nat ensures Skipped(records, p, wanted, total, i) <==> Reached(records, wanted, total, i) {
        SkippedNext(records, p, wanted, total, i);
      }
    }
  }

  lemma NothingSkipped(records: seq<Record>, p: nat, wanted: set<nat>, total: nat)
    requires total > 0 && (records == [] || records[0].Corrupt?)
    ensures forall i: nat :: !Skipped(records, p, wanted, total, i)
  {
    hide NormalPartition, AlternatePartition;
    forall i: nat ensures !Skipped(records, p, wanted, total, i) {
      if i < |records| {
        assert records[..i + 1][0].Corrupt?;
      }
    }
  }

  lemma FirstNotSkipped(records: seq<Record>, p: nat, wanted: set<nat>, total: nat)
    requires total > 0 && records != [] && Has(records[0], p, total)
    ensures !Skipped(records, p, wanted, total, 0)
  {
  }

  /** For every stream, stopping early makes a difference exactly when the stream settles on an unwanted
      partition and then, before any record that cannot be read, has a record that does not fit it and,
      from there on, a record of a wanted partition. */
  lemma HeuristicHarmlessIff(file: seq<Record>, wanted: set<nat>, total: nat)
    requires total > 0
    ensures FileScan(file, wanted, total).added != FullScan(file, wanted, total).added
       <==> StopsEarly(file, wanted, total) && exists i: nat :: Skipped(file, NormalPartition(file[0].key, total), wanted, total, i)
  {
    hide NormalPartition, AlternatePartition, Skipped;
    EarlyExitIff(file, wanted, total);
    if StopsEarly(file, wanted, total) {
      FullScanAdds(file, wanted, total);
    }
  }

  lemma FullScanAdds(file: seq<Record>, wanted: set<nat>, total: nat)
    requires total > 0 && StopsEarly(file, wanted, total)
    ensures FullScan(file, wanted, total).added != []
       <==> exists i: nat :: Skipped(file, NormalPartition(file[0].key, total), wanted, total, i)
  {
    hide NormalPartition, AlternatePartition, Skipped;
    var p := NormalPartition(file[0].key, total);
    SettledAdds(file, Guess(true, Some(p), 0), wanted, total, p);
    FirstSettles(file, wanted, total);
  }

  /** Guessing the first key's partition from the start makes no difference but to the count. */
  lemma FirstSettles(file: seq<Record>, wanted: set<nat>, total: nat)
    requires total > 0 && file != [] && file[0].Good?
    ensures FullScan(file, wanted, total) == Scan(file, Guess(true, Some(NormalPartition(file[0].key, total)), 0), wanted, total, false)
  {
    hide NormalPartition, AlternatePartition;
    var p := NormalPartition(file[0].key, total);
    CountDoesNotMatter(file[1..], Guess(true, Some(p), 0), 1, wanted, total);
  }

  lemma {:induction false} CountDoesNotMatter(records: seq<Record>, g: Guess, n: nat, wanted: set<nat>, total: nat)
    requires total > 0
    ensures Scan(records, g, wanted, total, false) == Scan(records, g.(assumedFor := n), wanted, total, false)
    decreases |records|
  {
    hide NormalPartition, AlternatePartition;
    if records != [] && records[0].Good? {
      var (h, p) := Observe(g, NormalPartition(records[0].key, total), AlternatePartition(records[0].key, total));
      var (i, q) := Observe(g.(assumedFor := n), NormalPartition(records[0].key, total), AlternatePartition(records[0].key, total));
      CountDoesNotMatter(records[1..], h, i.assumedFor, wanted, total);
    }
  }

  /** The early exit can lose a key, for every number of partitions but one. */
  ghost predicate CanLose(total: nat)
    requires total > 0
  {
    exists file, wanted :: FileScan(file, wanted, total).added != FullScan(file, wanted, total).added
  }

  lemma SmallHash(b: Byte, total: nat)
    requires total > 0 && b < 2
    ensures NormalPartition([], total) == AlternatePartition([], total) == 0
    ensures NormalPartition([b], total) == AlternatePartition([b], total) == b % total
  {
    assert [b] == [] + [b];
    JavaSumSnoc([], b);
  }

  lemma {:induction false} CopiesCount(r: Record, n: nat, p: nat, total: nat)
    requires total > 0 && r.Good? && NormalPartition(r.key, total) == p
    ensures CountNormal(seq(n, _ => r), p, total) == n
  {
    if n > 0 {
      var rest := seq(n - 1, _ => r);
      assert seq(n, _ => r)[1..] == rest;
      CopiesCount(r, n - 1, p, total);
    }
  }

  /** 5002 records of an unwanted partition, then one of a wanted partition. */
  lemma LosingStream(total: nat) returns (file: seq<Record>)
    requires total > 1
    ensures |file| == 5003 && AllHave(file[..5002], 0, total) && file[5002] == Good([1], []) && NormalPartition([1], total) == 1
    ensures FileScan(file, {1}, total).added == [] && FullScan(file, {1}, total).added != []
  {
    hide NormalPartition, AlternatePartition, Scan;
    SmallHash(1, total);
    var n := 5002;
    var many: seq<Record>, last := seq(n, _ => Good([], [])), Good([1], []);
    file := many + [last];
    CopiesCount(Good([], []), n, 0, total);
    assert file[..n] == many;
    assert AllHave(many, 0, total);
    assert StopsEarly(file, {1}, total);
    EarlyExitIff(file, {1}, total);
    assert 1 % total == 1;
    assert !Has(file[n], 0, total);
    assert Skipped(file, 0, {1}, total, n);
    FullScanAdds(file, {1}, total);
  }

  lemma CanLoseIff(total: nat)
    requires total > 0
    ensures CanLose(total) <==> total > 1
  {
    hide NormalPartition, AlternatePartition, FileScan, FullScan;
    if total > 1 {
      var file := LosingStream(total);
    } else {
      forall file, wanted ensures FileScan(file, wanted, total).added == FullScan(file, wanted, total).added {
        HeuristicHarmlessIff(file, wanted, total);
      }
    }
  }

  // ---------------------------------------------------------------- cleanly partitioned streams

  function PairsOf(records: seq<Record>): seq<Pair>
    requires forall i :: 0 <= i < |records| ==> records[i].Good?
  {
    seq(|records|, i requires 0 <= i < |records| => (records[i].key, records[i].value))
  }

  /** All keys have the first key's normal partition as normal or alternate one. */
  predicate Clean(file: seq<Record>, total: nat)
    requires total > 0
  {
    file != [] ==> file[0].Good? && AllHave(file, NormalPartition(file[0].key, total), total)
  }

  lemma {:induction false} SettledClean(records: seq<Record>, g: Guess, wanted: set<nat>, total: nat, p: nat, exits: bool)
    requires total > 0 && Settled(g, p) && AllHave(records, p, total)
    ensures forall i :: 0 <= i < |records| ==> records[i].Good?
    ensures Scan(records, g, wanted, total, exits).added == if p in wanted then PairsOf(records) else []
    ensures Scan(records, g, wanted, total, exits).end == Finished || (exits && Scan(records, g, wanted, total, exits).end == WrongPartition)
    decreases |records|
  {
    hide NormalPartition, AlternatePartition;
    assert forall i :: 0 <= i < |records| ==> Has(records[i], p, total);
    if records != [] {
      SettledStep(records, g, wanted, total, p, exits);
      SettledClean(records[1..], if NormalPartition(records[0].key, total) == p then g.(assumedFor := g.assumedFor + 1) else g,
                   wanted, total, p, exits);
      if p in wanted {
        assert PairsOf(records) == [(records[0].key, records[0].value)] + PairsOf(records[1..]);
      }
    }
  }

  /** On a clean stream the scan, early exit or not, adds every record if the stream's partition is
      wanted and none otherwise: exactly what the full scan adds. */
  lemma CleanScan(file: seq<Record>, wanted: set<nat>, total: nat)
    requires total > 0 && Clean(file, total)
    ensures forall i :: 0 <= i < |file| ==> file[i].Good?
    ensures FileScan(file, wanted, total).end != Failed
    ensures FullScan(file, wanted, total).end == Finished
    ensures FileScan(file, wanted, total).added == FullScan(file, wanted, total).added
    ensures FileScan(file, wanted, total).added ==
            if file != [] && NormalPartition(file[0].key, total) in wanted then PairsOf(file) else []
  {
    hide NormalPartition, AlternatePartition;
    if file != [] {
      var p := NormalPartition(file[0].key, total);
      assert forall i :: 0 <= i < |file| ==> Has(file[i], p, total);
      var g := Guess(true, Some(p), 0);
      SettledClean(file[1..], g, wanted, total, p, true);
      SettledClean(file[1..], g, wanted, total, p, false);
      assert PairsOf(file) == [(file[0].key, file[0].value)] + PairsOf(file[1..]);
    }
  }

  // ---------------------------------------------------------------- what a scan adds

  /** What is added comes from the stream. */
  lemma {:induction false} ScanSound(records: seq<Record>, g: Guess, wanted: set<nat>, total: nat, exits: bool, key: Str, value: Str)
    requires total > 0 && (key, value) in Scan(records, g, wanted, total, exits).added
    ensures Good(key, value) in records
    decreases |records|
  {
    hide NormalPartition, AlternatePartition;
    var r := records[0];
    var (h, p) := Observe(g, NormalPartition(r.key, total), AlternatePartition(r.key, total));
    if !(p in wanted && r == Good(key, value)) {
      ScanSound(records[1..], h, wanted, total, exits, key, value);
    }
  }

  ghost predicate Mentions(pairs: seq<Pair>, k: Str) {
    exists v :: (k, v) in pairs
  }

  /** Some record with the key is taken for one of the partitions. This depends on the stream alone, not
      on what a build wants from it. */
  predicate Taken(records: seq<Record>, g: Guess, key: Str, ps: set<nat>, total: nat)
    requires total > 0
    decreases |records|
  {
    records != [] &&
    match records[0]
    case Corrupt => Taken(records[1..], g, key, ps, total)
    case Good(k, _) =>
      var (h, p) := Observe(g, NormalPartition(k, total), AlternatePartition(k, total));
      (k == key && p in ps) || Taken(records[1..], h, key, ps, total)
  }

  /** Being taken for one of several partitions is being taken for some one of them. */
  lemma {:induction false} TakenPointwise(records: seq<Record>, g: Guess, key: Str, ps: set<nat>, total: nat)
    requires total > 0
    ensures Taken(records, g, key, ps, total) <==> exists p :: p in ps && Taken(records, g, key, {p}, total)
    decreases |records|
  {
    hide NormalPartition, AlternatePartition;
    if records != [] {
      match records[0]
      case Corrupt => TakenPointwise(records[1..], g, key, ps, total);
      case Good(k, _) =>
        var (h, p) := Observe(g, NormalPartition(k, total), AlternatePartition(k, total));
        TakenPointwise(records[1..], h, key, ps, total);
        if k == key && p in ps {
          assert Taken(records, g, key, {p}, total);
        } else if q :| q in ps && Taken(records[1..], h, key, {q}, total) {
          assert Taken(records, g, key, {q}, total);
        }
    }
  }

  /** A partition that no key has as its normal one is never guessed, so only the normal partition of a
      key counts when its alternate one is of that kind. */
  predicate Holds(ps: set<nat>, key: Str, total: nat)
    requires total > 0
  {
    && NormalPartition(key, total) in ps
    && (AlternatePartition(key, total) in ps || AlternatePartition(key, total) >= TWO_31)
  }

  /** A record is taken for one of the two partitions of its key. */
  lemma {:induction false} TakenWhenHeld(records: seq<Record>, g: Guess, key: Str, value: Str, ps: set<nat>, total: nat)
    requires total > 0 && Good(key, value) in records && Holds(ps, key, total)
    requires g.assumed.Some? ==> g.assumed.value < TWO_31
    ensures Taken(records, g, key, ps, total)
    decreases |records|
  {
    hide AlternatePartition, NormalPartition;
    if records[0] != Good(key, value) {
      match records[0]
      case Corrupt => TakenWhenHeld(records[1..], g, key, value, ps, total);
      case Good(k, _) =>
        NormalBound(k, total);
        TakenWhenHeld(records[1..], Observe(g, NormalPartition(k, total), AlternatePartition(k, total)).0, key, value, ps, total);
    }
  }

  lemma NormalBound(key: Str, total: nat)
    requires total > 0
    ensures NormalPartition(key, total) < TWO_31
  {
    hide JavaHash;
    RemainderAtMost(ClearSign(JavaHash(key)), total);
  }

  lemma RemainderAtMost(x: nat, n: nat)
    requires n > 0
    ensures x % n <= x
  {
    if x < n {
      assert x % n == x;
    }
  }

  /** The scan that never stops early adds exactly the keys taken for a wanted partition. */
  lemma {:induction false} FullScanAddsTaken(records: seq<Record>, g: Guess, wanted: set<nat>, total: nat, key: Str)
    requires total > 0 && Scan(records, g, wanted, total, false).end == Finished
    ensures Mentions(Scan(records, g, wanted, total, false).added, key) <==> Taken(records, g, key, wanted, total)
    decreases |records|
  {
    hide NormalPartition, AlternatePartition;
    if records != [] {
      var r := records[0];
      var (h, p) := Observe(g, NormalPartition(r.key, total), AlternatePartition(r.key, total));
      FullScanAddsTaken(records[1..], h, wanted, total, key);
      var rest := Scan(records[1..], h, wanted, total, false).added;
      if p in wanted {
        MentionsConcat([(r.key, r.value)], rest, key);
        MentionsOne(r.key, r.value, key);
      }
    }
  }

  lemma MentionsConcat(a: seq<Pair>, b: seq<Pair>, k: Str)
    ensures Mentions(a + b, k) <==> Mentions(a, k) || Mentions(b, k)
  {
    if v :| (k, v) in a {
      assert (k, v) in a + b;
    } else if v :| (k, v) in b {
      assert (k, v) in a + b;
    }
  }

  lemma MentionsOne(key: Str, value: Str, k: Str)
    ensures Mentions([(key, value)], k) <==> k == key
  {
    assert (key, value) in [(key, value)];
  }

  lemma {:induction false} CountNormalBound(records: seq<Record>, p: nat, total: nat)
    requires total > 0
    ensures CountNormal(records, p, total) <= |records|
  {
    if records != [] {
      CountNormalBound(records[1..], p, total);
    }
  }

  /** A short file is never left early. */
  lemma ShortFileNeverExits(file: seq<Record>, wanted: set<nat>, total: nat)
    requires total > 0 && |file| < 5002
    ensures !Settles(file, total) && FileScan(file, wanted, total).end != WrongPartition
  {
    hide NormalPartition, AlternatePartition;
    EarlyExitIff(file, wanted, total);
    if Settles(file, total) {
      var p := NormalPartition(file[0].key, total);
      var n: nat :| n <= |file| && AllHave(file[..n], p, total) && CountNormal(file[..n], p, total) >= 5002;
      CountNormalBound(file[..n], p, total);
    }
  }

  /** For every stream: a scan that does not fail adds exactly the keys taken for a wanted partition,
      unless it stops early. */
  lemma FileAddsExactly(file: seq<Record>, wanted: set<nat>, total: nat, key: Str)
    requires total > 0 && FileScan(file, wanted, total).end != Failed
    ensures Mentions(FileScan(file, wanted, total).added, key)
       <==> !StopsEarly(file, wanted, total) && Taken(file, NO_GUESS, key, wanted, total)
  {
    hide NormalPartition, AlternatePartition, Scan, Taken;
    EarlyExitIff(file, wanted, total);
    if StopsEarly(file, wanted, total) {
      NothingMentioned(key);
    } else {
      FullScanAddsTaken(file, NO_GUESS, wanted, total, key);
    }
  }

  predicate Fits(r: Record, p: nat, total: nat)
    requires total > 0
  {
    r.Good? ==> Has(r, p, total)
  }

  /** Files on which the heuristic is safe whatever is wanted: those that do not settle on a partition,
      and those that only have records of the one that they settle on. */
  ghost predicate Safe(file: seq<Record>, total: nat)
    requires total > 0
  {
    Settles(file, total) ==> forall i :: 0 <= i < |file| ==> Fits(file[i], NormalPartition(file[0].key, total), total)
  }

  lemma CleanIsSafe(file: seq<Record>, total: nat)
    requires total > 0 && (Clean(file, total) || |file| < 5002)
    ensures Safe(file, total)
  {
    hide NormalPartition, AlternatePartition, Has, Settles;
    if |file| < 5002 {
      ShortFileNeverExits(file, {}, total);
    } else {
      assert forall i :: 0 <= i < |file| ==> Has(file[i], NormalPartition(file[0].key, total), total);
    }
  }

  /** Records that fit a guess are not taken for anything else. */
  lemma {:induction false} FittingTaken(records: seq<Record>, g: Guess, key: Str, ps: set<nat>, p: nat, total: nat)
    requires total > 0 && Settled(g, p) && p !in ps
    requires forall i :: 0 <= i < |records| ==> Fits(records[i], p, total)
    ensures !Taken(records, g, key, ps, total)
    decreases |records|
  {
    hide NormalPartition, AlternatePartition;
    if records != [] {
      assert Fits(records[0], p, total);
      assert forall i :: 0 <= i < |records[1..]| ==> records[1..][i] == records[i + 1];
      match records[0]
      case Corrupt => FittingTaken(records[1..], g, key, ps, p, total);
      case Good(k, _) =>
        FittingTaken(records[1..], Observe(g, NormalPartition(k, total), AlternatePartition(k, total)).0, key, ps, p, total);
    }
  }

  /** A record that does not fit the guess is taken for its normal partition. */
  lemma {:induction false} MisfitTaken(records: seq<Record>, g: Guess, p: nat, total: nat, j: nat)
    requires total > 0 && (Settled(g, p) || !g.canAssume)
    requires j < |records| && !Fits(records[j], p, total)
    ensures Taken(records, g, records[j].key, {NormalPartition(records[j].key, total)}, total)
    decreases |records|
  {
    hide NormalPartition, AlternatePartition;
    if j > 0 {
      match records[0]
      case Corrupt => MisfitTaken(records[1..], g, p, total, j - 1);
      case Good(k, _) =>
        MisfitTaken(records[1..], Observe(g, NormalPartition(k, total), AlternatePartition(k, total)).0, p, total, j - 1);
    }
  }

  /** The first record settles the guess. */
  lemma TakenFromFirst(file: seq<Record>, key: Str, ps: set<nat>, total: nat)
    requires total > 0 && file != [] && file[0].Good?
    ensures var p := NormalPartition(file[0].key, total);
            && Taken(file, NO_GUESS, key, ps, total)
               == ((file[0].key == key && p in ps) || Taken(file[1..], Guess(true, Some(p), 0), key, ps, total))
  {
    hide NormalPartition, AlternatePartition;
  }

  /** The scan of a safe file that does not fail adds exactly the keys taken for a wanted partition. */
  lemma SafeScanAddsTaken(file: seq<Record>, wanted: set<nat>, total: nat, key: Str)
    requires total > 0 && Safe(file, total) && FileScan(file, wanted, total).end != Failed
    ensures Mentions(FileScan(file, wanted, total).added, key) <==> Taken(file, NO_GUESS, key, wanted, total)
  {
    hide NormalPartition, AlternatePartition, Scan, Taken, Fits, FileScan;
    FileAddsExactly(file, wanted, total, key);
    if StopsEarly(file, wanted, total) {
      SafeTaken(file, wanted, total, key);
    }
  }

  lemma SafeTaken(file: seq<Record>, wanted: set<nat>, total: nat, key: Str)
    requires total > 0 && Safe(file, total) && StopsEarly(file, wanted, total)
    ensures !Taken(file, NO_GUESS, key, wanted, total)
  {
    hide NormalPartition, AlternatePartition, Taken, Fits;
    var p := NormalPartition(file[0].key, total);
    TakenFromFirst(file, key, wanted, total);
    assert forall i :: 0 <= i < |file[1..]| ==> file[1..][i] == file[i + 1];
    FittingTaken(file[1..], Guess(true, Some(p), 0), key, wanted, p, total);
  }

  /** A scan never loses a key taken for a wanted partition. */
  ghost predicate NeverLoses(file: seq<Record>, total: nat)
    requires total > 0
  {
    forall wanted, key :: FileScan(file, wanted, total).end != Failed && Taken(file, NO_GUESS, key, wanted, total)
                          ==> Mentions(FileScan(file, wanted, total).added, key)
  }

  /** Exactly the safe files are such that no choice of wanted partitions makes the scan lose a key. */
  lemma SafeIff(file: seq<Record>, total: nat)
    requires total > 0
    ensures Safe(file, total) <==> NeverLoses(file, total)
  {
    hide NormalPartition, AlternatePartition, Taken, Mentions, Has, FileScan;
    if Safe(file, total) {
      forall wanted, key | FileScan(file, wanted, total).end != Failed && Taken(file, NO_GUESS, key, wanted, total)
        ensures Mentions(FileScan(file, wanted, total).added, key)
      {
        SafeScanAddsTaken(file, wanted, total, key);
      }
    } else {
      var p := NormalPartition(file[0].key, total);
      var j :| 0 <= j < |file| && !Fits(file[j], p, total);
      MisfitIsLost(file, total, j);
      var wanted := {NormalPartition(file[j].key, total)};
      assert Taken(file, NO_GUESS, file[j].key, wanted, total);
      assert !Mentions(FileScan(file, wanted, total).added, file[j].key);
    }
  }

  lemma MisfitIsLost(file: seq<Record>, total: nat, j: nat)
    requires total > 0 && Settles(file, total) && j < |file| && !Fits(file[j], NormalPartition(file[0].key, total), total)
    ensures var wanted := {NormalPartition(file[j].key, total)};
            && FileScan(file, wanted, total).end != Failed && Taken(file, NO_GUESS, file[j].key, wanted, total)
            && !Mentions(FileScan(file, wanted, total).added, file[j].key)
  {
    hide NormalPartition, AlternatePartition, Taken, FileScan, FullScan;
    var p := NormalPartition(file[0].key, total);
    var wanted := {NormalPartition(file[j].key, total)};
    EarlyExitIff(file, wanted, total);
    assert j > 0;
    MisfitTaken(file[1..], Guess(true, Some(p), 0), p, total, j - 1);
    TakenFromFirst(file, file[j].key, wanted, total);
    NothingMentioned(file[j].key);
  }

  // ---------------------------------------------------------------- all files

  /** `addFiles`: the files in turn, until one fails. A file left early counts as done. */
  function ScanFiles(files: seq<seq<Record>>, wanted: set<nat>, total: nat): Scanned
    requires total > 0
  {
    if files == [] then Scanned(Finished, [])
    else
      var s := FileScan(files[0], wanted, total);
      if s.end == Failed then s
      else
        var rest := ScanFiles(files[1..], wanted, total);
        rest.(added := s.added + rest.added)
  }

  /** Scanning a list of files in two parts. */
  lemma {:induction false} ScanFilesConcat(a: seq<seq<Record>>, b: seq<seq<Record>>, wanted: set<nat>, total: nat)
    requires total > 0
    ensures var s, r := ScanFiles(a, wanted, total), ScanFiles(b, wanted, total);
            ScanFiles(a + b, wanted, total) == if s.end == Failed then s else r.(added := s.added + r.added)
  {
    hide FileScan;
    if a == [] {
      assert a + b == b;
    } else {
      assert (a + b)[1..] == a[1..] + b;
      ScanFilesConcat(a[1..], b, wanted, total);
    }
  }

  predicate InDataset(files: seq<seq<Record>>, key: Str, value: Str) {
    exists i :: 0 <= i < |files| && Good(key, value) in files[i]
  }

  lemma {:induction false} ScanFilesSound(files: seq<seq<Record>>, wanted: set<nat>, total: nat, key: Str, value: Str)
    requires total > 0 && (key, value) in ScanFiles(files, wanted, total).added
    ensures InDataset(files, key, value)
  {
    hide NormalPartition, AlternatePartition, Scan;
    var s := FileScan(files[0], wanted, total);
    if (key, value) in s.added {
      ScanSound(files[0], NO_GUESS, wanted, total, true, key, value);
    } else {
      ScanFilesSound(files[1..], wanted, total, key, value);
      var i :| 0 <= i < |files[1..]| && Good(key, value) in files[1..][i];
      assert Good(key, value) in files[i + 1];
    }
  }

  ghost predicate TakenIn(files: seq<seq<Record>>, key: Str, ps: set<nat>, total: nat)
    requires total > 0
  {
    exists i :: 0 <= i < |files| && Taken(files[i], NO_GUESS, key, ps, total)
  }

  lemma TakenInPointwise(files: seq<seq<Record>>, key: Str, ps: set<nat>, total: nat)
    requires total > 0
    ensures TakenIn(files, key, ps, total) <==> exists p :: p in ps && TakenIn(files, key, {p}, total)
  {
    hide Taken;
    if TakenIn(files, key, ps, total) {
      var i :| 0 <= i < |files| && Taken(files[i], NO_GUESS, key, ps, total);
      TakenPointwise(files[i], NO_GUESS, key, ps, total);
      var p :| p in ps && Taken(files[i], NO_GUESS, key, {p}, total);
      assert TakenIn(files, key, {p}, total);
    }
    if p :| p in ps && TakenIn(files, key, {p}, total) {
      var i :| 0 <= i < |files| && Taken(files[i], NO_GUESS, key, {p}, total);
      TakenPointwise(files[i], NO_GUESS, key, ps, total);
    }
  }

  /** Some file that is not left early takes the key for one of the partitions. */
  ghost predicate AddedFrom(files: seq<seq<Record>>, key: Str, wanted: set<nat>, total: nat)
    requires total > 0
  {
    exists i :: 0 <= i < |files| && !StopsEarly(files[i], wanted, total) && Taken(files[i], NO_GUESS, key, wanted, total)
  }

  ghost predicate AllSafe(files: seq<seq<Record>>, total: nat)
    requires total > 0
  {
    forall i :: 0 <= i < |files| ==> Safe(files[i], total)
  }

  /** For safe files what is taken is what is added. */
  lemma SafeAdded(files: seq<seq<Record>>, key: Str, wanted: set<nat>, total: nat)
    requires total > 0 && AllSafe(files, total)
    ensures AddedFrom(files, key, wanted, total) <==> TakenIn(files, key, wanted, total)
  {
    hide Taken, StopsEarly, Safe;
    forall i | 0 <= i < |files| ensures StopsEarly(files[i], wanted, total) ==> !Taken(files[i], NO_GUESS, key, wanted, total) {
      if StopsEarly(files[i], wanted, total) {
        SafeTaken(files[i], wanted, total, key);
      }
    }
  }

  /** For all files: a pass that does not fail adds exactly the keys that some file which is not left
      early takes for a wanted partition. */
  lemma {:induction false} ScanFilesAddExactly(files: seq<seq<Record>>, wanted: set<nat>, total: nat, key: Str)
    requires total > 0 && ScanFiles(files, wanted, total).end == Finished
    ensures Mentions(ScanFiles(files, wanted, total).added, key) <==> AddedFrom(files, key, wanted, total)
  {
    hide NormalPartition, AlternatePartition, Scan, FileScan, Taken, StopsEarly, Mentions;
    if files == [] {
      NothingMentioned(key);
    } else {
      var rest := ScanFiles(files[1..], wanted, total);
      FileAddsExactly(files[0], wanted, total, key);
      ScanFilesAddExactly(files[1..], wanted, total, key);
      MentionsConcat(FileScan(files[0], wanted, total).added, rest.added, key);
      AddedFromNext(files, key, wanted, total);
    }
  }

  lemma AddedFromNext(files: seq<seq<Record>>, key: Str, wanted: set<nat>, total: nat)
    requires total > 0 && files != []
    ensures AddedFrom(files, key, wanted, total)
       <==> (!StopsEarly(files[0], wanted, total) && Taken(files[0], NO_GUESS, key, wanted, total)) || AddedFrom(files[1..], key, wanted, total)
  {
    hide StopsEarly, Taken;
    var rest := files[1..];
    if i :| 0 <= i < |rest| && !StopsEarly(rest[i], wanted, total) && Taken(rest[i], NO_GUESS, key, wanted, total) {
      assert rest[i] == files[i + 1];
    }
    if i :| 0 <= i < |files| && !StopsEarly(files[i], wanted, total) && Taken(files[i], NO_GUESS, key, wanted, total) {
      if i > 0 {
        assert rest[i - 1] == files[i];
      }
    }
  }

  /** A pass that wants several partitions and does not fail would not have failed for one of them. */
  lemma {:induction false} FinishedForOne(files: seq<seq<Record>>, wanted: set<nat>, p: nat, total: nat)
    requires total > 0 && ScanFiles(files, wanted, total).end == Finished && p in wanted
    ensures ScanFiles(files, {p}, total).end == Finished
  {
    hide NormalPartition, AlternatePartition, Scan, FileScan;
    if files != [] {
      FileFinishedForOne(files[0], wanted, p, total);
      FinishedForOne(files[1..], wanted, p, total);
    }
  }

  lemma FileFinishedForOne(file: seq<Record>, wanted: set<nat>, p: nat, total: nat)
    requires total > 0 && FileScan(file, wanted, total).end != Failed && p in wanted
    ensures FileScan(file, {p}, total).end != Failed
  {
    hide NormalPartition, AlternatePartition, Scan, Settles;
    EarlyExitIff(file, wanted, total);
    EarlyExitIff(file, {p}, total);
    FullScanFailsIff(file, NO_GUESS, wanted, total);
    FullScanFailsIff(file, NO_GUESS, {p}, total);
  }

  lemma {:induction false} FullScanFailsIff(records: seq<Record>, g: Guess, wanted: set<nat>, total: nat)
    requires total > 0
    ensures Scan(records, g, wanted, total, false).end == if AllGood(records) then Finished else Failed
    decreases |records|
  {
    hide NormalPartition, AlternatePartition;
    if records != [] && records[0].Good? {
      FullScanFailsIff(records[1..], Observe(g, NormalPartition(records[0].key, total), AlternatePartition(records[0].key, total)).0, wanted, total);
      assert records == [records[0]] + records[1..];
    }
  }

  lemma NothingMentioned(key: Str)
    ensures !Mentions([], key)
  {
  }

  /** A dataset key is taken for partitions that hold it. */
  lemma DatasetKeyTaken(files: seq<seq<Record>>, key: Str, value: Str, ps: set<nat>, total: nat)
    requires total > 0 && InDataset(files, key, value) && Holds(ps, key, total)
    ensures TakenIn(files, key, ps, total)
  {
    hide Taken, Holds;
    var i :| 0 <= i < |files| && Good(key, value) in files[i];
    TakenWhenHeld(files[i], NO_GUESS, key, value, ps, total);
  }

  // ---------------------------------------------------------------- the loop itself

  /** Adding pairs one by one; block identifiers are drawn from `id` on. */
  function AddAll(w: World, pairs: seq<Pair>, id: nat): World
    requires w.store.numPartitions > 0
    decreases |pairs|
  {
    if pairs == [] then w
    else AddAll(Add(w, pairs[0].0, pairs[0].1, id), pairs[1..], id + 1)
  }

  lemma {:induction false} AddAllSnoc(w: World, pairs: seq<Pair>, id: nat, p: Pair)
    requires w.store.numPartitions > 0
    ensures AddAll(w, pairs, id).store.numPartitions == w.store.numPartitions
    ensures AddAll(w, pairs + [p], id) == Add(AddAll(w, pairs, id), p.0, p.1, id + |pairs|)
    decreases |pairs|
  {
    hide NormalPartition;
    if pairs == [] {
      assert pairs + [p] == [p];
      assert AddAll(Add(w, p.0, p.1, id), [], id + 1) == Add(w, p.0, p.1, id);
    } else {
      assert (pairs + [p])[1..] == pairs[1..] + [p];
      AddAllSnoc(Add(w, pairs[0].0, pairs[0].1, id), pairs[1..], id + 1, p);
    }
  }

  lemma {:induction false} AddAllConcat(w: World, a: seq<Pair>, b: seq<Pair>, id: nat)
    requires w.store.numPartitions > 0
    ensures AddAll(w, a, id).store.numPartitions == w.store.numPartitions
    ensures AddAll(w, a + b, id) == AddAll(AddAll(w, a, id), b, id + |a|)
    decreases |a|
  {
    hide NormalPartition;
    if a == [] {
      assert a + b == b;
    } else {
      assert (a + b)[1..] == a[1..] + b;
      AddAllConcat(Add(w, a[0].0, a[0].1, id), a[1..], b, id + 1);
    }
  }

  /** How many of the pairs belong to a partition. */
  function PairsIn(pairs: seq<Pair>, p: nat, total: nat): nat
    requires total > 0
  {
    if pairs == [] then 0 else PairsIn(pairs[1..], p, total) + if NormalPartition(pairs[0].0, total) == p then 1 else 0
  }

  function PendingCount(s: Store, p: nat): nat {
    if p in s.pending then s.pending[p].count else 0
  }

  /** The count of a block is the number of pairs added to it. */
  lemma {:induction false} CountsAreAdds(w: World, pairs: seq<Pair>, id: nat, p: nat)
    requires w.store.numPartitions > 0
    ensures PendingCount(AddAll(w, pairs, id).store, p) == PendingCount(w.store, p) + PairsIn(pairs, p, w.store.numPartitions)
    decreases |pairs|
  {
    hide NormalPartition, Less;
    if pairs != [] {
      CountsAreAdds(Add(w, pairs[0].0, pairs[0].1, id), pairs[1..], id + 1, p);
    }
  }

  /** `addFileKeys`. */
  method AddFileKeys(store: BlockStores.BlockStore, reader: seq<Record>, partitions: set<nat>, id: nat)
    returns (end: End, count: nat, ghost added: seq<Pair>)
    requires store.Valid() && store.numPartitions > 0
    modifies store`newBlocks, store.newBlocks.Values, store.dir`files
    ensures store.Valid() && fresh(store.newBlocks.Values - old(store.newBlocks.Values))
    ensures Scanned(end, added) == FileScan(reader, partitions, store.numPartitions) && count == |added|
    ensures store.View() == AddAll(old(store.View()), added, id)
  {
    hide NormalPartition, AlternatePartition, Add, AddAll, ScanResult, FileScan, BlockStores.BlockStore.Valid, BlockStores.BlockStore.Pending;
    var total := store.numPartitions;
    ScanBegins(reader, partitions, total);
    var canAssumePartition := true;
    var assumedPartition: int := -1;
    var assumedFor := 0;
    added := [];
    AddNone(store.View(), id);
    count := 0;
    for i := 0 to |reader|
      invariant store.Valid() && fresh(store.newBlocks.Values - old(store.newBlocks.Values))
      invariant assumedPartition >= -1 && assumedFor >= 0
      invariant count == |added|
      invariant store.View() == AddAll(old(store.View()), added, id)
      invariant ScanResult(reader, i, GuessOf(canAssumePartition, assumedPartition, assumedFor), partitions, total, added)
    {
      if reader[i].Corrupt? {
        ScanEnds(reader, i, GuessOf(canAssumePartition, assumedPartition, assumedFor), partitions, total, added);
        return Failed, count, added;
      }
      var key, value := reader[i].key, reader[i].value;
      ghost var g := GuessOf(canAssumePartition, assumedPartition, assumedFor);
      var partition, alternatePartition := KeyPartition(key, total);
      if canAssumePartition {
        if assumedPartition == -1 {
          assumedPartition := partition;
        } else if partition != assumedPartition {
          if alternatePartition == assumedPartition {
            partition := alternatePartition;
          } else {
            canAssumePartition := false;
          }
        } else {
          assumedFor := assumedFor + 1;
        }
      }
      ScanStep(reader, i, g, partitions, total, added);
      assert Observe(g, NormalPartition(key, total), AlternatePartition(key, total))
          == (GuessOf(canAssumePartition, assumedPartition, assumedFor), partition);
      if partition !in partitions {
        if canAssumePartition && assumedFor > EXIT_AFTER {
          return WrongPartition, count, added;
        }
        continue;
      }
      AddAllSnoc(old(store.View()), added, id, (key, value));
      store.Add(key, value, id + count);
      count := count + 1;
      added := added + [(key, value)];
    }
    ScanEnds(reader, |reader|, GuessOf(canAssumePartition, assumedPartition, assumedFor), partitions, total, added);
    return Finished, count, added;
  }

  function GuessOf(canAssume: bool, assumed: int, assumedFor: nat): Guess
    requires assumed >= -1
  {
    Guess(canAssume, if assumed == -1 then None else Some(assumed), assumedFor)
  }

  /** The scan of the whole stream is what was added so far followed by the scan of the rest. */
  ghost predicate ScanResult(reader: seq<Record>, i: nat, g: Guess, partitions: set<nat>, total: nat, added: seq<Pair>)
    requires total > 0 && i <= |reader|
  {
    var rest := Scan(reader[i..], g, partitions, total, true);
    FileScan(reader, partitions, total) == rest.(added := added + rest.added)
  }

  lemma ScanBegins(reader: seq<Record>, partitions: set<nat>, total: nat)
    requires total > 0
    ensures ScanResult(reader, 0, NO_GUESS, partitions, total, [])
  {
    assert reader[0..] == reader;
  }

  lemma AddNone(w: World, id: nat)
    requires w.store.numPartitions > 0
    ensures AddAll(w, [], id) == w
  {
  }

  lemma ScanEnds(reader: seq<Record>, i: nat, g: Guess, partitions: set<nat>, total: nat, added: seq<Pair>)
    requires total > 0 && i <= |reader| && ScanResult(reader, i, g, partitions, total, added)
    ensures i == |reader| ==> FileScan(reader, partitions, total) == Scanned(Finished, added)
    ensures i < |reader| && reader[i].Corrupt? ==> FileScan(reader, partitions, total) == Scanned(Failed, added)
  {
    assert added + [] == added;
  }

  lemma ScanStep(reader: seq<Record>, i: nat, g: Guess, partitions: set<nat>, total: nat, added: seq<Pair>)
    requires total > 0 && i < |reader| && reader[i].Good? && ScanResult(reader, i, g, partitions, total, added)
    ensures var (h, p) := Observe(g, NormalPartition(reader[i].key, total), AlternatePartition(reader[i].key, total));
            if p in partitions then ScanResult(reader, i + 1, h, partitions, total, added + [(reader[i].key, reader[i].value)])
            else if h.canAssume && h.assumedFor > EXIT_AFTER then FileScan(reader, partitions, total) == Scanned(WrongPartition, added)
            else ScanResult(reader, i + 1, h, partitions, total, added)
  {
    hide NormalPartition, AlternatePartition;
    assert reader[i..][1..] == reader[i + 1..];
    assert added + [] == added;
    var (h, p) := Observe(g, NormalPartition(reader[i].key, total), AlternatePartition(reader[i].key, total));
    var rest := Scan(reader[i + 1..], h, partitions, total, true).added;
    var r := (reader[i].key, reader[i].value);
    assert added + ([r] + rest) == added + [r] + rest;
  }
}
